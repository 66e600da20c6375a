/**
 * The JavaScript values a reactive cell can hold. Numbers are integers (no
 * NaN, no -0); arrays, maps and other containers are plain keyed objects,
 * which is how the runtime's deep equality sees them anyway. An object
 * carries a reference id so that `===` can compare objects by identity.
 */
module Values {
  import opened Collections

  datatype Value =
    | Null
    | Num(n: int)
    | Str(s: string)
    | Bool(b: bool)
    | Obj(ref: nat, props: seq<Prop>)   // own enumerable properties, in `Object.keys` order

  datatype Prop = Prop(key: string, val: Value)

  /** `a === b`: objects by reference, everything else by value. */
  predicate StrictEq(a: Value, b: Value) {
    if a.Obj? && b.Obj? then a.ref == b.ref else a == b
  }

  /** `!v`: the falsy values among those modelled. */
  predicate Falsy(v: Value) {
    v == Null || v == Num(0) || v == Str("") || v == Bool(false)
  }

  /** `typeof v === "object"`, which holds of `null` too. */
  predicate TypeofObject(v: Value) {
    v.Null? || v.Obj?
  }

  /** `===` is an equivalence; on anything but two objects it is equality of values. */
  lemma StrictEqIsEquivalence(a: Value, b: Value, c: Value)
    ensures StrictEq(a, a)
    ensures StrictEq(a, b) ==> StrictEq(b, a)
    ensures StrictEq(a, b) && StrictEq(b, c) ==> StrictEq(a, c)
    ensures !(a.Obj? && b.Obj?) ==> (StrictEq(a, b) <==> a == b)
  {
  }

  /** `!v || typeof v !== "object"` fails exactly for objects: `null` is falsy, every object is truthy. */
  lemma TruthyObjectIsObj(v: Value)
    ensures !(Falsy(v) || !TypeofObject(v)) <==> v.Obj?
  {
  }

  /** `Object.keys(o)`. */
  function Keys(ps: seq<Prop>): (ks: seq<string>)
    ensures |ks| == |ps| && forall i :: 0 <= i < |ps| ==> ks[i] == ps[i].key
  {
    seq(|ps|, i requires 0 <= i < |ps| => ps[i].key)
  }

  /** The position of `k` in a key list: `o[k]` is the property found there. */
  function IndexOf(ks: seq<string>, k: string): (i: nat)
    requires k in ks
    ensures i < |ks| && ks[i] == k
    ensures forall j :: 0 <= j < i ==> ks[j] != k
  {
    if ks[0] == k then 0 else 1 + IndexOf(ks[1..], k)
  }

  /** A value JavaScript can build: no object has the same own key twice. */
  ghost predicate WellFormed(v: Value)
    decreases v
  {
    v.Obj? ==>
      NoDup(Keys(v.props)) &&
      forall i :: 0 <= i < |v.props| ==> WellFormed(v.props[i].val)
  }

  /** In a well-formed key list a key occurs at exactly one position. */
  lemma IndexOfUnique(ks: seq<string>, j: nat)
    requires NoDup(ks) && j < |ks|
    ensures IndexOf(ks, ks[j]) == j
  {
  }
}
