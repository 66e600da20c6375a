/**
 * The runtime's deep equality `isEqual` (src/superstate/supState.ts), the
 * no-op test for cells whose initial value was an object, and what it means:
 * on values JavaScript can build it is "same reference, or objects with the
 * same set of own keys whose values are pairwise deeply equal", whatever the
 * key order.
 */
module Equality {
  import opened Collections
  import opened Values

  /**
   * `isEqual(a, b)`: identical operands are equal; otherwise a falsy or
   * non-object operand makes them unequal; objects need as many own keys on
   * each side and every key of `a` among `b`'s keys with a recursively equal
   * value.
   */
  predicate IsEqual(a: Value, b: Value)
    decreases a
  {
    if StrictEq(a, b) then true
    else if Falsy(a) || Falsy(b) || !TypeofObject(a) || !TypeofObject(b) then false
    else
      var keysA, keysB := Keys(a.props), Keys(b.props);
      if |keysA| != |keysB| then false
      else forall i :: 0 <= i < |keysA| ==>
        keysA[i] in keysB && IsEqual(a.props[i].val, b.props[IndexOf(keysB, keysA[i])].val)
  }

  /**
   * Deep equality stated the other way round, independently of key order:
   * the same reference, or two objects with equal own-key sets whose values
   * under each common key are deeply equal.
   */
  ghost predicate Equivalent(a: Value, b: Value)
    decreases a
  {
    StrictEq(a, b) ||
    (a.Obj? && b.Obj? && Elems(Keys(a.props)) == Elems(Keys(b.props)) &&
     forall i, j :: 0 <= i < |a.props| && 0 <= j < |b.props| && a.props[i].key == b.props[j].key ==>
       Equivalent(a.props[i].val, b.props[j].val))
  }

  /** `b` is a fresh copy of `a`: same keys in the same order, any references. */
  ghost predicate IsCopy(a: Value, b: Value)
    decreases a
  {
    if a.Obj? then
      b.Obj? && |a.props| == |b.props| &&
      forall i :: 0 <= i < |a.props| ==>
        a.props[i].key == b.props[i].key && IsCopy(a.props[i].val, b.props[i].val)
    else a == b
  }

  /** A primitive on either side: `isEqual` is exactly `===`. */
  lemma PrimitivesCompareStrictly(a: Value, b: Value)
    requires !a.Obj? || !b.Obj?
    ensures IsEqual(a, b) <==> StrictEq(a, b)
  {
  }

  /** Objects with different numbers of own keys are unequal unless they are the same object. */
  lemma KeyCountMismatchIsUnequal(a: Value, b: Value)
    requires a.Obj? && b.Obj? && a.ref != b.ref && |a.props| != |b.props|
    ensures !IsEqual(a, b)
  {
  }

  /** On well-formed values `isEqual` is the order-independent deep equality. */
  lemma {:induction false} IsEqualIsDeepEquality(a: Value, b: Value)
    requires WellFormed(a) && WellFormed(b)
    ensures IsEqual(a, b) <==> Equivalent(a, b)
    decreases a
  {
    if !StrictEq(a, b) && a.Obj? && b.Obj? {
      var ka, kb := Keys(a.props), Keys(b.props);
      forall i, j | 0 <= i < |a.props| && 0 <= j < |b.props|
        ensures IsEqual(a.props[i].val, b.props[j].val) <==> Equivalent(a.props[i].val, b.props[j].val)
      {
        IsEqualIsDeepEquality(a.props[i].val, b.props[j].val);
      }
      if IsEqual(a, b) {
        SameLengthSubsetIsEqualSet(ka, kb);
        forall i, j | 0 <= i < |a.props| && 0 <= j < |b.props| && a.props[i].key == b.props[j].key
          ensures Equivalent(a.props[i].val, b.props[j].val)
        {
          IndexOfUnique(kb, j);
          assert IndexOf(kb, ka[i]) == j;
        }
      }
      if Equivalent(a, b) {
        NoDupCardinality(ka);
        NoDupCardinality(kb);
        forall i | 0 <= i < |ka|
          ensures ka[i] in kb && IsEqual(a.props[i].val, b.props[IndexOf(kb, ka[i])].val)
        {
          assert ka[i] in Elems(ka);
        }
      }
    }
  }

  /** The reference definition is symmetric. */
  lemma {:induction false} EquivalentSymmetric(a: Value, b: Value)
    requires Equivalent(a, b)
    ensures Equivalent(b, a)
    decreases a
  {
    if !StrictEq(a, b) {
      forall j, i | 0 <= j < |b.props| && 0 <= i < |a.props| && b.props[j].key == a.props[i].key
        ensures Equivalent(b.props[j].val, a.props[i].val)
      {
        EquivalentSymmetric(a.props[i].val, b.props[j].val);
      }
    }
  }

  /** `isEqual` does not depend on the order of its operands. */
  lemma IsEqualSymmetric(a: Value, b: Value)
    requires WellFormed(a) && WellFormed(b)
    ensures IsEqual(a, b) <==> IsEqual(b, a)
  {
    IsEqualIsDeepEquality(a, b);
    IsEqualIsDeepEquality(b, a);
    if Equivalent(a, b) { EquivalentSymmetric(a, b); }
    if Equivalent(b, a) { EquivalentSymmetric(b, a); }
  }

  /** A copy of a well-formed value is well formed and deeply equal to it. */
  lemma {:induction false} CopyIsEquivalent(a: Value, b: Value)
    requires WellFormed(a) && IsCopy(a, b)
    ensures WellFormed(b) && Equivalent(a, b)
    decreases a
  {
    if a.Obj? {
      forall i | 0 <= i < |a.props|
        ensures WellFormed(b.props[i].val) && Equivalent(a.props[i].val, b.props[i].val)
      {
        CopyIsEquivalent(a.props[i].val, b.props[i].val);
      }
      assert Keys(a.props) == Keys(b.props);
      forall i, j | 0 <= i < |a.props| && 0 <= j < |b.props| && a.props[i].key == b.props[j].key
        ensures Equivalent(a.props[i].val, b.props[j].val)
      {
        assert Keys(a.props)[i] == Keys(a.props)[j];
      }
    }
  }

  /** A structurally identical fresh object is `isEqual` to the original. */
  lemma CopyIsEqual(a: Value, b: Value)
    requires WellFormed(a) && IsCopy(a, b)
    ensures IsEqual(a, b)
  {
    CopyIsEquivalent(a, b);
    IsEqualIsDeepEquality(a, b);
  }
}
