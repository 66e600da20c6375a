/**
 * JavaScript `Set`s iterate in insertion order, so the model keeps every set
 * the runtime mutates as a duplicate-free sequence. `Add` and `Delete` are
 * `Set.prototype.add` and `Set.prototype.delete` on that representation.
 */
module Collections {

  /** No element occurs twice. */
  predicate NoDup<T(==)>(s: seq<T>) {
    forall i, j :: 0 <= i < j < |s| ==> s[i] != s[j]
  }

  /** The elements of `s`, as a set. */
  ghost function Elems<T>(s: seq<T>): set<T> {
    set x | x in s
  }

  /** `set.add(x)`: a new element is appended, a present one changes nothing. */
  function Add<T(==)>(s: seq<T>, x: T): (r: seq<T>)
    ensures x in r && (forall i :: 0 <= i < |s| ==> s[i] in r)
    ensures forall i :: 0 <= i < |r| ==> r[i] in s || r[i] == x
    ensures |s| <= |r| <= |s| + 1 && r[..|s|] == s
    ensures x in s ==> r == s
    ensures NoDup(s) ==> NoDup(r)
  {
    if x in s then s else s + [x]
  }

  /** `set.delete(x)`: `x` goes, every other element stays, in its order. */
  function Delete<T(==)>(s: seq<T>, x: T): (r: seq<T>)
    ensures x !in r && (forall i :: 0 <= i < |s| && s[i] != x ==> s[i] in r)
    ensures forall i :: 0 <= i < |r| ==> r[i] in s
    ensures x !in s ==> r == s
    ensures NoDup(s) ==> NoDup(r)
    ensures NoDup(s) && x in s ==> |r| == |s| - 1
    decreases |s|
  {
    if s == [] then []
    else if s[0] == x then Delete(s[1..], x)
    else [s[0]] + Delete(s[1..], x)
  }

  /** In a duplicate-free set, deleting the element at `i` closes the gap and keeps the order of the rest. */
  lemma DeleteKeepsOrder<T>(s: seq<T>, x: T, i: nat)
    requires NoDup(s) && i < |s| && s[i] == x
    ensures Delete(s, x) == s[..i] + s[i + 1..]
  {
    DeleteAt(s, x, i);
  }

  /** Deleting an element that occurs only at `i` removes just that position. */
  lemma {:induction false} DeleteAt<T>(s: seq<T>, x: T, i: nat)
    requires i < |s| && s[i] == x
    requires forall j :: 0 <= j < |s| && j != i ==> s[j] != x
    ensures Delete(s, x) == s[..i] + s[i + 1..]
    decreases i
  {
    if i == 0 {
      DeleteHead(s, x);
    } else {
      var t := s[1..];
      forall j | 0 <= j < |t| && j != i - 1
        ensures t[j] != x
      {
        assert t[j] == s[j + 1];
      }
      DeleteAt(t, x, i - 1);
      DeleteCons(s, x, t[..i - 1] + t[i..]);
      SpliceCons(s, i);
    }
  }

  /** Removing position `i > 0` commutes with taking the first element off. */
  lemma SpliceCons<T>(s: seq<T>, i: nat)
    requires 0 < i < |s|
    ensures [s[0]] + (s[1..][..i - 1] + s[1..][i..]) == s[..i] + s[i + 1..]
  {
    assert [s[0]] + s[1..][..i - 1] == s[..i];
  }

  /** Deleting the first element when it occurs nowhere else leaves the tail. */
  lemma DeleteHead<T>(s: seq<T>, x: T)
    requires |s| > 0 && s[0] == x
    requires forall j :: 0 < j < |s| ==> s[j] != x
    ensures Delete(s, x) == s[1..]
  {
    assert x !in s[1..];
  }

  /** Deleting is done element by element: a first element that stays is kept in front. */
  lemma DeleteCons<T>(s: seq<T>, x: T, rest: seq<T>)
    requires |s| > 0 && s[0] != x && Delete(s[1..], x) == rest
    ensures Delete(s, x) == [s[0]] + rest
  {
  }

  /** Deleting what was just added gives back the set as it was, order included. */
  lemma {:induction false} DeleteUndoesAdd<T>(s: seq<T>, x: T)
    requires x !in s
    ensures Delete(Add(s, x), x) == s
  {
    if s == [] {
    } else {
      assert (s + [x])[1..] == s[1..] + [x];
      DeleteUndoesAdd(s[1..], x);
    }
  }

  /** Adding twice is adding once. */
  lemma AddIdempotent<T>(s: seq<T>, x: T)
    ensures Add(Add(s, x), x) == Add(s, x)
  {
  }

  /** A duplicate-free sequence has as many distinct elements as positions. */
  lemma {:induction false} NoDupCardinality<T>(s: seq<T>)
    requires NoDup(s)
    ensures |Elems(s)| == |s|
  {
    if s != [] {
      NoDupCardinality(s[1..]);
      assert Elems(s) == {s[0]} + Elems(s[1..]);
      assert s[0] !in Elems(s[1..]);
    }
  }

  /**
   * Two duplicate-free sequences of the same length, one of whose elements
   * all occur in the other, hold the same elements.
   */
  lemma SameLengthSubsetIsEqualSet<T>(s: seq<T>, t: seq<T>)
    requires NoDup(s) && NoDup(t) && |s| == |t|
    requires forall x :: x in s ==> x in t
    ensures Elems(s) == Elems(t)
  {
    NoDupCardinality(s);
    NoDupCardinality(t);
    var a, b := Elems(s), Elems(t);
    if a != b {
      var y :| y in b && y !in a;
      SubsetCardinality(a, b - {y});
    }
  }

  /** A subset has no more elements than its superset. */
  lemma {:induction false} SubsetCardinality<T>(a: set<T>, b: set<T>)
    requires a <= b
    ensures |a| <= |b|
    decreases b
  {
    if a != {} {
      var x :| x in a;
      SubsetCardinality(a - {x}, b - {x});
    }
  }
}
