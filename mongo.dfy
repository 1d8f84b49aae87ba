/**
 * The storage primitives the controllers rely on: document identifiers and
 * the `$addToSet` array update, which appends an element only when it is not
 * already present.
 */
module Mongo {

  /** A document identifier. Every insert draws one that no document holds yet. */
  type ObjectId = nat

  /** No element occurs twice: the shape `$addToSet` keeps an array in. */
  predicate NoDup<T(==)>(s: seq<T>) {
    forall i, j :: 0 <= i < j < |s| ==> s[i] != s[j]
  }

  /** How many times x occurs in s. */
  function Occurrences<T(==)>(s: seq<T>, x: T): (n: nat)
    ensures n <= |s|
    ensures n == 0 <==> x !in s
  {
    if s == [] then 0
    else Occurrences(s[..|s| - 1], x) + (if s[|s| - 1] == x then 1 else 0)
  }

  /** `$addToSet`: the array with x appended, unless x is already an element. */
  function AddToSet(s: seq<ObjectId>, x: ObjectId): (r: seq<ObjectId>)
    ensures x in r
    ensures forall y :: y in r <==> y in s || y == x
    ensures |s| <= |r| <= |s| + 1 && r[..|s|] == s
  {
    if x in s then s else s + [x]
  }

  /** In a duplicate-free array, every element occurs exactly once. */
  lemma {:induction false} NoDupOccurrences<T>(s: seq<T>, x: T)
    requires NoDup(s)
    ensures Occurrences(s, x) == if x in s then 1 else 0
  {
    if s != [] {
      var init := s[..|s| - 1];
      assert NoDup(init);
      NoDupOccurrences(init, x);
      assert s == init + [s[|s| - 1]];
      if s[|s| - 1] == x {
        assert x !in init by {
          forall i | 0 <= i < |init| ensures init[i] != x {
            assert s[i] == init[i];
          }
        }
      }
    }
  }

  /** `$addToSet` keeps an array duplicate-free. */
  lemma AddToSetKeepsNoDup(s: seq<ObjectId>, x: ObjectId)
    requires NoDup(s)
    ensures NoDup(AddToSet(s, x))
  {
  }

  /**
   * Adding to a duplicate-free array, once or any number of times, leaves
   * exactly one occurrence of the element: the grant is idempotent.
   */
  lemma {:induction false} AddToSetOccursOnce(s: seq<ObjectId>, x: ObjectId)
    requires NoDup(s)
    ensures Occurrences(AddToSet(s, x), x) == 1
    ensures AddToSet(AddToSet(s, x), x) == AddToSet(s, x)
  {
    AddToSetKeepsNoDup(s, x);
    NoDupOccurrences(AddToSet(s, x), x);
  }
}
