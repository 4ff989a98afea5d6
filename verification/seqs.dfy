/** Sequence notions shared by the table operations: repetition, first
    occurrences and order-preserving de-duplication (pandas' `keep='first'`). */
module Seqs {

  /** No element occurs twice. */
  predicate Distinct<T(==)>(s: seq<T>) {
    forall i, j :: 0 <= i < j < |s| ==> s[i] != s[j]
  }

  /** Position `i` holds an element that already occurred earlier. */
  predicate RepeatsEarlier<T(==)>(s: seq<T>, i: int)
    requires 0 <= i < |s|
  {
    s[i] in s[..i]
  }

  /** The index of the first occurrence of `x`. */
  function FirstIndex<T(==)>(s: seq<T>, x: T): (k: nat)
    requires x in s
    ensures k < |s| && s[k] == x
    ensures x !in s[..k]
    decreases |s|
  {
    var init := s[..|s| - 1];
    if x in init then
      var k := FirstIndex(init, x);
      assert s[..k] == init[..k];
      k
    else
      |s| - 1
  }

  /** The index of the last occurrence of `x`. */
  function LastIndex<T(==)>(s: seq<T>, x: T): (k: nat)
    requires x in s
    ensures k < |s| && s[k] == x
    ensures x !in s[k + 1..]
    decreases |s|
  {
    if s[|s| - 1] == x then
      |s| - 1
    else
      var init := s[..|s| - 1];
      var k := LastIndex(init, x);
      assert s[k + 1..] == init[k + 1..] + [s[|s| - 1]];
      k
  }

  /** Keeps the first occurrence of every element, in the original order. */
  function Dedup<T(==)>(s: seq<T>): (r: seq<T>)
    ensures |r| <= |s|
    ensures forall i :: 0 <= i < |r| ==> r[i] in s
    ensures forall i :: 0 <= i < |s| ==> s[i] in r
    ensures Distinct(r)
    decreases |s|
  {
    if |s| == 0 then
      []
    else
      var init, last := s[..|s| - 1], s[|s| - 1];
      assert s == init + [last];
      Dedup(init) + (if last in init then [] else [last])
  }

  /** `Dedup` keeps exactly the elements of its input. */
  lemma DedupMembers<T>(s: seq<T>, x: T)
    ensures x in Dedup(s) <==> x in s
  {
    var r := Dedup(s);
    if x in s {
      var i :| 0 <= i < |s| && s[i] == x;
      assert s[i] in r;
    }
    if x in r {
      var i :| 0 <= i < |r| && r[i] == x;
      assert r[i] in s;
    }
  }

  /** Survivors of `Dedup` appear in the order of their first occurrences. */
  lemma {:induction false} DedupKeepsFirstOrder<T>(s: seq<T>)
    ensures forall i, j :: 0 <= i < j < |Dedup(s)| ==>
      FirstIndex(s, Dedup(s)[i]) < FirstIndex(s, Dedup(s)[j])
    decreases |s|
  {
    if |s| > 0 {
      var init, last := s[..|s| - 1], s[|s| - 1];
      assert s == init + [last];
      DedupKeepsFirstOrder(init);
      var d := Dedup(init);
      forall x | x in init
        ensures FirstIndex(s, x) == FirstIndex(init, x)
      {
        FirstIndexOfPrefix(init, last, x);
      }
      if last !in init {
        assert FirstIndex(s, last) == |s| - 1;
      }
    }
  }

  lemma FirstIndexOfPrefix<T>(init: seq<T>, last: T, x: T)
    requires x in init
    ensures FirstIndex(init + [last], x) == FirstIndex(init, x)
  {
    var s := init + [last];
    assert s[..|s| - 1] == init;
  }

  /** Removing repetitions from a sequence without repetitions changes nothing. */
  lemma {:induction false} DedupOfDistinct<T>(s: seq<T>)
    requires Distinct(s)
    ensures Dedup(s) == s
    decreases |s|
  {
    if |s| > 0 {
      var init, last := s[..|s| - 1], s[|s| - 1];
      assert s == init + [last];
      assert Distinct(init);
      DedupOfDistinct(init);
    }
  }

  /** A sequence with a repetition loses at least one element. */
  lemma {:induction false} DedupShrinks<T>(s: seq<T>)
    requires !Distinct(s)
    ensures |Dedup(s)| < |s|
    decreases |s|
  {
    var init, last := s[..|s| - 1], s[|s| - 1];
    assert s == init + [last];
    if last !in init {
      assert !Distinct(init) by {
        var i, j :| 0 <= i < j < |s| && s[i] == s[j];
        assert j < |s| - 1;
        assert init[i] == init[j];
      }
      DedupShrinks(init);
    }
  }
}
