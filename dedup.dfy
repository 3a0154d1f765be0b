/**
 * Order-preserving deduplication by a caller-supplied comparator (`uniqWith`).
 * A candidate `a` is kept iff no already-kept `u` has `comparator(a, u)`; the
 * comparator need not be reflexive, symmetric or transitive.
 */
module Dedup {
  import opened Sequences

  /** Some already-kept element absorbs the candidate `a`. */
  predicate Absorbed<T>(a: T, kept: seq<T>, comparator: (T, T) -> bool) {
    exists k :: 0 <= k < |kept| && comparator(a, kept[k])
  }

  /** What `uniqWith` returns, defined one input element at a time from the left. */
  function Uniq<T>(s: seq<T>, comparator: (T, T) -> bool): (r: seq<T>) {
    if s == [] then []
    else
      var kept := Uniq(s[..|s| - 1], comparator);
      if Absorbed(s[|s| - 1], kept, comparator) then kept else kept + [s[|s| - 1]]
  }

  /** `u` is `s` with some elements left out, the rest in their order. */
  predicate IsSubsequence<T(==)>(u: seq<T>, s: seq<T>)
    decreases |s|
  {
    if s == [] then u == []
    else
      || (u != [] && u[|u| - 1] == s[|s| - 1] && IsSubsequence(u[..|u| - 1], s[..|s| - 1]))
      || IsSubsequence(u, s[..|s| - 1])
  }

  /** `Array.prototype.findIndex`: the first index whose element satisfies `p`, or -1. */
  method FindIndex<T>(s: seq<T>, p: T -> bool) returns (k: int)
    ensures -1 <= k < |s|
    ensures k == -1 <==> forall i :: 0 <= i < |s| ==> !p(s[i])
    ensures k != -1 ==> p(s[k]) && forall i :: 0 <= i < k ==> !p(s[i])
  {
    for i := 0 to |s|
      invariant forall m :: 0 <= m < i ==> !p(s[m])
    {
      if p(s[i]) {
        return i;
      }
    }
    return -1;
  }

  /** `uniqWith`'s loop: push each element that no kept element absorbs. */
  method UniqWith<T>(arr: seq<T>, comparator: (T, T) -> bool) returns (uniques: seq<T>)
    ensures uniques == Uniq(arr, comparator)
  {
    uniques := [];
    for i := 0 to |arr|
      invariant uniques == Uniq(arr[..i], comparator)
    {
      var a := arr[i];
      assert arr[..i + 1][..i] == arr[..i];
      var k := FindIndex(uniques, u => comparator(a, u));
      if k == -1 {
        uniques := uniques + [a];
      }
    }
    assert arr[..|arr|] == arr;
  }

  /** The result grows as the input grows: the result for a prefix is a prefix of the result. */
  lemma {:induction false} UniqOfPrefix<T>(s: seq<T>, comparator: (T, T) -> bool, n: nat)
    requires n <= |s|
    ensures Uniq(s[..n], comparator) <= Uniq(s, comparator)
    decreases |s|
  {
    if n < |s| {
      var init := s[..|s| - 1];
      assert init[..n] == s[..n];
      UniqOfPrefix(init, comparator, n);
    } else {
      assert s[..n] == s;
    }
  }

  /** The output is a subsequence of the input. */
  lemma {:induction false} UniqIsSubsequence<T>(s: seq<T>, comparator: (T, T) -> bool)
    ensures IsSubsequence(Uniq(s, comparator), s)
  {
    if s != [] {
      var init := s[..|s| - 1];
      UniqIsSubsequence(init, comparator);
      var kept := Uniq(init, comparator);
      if !Absorbed(s[|s| - 1], kept, comparator) {
        assert (kept + [s[|s| - 1]])[..|kept|] == kept;
      }
    }
  }

  /** A subsequence is no longer than the sequence. */
  lemma {:induction false} SubsequenceIsShorter<T>(u: seq<T>, s: seq<T>)
    requires IsSubsequence(u, s)
    ensures |u| <= |s|
    decreases |s|
  {
    if s != [] {
      var s' := s[..|s| - 1];
      if u != [] && u[|u| - 1] == s[|s| - 1] && IsSubsequence(u[..|u| - 1], s') {
        SubsequenceIsShorter(u[..|u| - 1], s');
      } else {
        SubsequenceIsShorter(u, s');
      }
    }
  }

  /** Every element of a subsequence occurs in the sequence. */
  lemma {:induction false} SubsequenceElements<T>(u: seq<T>, s: seq<T>)
    requires IsSubsequence(u, s)
    ensures Elements(u) <= Elements(s)
    decreases |s|
  {
    if s != [] {
      var s' := s[..|s| - 1];
      assert Elements(s') <= Elements(s);
      if u != [] && u[|u| - 1] == s[|s| - 1] && IsSubsequence(u[..|u| - 1], s') {
        SubsequenceElements(u[..|u| - 1], s');
        assert u == u[..|u| - 1] + [u[|u| - 1]];
        assert Elements(u) == Elements(u[..|u| - 1]) + {u[|u| - 1]};
      } else {
        SubsequenceElements(u, s');
      }
    }
  }

  /**
   * Each input element `s[i]` is either kept, right after everything kept before it,
   * or absorbed by an element kept before it.
   */
  lemma EveryElementKeptOrAbsorbed<T>(s: seq<T>, comparator: (T, T) -> bool, i: nat)
    requires i < |s|
    ensures var before, r := Uniq(s[..i], comparator), Uniq(s, comparator);
      && before <= r
      && (Absorbed(s[i], before, comparator) || (|before| < |r| && r[|before|] == s[i]))
  {
    UniqOfPrefix(s, comparator, i);
    UniqOfPrefix(s, comparator, i + 1);
    assert s[..i + 1][..i] == s[..i];
    assert s[..i + 1][i] == s[i];
  }

  /** No element of `r` is absorbed by an element before it. */
  predicate NoneAbsorbedEarlier<T>(r: seq<T>, comparator: (T, T) -> bool) {
    forall i, j :: 0 <= i < j < |r| ==> !comparator(r[j], r[i])
  }

  /** No kept element is absorbed by an element kept before it. */
  lemma {:induction false} KeptNeverAbsorbed<T>(s: seq<T>, comparator: (T, T) -> bool)
    ensures NoneAbsorbedEarlier(Uniq(s, comparator), comparator)
  {
    if s != [] {
      var kept := Uniq(s[..|s| - 1], comparator);
      KeptNeverAbsorbed(s[..|s| - 1], comparator);
      var a := s[|s| - 1];
      if !Absorbed(a, kept, comparator) {
        var r := kept + [a];
        assert Uniq(s, comparator) == r;
        forall i, j | 0 <= i < j < |r| ensures !comparator(r[j], r[i]) {
          if j == |kept| {
            assert r[j] == a && r[i] == kept[i];
            assert !comparator(a, kept[i]);
          } else {
            assert r[j] == kept[j] && r[i] == kept[i];
          }
        }
      } else {
        assert Uniq(s, comparator) == kept;
      }
    }
  }

  /** With `===` as the comparator the result is repetition-free and keeps every distinct element. */
  lemma UniqByEquality<T>(s: seq<T>)
    ensures var r := Uniq(s, (x: T, y: T) => x == y);
      Distinct(r) && Elements(r) == Elements(s)
  {
    var eq := (x: T, y: T) => x == y;
    var r := Uniq(s, eq);
    KeptNeverAbsorbed(s, eq);
    UniqIsSubsequence(s, eq);
    SubsequenceElements(r, s);
    forall x | x in s ensures x in r {
      var i :| 0 <= i < |s| && s[i] == x;
      EveryElementKeptOrAbsorbed(s, eq, i);
      var before := Uniq(s[..i], eq);
      if Absorbed(x, before, eq) {
        var k :| 0 <= k < |before| && eq(x, before[k]);
        assert r[k] == x;
      }
    }
  }
}
