/**
 * The in-place Fisher-Yates shuffle (`shuffle`). The random index drawn at step
 * `i` is supplied as `picks[i]`, any value in `[0, i]`; what is proved is that the
 * result is a permutation, not that it is uniform.
 */
module Shuffling {

  /** `picks` holds a legal choice for every step `i` from `n - 1` down to 1. */
  predicate ValidPicks(picks: seq<int>, n: nat) {
    |picks| == n && forall i :: 1 <= i < n ==> 0 <= picks[i] <= i
  }

  /** `s` with the elements at `i` and `j` exchanged. */
  function Swap<T>(s: seq<T>, i: nat, j: nat): (r: seq<T>)
    requires i < |s| && j < |s|
  {
    s[i := s[j]][j := s[i]]
  }

  /** Runs the steps `i`, `i - 1`, ..., 1 on `s`: step `k` swaps positions `k` and `picks[k]`. */
  function Steps<T>(s: seq<T>, picks: seq<int>, i: int): (r: seq<T>)
    requires ValidPicks(picks, |s|) && i < |s|
    decreases i
  {
    if i <= 0 then s else Steps(Swap(s, i, picks[i]), picks, i - 1)
  }

  /** The whole shuffle: every step from the last index down to 1. */
  function Shuffled<T>(s: seq<T>, picks: seq<int>): (r: seq<T>)
    requires ValidPicks(picks, |s|)
  {
    Steps(s, picks, |s| - 1)
  }

  lemma SwapIsPermutation<T>(s: seq<T>, i: nat, j: nat)
    requires i < |s| && j < |s|
    ensures |Swap(s, i, j)| == |s| && multiset(Swap(s, i, j)) == multiset(s)
  {
  }

  /** The steps only exchange elements: the result is a permutation of the input. */
  lemma {:induction false} StepsArePermutation<T>(s: seq<T>, picks: seq<int>, i: int)
    requires ValidPicks(picks, |s|) && i < |s|
    ensures |Steps(s, picks, i)| == |s|
    ensures multiset(Steps(s, picks, i)) == multiset(s)
    decreases i
  {
    if i > 0 {
      SwapIsPermutation(s, i, picks[i]);
      StepsArePermutation(Swap(s, i, picks[i]), picks, i - 1);
    }
  }

  /** Steps `i` down to 1 never touch a position above `i`. */
  lemma {:induction false} StepsKeepPositionsAbove<T>(s: seq<T>, picks: seq<int>, i: int)
    requires ValidPicks(picks, |s|) && i < |s|
    ensures |Steps(s, picks, i)| == |s|
    ensures forall k :: i < k < |s| && 0 <= k ==> Steps(s, picks, i)[k] == s[k]
    decreases i
  {
    if i > 0 {
      var t := Swap(s, i, picks[i]);
      StepsKeepPositionsAbove(t, picks, i - 1);
    }
  }

  /** The shuffled sequence is a permutation of the original, of the same length. */
  lemma ShuffledIsPermutation<T>(s: seq<T>, picks: seq<int>)
    requires ValidPicks(picks, |s|)
    ensures |Shuffled(s, picks)| == |s|
    ensures multiset(Shuffled(s, picks)) == multiset(s)
  {
    StepsArePermutation(s, picks, |s| - 1);
  }

  /**
   * Once step `i` has put an element at position `i`, it stays there: the final
   * element at `i` is the one at `picks[i]` just before step `i`.
   */
  lemma {:induction false} FinalAfterStep<T>(s: seq<T>, picks: seq<int>, i: nat)
    requires ValidPicks(picks, |s|) && 0 < i < |s|
    ensures |Steps(s, picks, i)| == |s|
    ensures Steps(s, picks, i)[i] == s[picks[i]]
  {
    var j := picks[i];
    var swapped := Swap(s, i, j);
    assert |swapped| == |s|;
    assert Steps(s, picks, i) == Steps(swapped, picks, i - 1);
    assert swapped[i] == s[j];
    StepsKeepPositionsAbove(swapped, picks, i - 1);
    assert Steps(swapped, picks, i - 1)[i] == swapped[i];
  }

  /** `shuffle`'s loop: for `i` from the last index down to 1, swap `a[i]` and `a[picks[i]]`. */
  method Shuffle<T>(a: array<T>, picks: seq<int>)
    requires ValidPicks(picks, a.Length)
    modifies a
    ensures a[..] == Shuffled(old(a[..]), picks)
    ensures multiset(a[..]) == multiset(old(a[..]))
    ensures a.Length <= 1 ==> a[..] == old(a[..])
  {
    ghost var original := a[..];
    ShuffledIsPermutation(original, picks);
    var i := a.Length - 1;
    while i > 0
      invariant -1 <= i < a.Length
      invariant a.Length == 0 ==> i == -1
      invariant Steps(a[..], picks, i) == Shuffled(original, picks)
      invariant multiset(a[..]) == multiset(original)
      invariant forall k :: i < k < a.Length && 0 <= k ==> a[k] == Shuffled(original, picks)[k]
    {
      var j := picks[i];
      ghost var before := a[..];
      a[i], a[j] := a[j], a[i];
      assert a[..] == Swap(before, i, j);
      SwapIsPermutation(before, i, j);
      StepsKeepPositionsAbove(a[..], picks, i - 1);
      i := i - 1;
    }
    assert Steps(a[..], picks, i) == a[..];
  }
}
