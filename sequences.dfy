/** Facts about sequences shared by the validator and the deduplication helper. */
module Sequences {

  /** No element occurs twice. */
  predicate Distinct<T(==)>(s: seq<T>) {
    forall i, j :: 0 <= i < j < |s| ==> s[i] != s[j]
  }

  /** The set of elements of a sequence, as `new Set(s)` builds it. */
  function Elements<T>(s: seq<T>): set<T> {
    set x | x in s
  }

  /** `new Set(s).size === s.length` is exactly "s has no repeated element". */
  lemma {:induction false} DistinctIffCardinality<T>(s: seq<T>)
    ensures |Elements(s)| <= |s|
    ensures |Elements(s)| == |s| <==> Distinct(s)
  {
    if s != [] {
      var init, last := s[..|s| - 1], s[|s| - 1];
      assert s == init + [last];
      DistinctIffCardinality(init);
      assert Elements(s) == Elements(init) + {last};
      if last in init {
        var k :| 0 <= k < |init| && init[k] == last;
        assert s[k] == s[|s| - 1];
        assert Elements(s) == Elements(init);
      } else {
        assert |Elements(s)| == |Elements(init)| + 1;
        if Distinct(init) {
          forall i, j | 0 <= i < j < |s| ensures s[i] != s[j] {
            if j == |s| - 1 {
              assert s[i] == init[i];
            } else {
              assert s[i] == init[i] && s[j] == init[j];
            }
          }
        } else {
          var i, j :| 0 <= i < j < |init| && init[i] == init[j];
          assert s[i] == s[j];
        }
      }
    }
  }

  /** A repetition-free concatenation has repetition-free, disjoint parts. */
  lemma DistinctConcat<T>(x: seq<T>, y: seq<T>)
    requires Distinct(x + y)
    ensures Distinct(x) && Distinct(y)
    ensures forall t :: t in x ==> t !in y
  {
    forall i, j | 0 <= i < j < |x| ensures x[i] != x[j] {
      assert (x + y)[i] == x[i] && (x + y)[j] == x[j];
    }
    forall i, j | 0 <= i < j < |y| ensures y[i] != y[j] {
      assert (x + y)[|x| + i] == y[i] && (x + y)[|x| + j] == y[j];
    }
    forall i, j | 0 <= i < |x| && 0 <= j < |y| ensures x[i] != y[j] {
      assert (x + y)[i] == x[i] && (x + y)[|x| + j] == y[j];
    }
  }

  /** An element shared by two sequences is repeated in their concatenation. */
  lemma SharedBreaksDistinct<T>(x: seq<T>, y: seq<T>, t: T)
    requires t in x && t in y
    ensures !Distinct(x + y)
  {
    var p :| 0 <= p < |x| && x[p] == t;
    var q :| 0 <= q < |y| && y[q] == t;
    assert (x + y)[p] == (x + y)[|x| + q];
  }

  /** A repetition inside a part is a repetition of the whole. */
  lemma RepeatBreaksDistinct<T>(x: seq<T>, y: seq<T>, z: seq<T>)
    requires !Distinct(y)
    ensures !Distinct(x + y + z)
  {
    var p, q :| 0 <= p < q < |y| && y[p] == y[q];
    assert (x + y + z)[|x| + p] == (x + y + z)[|x| + q];
  }
}
