/**
 * The parts of the JavaScript runtime the validator relies on: dynamically typed
 * values, `Number.isSafeInteger`, the `length` property and `String.prototype.split`
 * with the separator ','.
 */
module JsRuntime {
  import opened Wrappers

  /** A JavaScript value as far as the validator can tell values apart. */
  datatype JsValue =
    | VBool(b: bool)
    /** a number whose value is integral, of any magnitude */
    | VInt(n: int)
    /** NaN, an infinity, or a number with a fractional part */
    | VNonInt
    | VStr(s: string)
    /** an array (of card-list strings) */
    | VArr(elems: seq<string>)
    /**
     * a plain object or a function; `len` is its `length` property when that is an
     * integral number (a function's arity, an object's own `length`), None otherwise
     */
    | VObj(len: Option<int>)
    /** undefined or null */
    | VOther

  /** Number.MAX_SAFE_INTEGER, 2^53 - 1. */
  const MAX_SAFE_INTEGER: int := 9007199254740991

  /** `typeof v === 'number' && Number.isSafeInteger(v)`. */
  predicate IsSafeInteger(v: JsValue) {
    v.VInt? && -MAX_SAFE_INTEGER <= v.n <= MAX_SAFE_INTEGER
  }

  /** The negation of the validator's range guard: a number, a safe integer, and not below `lo`. */
  predicate IsSafeIntegerAtLeast(v: JsValue, lo: int) {
    IsSafeInteger(v) && v.n >= lo
  }

  /**
   * `v.length` when it is a number: the character count of a string, the element
   * count of an array, an object's or a function's own `length`; None for booleans
   * and numbers, where the property is undefined.
   */
  function Length(v: JsValue): (r: Option<int>)
    ensures v.VStr? ==> r == Some(|v.s|)
    ensures v.VArr? ==> r == Some(|v.elems|)
    ensures v.VObj? ==> r == v.len
    ensures v.VBool? || v.VInt? || v.VNonInt? || v.VOther? ==> r.None?
  {
    match v
    case VStr(s) => Some(|s|)
    case VArr(a) => Some(|a|)
    case VObj(len) => len
    case _ => None
  }

  const Comma: char := ','

  /** `s.split(',')`: the maximal comma-free pieces of `s`, always at least one. */
  function Split(s: string): (r: seq<string>)
    ensures |r| >= 1
    decreases |s|
  {
    if s == [] then [""]
    else
      var rest := Split(s[1..]);
      if s[0] == Comma then [""] + rest
      else [[s[0]] + rest[0]] + rest[1..]
  }

  /** `ts.join(',')`, the inverse of Split. */
  function Join(ts: seq<string>): (r: string)
    requires |ts| >= 1
  {
    if |ts| == 1 then ts[0] else ts[0] + [Comma] + Join(ts[1..])
  }

  /** No piece of a split contains the separator. */
  lemma {:induction false} SplitPiecesHaveNoComma(s: string)
    ensures forall t :: t in Split(s) ==> Comma !in t
    decreases |s|
  {
    if s != [] {
      SplitPiecesHaveNoComma(s[1..]);
      var rest := Split(s[1..]);
      if s[0] != Comma {
        assert Split(s) == [[s[0]] + rest[0]] + rest[1..];
        forall t | t in Split(s) ensures Comma !in t {
          if t != [s[0]] + rest[0] {
            assert t in rest;
          }
        }
      }
    }
  }

  /** Joining the pieces gives back the string. */
  lemma {:induction false} JoinSplit(s: string)
    ensures Join(Split(s)) == s
    decreases |s|
  {
    if s != [] {
      var rest := Split(s[1..]);
      JoinSplit(s[1..]);
      if s[0] == Comma {
        assert Split(s) == [""] + rest;
        assert ([""] + rest)[1..] == rest;
        assert Join(Split(s)) == "" + [Comma] + Join(rest);
        assert s == [s[0]] + s[1..];
      } else {
        var head := [s[0]] + rest[0];
        assert Split(s) == [head] + rest[1..];
        if |rest| == 1 {
          assert Join(Split(s)) == head;
          assert Join(rest) == rest[0];
        } else {
          assert ([head] + rest[1..])[1..] == rest[1..];
          assert Join(Split(s)) == head + [Comma] + Join(rest[1..]);
          assert Join(rest) == rest[0] + [Comma] + Join(rest[1..]);
        }
        assert s == [s[0]] + s[1..];
      }
    }
  }

  /** A comma-free string is its own single piece. */
  lemma {:induction false} SplitCommaFree(t: string)
    requires Comma !in t
    ensures Split(t) == [t]
    decreases |t|
  {
    if t != [] {
      assert Comma !in t[1..] by {
        forall k | 0 <= k < |t[1..]| ensures t[1..][k] != Comma { assert t[1..][k] == t[k + 1]; }
      }
      SplitCommaFree(t[1..]);
      assert t == [t[0]] + t[1..];
    }
  }

  /** Splitting `t + "," + u` for a comma-free `t` yields `t` followed by the pieces of `u`. */
  lemma {:induction false} SplitAfterPiece(t: string, u: string)
    requires Comma !in t
    ensures Split(t + [Comma] + u) == [t] + Split(u)
    decreases |t|
  {
    var s := t + [Comma] + u;
    if t == [] {
      assert s[0] == Comma && s[1..] == u;
    } else {
      assert s[0] == t[0];
      assert s[1..] == t[1..] + [Comma] + u;
      assert Comma !in t[1..] by {
        forall k | 0 <= k < |t[1..]| ensures t[1..][k] != Comma { assert t[1..][k] == t[k + 1]; }
      }
      SplitAfterPiece(t[1..], u);
      assert t == [t[0]] + t[1..];
    }
  }

  /** Splitting a join of comma-free pieces gives back the pieces. */
  lemma {:induction false} SplitJoin(ts: seq<string>)
    requires |ts| >= 1
    requires forall k :: 0 <= k < |ts| ==> Comma !in ts[k]
    ensures Split(Join(ts)) == ts
  {
    if |ts| == 1 {
      SplitCommaFree(ts[0]);
    } else {
      SplitJoin(ts[1..]);
      SplitAfterPiece(ts[0], Join(ts[1..]));
      assert ts == [ts[0]] + ts[1..];
    }
  }
}
