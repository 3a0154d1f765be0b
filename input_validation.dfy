/**
 * The fail-fast validator in front of the equity simulator (`validateInput`).
 *
 * A configuration is a loosely typed object; each field is either absent (the key
 * is not in the object) or present with an arbitrary JavaScript value. The checks
 * run in a fixed order and the first one that fails is the error raised. The
 * card-group parser is a collaborator of which only the card count is used: it is
 * the parameter `cardCount`.
 */
module InputValidation {
  import opened Wrappers
  import opened JsRuntime
  import opened Sequences

  /** The caller's configuration, one optional field per key. */
  datatype RawInput = RawInput(
    numPlayers: Option<JsValue>,
    hands: Option<JsValue>,
    board: Option<JsValue>,
    boardSize: Option<JsValue>,
    numDecks: Option<JsValue>,
    handSize: Option<JsValue>,
    iterations: Option<JsValue>,
    returnHandStats: Option<JsValue>,
    returnTieHandStats: Option<JsValue>)

  /**
   * One tag per check, in the order the checks run. The two board-limit errors (with
   * and without `boardSize`) share `BoardTooLarge`, the two hand-limit errors share
   * `HandTooLarge`.
   */
  datatype Check =
    | MissingPlayersOrHands
    | ReturnHandStatsType
    | ReturnTieHandStatsType
    | NumPlayersRange
    | NumPlayersBelowHands
    | BoardSizeRange
    | NumDecksRange
    | BoardType
    | BoardTooLarge
    | IterationsRange
    | HandSizeRange
    | HandsType
    | HandTooLarge
    | DuplicateCards

  /** The position of a check in the validation sequence. */
  function Rank(c: Check): nat {
    match c
    case MissingPlayersOrHands => 0
    case ReturnHandStatsType => 1
    case ReturnTieHandStatsType => 2
    case NumPlayersRange => 3
    case NumPlayersBelowHands => 4
    case BoardSizeRange => 5
    case NumDecksRange => 6
    case BoardType => 7
    case BoardTooLarge => 8
    case IterationsRange => 9
    case HandSizeRange => 10
    case HandsType => 11
    case HandTooLarge => 12
    case DuplicateCards => 13
  }

  /** Board cards allowed when `boardSize` is absent. */
  const BOARD_LIMIT_WITHOUT_SIZE: int := 5
  /** Cards per hand allowed when `handSize` is absent. */
  const HAND_LIMIT_WITHOUT_SIZE: int := 2

  predicate Present(f: Option<JsValue>) { f.Some? }

  /** A present field whose value is not a boolean. */
  predicate NotBoolean(f: Option<JsValue>) { f.Some? && !f.value.VBool? }

  /** A present field whose value is not a safe integer at least `lo`. */
  predicate OutOfRange(f: Option<JsValue>, lo: int) { f.Some? && !IsSafeIntegerAtLeast(f.value, lo) }

  function BoardLimit(input: RawInput): int {
    if input.boardSize.Some? && input.boardSize.value.VInt? then input.boardSize.value.n
    else BOARD_LIMIT_WITHOUT_SIZE
  }

  function HandLimit(input: RawInput): int {
    if input.handSize.Some? && input.handSize.value.VInt? then input.handSize.value.n
    else HAND_LIMIT_WITHOUT_SIZE
  }

  /** The comma-split tokens of all hands, hand after hand. */
  function HandTokens(hs: seq<string>): (r: seq<string>)
  {
    if hs == [] then [] else HandTokens(hs[..|hs| - 1]) + Split(hs[|hs| - 1])
  }

  /** The board's tokens: none unless the board is a non-empty (truthy) string. */
  function BoardTokens(input: RawInput): (r: seq<string>)
    ensures input.board.None? || input.board == Some(VStr("")) ==> r == []
  {
    match input.board
    case Some(VStr(b)) => if b != "" then Split(b) else []
    case _ => []
  }

  /** The tokens whose uniqueness is checked: every hand's, then the board's. */
  function AllCards(input: RawInput): seq<string> {
    (match input.hands
     case Some(VArr(hs)) => HandTokens(hs)
     case _ => [])
    + BoardTokens(input)
  }

  /** Whether check `c`, taken on its own, rejects `input`. */
  predicate Violated(c: Check, input: RawInput, cardCount: string -> nat) {
    match c
    case MissingPlayersOrHands => !Present(input.numPlayers) && !Present(input.hands)
    case ReturnHandStatsType => NotBoolean(input.returnHandStats)
    case ReturnTieHandStatsType => NotBoolean(input.returnTieHandStats)
    case NumPlayersRange => OutOfRange(input.numPlayers, 1)
    case NumPlayersBelowHands => FewerPlayersThanHands(input)
    case BoardSizeRange => OutOfRange(input.boardSize, 0)
    case NumDecksRange => OutOfRange(input.numDecks, 1)
    case BoardType => input.board.Some? && !input.board.value.VStr?
    case BoardTooLarge => BoardOverLimit(input, cardCount)
    case IterationsRange => OutOfRange(input.iterations, 1)
    case HandSizeRange => OutOfRange(input.handSize, 0)
    case HandsType => input.hands.Some? && !input.hands.value.VArr?
    case HandTooLarge => SomeHandOverLimit(input, cardCount)
    case DuplicateCards => !Distinct(AllCards(input))
  }

  /** `numPlayers < hands.length`, when both are numbers. */
  predicate FewerPlayersThanHands(input: RawInput) {
    input.numPlayers.Some? && input.numPlayers.value.VInt? && input.hands.Some?
    && Length(input.hands.value).Some? && input.numPlayers.value.n < Length(input.hands.value).value
  }

  predicate BoardOverLimit(input: RawInput, cardCount: string -> nat) {
    input.board.Some? && input.board.value.VStr? && cardCount(input.board.value.s) > BoardLimit(input)
  }

  predicate SomeHandOverLimit(input: RawInput, cardCount: string -> nat) {
    input.hands.Some? && input.hands.value.VArr?
    && exists k :: 0 <= k < |input.hands.value.elems| && cardCount(input.hands.value.elems[k]) > HandLimit(input)
  }

  /** The checks of the scalar fields and the board, in order: the first ten of the sequence. */
  function CheckFields(input: RawInput, cardCount: string -> nat): (r: Outcome<Check>) {
    if !Present(input.numPlayers) && !Present(input.hands) then Fail(MissingPlayersOrHands)
    else if NotBoolean(input.returnHandStats) then Fail(ReturnHandStatsType)
    else if NotBoolean(input.returnTieHandStats) then Fail(ReturnTieHandStatsType)
    else if OutOfRange(input.numPlayers, 1) then Fail(NumPlayersRange)
    else if FewerPlayersThanHands(input) then Fail(NumPlayersBelowHands)
    else if OutOfRange(input.boardSize, 0) then Fail(BoardSizeRange)
    else if OutOfRange(input.numDecks, 1) then Fail(NumDecksRange)
    else if input.board.Some? && !input.board.value.VStr? then Fail(BoardType)
    else if BoardOverLimit(input, cardCount) then Fail(BoardTooLarge)
    else if OutOfRange(input.iterations, 1) then Fail(IterationsRange)
    else if OutOfRange(input.handSize, 0) then Fail(HandSizeRange)
    else Pass
  }

  /** The validator's verdict: the first violated check in the fixed order, or Pass. */
  function Validate(input: RawInput, cardCount: string -> nat): (r: Outcome<Check>) {
    var fields := CheckFields(input, cardCount);
    if fields.Fail? then fields
    else if input.hands.Some? && !input.hands.value.VArr? then Fail(HandsType)
    else if SomeHandOverLimit(input, cardCount) then Fail(HandTooLarge)
    else if !Distinct(AllCards(input)) then Fail(DuplicateCards)
    else Pass
  }

  /**
   * `validateInput` as written: guarded early exits, a loop over the hands,
   * a loop collecting every hand's tokens, then a set-size comparison.
   */
  method ValidateInput(input: RawInput, cardCount: string -> nat) returns (r: Outcome<Check>)
    ensures r == Validate(input, cardCount)
  {
    r := ValidateFields(input, cardCount);
    if r.Fail? {
      return;
    }
    if input.hands.Some? {
      if !input.hands.value.VArr? {
        return Fail(HandsType);
      }
      var fits := HandsFit(input, cardCount);
      if !fits {
        return Fail(HandTooLarge);
      }
    }
    var allCards := CollectCards(input);
    var unique := Elements(allCards);
    DistinctIffCardinality(allCards);
    if |unique| != |allCards| {
      return Fail(DuplicateCards);
    }
    return Pass;
  }

  /** The guarded early exits for the scalar fields and the board. */
  method ValidateFields(input: RawInput, cardCount: string -> nat) returns (r: Outcome<Check>)
    ensures r == CheckFields(input, cardCount)
  {
    if input.numPlayers.None? && input.hands.None? {
      return Fail(MissingPlayersOrHands);
    }
    if input.returnHandStats.Some? && !input.returnHandStats.value.VBool? {
      return Fail(ReturnHandStatsType);
    }
    if input.returnTieHandStats.Some? && !input.returnTieHandStats.value.VBool? {
      return Fail(ReturnTieHandStatsType);
    }
    if input.numPlayers.Some? {
      if !IsSafeIntegerAtLeast(input.numPlayers.value, 1) {
        return Fail(NumPlayersRange);
      }
      if input.hands.Some? {
        var len := Length(input.hands.value);
        if len.Some? && input.numPlayers.value.n < len.value {
          return Fail(NumPlayersBelowHands);
        }
      }
    }
    if input.boardSize.Some? && !IsSafeIntegerAtLeast(input.boardSize.value, 0) {
      return Fail(BoardSizeRange);
    }
    if input.numDecks.Some? && !IsSafeIntegerAtLeast(input.numDecks.value, 1) {
      return Fail(NumDecksRange);
    }
    if input.board.Some? {
      if !input.board.value.VStr? {
        return Fail(BoardType);
      }
      var count := cardCount(input.board.value.s);
      if input.boardSize.Some? {
        if count > input.boardSize.value.n {
          return Fail(BoardTooLarge);
        }
      } else if count > BOARD_LIMIT_WITHOUT_SIZE {
        return Fail(BoardTooLarge);
      }
    }
    if input.iterations.Some? && !IsSafeIntegerAtLeast(input.iterations.value, 1) {
      return Fail(IterationsRange);
    }
    if input.handSize.Some? && !IsSafeIntegerAtLeast(input.handSize.value, 0) {
      return Fail(HandSizeRange);
    }
    return Pass;
  }

  /** The loop over the hands: false as soon as one hand parses to too many cards. */
  method HandsFit(input: RawInput, cardCount: string -> nat) returns (fits: bool)
    requires input.hands.Some? && input.hands.value.VArr?
    requires input.handSize.None? || input.handSize.value.VInt?
    ensures fits <==> !SomeHandOverLimit(input, cardCount)
  {
    var hs := input.hands.value.elems;
    for k := 0 to |hs|
      invariant forall m :: 0 <= m < k ==> cardCount(hs[m]) <= HandLimit(input)
    {
      var count := cardCount(hs[k]);
      if input.handSize.None? {
        if count > HAND_LIMIT_WITHOUT_SIZE {
          return false;
        }
      } else if count > input.handSize.value.n {
        return false;
      }
    }
    return true;
  }

  /** Collects every hand's comma-split tokens, then the board's when the board is truthy. */
  method CollectCards(input: RawInput) returns (allCards: seq<string>)
    requires input.hands.None? || input.hands.value.VArr?
    requires input.board.None? || input.board.value.VStr?
    ensures allCards == AllCards(input)
  {
    allCards := [];
    if input.hands.Some? {
      var hs := input.hands.value.elems;
      for k := 0 to |hs|
        invariant allCards == HandTokens(hs[..k])
      {
        assert hs[..k + 1][..k] == hs[..k];
        allCards := allCards + Split(hs[k]);
      }
      assert hs[..|hs|] == hs;
    }
    if input.board.Some? && input.board.value.s != "" {
      allCards := allCards + Split(input.board.value.s);
    }
  }

  /** The configurations the validator admits, stated rule by rule. */
  predicate Acceptable(input: RawInput, cardCount: string -> nat) {
    && (input.numPlayers.Some? || input.hands.Some?)
    && (input.returnHandStats.Some? ==> input.returnHandStats.value.VBool?)
    && (input.returnTieHandStats.Some? ==> input.returnTieHandStats.value.VBool?)
    && (input.numPlayers.Some? ==> IsSafeIntegerAtLeast(input.numPlayers.value, 1))
    && (input.boardSize.Some? ==> IsSafeIntegerAtLeast(input.boardSize.value, 0))
    && (input.numDecks.Some? ==> IsSafeIntegerAtLeast(input.numDecks.value, 1))
    && (input.iterations.Some? ==> IsSafeIntegerAtLeast(input.iterations.value, 1))
    && (input.handSize.Some? ==> IsSafeIntegerAtLeast(input.handSize.value, 0))
    && (input.board.Some? ==>
          input.board.value.VStr? && cardCount(input.board.value.s) <= BoardLimit(input))
    && (input.hands.Some? ==>
          && input.hands.value.VArr?
          && (input.numPlayers.Some? ==> input.numPlayers.value.n >= |input.hands.value.elems|)
          && forall k :: 0 <= k < |input.hands.value.elems| ==>
               cardCount(input.hands.value.elems[k]) <= HandLimit(input))
    && Distinct(AllCards(input))
  }

  /** The validator passes exactly the acceptable configurations. */
  lemma ValidateAcceptsExactly(input: RawInput, cardCount: string -> nat)
    ensures Validate(input, cardCount) == Pass <==> Acceptable(input, cardCount)
  {
  }

  /** The check a failing validation reports is violated. */
  lemma FailedCheckIsViolated(input: RawInput, cardCount: string -> nat)
    ensures Validate(input, cardCount).Fail? ==> Violated(Validate(input, cardCount).error, input, cardCount)
  {
  }

  /** A violated check makes validation fail, with that check or an earlier one. */
  lemma ViolationBoundsFailure(input: RawInput, cardCount: string -> nat, d: Check)
    requires Violated(d, input, cardCount)
    ensures Validate(input, cardCount).Fail? && Rank(Validate(input, cardCount).error) <= Rank(d)
  {
  }

  /** Validation fails with `c` exactly when check `c` is violated and no earlier check is. */
  lemma FirstFailureWins(input: RawInput, cardCount: string -> nat, c: Check)
    ensures Validate(input, cardCount) == Fail(c) <==>
              Violated(c, input, cardCount) && forall d :: Rank(d) < Rank(c) ==> !Violated(d, input, cardCount)
  {
    FailedCheckIsViolated(input, cardCount);
    if Validate(input, cardCount) == Fail(c) {
      forall d | Rank(d) < Rank(c) ensures !Violated(d, input, cardCount) {
        if Violated(d, input, cardCount) {
          ViolationBoundsFailure(input, cardCount, d);
        }
      }
    }
    if Violated(c, input, cardCount) && forall d :: Rank(d) < Rank(c) ==> !Violated(d, input, cardCount) {
      ViolationBoundsFailure(input, cardCount, c);
      var e := Validate(input, cardCount).error;
      assert Rank(e) == Rank(c);
      RankIsInjective(e, c);
    }
  }

  lemma RankIsInjective(c: Check, d: Check)
    requires Rank(c) == Rank(d)
    ensures c == d
  {
  }

  /** A configuration with neither `numPlayers` nor `hands` fails the very first check, whatever else is wrong with it. */
  lemma MissingPlayersAndHandsFailsFirst(input: RawInput, cardCount: string -> nat)
    requires input.numPlayers.None? && input.hands.None?
    ensures Validate(input, cardCount) == Fail(MissingPlayersOrHands)
  {
  }

  /** Tokens of consecutive groups of hands are consecutive. */
  lemma {:induction false} HandTokensAppend(a: seq<string>, b: seq<string>)
    ensures HandTokens(a + b) == HandTokens(a) + HandTokens(b)
    decreases |b|
  {
    if b == [] {
      assert a + b == a;
    } else {
      var b' := b[..|b| - 1];
      assert (a + b)[..|a + b| - 1] == a + b';
      assert (a + b)[|a + b| - 1] == b[|b| - 1];
      HandTokensAppend(a, b');
    }
  }

  /** The tokens of hand `i` sit between those of the hands before and after it. */
  lemma {:induction false} HandTokensAt(hs: seq<string>, i: nat)
    requires i < |hs|
    ensures HandTokens(hs) == HandTokens(hs[..i]) + Split(hs[i]) + HandTokens(hs[i + 1..])
  {
    var front, mid, back := hs[..i], [hs[i]], hs[i + 1..];
    assert hs == front + mid + back;
    HandTokensAppend(front + mid, back);
    HandTokensAppend(front, mid);
    assert mid[..|mid| - 1] == [];
    assert HandTokens(mid) == HandTokens([]) + Split(hs[i]);
  }

  lemma AllCardsWithHands(input: RawInput, hs: seq<string>)
    requires input.hands == Some(VArr(hs))
    ensures AllCards(input) == HandTokens(hs) + BoardTokens(input)
  {
  }

  /** A repetition among the hands' tokens is rejected, whatever the board. */
  lemma RepeatAmongHandsRejected(input: RawInput, cardCount: string -> nat, hs: seq<string>)
    requires input.hands == Some(VArr(hs)) && !Distinct(HandTokens(hs))
    ensures Validate(input, cardCount) != Pass
  {
    AllCardsWithHands(input, hs);
    RepeatBreaksDistinct([], HandTokens(hs), BoardTokens(input));
    assert AllCards(input) == [] + HandTokens(hs) + BoardTokens(input);
    ValidateAcceptsExactly(input, cardCount);
  }

  /** A token repeated inside one hand is rejected. */
  lemma RepeatWithinHandRejected(input: RawInput, cardCount: string -> nat, hs: seq<string>, i: nat, p: nat, q: nat)
    requires input.hands == Some(VArr(hs))
    requires i < |hs| && p < q < |Split(hs[i])| && Split(hs[i])[p] == Split(hs[i])[q]
    ensures Validate(input, cardCount) != Pass
  {
    HandTokensAt(hs, i);
    RepeatBreaksDistinct(HandTokens(hs[..i]), Split(hs[i]), HandTokens(hs[i + 1..]));
    RepeatAmongHandsRejected(input, cardCount, hs);
  }

  /** A token shared by two different hands is rejected. */
  lemma RepeatAcrossHandsRejected(input: RawInput, cardCount: string -> nat, hs: seq<string>, i: nat, j: nat, t: string)
    requires input.hands == Some(VArr(hs))
    requires i < j < |hs| && t in Split(hs[i]) && t in Split(hs[j])
    ensures Validate(input, cardCount) != Pass
  {
    HandTokensAt(hs, j);
    var front := hs[..j];
    HandTokensAt(front, i);
    assert front[i] == hs[i];
    assert t in HandTokens(front);
    SharedBreaksDistinct(HandTokens(front), Split(hs[j]), t);
    RepeatBreaksDistinct([], HandTokens(front) + Split(hs[j]), HandTokens(hs[j + 1..]));
    assert HandTokens(hs) == [] + (HandTokens(front) + Split(hs[j])) + HandTokens(hs[j + 1..]);
    RepeatAmongHandsRejected(input, cardCount, hs);
  }

  /** A token that occurs both in a hand and on a non-empty board is rejected. */
  lemma RepeatInHandAndBoardRejected(input: RawInput, cardCount: string -> nat, hs: seq<string>, i: nat, b: string, t: string)
    requires input.hands == Some(VArr(hs)) && input.board == Some(VStr(b)) && b != ""
    requires i < |hs| && t in Split(hs[i]) && t in Split(b)
    ensures Validate(input, cardCount) != Pass
  {
    AllCardsWithHands(input, hs);
    HandTokensAt(hs, i);
    assert t in HandTokens(hs);
    SharedBreaksDistinct(HandTokens(hs), Split(b), t);
    ValidateAcceptsExactly(input, cardCount);
  }

  /**
   * The range boundaries: zero is a valid `boardSize` or `handSize` but not a valid
   * `numDecks` or `iterations`; negatives and non-integers are rejected; `numPlayers`
   * may equal the number of hands but not be smaller.
   */
  lemma NumericBoundaries(input: RawInput, cardCount: string -> nat)
    ensures input.boardSize == Some(VInt(0)) ==> !Violated(BoardSizeRange, input, cardCount)
    ensures input.handSize == Some(VInt(0)) ==> !Violated(HandSizeRange, input, cardCount)
    ensures input.numDecks == Some(VInt(0)) || input.iterations == Some(VInt(0)) ==> Validate(input, cardCount) != Pass
    ensures input.boardSize == Some(VNonInt) || input.handSize == Some(VNonInt) ==> Validate(input, cardCount) != Pass
    ensures (input.boardSize.Some? && input.boardSize.value.VInt? && input.boardSize.value.n < 0) ==> Validate(input, cardCount) != Pass
    ensures (input.handSize.Some? && input.handSize.value.VInt? && input.handSize.value.n < 0) ==> Validate(input, cardCount) != Pass
    ensures (input.hands.Some? && input.hands.value.VArr? && 1 <= |input.hands.value.elems| <= MAX_SAFE_INTEGER
             && input.numPlayers == Some(VInt(|input.hands.value.elems|)))
            ==> !Violated(NumPlayersRange, input, cardCount) && !Violated(NumPlayersBelowHands, input, cardCount)
    ensures (input.hands.Some? && input.hands.value.VArr? && input.numPlayers.Some? && input.numPlayers.value.VInt?
             && input.numPlayers.value.n < |input.hands.value.elems|)
            ==> Validate(input, cardCount) != Pass
  {
  }
}
