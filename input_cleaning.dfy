/**
 * The normaliser (`cleanInput`): turns a configuration into the fully populated
 * record the simulator consumes, filling every absent field with its default and
 * deriving `numPlayers` from the hands when it is not given.
 */
module InputCleaning {
  import opened Wrappers
  import opened JsRuntime
  import opened Sequences
  import opened Constants
  import opened InputValidation

  /** The resolved configuration: every field present. */
  datatype InternalInput = InternalInput(
    board: string,
    boardSize: int,
    handSize: int,
    hands: seq<string>,
    iterations: int,
    numDecks: int,
    numPlayers: int,
    returnHandStats: bool,
    returnTieHandStats: bool)

  predicate IntOrAbsent(f: Option<JsValue>) { f.None? || f.value.VInt? }
  predicate BoolOrAbsent(f: Option<JsValue>) { f.None? || f.value.VBool? }

  /**
   * The shape the normaliser reads: one of `numPlayers` and `hands` is given, and
   * every given field has its declared type (numbers integral).
   */
  predicate Shaped(input: RawInput) {
    && (input.numPlayers.Some? || input.hands.Some?)
    && IntOrAbsent(input.numPlayers)
    && (input.hands.None? || input.hands.value.VArr?)
    && (input.board.None? || input.board.value.VStr?)
    && IntOrAbsent(input.boardSize)
    && IntOrAbsent(input.handSize)
    && IntOrAbsent(input.iterations)
    && IntOrAbsent(input.numDecks)
    && BoolOrAbsent(input.returnHandStats)
    && BoolOrAbsent(input.returnTieHandStats)
  }

  function IntOr(f: Option<JsValue>, default: int): int
    requires IntOrAbsent(f)
  {
    if f.Some? then f.value.n else default
  }

  function BoolOr(f: Option<JsValue>, default: bool): bool
    requires BoolOrAbsent(f)
  {
    if f.Some? then f.value.b else default
  }

  /**
   * `r` is `input` with every given field copied and every absent one defaulted;
   * `numPlayers` falls back on the number of hands.
   */
  predicate FilledFrom(input: RawInput, r: InternalInput)
    requires Shaped(input)
  {
    && (if input.board.Some? then r.board == input.board.value.s else r.board == DEFAULT_BOARD)
    && (if input.boardSize.Some? then r.boardSize == input.boardSize.value.n else r.boardSize == DEFAULT_BOARD_SIZE)
    && (if input.handSize.Some? then r.handSize == input.handSize.value.n else r.handSize == DEFAULT_HAND_SIZE)
    && (if input.hands.Some? then r.hands == input.hands.value.elems else r.hands == [])
    && (if input.iterations.Some? then r.iterations == input.iterations.value.n else r.iterations == DEFAULT_ITERATIONS)
    && (if input.numDecks.Some? then r.numDecks == input.numDecks.value.n else r.numDecks == DEFAULT_NUMBER_OF_DECKS)
    && (if input.numPlayers.Some? then r.numPlayers == input.numPlayers.value.n else r.numPlayers == |r.hands|)
    && (if input.returnHandStats.Some? then r.returnHandStats == input.returnHandStats.value.b else !r.returnHandStats)
    && (if input.returnTieHandStats.Some? then r.returnTieHandStats == input.returnTieHandStats.value.b else !r.returnTieHandStats)
  }

  function CleanInput(input: RawInput): (r: InternalInput)
    requires Shaped(input)
    ensures FilledFrom(input, r)
  {
    var hands := if input.hands.Some? then input.hands.value.elems else [];
    InternalInput(
      board := if input.board.Some? then input.board.value.s else DEFAULT_BOARD,
      boardSize := IntOr(input.boardSize, DEFAULT_BOARD_SIZE),
      handSize := IntOr(input.handSize, DEFAULT_HAND_SIZE),
      hands := hands,
      iterations := IntOr(input.iterations, DEFAULT_ITERATIONS),
      numDecks := IntOr(input.numDecks, DEFAULT_NUMBER_OF_DECKS),
      numPlayers := if input.numPlayers.Some? then input.numPlayers.value.n else |hands|,
      returnHandStats := BoolOr(input.returnHandStats, false),
      returnTieHandStats := BoolOr(input.returnTieHandStats, false))
  }

  /** A resolved configuration seen as a configuration that gives every field. */
  function ToRaw(r: InternalInput): (raw: RawInput)
    ensures Shaped(raw)
  {
    RawInput(
      numPlayers := Some(VInt(r.numPlayers)),
      hands := Some(VArr(r.hands)),
      board := Some(VStr(r.board)),
      boardSize := Some(VInt(r.boardSize)),
      numDecks := Some(VInt(r.numDecks)),
      handSize := Some(VInt(r.handSize)),
      iterations := Some(VInt(r.iterations)),
      returnHandStats := Some(VBool(r.returnHandStats)),
      returnTieHandStats := Some(VBool(r.returnTieHandStats)))
  }

  /** The filling is determined: there is one resolved record filled from a configuration. */
  lemma FilledFromIsUnique(input: RawInput, r1: InternalInput, r2: InternalInput)
    requires Shaped(input) && FilledFrom(input, r1) && FilledFrom(input, r2)
    ensures r1 == r2
  {
  }

  /** A configuration that gives every field is copied unchanged. */
  lemma CleanInputOfResolved(r: InternalInput)
    ensures CleanInput(ToRaw(r)) == r
  {
  }

  /** Normalising twice is normalising once: defaults apply only to absent fields. */
  lemma CleanInputIdempotent(input: RawInput)
    requires Shaped(input)
    ensures CleanInput(ToRaw(CleanInput(input))) == CleanInput(input)
  {
    CleanInputOfResolved(CleanInput(input));
  }

  /** Whatever passes validation has the shape the normaliser reads. */
  lemma ValidatedIsShaped(input: RawInput, cardCount: string -> nat)
    requires Validate(input, cardCount) == Pass
    ensures Shaped(input)
  {
    ValidateAcceptsExactly(input, cardCount);
  }

  /**
   * The resolved form of a validated configuration keeps the validator's rules:
   * the derived `numPlayers` agrees with the hands, and the hard-coded limits of 5
   * board cards and 2 cards per hand agree with the assumed default sizes.
   */
  lemma CleanedKeepsRules(input: RawInput, cardCount: string -> nat)
    requires Validate(input, cardCount) == Pass
    ensures Shaped(input)
    ensures var r := CleanInput(input);
      && r.numPlayers >= |r.hands|
      && (input.numPlayers.Some? ==> 1 <= r.numPlayers <= MAX_SAFE_INTEGER)
      && 0 <= r.boardSize <= MAX_SAFE_INTEGER && 0 <= r.handSize <= MAX_SAFE_INTEGER
      && 1 <= r.numDecks <= MAX_SAFE_INTEGER
      && (input.iterations.Some? ==> 1 <= r.iterations <= MAX_SAFE_INTEGER)
      && (input.board.Some? ==> cardCount(r.board) <= r.boardSize)
      && (forall k :: 0 <= k < |r.hands| ==> cardCount(r.hands[k]) <= r.handSize)
      && Distinct(HandTokens(r.hands))
      && (input.board.Some? && r.board != "" ==> Distinct(HandTokens(r.hands) + Split(r.board)))
  {
    ValidateAcceptsExactly(input, cardCount);
    var r := CleanInput(input);
    var hands := if input.hands.Some? then input.hands.value.elems else [];
    assert AllCards(input) == HandTokens(hands) + BoardTokens(input);
    DistinctConcat(HandTokens(hands), BoardTokens(input));
  }

  /** Given only hands, `numPlayers` is derived as their number, which may be zero. */
  lemma PlayersDerivedFromHands(input: RawInput, cardCount: string -> nat)
    requires Validate(input, cardCount) == Pass && input.numPlayers.None?
    ensures Shaped(input)
    ensures CleanInput(input).numPlayers == |input.hands.value.elems|
  {
    ValidatedIsShaped(input, cardCount);
  }
}
