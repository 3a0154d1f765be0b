/** Worked configurations: a by-count request with a board, a duplicated card, and deduplication. */
module Scenarios {
  import opened Wrappers
  import opened JsRuntime
  import opened Constants
  import opened InputValidation
  import opened InputCleaning
  import opened Dedup

  const Absent: Option<JsValue> := None

  /** `{numPlayers: 3, board: "As,Kd", boardSize: 5}` */
  const ThreePlayersWithBoard: RawInput :=
    RawInput(Some(VInt(3)), Absent, Some(VStr("As,Kd")), Some(VInt(5)), Absent, Absent, Absent, Absent, Absent)

  /** `{hands: ["As,Kd", "As,Qc"]}` */
  const SharedAce: RawInput :=
    RawInput(Absent, Some(VArr(["As,Kd", "As,Qc"])), Absent, Absent, Absent, Absent, Absent, Absent, Absent)

  /** `{numPlayers: 1, hands: {length: 3}}`: an array-like object in place of the hands */
  const ArrayLikeHands: RawInput :=
    RawInput(Some(VInt(1)), Some(VObj(Some(3))), Absent, Absent, Absent, Absent, Absent, Absent, Absent)

  /**
   * The `length` of an array-like `hands` is read before its type is checked, so
   * more hands than players is the error raised, not the hands' type.
   */
  lemma ArrayLikeHandsOutnumberPlayers(cardCount: string -> nat)
    ensures Validate(ArrayLikeHands, cardCount) == Fail(NumPlayersBelowHands)
  {
  }

  /** `{numPlayers: 3, hands: {length: 1}}`: an array-like object with fewer entries than players */
  const ShortArrayLikeHands: RawInput :=
    RawInput(Some(VInt(3)), Some(VObj(Some(1))), Absent, Absent, Absent, Absent, Absent, Absent, Absent)

  /** When its `length` does not exceed `numPlayers`, an array-like `hands` fails on its type. */
  lemma ArrayLikeHandsWithinPlayers(cardCount: string -> nat)
    ensures Validate(ShortArrayLikeHands, cardCount) == Fail(HandsType)
  {
  }

  /** `"x,y".split(',')` for comma-free `x` and `y`. */
  lemma SplitTwo(x: string, y: string)
    requires Comma !in x && Comma !in y
    ensures Split(x + [Comma] + y) == [x, y]
  {
    SplitAfterPiece(x, y);
    SplitCommaFree(y);
  }

  /** A by-count request with a two-card board passes and is resolved with every default filled in. */
  lemma ThreePlayersWithBoardResolves(cardCount: string -> nat)
    requires cardCount("As,Kd") == 2
    ensures Validate(ThreePlayersWithBoard, cardCount) == Pass
    ensures Shaped(ThreePlayersWithBoard)
    ensures CleanInput(ThreePlayersWithBoard)
      == InternalInput("As,Kd", 5, 2, [], DEFAULT_ITERATIONS, 1, 3, false, false)
  {
    assert "As,Kd" == "As" + [Comma] + "Kd";
    SplitTwo("As", "Kd");
  }

  lemma SharedAceTokens()
    ensures AllCards(SharedAce) == ["As", "Kd", "As", "Qc"]
  {
    assert "As,Kd" == "As" + [Comma] + "Kd";
    assert "As,Qc" == "As" + [Comma] + "Qc";
    SplitTwo("As", "Kd");
    SplitTwo("As", "Qc");
    assert HandTokens(["As,Kd", "As,Qc"]) == HandTokens(["As,Kd"]) + Split("As,Qc");
    assert HandTokens(["As,Kd"]) == Split("As,Kd");
  }

  /** Two hands that share the ace of spades fail on card uniqueness. */
  lemma SharedAceIsDuplicate(cardCount: string -> nat)
    requires cardCount("As,Kd") == 2 && cardCount("As,Qc") == 2
    ensures Validate(SharedAce, cardCount) == Fail(DuplicateCards)
  {
    SharedAceTokens();
    assert AllCards(SharedAce)[0] == AllCards(SharedAce)[2];
    assert CheckFields(SharedAce, cardCount) == Pass;
    assert !SomeHandOverLimit(SharedAce, cardCount);
  }

  /** `uniqWith([a, b, a, c], (x, y) => x === y)` is `[a, b, c]`. */
  lemma FirstOccurrencesKept()
    ensures Uniq([1, 2, 1, 3], (x: int, y: int) => x == y) == [1, 2, 3]
  {
    var eq := (x: int, y: int) => x == y;
    assert Uniq([1], eq) == [1];
    assert [1, 2][..1] == [1];
    assert Uniq([1, 2], eq) == [1, 2];
    assert [1, 2, 1][..2] == [1, 2];
    assert Absorbed(1, [1, 2], eq);
    assert Uniq([1, 2, 1], eq) == [1, 2];
    assert [1, 2, 1, 3][..3] == [1, 2, 1];
  }
}
