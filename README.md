# Request validation and utilities of a poker-equity simulator, in Dafny

This project models `src/util.ts` of poker-odds-machine: the layer in front of
the equity simulator that validates a caller's configuration (`validateInput`),
fills in its defaults (`cleanInput`), and two general helpers, deduplication by
a comparator (`uniqWith`) and the in-place Fisher–Yates shuffle (`shuffle`).

Modules:

- `Wrappers` (wrappers.dfy): `Option` (a field absent or present) and `Outcome` (pass, or fail with an error).
- `JsRuntime` (js_runtime.dfy): the JavaScript values a configuration field can hold (`JsValue`),
  `Number.isSafeInteger`, the `length` property, and `String.prototype.split(',')` with its inverse `join(',')`.
- `Sequences` (sequences.dfy): repetition-freedom (`Distinct`) and `new Set(s)` (`Elements`).
- `Constants` (constants.dfy): the defaults. `./constants` is not part of this model; the values
  `DEFAULT_BOARD_SIZE` 5, `DEFAULT_HAND_SIZE` 2 and `DEFAULT_NUMBER_OF_DECKS` 1 are assumed, and
  `DEFAULT_BOARD` and `DEFAULT_ITERATIONS` are left unspecified.
- `InputValidation` (input_validation.dfy): the configuration (`RawInput`, one `Option<JsValue>`
  per key), one tag per check (`Check`), what each check rejects on its own
  (`Violated`), the verdict as a function (`Validate`: the first violated check, in source order),
  and `ValidateInput`, `validateInput` as written: early exits, a loop over the hands,
  a loop that collects every hand's tokens, and a comparison of `new Set(allCards).size`
  with `allCards.length`.
- `InputCleaning` (input_cleaning.dfy): the resolved configuration (`InternalInput`) and `CleanInput`.
- `Dedup` (dedup.dfy): `FindIndex` (`Array.prototype.findIndex`), the specification `Uniq`, and the loop `UniqWith`.
- `Shuffling` (shuffling.dfy): the specification `Shuffled` and the in-place loop `Shuffle` on an `array`.
- `Scenarios` (scenarios.dfy): worked configurations.

The card-group parser of `./types` is the parameter `cardCount: string -> nat` of the validator;
only the number of cards it parses is used. The random index of each shuffle step is the
parameter `picks`, any index in `[0, i]` at step `i`.

Two behaviours of the code are worth knowing; the model keeps both:

- The `numPlayers` error at src/util.ts:45 says it must be greater than 0, yet `{hands: []}` passes
  validation and `cleanInput` then yields `numPlayers` 0 (src/util.ts:175-177;
  `InputCleaning.PlayersDerivedFromHands`; `CleanedKeepsRules` claims `numPlayers >= 1` only when it was given).
- `hands` is only checked to be an array (src/util.ts:130), not an array of strings, and its `length`
  is read at src/util.ts:50 before that check, so an array-like object or a function in its place
  whose `length` exceeds `numPlayers` fails on the number of players
  (`Scenarios.ArrayLikeHandsOutnumberPlayers`); otherwise it fails on the type of `hands`
  (`Scenarios.ArrayLikeHandsWithinPlayers`).

## Model

| member | source | states |
|---|---|---|
| `InputValidation.ValidateInput` | src/util.ts:16-165 | the imperative validator returns exactly the verdict `Validate`: the first failing check in source order, or pass |
| `InputValidation.ValidateFields` | src/util.ts:17-126 | the early exits for the flags, `numPlayers`, `boardSize`, `numDecks`, the board, `iterations` and `handSize` give the first failing one of these checks |
| `InputValidation.HandsFit` | src/util.ts:129-154 | the loop over the hands succeeds iff every hand parses to at most `handSize` cards, or 2 when `handSize` is absent |
| `InputValidation.CollectCards` | src/util.ts:157-161 | the pushed tokens are every hand's comma-split tokens in order, then the board's |
| `InputValidation.BoardTokens` | src/util.ts:161 | an absent or empty (falsy) board contributes no tokens |
| `InputValidation.ValidateAcceptsExactly` | src/util.ts:16-165 | validation passes iff one of `numPlayers`/`hands` is given, flags are booleans, `numPlayers` is a safe integer >= 1 and >= the number of hands, `boardSize` and `handSize` are safe integers >= 0, `numDecks` and `iterations` safe integers >= 1, the board is a string of at most `boardSize` (else 5) cards, hands an array of hands of at most `handSize` (else 2) cards each, and no token repeats |
| `InputValidation.FirstFailureWins` | src/util.ts:16-165 | validation fails with check `c` iff `c` is violated and every earlier check holds (both directions) |
| `InputValidation.FailedCheckIsViolated` | src/util.ts:16-165 | the error raised names a check that the input violates |
| `InputValidation.ViolationBoundsFailure` | src/util.ts:16-165 | any violated check makes validation fail, with that check or an earlier one |
| `InputValidation.MissingPlayersAndHandsFailsFirst` | src/util.ts:18-19 | with neither `numPlayers` nor `hands`, the first error wins over every other violation |
| `InputValidation.NumericBoundaries` | src/util.ts:38-126 | 0 passes the `boardSize` and `handSize` checks, 0 `numDecks` or `iterations` is rejected, negative or non-integer sizes are rejected, `numPlayers` equal to the number of hands passes and fewer is rejected |
| `InputValidation.RepeatAmongHandsRejected` | src/util.ts:157-164 | a repeated token among the hands' tokens is rejected, whatever the board |
| `InputValidation.RepeatWithinHandRejected` | src/util.ts:157-164 | a token repeated inside one hand is rejected |
| `InputValidation.RepeatAcrossHandsRejected` | src/util.ts:157-164 | a token shared by two hands is rejected |
| `InputValidation.RepeatInHandAndBoardRejected` | src/util.ts:157-164 | a token shared by a hand and a non-empty board is rejected |
| `InputValidation.HandTokensAt` | src/util.ts:159 | the tokens of hand `i` sit, in order, between those of the hands before and after it |
| `Sequences.DistinctIffCardinality` | src/util.ts:163 | `new Set(all).size === all.length` holds iff no token repeats |
| `JsRuntime.Length` | src/util.ts:50 | `length` is the character count of a string, the element count of an array, an object's or function's own numeric `length`, and undefined for booleans, numbers, `undefined` and `null` |
| `JsRuntime.JoinSplit` | src/util.ts:159-161 | joining the pieces of `split(',')` with commas gives back the string |
| `JsRuntime.SplitJoin` | src/util.ts:159-161 | splitting a join of comma-free pieces gives back the pieces |
| `JsRuntime.SplitPiecesHaveNoComma` | src/util.ts:159-161 | no piece of a split contains a comma |
| `InputCleaning.CleanInput` | src/util.ts:167-181 | every given field is copied, every absent one replaced by its default (flags by false, hands by the empty list), `numPlayers` derived as the number of hands when absent |
| `InputCleaning.FilledFromIsUnique` | src/util.ts:167-181 | that description determines the resolved record completely |
| `InputCleaning.CleanInputOfResolved` | src/util.ts:167-181 | a configuration giving every field is resolved to itself |
| `InputCleaning.CleanInputIdempotent` | src/util.ts:167-181 | normalising the resolved record again changes nothing |
| `InputCleaning.ValidatedIsShaped` | src/util.ts:16-165 | whatever passes validation has the field types the normaliser reads |
| `InputCleaning.CleanedKeepsRules` | src/util.ts:167-181 | the resolved form of a validated configuration has `numPlayers` >= the number of hands, sizes, deck count and a given `iterations` in their ranges up to `Number.MAX_SAFE_INTEGER`, the board within `boardSize` and each hand within `handSize` (the hard-coded 5 and 2 agree with the assumed default sizes), and repetition-free tokens |
| `InputCleaning.PlayersDerivedFromHands` | src/util.ts:175-177 | without `numPlayers`, the resolved `numPlayers` is the number of hands |
| `Dedup.FindIndex` | src/util.ts:189 | returns the first index whose element satisfies the predicate, or -1 iff none does |
| `Dedup.UniqWith` | src/util.ts:183-192 | the loop returns `Uniq`: each element pushed iff no element kept so far absorbs it |
| `Dedup.UniqOfPrefix` | src/util.ts:188-190 | the result for a prefix of the input is a prefix of the result |
| `Dedup.UniqIsSubsequence` | src/util.ts:187-191 | the output is the input with elements left out, in first-seen order |
| `Dedup.SubsequenceIsShorter` | src/util.ts:187-191 | so the output is no longer than the input |
| `Dedup.EveryElementKeptOrAbsorbed` | src/util.ts:188-189 | each input element is either kept right after what was kept before it, or `comparator(a, u)` holds for an element `u` kept before it |
| `Dedup.KeptNeverAbsorbed` | src/util.ts:189 | no kept element `a` has `comparator(a, u)` for an element `u` kept before it |
| `Dedup.UniqByEquality` | src/util.ts:183-192 | with equality as the comparator the output is repetition-free and has the input's set of elements |
| `Shuffling.Shuffle` | src/util.ts:194-199 | the array ends as `Shuffled` of its old contents, a permutation of them; arrays of length 0 or 1 are unchanged |
| `Shuffling.ShuffledIsPermutation` | src/util.ts:194-199 | the shuffled sequence has the original's length and multiset of elements |
| `Shuffling.StepsArePermutation` | src/util.ts:195-198 | every run of swap steps preserves length and multiset |
| `Shuffling.StepsKeepPositionsAbove` | src/util.ts:195-198 | the steps from `i` down never touch a position above `i` |
| `Shuffling.FinalAfterStep` | src/util.ts:195-198 | the element step `i` swaps into position `i` is its final element |
| `Scenarios.ThreePlayersWithBoardResolves` | src/util.ts:16-181 | `{numPlayers: 3, board: "As,Kd", boardSize: 5}` passes and resolves with hand size 2, one deck, no hands and both flags false |
| `Scenarios.ArrayLikeHandsOutnumberPlayers` | src/util.ts:49-54 | `{numPlayers: 1, hands: {length: 3}}` fails on the number of players, before the type of `hands` is checked |
| `Scenarios.ArrayLikeHandsWithinPlayers` | src/util.ts:49-131 | `{numPlayers: 3, hands: {length: 1}}` gets past the number-of-players check and fails on the type of `hands` |
| `Scenarios.SharedAceIsDuplicate` | src/util.ts:157-164 | `{hands: ["As,Kd", "As,Qc"]}` fails on card uniqueness |
| `Scenarios.FirstOccurrencesKept` | src/util.ts:183-192 | deduplicating `[1, 2, 1, 3]` by equality gives `[1, 2, 3]` |

## Left out

- The card-group parser (src/util.ts:88, 136) is a parameter giving the card count; its own parse errors, which would surface from inside the validator, are not modelled.
- The `isInputAnExternalInputWith*` type guards of `./types` are modelled as tests that the field is present.
- Error messages are replaced by one tag per check; the two board-limit throws (src/util.ts:93, 98) share `BoardTooLarge` and the two hand-limit throws (src/util.ts:139, 147) share `HandTooLarge`, since which of each pair fires depends only on whether `boardSize` or `handSize` is given; the wording (including the "must be a string" message for `iterations`) is not modelled.
- The `?? DEFAULT_*` fallbacks at src/util.ts:91 and 145 are not modelled separately: a present `boardSize` or `handSize` has already been checked to be a number there.
- An array of `hands` is modelled as an array of strings; arrays holding other values, which `Array.isArray` also accepts, are not representable.
- Reading `hands.length` at src/util.ts:50 when `hands` is present but `undefined` or `null` raises a TypeError in JavaScript; the model treats it as having no length.
- The `length` of a string is counted in characters, not UTF-16 code units.
- JsRuntime.Length: a `length` property of an object or function that is not an integral number (a fraction, or a string that `<` would coerce) is modelled as absent.
- The values of `DEFAULT_BOARD` and `DEFAULT_ITERATIONS` (from `./constants`) are not part of this model.
- CleanInput: requires the input to be `Shaped`: one of `numPlayers`/`hands` given, the given numeric fields integers, the flags booleans, `board` a string and `hands` an array, because the resolved record holds values of those types; every validated configuration meets this (`ValidatedIsShaped`).
- Shuffle: `Math.random` and `Math.floor` are replaced by the `picks` parameter; that the shuffle is uniform over all permutations is not modelled.
- `uniqWith` reads an array without changing it; the model takes it as a sequence and returns a new sequence.
