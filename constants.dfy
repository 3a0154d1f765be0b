/**
 * The system defaults the normaliser falls back on. They are defined in `./constants`,
 * which is not part of this model: the values 5, 2 and 1 below are assumed, and the
 * board and sample count are left unspecified.
 */
module Constants {
  /** The board used when none is given; its text is not part of this model. */
  const DEFAULT_BOARD: string
  const DEFAULT_BOARD_SIZE: int := 5
  const DEFAULT_HAND_SIZE: int := 2
  /** The sample count used when none is given; its value is not part of this model. */
  const DEFAULT_ITERATIONS: int
  const DEFAULT_NUMBER_OF_DECKS: int := 1
}
