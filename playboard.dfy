/** The outcome types shared by the boards (`ValidMove`, `InvalidMove`). */
module PlayboardApi {

  /** An accepted move: the game goes on, ends in a draw, or the mover wins. */
  datatype ValidMove = Continue | Draw | Win

  /** A rejected move: off the board, or onto a taken cell. */
  datatype InvalidMove = InvalidRange | AlreadyUsed

  /**
   * What `new_move` does: return `Ok`, return `Err`, or panic (an index out
   * of bounds); a panic ends the game task, and the board is left as it was.
   */
  datatype MoveOutcome = Valid(valid: ValidMove) | Invalid(invalid: InvalidMove) | Panicked
}
