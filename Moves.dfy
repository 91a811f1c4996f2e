/** The record the search returns: a game value and the column that earns it.
    Both fields are public and mutable; the search overwrites them in place
    after a recursive call. */
module Moves {
  class Connect4Move {
    /** Game value of this move. */
    var value: int
    /** Column to drop a checker into. */
    var move: int

    constructor (value: int, move: int)
      ensures this.value == value && this.move == move
    {
      this.value := value;
      this.move := move;
    }
  }
}
