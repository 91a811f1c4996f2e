/** Constants shared by every part of the Connect Four engine: the board
    dimensions and display symbols that the state interface fixes, and the
    limits of the 32-bit integers the search works with. */
module State {
  /** Number of rows; row 0 is the bottom of the board. */
  const ROWS: int := 6
  /** Number of columns; column 0 is the left side of the board. */
  const COLS: int := 7
  /** Number of cells of the flat board, indexed `row * COLS + col`. */
  const CELLS: int := ROWS * COLS

  /** Display symbols for an empty cell and for the two players' checkers. */
  const EMPTY: char := '.'
  const CHECKER0: char := 'X'
  const CHECKER1: char := 'O'

  /** Limits of a 32-bit two's-complement `int`. */
  const MIN_VALUE: int := -0x8000_0000
  const MAX_VALUE: int := 0x7fff_ffff

  /** The two players; only their names matter, and only to the display. */
  datatype Player = Player(name: string)
}
