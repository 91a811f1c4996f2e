/** The computer player (ComputerConnect4Player.java): a static evaluation
    that scores every line of four for the player to move, and a fixed-depth
    negamax search with alpha-beta pruning over copies of the game. */
module Computer {
  import opened State
  import opened Game
  import Lines
  import opened Moves

  /** Weights of a line holding three, two, one or none of the mover's checkers. */
  const THREE_VAL: int := 64
  const TWO_VAL: int := 16
  const ONE_VAL: int := 4
  const ZERO_VAL: int := 1
  /** Extra weight when the line's gaps can be filled at once. */
  const SPLIT_MULTIPLIER: int := 2
  /** Weight of the evaluation of a move that ends the game. */
  const END_MULTIPLIER: int := 100

  /** The most one line can score: every pattern matches an all-empty line
      when the mover's index is 0, each with its bonus. */
  const LINE_MAX: int := 961
  /** The most the evaluation can return: 69 lines at LINE_MAX each. */
  const EVAL_MAX: int := 69 * LINE_MAX
  /** The largest magnitude of a search value. */
  const VALUE_MAX: int := END_MULTIPLIER * EVAL_MAX

  function Max(a: int, b: int): int {
    if a < b then b else a
  }

  // ---------------------------------------------------------------------
  // Static evaluation

  /** The three-in-a-row patterns: the gap in each of the four places. The
      playable test is handed the gap's value (always 0), as in the source. */
  function ThreeScore(b: seq<int>, p: int, c0: int, c1: int, c2: int, c3: int): (s: int)
    requires |b| == CELLS
    ensures 0 <= s <= 4 * THREE_VAL * (1 + SPLIT_MULTIPLIER)
  {
    (if c0 == 0 && c1 == p && c2 == p && c3 == p then
      THREE_VAL + (if Lines.PossibleChecker(b, c0) then THREE_VAL * SPLIT_MULTIPLIER else 0) else 0) +
    (if c0 == p && c1 == 0 && c2 == p && c3 == p then
      THREE_VAL + (if Lines.PossibleChecker(b, c1) then THREE_VAL * SPLIT_MULTIPLIER else 0) else 0) +
    (if c0 == p && c1 == p && c2 == 0 && c3 == p then
      THREE_VAL + (if Lines.PossibleChecker(b, c2) then THREE_VAL * SPLIT_MULTIPLIER else 0) else 0) +
    (if c0 == p && c1 == p && c2 == p && c3 == 0 then
      THREE_VAL + (if Lines.PossibleChecker(b, c3) then THREE_VAL * SPLIT_MULTIPLIER else 0) else 0)
  }

  /** The two-in-a-row patterns: only adjacent pairs. */
  function TwoScore(b: seq<int>, p: int, c0: int, c1: int, c2: int, c3: int): (s: int)
    requires |b| == CELLS
    ensures 0 <= s <= 3 * TWO_VAL * (1 + SPLIT_MULTIPLIER)
  {
    (if c0 == p && c1 == p && c2 == 0 && c3 == 0 then
      TWO_VAL + (if Lines.PossibleChecker(b, c2) && Lines.PossibleChecker(b, c3)
                 then TWO_VAL * SPLIT_MULTIPLIER else 0) else 0) +
    (if c0 == 0 && c1 == p && c2 == p && c3 == 0 then
      TWO_VAL + (if Lines.PossibleChecker(b, c0) && Lines.PossibleChecker(b, c3)
                 then TWO_VAL * SPLIT_MULTIPLIER else 0) else 0) +
    (if c0 == 0 && c1 == 0 && c2 == p && c3 == p then
      TWO_VAL + (if Lines.PossibleChecker(b, c0) && Lines.PossibleChecker(b, c1)
                 then TWO_VAL * SPLIT_MULTIPLIER else 0) else 0)
  }

  /** The one-in-a-row patterns: the mover's checker in each of the four places. */
  function OneScore(b: seq<int>, p: int, c0: int, c1: int, c2: int, c3: int): (s: int)
    requires |b| == CELLS
    ensures 0 <= s <= 4 * ONE_VAL * (1 + SPLIT_MULTIPLIER)
  {
    (if c0 == p && c1 == 0 && c2 == 0 && c3 == 0 then
      ONE_VAL + (if Lines.PossibleChecker(b, c1) && Lines.PossibleChecker(b, c2) && Lines.PossibleChecker(b, c3)
                 then ONE_VAL * SPLIT_MULTIPLIER else 0) else 0) +
    (if c0 == 0 && c1 == p && c2 == 0 && c3 == 0 then
      ONE_VAL + (if Lines.PossibleChecker(b, c0) && Lines.PossibleChecker(b, c2) && Lines.PossibleChecker(b, c3)
                 then ONE_VAL * SPLIT_MULTIPLIER else 0) else 0) +
    (if c0 == 0 && c1 == 0 && c2 == p && c3 == 0 then
      ONE_VAL + (if Lines.PossibleChecker(b, c0) && Lines.PossibleChecker(b, c1) && Lines.PossibleChecker(b, c3)
                 then ONE_VAL * SPLIT_MULTIPLIER else 0) else 0) +
    (if c0 == 0 && c1 == 0 && c2 == 0 && c3 == p then
      ONE_VAL + (if Lines.PossibleChecker(b, c0) && Lines.PossibleChecker(b, c1) && Lines.PossibleChecker(b, c2)
                 then ONE_VAL * SPLIT_MULTIPLIER else 0) else 0)
  }

  /** The empty-line pattern. */
  function ZeroScore(c0: int, c1: int, c2: int, c3: int): (s: int)
    ensures 0 <= s <= ZERO_VAL
  {
    if c0 == 0 && c1 == 0 && c2 == 0 && c3 == 0 then ZERO_VAL else 0
  }

  /** What one line of four adds to the evaluation for the player whose
      index is `p`: the cells are compared with `p` itself. */
  function LineScore(b: seq<int>, p: int, w: seq<int>): (s: int)
    requires |b| == CELLS && Lines.IsFour(w)
    ensures 0 <= s <= LINE_MAX
  {
    var c0 := b[w[0]];
    var c1 := b[w[1]];
    var c2 := b[w[2]];
    var c3 := b[w[3]];
    ThreeScore(b, p, c0, c1, c2, c3) + TwoScore(b, p, c0, c1, c2, c3) +
    OneScore(b, p, c0, c1, c2, c3) + ZeroScore(c0, c1, c2, c3)
  }

  /** The sum of LineScore over `lines`, accumulated in list order. (The
      board in the decreases clause stops the verifier from unrolling a call
      on the constant list of fours.) */
  function EvalLines(b: seq<int>, p: int, lines: seq<seq<int>>): (s: int)
    requires |b| == CELLS && Lines.AllFour(lines)
    ensures 0 <= s <= LINE_MAX * |lines|
    decreases |lines|, b
  {
    if |lines| == 0 then 0
    else EvalLines(b, p, lines[..|lines| - 1]) + LineScore(b, p, lines[|lines| - 1])
  }

  /** Extending a prefix of the list by one line adds that line's score. */
  lemma EvalLinesStep(b: seq<int>, p: int, lines: seq<seq<int>>, i: int)
    requires |b| == CELLS && Lines.AllFour(lines)
    requires 0 <= i < |lines|
    ensures Lines.AllFour(lines[..i]) && Lines.AllFour(lines[..i + 1])
    ensures EvalLines(b, p, lines[..i + 1]) == EvalLines(b, p, lines[..i]) + LineScore(b, p, lines[i])
  {
    assert lines[..i + 1][..i] == lines[..i];
  }

  /** The static evaluation of a board for the player whose index is `p`:
      the line scores of the 69 lines of four, summed in list order. The list
      is taken in closed form; Lines.FoursAreAllLines shows it is the one
      NInARow builds. */
  function Eval(b: seq<int>, p: int): (score: int)
    requires |b| == CELLS
    ensures 0 <= score <= EVAL_MAX
  {
    Lines.FoursAreFours(b);
    EvalLines(b, p, Lines.Fours())
  }

  /** The evaluation is the sum of the line scores over the list NInARow
      builds for n = 4, in that list's order. */
  lemma EvalSumsAllLines(b: seq<int>, p: int, lines: seq<seq<int>>)
    requires |b| == CELLS && lines == Lines.AllLines(4, b)
    ensures Lines.AllFour(lines)
    ensures EvalLines(b, p, lines) == Eval(b, p)
  {
    Lines.LinesAreFours(b);
    Lines.FoursAreAllLines(b);
  }

  // ---------------------------------------------------------------------
  // An independent account of the line score

  /** How many of the four cells of `w` hold `v`. */
  function CountOf(b: seq<int>, w: seq<int>, v: int): (n: int)
    requires |b| == CELLS && Lines.IsFour(w)
    ensures 0 <= n <= 4
  {
    (if b[w[0]] == v then 1 else 0) + (if b[w[1]] == v then 1 else 0) +
    (if b[w[2]] == v then 1 else 0) + (if b[w[3]] == v then 1 else 0)
  }

  /** Two of the mover's checkers stand next to each other in the line. */
  predicate AdjacentPair(b: seq<int>, w: seq<int>, p: int)
    requires |b| == CELLS && Lines.IsFour(w)
  {
    (b[w[0]] == p && b[w[1]] == p) || (b[w[1]] == p && b[w[2]] == p) || (b[w[2]] == p && b[w[3]] == p)
  }

  /** The line score by counting, for a mover index `p` that is not 0: a
      line with a cell that is neither empty nor `p` scores nothing; three,
      an adjacent two or one of `p` score their weight, tripled when the
      board's cell 0 is empty; an empty line scores ZERO_VAL; four of `p`
      and a split two score nothing. */
  function CountedScore(b: seq<int>, p: int, w: seq<int>): int
    requires |b| == CELLS && Lines.IsFour(w) && p != 0
  {
    var mine := CountOf(b, w, p);
    var bonus := if b[0] == 0 then 1 + SPLIT_MULTIPLIER else 1;
    if mine + CountOf(b, w, 0) < 4 then 0
    else if mine == 3 then THREE_VAL * bonus
    else if mine == 2 then (if AdjacentPair(b, w, p) then TWO_VAL * bonus else 0)
    else if mine == 1 then ONE_VAL * bonus
    else if mine == 0 then ZERO_VAL
    else 0
  }

  /** A cell of `w` holds neither 0 nor `p`. */
  predicate Blocked(b: seq<int>, p: int, w: seq<int>)
    requires |b| == CELLS && Lines.IsFour(w)
  {
    exists k :: 0 <= k < 4 && b[w[k]] != 0 && b[w[k]] != p
  }

  // ---------------------------------------------------------------------
  // The search, as functions of the position

  /** A value and the column that earns it. */
  datatype Choice = Choice(value: int, move: int)

  /** The placeholder the scan starts from. */
  predicate Dummy(c: Choice) {
    c == Choice(MIN_VALUE, 0)
  }

  /** A valid column with a value in range. */
  ghost predicate Good(b: seq<int>, c: Choice)
    requires |b| == CELLS
  {
    ValidMoveOn(b, c.move) && -VALUE_MAX <= c.value <= VALUE_MAX
  }

  /** The number of further levels the search may descend. */
  function Height(depth: int): nat {
    if depth > 0 then depth else 0
  }

  /** `pickMove`: scan the columns from 0 with the placeholder as best so far. */
  ghost function Search(pos: Position, depth: int, low: int, high: int): Choice
    requires |pos.board| == CELLS
    decreases Height(depth), 3, 0
  {
    Scan(pos, depth, low, high, 0, Choice(MIN_VALUE, 0))
  }

  /** The column loop of `pickMove` from column `col` on: it stops once the
      best value reaches `high`, skips invalid columns, replaces the best
      only by a strictly greater value and then raises `low` to it. */
  ghost function Scan(pos: Position, depth: int, low: int, high: int, col: int, best: Choice): Choice
    requires |pos.board| == CELLS && 0 <= col <= COLS
    decreases Height(depth), 2, COLS - col
  {
    if !(best.value < high && col < COLS) then best
    else if !ValidMoveOn(pos.board, col) then Scan(pos, depth, low, high, col + 1, best)
    else
      var value := ChildValue(pos, depth, low, high, col);
      if value > best.value then Scan(pos, depth, Max(low, value), high, col + 1, Choice(value, col))
      else Scan(pos, depth, low, high, col + 1, best)
  }

  /** The value of the move in `col`: a move that ends the game scores the
      evaluation of the position before the move, times END_MULTIPLIER;
      otherwise, with depth left, the negated value of the opponent's search
      with the window negated and swapped; otherwise the evaluation of the
      position after the move. */
  ghost function ChildValue(pos: Position, depth: int, low: int, high: int, col: int): int
    requires |pos.board| == CELLS && 0 <= col < COLS
    decreases Height(depth), 1, 0
  {
    var next := Play(pos, col);
    if GameOverOn(next.board) then END_MULTIPLIER * Eval(pos.board, pos.mover)
    else if depth > 0 then -Search(next, depth - 1, -high, -low).value
    else Eval(next.board, next.mover)
  }

  /** The reference search without pruning: the value of the move in `col`. */
  ghost function TrueChild(pos: Position, depth: int, col: int): int
    requires |pos.board| == CELLS && 0 <= col < COLS
    decreases Height(depth), 1, 0
  {
    var next := Play(pos, col);
    if GameOverOn(next.board) then END_MULTIPLIER * Eval(pos.board, pos.mover)
    else if depth > 0 then -Minimax(next, depth - 1)
    else Eval(next.board, next.mover)
  }

  /** The greatest reference value of a valid column from `col` on, or
      MIN_VALUE when there is none. */
  ghost function BestFrom(pos: Position, depth: int, col: int): int
    requires |pos.board| == CELLS && 0 <= col <= COLS
    decreases Height(depth), 2, COLS - col
  {
    if col == COLS then MIN_VALUE
    else if !ValidMoveOn(pos.board, col) then BestFrom(pos, depth, col + 1)
    else Max(TrueChild(pos, depth, col), BestFrom(pos, depth, col + 1))
  }

  /** The negamax value of a position without pruning. */
  ghost function Minimax(pos: Position, depth: int): int
    requires |pos.board| == CELLS
    decreases Height(depth), 3, 0
  {
    BestFrom(pos, depth, 0)
  }

  /** `x` forced into the window [low, high]. */
  function Clamp(x: int, low: int, high: int): int {
    if x < low then low else if x > high then high else x
  }

  // ---------------------------------------------------------------------
  // The player

  class ComputerConnect4Player {
    var name: string
    /** How many levels the search looks ahead. */
    var depth: int

    constructor WithHorizon(name: string, horizon: int)
      ensures this.name == name && depth == horizon
    {
      this.name := name;
      depth := horizon;
    }

    /** Without a horizon the depth keeps Java's default, 0. */
    constructor (name: string)
      ensures this.name == name && depth == 0
    {
      this.name := name;
      depth := 0;
    }

    /** The column the search picks with the widest window. */
    method GetMove(state: Connect4Game) returns (move: int)
      requires state.Valid()
      ensures move == Search(state.Model(), depth, -MAX_VALUE, MAX_VALUE).move
    {
      var best := PickMove(state, depth, -MAX_VALUE, MAX_VALUE);
      move := best.move;
    }

    /** The evaluation of the game for its player to move. */
    static method StaticEval(state: Connect4Game) returns (score: int)
      requires state.Valid()
      ensures score == Eval(state.board[..], state.playerToMoveNum)
    {
      var board := state.GetBoardArray();
      var playerNum := state.GetPlayerNum();
      var fourInARow := new Lines.NInARow(4, board);
      var possibleInARows := fourInARow.GetTotalInARows();
      EvalSumsAllLines(board[..], playerNum, possibleInARows);
      score := SumLines(board, playerNum, possibleInARows);
    }

    /** The loop of `staticEval`: the scores of the lines, summed in list
        order from 0. */
    static method SumLines(board: array<int>, playerNum: int, possibleInARows: seq<seq<int>>) returns (score: int)
      requires board.Length == CELLS && Lines.AllFour(possibleInARows)
      ensures score == EvalLines(board[..], playerNum, possibleInARows)
    {
      score := 0;
      var i := 0;
      while i < |possibleInARows|
        invariant 0 <= i <= |possibleInARows|
        invariant score == EvalLines(board[..], playerNum, possibleInARows[..i])
      {
        var row := possibleInARows[i];
        score := AddLineScore(board, playerNum, row, score);
        EvalLinesStep(board[..], playerNum, possibleInARows, i);
        i := i + 1;
      }
      assert possibleInARows[..i] == possibleInARows;
    }

    /** One pass of the loop body of `staticEval`: the twelve patterns of one
        line, checked in the source's order, added to the running `score`. */
    static method AddLineScore(board: array<int>, playerNum: int, row: seq<int>, score: int) returns (total: int)
      requires board.Length == CELLS && Lines.IsFour(row)
      ensures total == score + LineScore(board[..], playerNum, row)
    {
      total := score;
      // three in a row
      if board[row[0]] == 0 && board[row[1]] == playerNum && board[row[2]] == playerNum && board[row[3]] == playerNum {
        total := total + THREE_VAL;
        if Lines.PossibleChecker(board[..], board[row[0]]) {
          total := total + THREE_VAL * SPLIT_MULTIPLIER;
        }
      }
      if board[row[0]] == playerNum && board[row[1]] == 0 && board[row[2]] == playerNum && board[row[3]] == playerNum {
        total := total + THREE_VAL;
        if Lines.PossibleChecker(board[..], board[row[1]]) {
          total := total + THREE_VAL * SPLIT_MULTIPLIER;
        }
      }
      if board[row[0]] == playerNum && board[row[1]] == playerNum && board[row[2]] == 0 && board[row[3]] == playerNum {
        total := total + THREE_VAL;
        if Lines.PossibleChecker(board[..], board[row[2]]) {
          total := total + THREE_VAL * SPLIT_MULTIPLIER;
        }
      }
      if board[row[0]] == playerNum && board[row[1]] == playerNum && board[row[2]] == playerNum && board[row[3]] == 0 {
        total := total + THREE_VAL;
        if Lines.PossibleChecker(board[..], board[row[3]]) {
          total := total + THREE_VAL * SPLIT_MULTIPLIER;
        }
      }
      ghost var three := total;
      // two in a row
      if board[row[0]] == playerNum && board[row[1]] == playerNum && board[row[2]] == 0 && board[row[3]] == 0 {
        total := total + TWO_VAL;
        if Lines.PossibleChecker(board[..], board[row[2]]) && Lines.PossibleChecker(board[..], board[row[3]]) {
          total := total + TWO_VAL * SPLIT_MULTIPLIER;
        }
      }
      if board[row[0]] == 0 && board[row[1]] == playerNum && board[row[2]] == playerNum && board[row[3]] == 0 {
        total := total + TWO_VAL;
        if Lines.PossibleChecker(board[..], board[row[0]]) && Lines.PossibleChecker(board[..], board[row[3]]) {
          total := total + TWO_VAL * SPLIT_MULTIPLIER;
        }
      }
      if board[row[0]] == 0 && board[row[1]] == 0 && board[row[2]] == playerNum && board[row[3]] == playerNum {
        total := total + TWO_VAL;
        if Lines.PossibleChecker(board[..], board[row[0]]) && Lines.PossibleChecker(board[..], board[row[1]]) {
          total := total + TWO_VAL * SPLIT_MULTIPLIER;
        }
      }
      ghost var two := total;
      // one in a row
      if board[row[0]] == playerNum && board[row[1]] == 0 && board[row[2]] == 0 && board[row[3]] == 0 {
        total := total + ONE_VAL;
        if Lines.PossibleChecker(board[..], board[row[1]]) && Lines.PossibleChecker(board[..], board[row[2]]) &&
           Lines.PossibleChecker(board[..], board[row[3]]) {
          total := total + ONE_VAL * SPLIT_MULTIPLIER;
        }
      }
      if board[row[0]] == 0 && board[row[1]] == playerNum && board[row[2]] == 0 && board[row[3]] == 0 {
        total := total + ONE_VAL;
        if Lines.PossibleChecker(board[..], board[row[0]]) && Lines.PossibleChecker(board[..], board[row[2]]) &&
           Lines.PossibleChecker(board[..], board[row[3]]) {
          total := total + ONE_VAL * SPLIT_MULTIPLIER;
        }
      }
      if board[row[0]] == 0 && board[row[1]] == 0 && board[row[2]] == playerNum && board[row[3]] == 0 {
        total := total + ONE_VAL;
        if Lines.PossibleChecker(board[..], board[row[0]]) && Lines.PossibleChecker(board[..], board[row[1]]) &&
           Lines.PossibleChecker(board[..], board[row[3]]) {
          total := total + ONE_VAL * SPLIT_MULTIPLIER;
        }
      }
      if board[row[0]] == 0 && board[row[1]] == 0 && board[row[2]] == 0 && board[row[3]] == playerNum {
        total := total + ONE_VAL;
        if Lines.PossibleChecker(board[..], board[row[0]]) && Lines.PossibleChecker(board[..], board[row[1]]) &&
           Lines.PossibleChecker(board[..], board[row[2]]) {
          total := total + ONE_VAL * SPLIT_MULTIPLIER;
        }
      }
      ghost var one := total;
      // zero in a row
      if board[row[0]] == 0 && board[row[1]] == 0 && board[row[2]] == 0 && board[row[3]] == 0 {
        total := total + ZERO_VAL;
      }
      ghost var b := board[..];
      ghost var c0, c1, c2, c3 := b[row[0]], b[row[1]], b[row[2]], b[row[3]];
      assert three == score + ThreeScore(board[..], playerNum, c0, c1, c2, c3);
      assert two == three + TwoScore(board[..], playerNum, c0, c1, c2, c3);
      assert one == two + OneScore(board[..], playerNum, c0, c1, c2, c3);
      assert total == score + LineScore(board[..], playerNum, row);
    }

    /** Negamax with alpha-beta pruning: `low` is what the mover can already
        reach by another move, `high` what the opponent can already hold
        them to. Every move is tried on a fresh copy of the game. */
    method PickMove(state: Connect4Game, depth: int, low: int, high: int) returns (bestMove: Connect4Move)
      requires state.Valid()
      ensures fresh(bestMove)
      ensures Choice(bestMove.value, bestMove.move) == Search(state.Model(), depth, low, high)
      decreases Height(depth), 1
    {
      ghost var pos := state.Model();
      bestMove := new Connect4Move(MIN_VALUE, 0);
      var lo := low;
      var col := 0;
      while bestMove.value < high && col < COLS
        invariant 0 <= col <= COLS
        invariant fresh(bestMove) && state.Model() == pos
        invariant Scan(pos, depth, lo, high, col, Choice(bestMove.value, bestMove.move)) == Search(pos, depth, low, high)
      {
        var valid := state.IsValidMove(col);
        if valid {
          var currentMove := ChildMove(state, depth, lo, high, col);
          if currentMove.value > bestMove.value {
            bestMove := currentMove;
            lo := Max(lo, bestMove.value);
          }
        }
        col := col + 1;
      }
    }

    /** One turn of the column loop of `pickMove`: the move in `col` is
        played on a fresh copy of the game and valued. */
    method ChildMove(state: Connect4Game, depth: int, lo: int, high: int, col: int) returns (currentMove: Connect4Move)
      requires state.Valid() && 0 <= col < COLS
      ensures fresh(currentMove)
      ensures currentMove.value == ChildValue(state.Model(), depth, lo, high, col) && currentMove.move == col
      decreases Height(depth), 0
    {
      ghost var pos := state.Model();
      var board := state.GetBoardArray();
      var playerToMove := state.GetPlayerNum();
      var copy := new Connect4Game.Copy(playerToMove, state.players, board);
      assert board[..CELLS] == board[..];
      copy.MakeMove(col);
      ghost var next := Play(pos, col);
      assert copy.Model() == next && state.Model() == pos;
      var over := copy.GameIsOver();
      if over {
        var score := StaticEval(state);
        currentMove := new Connect4Move(END_MULTIPLIER * score, col);
      } else if depth > 0 {
        currentMove := PickMove(copy, depth - 1, -high, -lo);
        currentMove.value := -currentMove.value;
        currentMove.move := col;
      } else {
        var score := StaticEval(copy);
        currentMove := new Connect4Move(score, col);
      }
    }
  }

  // ---------------------------------------------------------------------
  // Lemmas about the evaluation

  /** A line that holds a cell other than 0 and `p` scores nothing. */
  lemma BlockedScoresNothing(b: seq<int>, p: int, w: seq<int>)
    requires |b| == CELLS && Lines.IsFour(w) && Blocked(b, p, w)
    ensures LineScore(b, p, w) == 0
  {
    var k :| 0 <= k < 4 && b[w[k]] != 0 && b[w[k]] != p;
  }

  /** For either mover index, a line holding the second player's checker
      (value 2) scores nothing. */
  lemma SecondPlayerBlocks(b: seq<int>, p: int, w: seq<int>)
    requires |b| == CELLS && Lines.IsFour(w) && 0 <= p <= 1
    requires b[w[0]] == 2 || b[w[1]] == 2 || b[w[2]] == 2 || b[w[3]] == 2
    ensures LineScore(b, p, w) == 0
  {
    assert Blocked(b, p, w) by {
      if b[w[0]] == 2 { assert b[w[0]] != 0 && b[w[0]] != p; }
      else if b[w[1]] == 2 { assert b[w[1]] != 0 && b[w[1]] != p; }
      else if b[w[2]] == 2 { assert b[w[2]] != 0 && b[w[2]] != p; }
      else { assert b[w[3]] != 0 && b[w[3]] != p; }
    }
    BlockedScoresNothing(b, p, w);
  }

  /** For a nonzero mover index the patterns agree with the counting account. */
  lemma LineScoreByCount(b: seq<int>, p: int, w: seq<int>)
    requires |b| == CELLS && Lines.IsFour(w) && p != 0
    ensures LineScore(b, p, w) == CountedScore(b, p, w)
  {
    assert Lines.PossibleChecker(b, 0) <==> b[0] == 0;
  }

  /** For mover index 0 "mine" and "empty" coincide: an all-empty line
      matches every pattern and scores 321, plus 640 when cell 0 is empty;
      any other line scores nothing. */
  lemma MoverZeroScore(b: seq<int>, w: seq<int>)
    requires |b| == CELLS && Lines.IsFour(w)
    ensures LineScore(b, 0, w) ==
      if CountOf(b, w, 0) == 4 then 321 + (if b[0] == 0 then 640 else 0) else 0
  {
    assert Lines.PossibleChecker(b, 0) <==> b[0] == 0;
  }

  /** A sum of equal line scores. */
  lemma {:induction false} EvalLinesConstant(b: seq<int>, p: int, lines: seq<seq<int>>, k: int)
    requires |b| == CELLS && Lines.AllFour(lines)
    requires forall i :: 0 <= i < |lines| ==> LineScore(b, p, lines[i]) == k
    ensures EvalLines(b, p, lines) == |lines| * k
    decreases |lines|
  {
    if |lines| > 0 {
      var init := lines[..|lines| - 1];
      EvalLinesStep(b, p, lines, |lines| - 1);
      assert lines[..|lines|] == lines;
      EvalLinesConstant(b, p, init, k);
      Lines.MulStep(|lines|, k);
    }
  }

  /** On the empty board the evaluation is 66309 for mover index 0 and 69
      for mover index 1. */
  lemma EmptyBoardEval()
    ensures Eval(EmptyBoard(), 0) == EVAL_MAX
    ensures Eval(EmptyBoard(), 1) == 69
  {
    var b := EmptyBoard();
    Lines.FoursAreFours(b);
    forall i | 0 <= i < 69
      ensures LineScore(b, 0, Lines.Fours()[i]) == LINE_MAX && LineScore(b, 1, Lines.Fours()[i]) == ZERO_VAL
    {
      var w := Lines.Fours()[i];
      MoverZeroScore(b, w);
      assert b[w[0]] == 0 && b[w[1]] == 0 && b[w[2]] == 0 && b[w[3]] == 0 && b[0] == 0;
    }
    EvalLinesConstant(b, 0, Lines.Fours(), LINE_MAX);
    EvalLinesConstant(b, 1, Lines.Fours(), ZERO_VAL);
  }

  // ---------------------------------------------------------------------
  // Lemmas about the search

  /** The scan never lowers the best value it was given. */
  lemma {:induction false} ScanGrows(pos: Position, depth: int, low: int, high: int, col: int, best: Choice)
    requires |pos.board| == CELLS && 0 <= col <= COLS
    ensures Scan(pos, depth, low, high, col, best).value >= best.value
    decreases COLS - col
  {
    if best.value < high && col < COLS {
      if !ValidMoveOn(pos.board, col) {
        ScanGrows(pos, depth, low, high, col + 1, best);
      } else {
        var value := ChildValue(pos, depth, low, high, col);
        if value > best.value {
          ScanGrows(pos, depth, Max(low, value), high, col + 1, Choice(value, col));
        } else {
          ScanGrows(pos, depth, low, high, col + 1, best);
        }
      }
    }
  }

  /** Negating both values turns agreement on [-high, -low] into agreement on [low, high]. */
  lemma ClampNegate(x: int, y: int, low: int, high: int)
    requires low < high && Clamp(x, -high, -low) == Clamp(y, -high, -low)
    ensures Clamp(-x, low, high) == Clamp(-y, low, high)
  {
  }

  /** Alpha-beta is exact inside its window: clamped to [low, high], the
      pruned search and the unpruned reference have the same value. */
  lemma {:induction false} SearchAgrees(pos: Position, depth: int, low: int, high: int)
    requires |pos.board| == CELLS && -MAX_VALUE <= low < high <= MAX_VALUE
    ensures Clamp(Search(pos, depth, low, high).value, low, high) == Clamp(Minimax(pos, depth), low, high)
    decreases Height(depth), 3, 0
  {
    ScanAgrees(pos, depth, low, high, 0, Choice(MIN_VALUE, 0));
  }

  lemma {:induction false} ScanAgrees(pos: Position, depth: int, low: int, high: int, col: int, best: Choice)
    requires |pos.board| == CELLS && 0 <= col <= COLS
    requires -MAX_VALUE <= low < high <= MAX_VALUE && best.value <= low
    ensures Clamp(Scan(pos, depth, low, high, col, best).value, low, high) == Clamp(BestFrom(pos, depth, col), low, high)
    decreases Height(depth), 2, COLS - col
  {
    if col < COLS {
      if !ValidMoveOn(pos.board, col) {
        ScanAgrees(pos, depth, low, high, col + 1, best);
      } else {
        var value := ChildValue(pos, depth, low, high, col);
        ChildAgrees(pos, depth, low, high, col);
        if value > best.value {
          if value >= high {
            assert Scan(pos, depth, Max(low, value), high, col + 1, Choice(value, col)) == Choice(value, col);
          } else {
            ScanAgrees(pos, depth, Max(low, value), high, col + 1, Choice(value, col));
            ScanGrows(pos, depth, Max(low, value), high, col + 1, Choice(value, col));
          }
        } else {
          ScanAgrees(pos, depth, low, high, col + 1, best);
        }
      }
    }
  }

  lemma {:induction false} ChildAgrees(pos: Position, depth: int, low: int, high: int, col: int)
    requires |pos.board| == CELLS && 0 <= col < COLS && -MAX_VALUE <= low < high <= MAX_VALUE
    ensures Clamp(ChildValue(pos, depth, low, high, col), low, high) == Clamp(TrueChild(pos, depth, col), low, high)
    decreases Height(depth), 1, 0
  {
    var next := Play(pos, col);
    if !GameOverOn(next.board) && depth > 0 {
      SearchAgrees(next, depth - 1, -high, -low);
      ClampNegate(Search(next, depth - 1, -high, -low).value, Minimax(next, depth - 1), low, high);
    }
  }

  /** With a window inside the 32-bit range, the search returns the
      placeholder or a valid column with a value within VALUE_MAX; on a
      board that is not full it always returns the latter, so no search
      value it negates is MIN_VALUE. */
  lemma {:induction false} SearchBounds(pos: Position, depth: int, low: int, high: int)
    requires |pos.board| == CELLS
    requires -MAX_VALUE <= low <= MAX_VALUE && -MAX_VALUE <= high <= MAX_VALUE
    ensures Dummy(Search(pos, depth, low, high)) || Good(pos.board, Search(pos, depth, low, high))
    ensures !FullOn(pos.board) ==> Good(pos.board, Search(pos, depth, low, high))
    decreases Height(depth), 3, 0
  {
    ScanBounds(pos, depth, low, high, 0, Choice(MIN_VALUE, 0));
  }

  lemma {:induction false} ScanBounds(pos: Position, depth: int, low: int, high: int, col: int, best: Choice)
    requires |pos.board| == CELLS && 0 <= col <= COLS
    requires -MAX_VALUE <= low <= MAX_VALUE && -MAX_VALUE <= high <= MAX_VALUE
    requires Dummy(best) || Good(pos.board, best)
    ensures Dummy(Scan(pos, depth, low, high, col, best)) || Good(pos.board, Scan(pos, depth, low, high, col, best))
    ensures (Good(pos.board, best) || exists c :: col <= c < COLS && ValidMoveOn(pos.board, c)) ==>
              Good(pos.board, Scan(pos, depth, low, high, col, best))
    decreases Height(depth), 2, COLS - col
  {
    if best.value < high && col < COLS {
      if !ValidMoveOn(pos.board, col) {
        ScanBounds(pos, depth, low, high, col + 1, best);
      } else {
        var value := ChildValue(pos, depth, low, high, col);
        ChildBounds(pos, depth, low, high, col);
        if value > best.value {
          ScanBounds(pos, depth, Max(low, value), high, col + 1, Choice(value, col));
        } else {
          ScanBounds(pos, depth, low, high, col + 1, best);
        }
      }
    }
  }

  lemma {:induction false} ChildBounds(pos: Position, depth: int, low: int, high: int, col: int)
    requires |pos.board| == CELLS && 0 <= col < COLS
    requires -MAX_VALUE <= low <= MAX_VALUE && -MAX_VALUE <= high <= MAX_VALUE
    ensures -VALUE_MAX <= ChildValue(pos, depth, low, high, col) <= VALUE_MAX
    decreases Height(depth), 1, 0
  {
    var next := Play(pos, col);
    if !GameOverOn(next.board) && depth > 0 {
      SearchBounds(next, depth - 1, -high, -low);
    }
  }

  /** BestFrom is the greatest reference value of the valid columns it ranges over. */
  lemma {:induction false} BestFromIsMax(pos: Position, depth: int, col: int)
    requires |pos.board| == CELLS && 0 <= col <= COLS
    ensures forall c :: col <= c < COLS && ValidMoveOn(pos.board, c) ==> TrueChild(pos, depth, c) <= BestFrom(pos, depth, col)
    ensures BestFrom(pos, depth, col) == MIN_VALUE ||
            exists c :: col <= c < COLS && ValidMoveOn(pos.board, c) && TrueChild(pos, depth, c) == BestFrom(pos, depth, col)
    decreases COLS - col
  {
    if col < COLS {
      BestFromIsMax(pos, depth, col + 1);
    }
  }

  /** What the root scan knows once the columns before `col` are examined:
      the placeholder is held only while no valid column was met; otherwise
      the best holds a valid examined column with its exact reference value,
      no examined column exceeds it and no earlier one reaches it. */
  ghost predicate RootSoFar(pos: Position, depth: int, col: int, best: Choice)
    requires |pos.board| == CELLS && 0 <= col <= COLS
  {
    && (Dummy(best) ==> forall c :: 0 <= c < col ==> !ValidMoveOn(pos.board, c))
    && (!Dummy(best) ==> Good(pos.board, best) && best.move < col && TrueChild(pos, depth, best.move) == best.value)
    && forall c :: 0 <= c < col && ValidMoveOn(pos.board, c) ==>
         TrueChild(pos, depth, c) <= best.value && (c < best.move ==> TrueChild(pos, depth, c) < best.value)
  }

  /** What the root search returns: the placeholder on a full board, or
      else a valid column with its exact reference value that no column
      exceeds and no earlier column reaches. */
  ghost predicate RootResult(pos: Position, depth: int, r: Choice)
    requires |pos.board| == CELLS
  {
    || (Dummy(r) && FullOn(pos.board))
    || (&& Good(pos.board, r) && TrueChild(pos, depth, r.move) == r.value
        && forall c :: 0 <= c < COLS && ValidMoveOn(pos.board, c) ==>
             TrueChild(pos, depth, c) <= r.value && (c < r.move ==> TrueChild(pos, depth, c) < r.value))
  }

  lemma RootSkip(pos: Position, depth: int, col: int, best: Choice)
    requires |pos.board| == CELLS && 0 <= col < COLS && RootSoFar(pos, depth, col, best)
    requires !ValidMoveOn(pos.board, col)
    ensures RootSoFar(pos, depth, col + 1, best)
  {
  }

  lemma RootKeep(pos: Position, depth: int, col: int, best: Choice)
    requires |pos.board| == CELLS && 0 <= col < COLS && RootSoFar(pos, depth, col, best)
    requires ValidMoveOn(pos.board, col) && !Dummy(best) && TrueChild(pos, depth, col) <= best.value
    ensures RootSoFar(pos, depth, col + 1, best)
  {
  }

  lemma RootTake(pos: Position, depth: int, col: int, best: Choice, value: int)
    requires |pos.board| == CELLS && 0 <= col < COLS && RootSoFar(pos, depth, col, best)
    requires ValidMoveOn(pos.board, col) && TrueChild(pos, depth, col) == value
    requires best.value < value && -VALUE_MAX <= value <= VALUE_MAX
    ensures RootSoFar(pos, depth, col + 1, Choice(value, col))
  {
  }

  lemma RootDone(pos: Position, depth: int, best: Choice)
    requires |pos.board| == CELLS && RootSoFar(pos, depth, COLS, best)
    ensures RootResult(pos, depth, best)
  {
  }

  /** At the root the window's low end is the best value so far (or the
      bottom of the range), so a child value that agrees with the reference
      inside that window either beats the best and equals the reference, or
      does not and neither does the reference. */
  lemma RootChild(value: int, truth: int, low: int, bestValue: int)
    requires low == Max(-MAX_VALUE, bestValue) && bestValue < MAX_VALUE
    requires -VALUE_MAX <= value <= VALUE_MAX
    requires Clamp(value, low, MAX_VALUE) == Clamp(truth, low, MAX_VALUE)
    ensures value > bestValue ==> truth == value
    ensures value <= bestValue ==> truth <= bestValue && bestValue != MIN_VALUE
  {
  }

  /** The pruned value of a root move, compared with the best so far, tells
      how its reference value compares: a greater pruned value is exact. */
  lemma RootValue(pos: Position, depth: int, low: int, col: int, bestValue: int)
    requires |pos.board| == CELLS && 0 <= col < COLS
    requires low == Max(-MAX_VALUE, bestValue) && bestValue < MAX_VALUE
    ensures var value := ChildValue(pos, depth, low, MAX_VALUE, col);
      && -VALUE_MAX <= value <= VALUE_MAX
      && (value > bestValue ==> TrueChild(pos, depth, col) == value)
      && (value <= bestValue ==> TrueChild(pos, depth, col) <= bestValue && bestValue != MIN_VALUE)
  {
    ChildBounds(pos, depth, low, MAX_VALUE, col);
    ChildAgrees(pos, depth, low, MAX_VALUE, col);
    RootChild(ChildValue(pos, depth, low, MAX_VALUE, col), TrueChild(pos, depth, col), low, bestValue);
  }

  /** The root scan with the full window never cuts off, and ends with
      what RootResult describes. */
  lemma {:induction false} RootScan(pos: Position, depth: int, low: int, col: int, best: Choice)
    requires |pos.board| == CELLS && 0 <= col <= COLS
    requires low == Max(-MAX_VALUE, best.value) && RootSoFar(pos, depth, col, best)
    ensures RootResult(pos, depth, Scan(pos, depth, low, MAX_VALUE, col, best))
    decreases COLS - col, 2
  {
    if col == COLS {
      RootDone(pos, depth, best);
    } else if !ValidMoveOn(pos.board, col) {
      RootSkip(pos, depth, col, best);
      RootScan(pos, depth, low, col + 1, best);
    } else {
      RootScanValid(pos, depth, low, col, best);
    }
  }

  /** RootScan at a valid column. */
  lemma {:induction false} RootScanValid(pos: Position, depth: int, low: int, col: int, best: Choice)
    requires |pos.board| == CELLS && 0 <= col < COLS && ValidMoveOn(pos.board, col)
    requires low == Max(-MAX_VALUE, best.value) && RootSoFar(pos, depth, col, best)
    ensures RootResult(pos, depth, Scan(pos, depth, low, MAX_VALUE, col, best))
    decreases COLS - col, 1
  {
    assert best.value < MAX_VALUE;
    RootValue(pos, depth, low, col, best.value);
    if ChildValue(pos, depth, low, MAX_VALUE, col) > best.value {
      RootScanTake(pos, depth, low, col, best);
    } else {
      RootScanKeep(pos, depth, low, col, best);
    }
  }

  /** RootScan at a valid column whose value beats the best so far. */
  lemma {:induction false} RootScanTake(pos: Position, depth: int, low: int, col: int, best: Choice)
    requires |pos.board| == CELLS && 0 <= col < COLS && ValidMoveOn(pos.board, col)
    requires low == Max(-MAX_VALUE, best.value) && best.value < MAX_VALUE && RootSoFar(pos, depth, col, best)
    requires var value := ChildValue(pos, depth, low, MAX_VALUE, col);
      && best.value < value && -VALUE_MAX <= value <= VALUE_MAX && TrueChild(pos, depth, col) == value
    ensures RootResult(pos, depth, Scan(pos, depth, low, MAX_VALUE, col, best))
    decreases COLS - col, 0
  {
    var value := ChildValue(pos, depth, low, MAX_VALUE, col);
    RootTake(pos, depth, col, best, value);
    RootScan(pos, depth, Max(low, value), col + 1, Choice(value, col));
  }

  /** RootScan at a valid column whose value does not beat the best so far. */
  lemma {:induction false} RootScanKeep(pos: Position, depth: int, low: int, col: int, best: Choice)
    requires |pos.board| == CELLS && 0 <= col < COLS && ValidMoveOn(pos.board, col)
    requires low == Max(-MAX_VALUE, best.value) && best.value < MAX_VALUE && RootSoFar(pos, depth, col, best)
    requires var value := ChildValue(pos, depth, low, MAX_VALUE, col);
      && value <= best.value && TrueChild(pos, depth, col) <= best.value && best.value != MIN_VALUE
    ensures RootResult(pos, depth, Scan(pos, depth, low, MAX_VALUE, col, best))
    decreases COLS - col, 0
  {
    RootKeep(pos, depth, col, best);
    RootScan(pos, depth, low, col + 1, best);
  }

  /** The move `getMove` plays: on a board that is not full it is a valid
      column whose reference value is the position's minimax value, and it
      is the lowest such column; on a full board the search returns the
      placeholder. */
  lemma SearchPicksBestMove(pos: Position, depth: int)
    requires |pos.board| == CELLS
    ensures FullOn(pos.board) ==> Dummy(Search(pos, depth, -MAX_VALUE, MAX_VALUE))
    ensures var r := Search(pos, depth, -MAX_VALUE, MAX_VALUE);
      !FullOn(pos.board) ==>
        && ValidMoveOn(pos.board, r.move)
        && r.value == Minimax(pos, depth)
        && TrueChild(pos, depth, r.move) == r.value
        && forall c :: 0 <= c < r.move && ValidMoveOn(pos.board, c) ==> TrueChild(pos, depth, c) < r.value
  {
    RootScan(pos, depth, -MAX_VALUE, 0, Choice(MIN_VALUE, 0));
    BestFromIsMax(pos, depth, 0);
  }
}
