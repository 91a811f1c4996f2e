/** The state of a Connect Four game (Connect4Game.java): a flat board of
    ROWS * COLS cells holding 0 (empty), 1 (first player) or 2 (second
    player), and the index 0 or 1 of the player to move. */
module Game {
  import opened State
  import Lines

  /** The abstract value of a game: the board's cells and the mover. */
  datatype Position = Position(board: seq<int>, mover: int)

  /** The cell at row `r` (0 is the bottom) and column `c` (0 is the left). */
  function At(b: seq<int>, r: int, c: int): int
    requires |b| == CELLS && 0 <= r < ROWS && 0 <= c < COLS
  {
    b[r * COLS + c]
  }

  /** Java's `%` on `int`: the remainder takes the sign of the dividend. */
  function JavaRem(a: int, m: int): int
    requires m > 0
  {
    if a >= 0 then a % m else -((-a) % m)
  }

  /** The mover after a move: `(p + 1) % 2` in Java arithmetic. */
  function Toggle(p: int): int {
    JavaRem(p + 1, 2)
  }

  /** A move in `col` is valid iff `col` is a column and some cell of it is empty. */
  predicate ValidMoveOn(b: seq<int>, col: int)
    requires |b| == CELLS
  {
    0 <= col < COLS && exists r :: 0 <= r < ROWS && At(b, r, col) == 0
  }

  /** The lowest empty row of column `col` at or above row `r`, or ROWS if
      none. The board is in the decreases clause so that the verifier does
      not unfold a call from a constant row all the way up. */
  function LowestEmptyFrom(b: seq<int>, col: int, r: int): (h: int)
    requires |b| == CELLS && 0 <= col < COLS && 0 <= r <= ROWS
    ensures r <= h <= ROWS
    ensures h < ROWS ==> At(b, h, col) == 0
    ensures forall k :: r <= k < h ==> At(b, k, col) != 0
    decreases ROWS - r, b
  {
    if r == ROWS then ROWS
    else if At(b, r, col) == 0 then r
    else LowestEmptyFrom(b, col, r + 1)
  }

  function LowestEmpty(b: seq<int>, col: int): int
    requires |b| == CELLS && 0 <= col < COLS
  {
    LowestEmptyFrom(b, col, 0)
  }

  /** The position after dropping the mover's checker into `col`: the lowest
      empty cell of the column receives `mover + 1` and the mover toggles; on
      a full column nothing changes. */
  function Play(pos: Position, col: int): (next: Position)
    requires |pos.board| == CELLS && 0 <= col < COLS
    ensures |next.board| == CELLS
  {
    var h := LowestEmpty(pos.board, col);
    if h < ROWS then Position(pos.board[h * COLS + col := pos.mover + 1], Toggle(pos.mover))
    else pos
  }

  /** The board is full iff no column is a valid move. */
  predicate FullOn(b: seq<int>)
    requires |b| == CELLS
  {
    forall c :: 0 <= c < COLS ==> !ValidMoveOn(b, c)
  }

  /** All four cells of line `w` hold `v`. */
  predicate FourOf(b: seq<int>, w: seq<int>, v: int)
    requires |b| == CELLS && Lines.IsFour(w)
  {
    b[w[0]] == v && b[w[1]] == v && b[w[2]] == v && b[w[3]] == v
  }

  /** Some line of `lines` holds four checkers of one player. (The board in
      the decreases clause stops the verifier from unrolling a call on the
      constant list of fours.) */
  predicate HasFourAmong(b: seq<int>, lines: seq<seq<int>>)
    requires |b| == CELLS && Lines.AllFour(lines)
    decreases |lines|, b
  {
    && |lines| > 0
    && var last := lines[|lines| - 1];
       HasFourAmong(b, lines[..|lines| - 1]) || FourOf(b, last, 1) || FourOf(b, last, 2)
  }

  /** The cell `k` steps along direction `d` from row `r`, column `c`. */
  function RunCell(d: Lines.Direction, r: int, c: int, k: int): int {
    (r + k * Lines.RowStep(d)) * COLS + (c + k * Lines.ColStep(d))
  }

  /** The run of four cells from row `r`, column `c` in direction `d` stays on the board. */
  predicate RunOnBoard(d: Lines.Direction, r: int, c: int) {
    && 0 <= r < ROWS && 0 <= r + 3 * Lines.RowStep(d) < ROWS
    && 0 <= c < COLS && 0 <= c + 3 * Lines.ColStep(d) < COLS
  }

  /** All four cells of that run hold `v`. */
  predicate FourInRun(b: seq<int>, d: Lines.Direction, r: int, c: int, v: int)
    requires |b| == CELLS && RunOnBoard(d, r, c)
  {
    b[RunCell(d, r, c, 0)] == v && b[RunCell(d, r, c, 1)] == v &&
    b[RunCell(d, r, c, 2)] == v && b[RunCell(d, r, c, 3)] == v
  }

  /** The winning rule, stated on the board's geometry: some straight run of
      four cells holds four checkers of one player. */
  ghost predicate HasFour(b: seq<int>)
    requires |b| == CELLS
  {
    exists d, r, c :: RunOnBoard(d, r, c) && (FourInRun(b, d, r, c, 1) || FourInRun(b, d, r, c, 2))
  }

  /** The game is over iff the board is full or someone has four in a row. */
  ghost predicate GameOverOn(b: seq<int>)
    requires |b| == CELLS
  {
    FullOn(b) || HasFour(b)
  }

  /** Gravity: an occupied cell above the bottom row rests on an occupied cell. */
  ghost predicate Settled(b: seq<int>)
    requires |b| == CELLS
  {
    forall r, c :: 1 <= r < ROWS && 0 <= c < COLS && At(b, r, c) != 0 ==> At(b, r - 1, c) != 0
  }

  /** Every cell holds 0, 1 or 2. */
  ghost predicate Checkers(b: seq<int>) {
    forall i :: 0 <= i < |b| ==> 0 <= b[i] <= 2
  }

  /** Boards obeying gravity with every cell in {0, 1, 2}, and a mover of 0
      or 1. This includes every position play can reach from the empty
      board, and more: it counts neither checkers nor wins. */
  ghost predicate Reachable(pos: Position) {
    |pos.board| == CELLS && Settled(pos.board) && Checkers(pos.board) && 0 <= pos.mover <= 1
  }

  /** The display symbol of a cell: 0 is EMPTY, 1 is CHECKER0, anything else CHECKER1. */
  function Symbol(v: int): char {
    if v == 0 then EMPTY else if v == 1 then CHECKER0 else CHECKER1
  }

  /** The board of all-empty cells. */
  function EmptyBoard(): (b: seq<int>)
    ensures |b| == CELLS
  {
    seq(CELLS, _ => 0)
  }

  class Connect4Game {
    var board: array<int>
    var playerToMoveNum: int
    var players: array<Player>

    ghost predicate Valid()
      reads this
    {
      board.Length == CELLS
    }

    ghost function Model(): Position
      reads this, board
    {
      Position(board[..], playerToMoveNum)
    }

    /** The game at its start: an all-empty board and `playerNum` to move. */
    constructor Start(playerNum: int, thePlayers: array<Player>)
      ensures Valid() && fresh(board)
      ensures Model() == Position(EmptyBoard(), playerNum)
      ensures players == thePlayers
    {
      var initBoard := new int[CELLS](_ => 0);
      board, playerToMoveNum, players := initBoard, playerNum, thePlayers;
      new;
      Initialize(playerNum, thePlayers, initBoard);
    }

    /** A game whose board is a copy of `initBoard`; the players are shared. */
    constructor Copy(playerNum: int, thePlayers: array<Player>, initBoard: array<int>)
      requires initBoard.Length >= CELLS
      ensures Valid() && fresh(board)
      ensures Model() == Position(initBoard[..CELLS], playerNum)
      ensures players == thePlayers
    {
      board, playerToMoveNum, players := initBoard, playerNum, thePlayers;
      new;
      Initialize(playerNum, thePlayers, initBoard);
    }

    /** A new board of CELLS cells holding the first CELLS cells of
        `initBoard`, then the mover and the players. (The constructors give
        the fields provisional values first, since Dafny wants every field
        set before `new;`.) */
    method Initialize(playerNum: int, thePlayers: array<Player>, initBoard: array<int>)
      requires initBoard.Length >= CELLS
      modifies this
      ensures Valid() && fresh(board)
      ensures Model() == Position(initBoard[..CELLS], playerNum)
      ensures players == thePlayers
    {
      board := new int[CELLS];
      var i := 0;
      while i < board.Length
        invariant fresh(board) && 0 <= i <= board.Length == CELLS
        invariant forall j :: 0 <= j < i ==> board[j] == initBoard[j]
      {
        board[i] := initBoard[i];
        i := i + 1;
      }
      playerToMoveNum := playerNum;
      players := thePlayers;
    }

    /** The board as a ROWS x COLS grid of display symbols, row 0 at the bottom. */
    method GetBoard() returns (boardMatrix: array2<char>)
      requires Valid()
      ensures fresh(boardMatrix)
      ensures boardMatrix.Length0 == ROWS && boardMatrix.Length1 == COLS
      ensures forall r, c :: 0 <= r < ROWS && 0 <= c < COLS ==> boardMatrix[r, c] == Symbol(At(board[..], r, c))
    {
      boardMatrix := new char[ROWS, COLS];
      var r := 0;
      while r < ROWS
        invariant 0 <= r <= ROWS
        invariant forall r', c :: 0 <= r' < r && 0 <= c < COLS ==> boardMatrix[r', c] == Symbol(At(board[..], r', c))
      {
        var c := 0;
        while c < COLS
          invariant 0 <= c <= COLS
          invariant forall r', c' :: 0 <= r' < r && 0 <= c' < COLS ==> boardMatrix[r', c'] == Symbol(At(board[..], r', c'))
          invariant forall c' :: 0 <= c' < c ==> boardMatrix[r, c'] == Symbol(At(board[..], r, c'))
        {
          if board[r * COLS + c] == 0 {
            boardMatrix[r, c] := EMPTY;
          } else if board[r * COLS + c] == 1 {
            boardMatrix[r, c] := CHECKER0;
          } else {
            boardMatrix[r, c] := CHECKER1;
          }
          c := c + 1;
        }
        r := r + 1;
      }
    }

    /** The game's own board array, not a copy: writes through it change the game. */
    function GetBoardArray(): (a: array<int>)
      reads this
      ensures a == board
    {
      board
    }

    /** The index of the player to move. */
    function GetPlayerNum(): (p: int)
      reads this, board
      ensures p == Model().mover
    {
      playerToMoveNum
    }

    method IsValidMove(col: int) returns (ok: bool)
      requires Valid()
      ensures ok == ValidMoveOn(board[..], col)
    {
      if col < 0 || col >= COLS {
        return false;
      }
      var r := 0;
      while r < ROWS
        invariant 0 <= r <= ROWS
        invariant forall k :: 0 <= k < r ==> At(board[..], k, col) != 0
      {
        if board[r * COLS + col] == 0 {
          assert At(board[..], r, col) == 0;
          return true;
        }
        r := r + 1;
      }
      return false;
    }

    /** Drop the mover's checker into `col`, then toggle the mover. */
    method MakeMove(col: int)
      requires Valid() && 0 <= col < COLS
      modifies this`playerToMoveNum, board
      ensures Valid() && board == old(board)
      ensures Model() == Play(old(Model()), col)
    {
      ghost var b := board[..];
      var r := 0;
      while r < ROWS
        invariant 0 <= r <= ROWS
        invariant board[..] == b && playerToMoveNum == old(playerToMoveNum)
        invariant LowestEmpty(b, col) == LowestEmptyFrom(b, col, r)
      {
        if board[r * COLS + col] == 0 {
          board[r * COLS + col] := playerToMoveNum + 1;
          playerToMoveNum := JavaRem(playerToMoveNum + 1, 2);
          return;
        }
        r := r + 1;
      }
    }

    method IsFull() returns (full: bool)
      requires Valid()
      ensures full == FullOn(board[..])
    {
      var c := 0;
      while c < COLS
        invariant 0 <= c <= COLS
        invariant forall k :: 0 <= k < c ==> !ValidMoveOn(board[..], k)
      {
        var valid := IsValidMove(c);
        if valid {
          return false;
        }
        c := c + 1;
      }
      return true;
    }

    method GameIsOver() returns (over: bool)
      requires Valid()
      ensures over == GameOverOn(board[..])
    {
      var full := IsFull();
      if full {
        return true;
      }
      var possibleInARows := FourLines();
      over := ScanForFour(possibleInARows);
    }

    /** The first two statements of `gameIsOver` after the fullness test:
        build NInARow for n = 4 on this board and take its list. Every entry
        is a line of four board indices, and some entry holds four equal
        checkers iff some straight run of four does. */
    method FourLines() returns (possibleInARows: seq<seq<int>>)
      requires Valid()
      ensures Lines.AllFour(possibleInARows)
      ensures HasFourAmong(board[..], possibleInARows) <==> HasFour(board[..])
    {
      ghost var b := board[..];
      var fourInARow := new Lines.NInARow(4, board);
      possibleInARows := fourInARow.GetTotalInARows();
      assert b == board[..];
      LinesDecideFour(b, possibleInARows);
    }

    /** The loop of `gameIsOver` over the lines of four. */
    method ScanForFour(possibleInARows: seq<seq<int>>) returns (over: bool)
      requires Valid() && Lines.AllFour(possibleInARows)
      ensures over == HasFourAmong(board[..], possibleInARows)
    {
      var i := 0;
      while i < |possibleInARows|
        invariant 0 <= i <= |possibleInARows|
        invariant forall k :: 0 <= k < i ==>
          !FourOf(board[..], possibleInARows[k], 1) && !FourOf(board[..], possibleInARows[k], 2)
      {
        var row := possibleInARows[i];
        assert Lines.IsFour(row);
        if (board[row[0]] == 1 && board[row[1]] == 1 && board[row[2]] == 1 && board[row[3]] == 1) ||
           (board[row[0]] == 2 && board[row[1]] == 2 && board[row[2]] == 2 && board[row[3]] == 2)
        {
          assert FourOf(board[..], possibleInARows[i], 1) || FourOf(board[..], possibleInARows[i], 2);
          FourAmongExists(board[..], possibleInARows);
          return true;
        }
        i := i + 1;
      }
      FourAmongExists(board[..], possibleInARows);
      return false;
    }
  }

  /** A copy made for a search branch does not alias the game it copies:
      moving in the copy leaves the original board as it was. */
  method CopyIsIndependent(game: Connect4Game, col: int) returns (copy: Connect4Game)
    requires game.Valid() && 0 <= col < COLS
    ensures fresh(copy) && copy.Valid()
    ensures copy.Model() == Play(game.Model(), col)
    ensures game.board[..] == old(game.board[..]) && game.playerToMoveNum == old(game.playerToMoveNum)
  {
    assert game.board[..CELLS] == game.board[..];
    copy := new Connect4Game.Copy(game.playerToMoveNum, game.players, game.board);
    assert copy.Model() == game.Model();
    copy.MakeMove(col);
  }

  // ---------------------------------------------------------------------
  // Lemmas

  /** Under gravity an occupied cell has occupied cells all the way down. */
  lemma {:induction false} SupportedBelow(b: seq<int>, c: int, r: int)
    requires |b| == CELLS && Settled(b) && 0 <= c < COLS && 0 <= r < ROWS && At(b, r, c) != 0
    ensures forall k :: 0 <= k <= r ==> At(b, k, c) != 0
    decreases r
  {
    if r > 0 {
      SupportedBelow(b, c, r - 1);
    }
  }

  /** Under gravity a column is a valid move iff its top cell is empty. */
  lemma ValidIffTopEmpty(b: seq<int>, col: int)
    requires |b| == CELLS && Settled(b) && 0 <= col < COLS
    ensures ValidMoveOn(b, col) <==> At(b, ROWS - 1, col) == 0
  {
    if At(b, ROWS - 1, col) != 0 {
      SupportedBelow(b, col, ROWS - 1);
    }
  }

  /** On a valid column the move fills exactly the lowest empty cell with
      `mover + 1`, every cell below it was occupied, every other cell keeps
      its value, and the mover toggles. */
  lemma PlayPlacesLowest(pos: Position, col: int)
    requires |pos.board| == CELLS && ValidMoveOn(pos.board, col)
    ensures var h := LowestEmpty(pos.board, col);
      && 0 <= h < ROWS
      && At(pos.board, h, col) == 0
      && (forall k :: 0 <= k < h ==> At(pos.board, k, col) != 0)
      && At(Play(pos, col).board, h, col) == pos.mover + 1
      && (forall i :: 0 <= i < CELLS && i != h * COLS + col ==> Play(pos, col).board[i] == pos.board[i])
      && Play(pos, col).mover == Toggle(pos.mover)
  {
    var r :| 0 <= r < ROWS && At(pos.board, r, col) == 0;
    assert LowestEmpty(pos.board, col) <= r;
  }

  /** On a full column the move changes neither the board nor the mover. */
  lemma PlayFullColumn(pos: Position, col: int)
    requires |pos.board| == CELLS && 0 <= col < COLS && !ValidMoveOn(pos.board, col)
    ensures Play(pos, col) == pos
  {
  }

  /** The mover stays 0 or 1. */
  lemma ToggleSwaps(p: int)
    requires 0 <= p <= 1
    ensures Toggle(p) == 1 - p
  {
  }

  /** The start of a game, with either player to move, is in Reachable. */
  lemma StartIsReachable(p: int)
    requires 0 <= p <= 1
    ensures Reachable(Position(EmptyBoard(), p))
  {
  }

  /** A move keeps gravity, keeps every cell in {0, 1, 2} and the mover in {0, 1}. */
  lemma PlayKeepsReachable(pos: Position, col: int)
    requires Reachable(pos) && 0 <= col < COLS
    ensures Reachable(Play(pos, col))
  {
    var b := pos.board;
    var h := LowestEmpty(b, col);
    if h < ROWS {
      var b' := Play(pos, col).board;
      assert b' == b[h * COLS + col := pos.mover + 1];
      forall r, c | 1 <= r < ROWS && 0 <= c < COLS && At(b', r, c) != 0
        ensures At(b', r - 1, c) != 0
      {
        if c == col && r == h {
          assert At(b, r - 1, c) != 0;
        } else if c == col && r - 1 == h {
          assert At(b', r - 1, c) == pos.mover + 1;
        } else {
          assert At(b', r, c) == At(b, r, c);
          assert At(b', r - 1, c) == At(b, r - 1, c);
        }
      }
    }
  }

  /** A board is full iff no cell of it is empty. */
  lemma FullIffNoEmptyCell(b: seq<int>)
    requires |b| == CELLS
    ensures FullOn(b) <==> forall i :: 0 <= i < CELLS ==> b[i] != 0
  {
    if FullOn(b) {
      forall i | 0 <= i < CELLS ensures b[i] != 0 {
        var r, c := i / COLS, i % COLS;
        assert i == r * COLS + c;
        assert !ValidMoveOn(b, c);
        assert At(b, r, c) == b[i];
      }
    }
    if forall i :: 0 <= i < CELLS ==> b[i] != 0 {
      forall c | 0 <= c < COLS ensures !ValidMoveOn(b, c) {
        forall r | 0 <= r < ROWS ensures At(b, r, c) != 0 {
          assert 0 <= r * COLS + c < CELLS;
        }
      }
    }
  }

  /** "Immediately playable" is where a drop lands: on a reachable board the
      cell `index` passes the test iff dropping into its column fills it. */
  lemma PlayableIsLanding(b: seq<int>, index: int)
    requires |b| == CELLS && Settled(b) && Checkers(b) && 0 <= index < CELLS
    ensures Lines.PossibleChecker(b, index) <==>
              ValidMoveOn(b, index % COLS) && LowestEmpty(b, index % COLS) * COLS + index % COLS == index
  {
    var r, c := index / COLS, index % COLS;
    assert index == r * COLS + c;
    var h := LowestEmpty(b, c);
    if Lines.PossibleChecker(b, index) {
      assert At(b, r, c) == 0;
      if r > 0 {
        assert At(b, r - 1, c) == b[index - COLS];
        SupportedBelow(b, c, r - 1);
      }
      assert h == r;
    }
    if ValidMoveOn(b, c) && h * COLS + c == index {
      assert h == r;
      if r > 0 {
        assert At(b, r - 1, c) == b[index - COLS];
      }
    }
  }

  /** The empty board is not a finished game. */
  lemma EmptyBoardNotOver()
    ensures !GameOverOn(EmptyBoard())
  {
    var b := EmptyBoard();
    assert At(b, 0, 0) == 0;
    assert ValidMoveOn(b, 0);
    forall d, r, c | RunOnBoard(d, r, c)
      ensures !FourInRun(b, d, r, c, 1) && !FourInRun(b, d, r, c, 2)
    {
      assert b[RunCell(d, r, c, 0)] == 0;
    }
  }

  /** HasFourAmong holds exactly when some line of the list, at some
      index, holds four checkers of one player. */
  lemma {:induction false} FourAmongExists(b: seq<int>, lines: seq<seq<int>>)
    requires |b| == CELLS && Lines.AllFour(lines)
    ensures HasFourAmong(b, lines) <==>
            exists i :: 0 <= i < |lines| && (FourOf(b, lines[i], 1) || FourOf(b, lines[i], 2))
    decreases |lines|
  {
    if |lines| > 0 {
      var init := lines[..|lines| - 1];
      FourAmongExists(b, init);
      assert forall i :: 0 <= i < |init| ==> init[i] == lines[i];
    }
  }

  /** The run of the winning rule is the straight run of Lines.IsRun: a
      run of four from (r, c) stays on the board iff its four cells, listed
      in order, form an on-board run in that direction. */
  lemma RunOnBoardIsRun(d: Lines.Direction, r: int, c: int)
    ensures RunOnBoard(d, r, c) <==> Lines.IsRun(seq(4, k => RunCell(d, r, c, k)), d, r, c)
  {
    var w := seq(4, k => RunCell(d, r, c, k));
    if Lines.IsRun(w, d, r, c) {
      assert 0 <= r + 0 * Lines.RowStep(d) < ROWS && 0 <= c + 0 * Lines.ColStep(d) < COLS;
      assert 0 <= r + 3 * Lines.RowStep(d) < ROWS && 0 <= c + 3 * Lines.ColStep(d) < COLS;
    }
    if RunOnBoard(d, r, c) {
      forall i | 0 <= i < 4
        ensures 0 <= r + i * Lines.RowStep(d) < ROWS && 0 <= c + i * Lines.ColStep(d) < COLS
      {
        match d
        case Ascending =>
        case Descending =>
        case Horizontal =>
        case Vertical =>
      }
    }
  }

  /** Line `j` of the closed-form list of fours is the straight run of
      four from some cell in some direction. */
  lemma FourIsRun(j: int) returns (d: Lines.Direction, r: int, c: int)
    requires 0 <= j < 69
    ensures RunOnBoard(d, r, c)
    ensures forall k :: 0 <= k < 4 ==> Lines.FourAt(j)[k] == RunCell(d, r, c, k)
  {
    if j < 12 {
      d, r, c := Lines.Ascending, j / 4, j % 4;
    } else if j < 24 {
      d, r, c := Lines.Descending, 3 + (j - 12) / 4, (j - 12) % 4;
    } else if j < 48 {
      d, r, c := Lines.Horizontal, (j - 24) % 6, (j - 24) / 6;
    } else {
      d, r, c := Lines.Vertical, (j - 48) % 3, (j - 48) / 3;
    }
  }

  /** Every straight run of four on the board is a line of the closed-form
      list of fours. */
  lemma RunIsFourAt(d: Lines.Direction, r: int, c: int) returns (j: int)
    requires RunOnBoard(d, r, c)
    ensures 0 <= j < 69
    ensures forall k :: 0 <= k < 4 ==> Lines.FourAt(j)[k] == RunCell(d, r, c, k)
  {
    match d
    case Ascending =>
      j := r * 4 + c;
      Lines.DivModOf(j, r, c, 4);
    case Descending =>
      j := 12 + (r - 3) * 4 + c;
      Lines.DivModOf(j - 12, r - 3, c, 4);
    case Horizontal =>
      j := 24 + c * 6 + r;
      Lines.DivModOf(j - 24, c, r, 6);
    case Vertical =>
      j := 48 + c * 3 + r;
      Lines.DivModOf(j - 48, c, r, 3);
  }

  /** Scanning the closed-form list of fours decides the winning rule. */
  lemma FoursDecideFour(b: seq<int>, lines: seq<seq<int>>)
    requires |b| == CELLS && lines == Lines.Fours()
    ensures Lines.AllFour(lines)
    ensures HasFourAmong(b, lines) <==> HasFour(b)
  {
    Lines.FoursAreFours(b);
    FourAmongExists(b, lines);
    if HasFourAmong(b, lines) {
      var i :| 0 <= i < |lines| && (FourOf(b, lines[i], 1) || FourOf(b, lines[i], 2));
      var d, r, c := FourIsRun(i);
      assert FourInRun(b, d, r, c, 1) || FourInRun(b, d, r, c, 2);
    }
    if HasFour(b) {
      var d, r, c :| RunOnBoard(d, r, c) && (FourInRun(b, d, r, c, 1) || FourInRun(b, d, r, c, 2));
      var j := RunIsFourAt(d, r, c);
      assert FourOf(b, lines[j], 1) || FourOf(b, lines[j], 2);
    }
  }

  /** Scanning the lines NInARow enumerates for n = 4 decides the winning
      rule: some line holds four equal checkers iff some straight run of four
      does. */
  lemma LinesDecideFour(b: seq<int>, lines: seq<seq<int>>)
    requires |b| == CELLS && lines == Lines.AllLines(4, b)
    ensures Lines.AllFour(lines)
    ensures HasFourAmong(b, lines) <==> HasFour(b)
  {
    Lines.FoursAreAllLines(b);
    FoursDecideFour(b, lines);
  }

  /** Distinct cell values 0, 1, 2 are shown with distinct symbols, so the
      grid returned by GetBoard determines the board. */
  lemma SymbolDistinguishes(v: int, v': int)
    requires 0 <= v <= 2 && 0 <= v' <= 2 && Symbol(v) == Symbol(v')
    ensures v == v'
  {
  }
}
