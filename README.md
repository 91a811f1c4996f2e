# Connect Four engine: a verified Dafny model

This project models the core of a small Java Connect Four program:

- the enumeration of every straight line of `n` cells on the 6 x 7 board (`NInARow`);
- the game state (`Connect4Game`): a flat array of 42 cells holding 0 (empty), 1 (first player) or 2 (second player), plus the index 0 or 1 of the player to move;
- the record a search returns (`Connect4Move`);
- the computer player (`ComputerConnect4Player`):
  - a static evaluation that scores each of the 69 lines of four;
  - a fixed-depth negamax search with alpha-beta pruning that tries every move on a fresh copy of the game.

Modules follow the Java classes:

| module | models |
|---|---|
| `State` | the board dimensions, the display characters and Java's `Integer.MIN_VALUE` / `MAX_VALUE` |
| `Lines` | `NInARow.java` |
| `Game` | `Connect4Game.java` |
| `Moves` | `Connect4Move.java` |
| `Computer` | `ComputerConnect4Player.java` |

Classes whose fields the Java code updates in place are Dafny classes:
- `NInARow`, whose list is a `seq` field the constructor's loops append to;
- `Connect4Game`, which owns an `array<int>` board;
- `Connect4Move`, whose fields `pickMove` overwrites;
- `ComputerConnect4Player`.

Each class method is proved against a function of the board contents:
- `Game.Play` specifies `makeMove`;
- `Game.GameOverOn` specifies `gameIsOver`;
- `Computer.Eval` specifies `staticEval`;
- `Computer.Search` specifies `pickMove`. `Search` is defined column by column exactly as the loop runs: the cut-off test, the three ways a child is valued, the strict improvement test and the raising of `low`.

The properties are then proved about those functions:
- `Minimax` is an unpruned negamax reference, and alpha-beta agrees with it inside its window.
- The root search returns the first valid column of maximal reference value.
- All values stay far from 32-bit overflow.
- The line enumeration is exactly the set of straight runs of four.
- The winning test matches the geometric rule.

The model keeps the program's behaviour as written, including three quirks:

- `staticEval` compares cells with the player *index* (0 or 1), while checkers are stored as 1 and 2.
  - For index 1 it scores the first player's checkers.
  - For index 0 empty cells count as "mine", so only all-empty lines score (321, plus 640 when cell 0 is empty).
  - A line holding a 2 never scores for either index (`SecondPlayerBlocks`, `MoverZeroScore`, `LineScoreByCount`).
- `possibleChecker` is handed the *value* of the gap cell (always 0), so it always tests cell 0. The bonus is therefore earned exactly when cell 0 is empty.
- A move that ends the game is scored from the position *before* the move: `END_MULTIPLIER * staticEval(state)`.

## Model

| member | source | states |
|---|---|---|
| Lines.NInARow.constructor | NInARow.java:22-63 | the list holds, in loop order, the ascending diagonals, the descending diagonals (rows from ROWS - n + 1), the horizontal lines by column then row, and the vertical lines: `AllLines(n, board)` |
| Lines.NInARow.AddBlock | NInARow.java:24-32 | one of the four outer loops appends exactly that direction's block of windows to the list |
| Lines.NInARow.AddRow | NInARow.java:25-31 | one middle loop appends the windows for inner counters 0..InnerLast, in order |
| Lines.NInARow.FillWindow | NInARow.java:26-29 | a fresh array whose cell i is the direction's index formula for counters (outer, inner) |
| Lines.NInARow.GetTotalInARows | NInARow.java:69-71 | returns the list the constructor built for its `n` |
| Lines.AllLinesIgnoresBoard | NInARow.java:22-63 | the board argument of the constructor is never read: any two boards give the same list |
| Lines.LineCounts | NInARow.java:22-63 | for n = 4 there are 12 ascending, 12 descending, 24 horizontal and 21 vertical lines, 69 in all |
| Lines.FoursAreAllLines | NInARow.java:22-63 | for n = 4 the nested loops produce line j of the closed form: the block at offset 0, 12, 24 or 48, with outer counter from the quotient and inner counter from the remainder |
| Lines.LinesAreFours | NInARow.java:22-63 | every line for n = 4 has four entries, each a cell index in [0, 42) |
| Lines.LinesAreRuns | NInARow.java:22-63 | every line of a direction is a straight run of four on-board cells in that direction |
| Lines.RunsAreLines | NInARow.java:22-63 | every straight run of four on-board cells is one of the lines: the enumeration misses nothing |
| Lines.LineSteps | NInARow.java:28-58 | consecutive indices of a line differ by COLS + 1, -(COLS - 1), 1 or COLS, by direction |
| Lines.WindowIsRun | NInARow.java:28-58 | with the descending loop started at row n - 1, a window with counters in range is an on-board run |
| Lines.DescendingLeavesBoardForFive | NInARow.java:34-38 | as written, for n = 5 the list contains a descending window whose fourth index is -4, off the board |
| Lines.FixedLinesAreRuns | NInARow.java:34-42 | with the descending loop started at row n - 1, every window of every length is an on-board run |
| Lines.FixedLinesAgreeAtFour | NInARow.java:34-42 | for n = 4 the corrected loop and the loop as written build the same list |
| Lines.PossibleChecker | NInARow.java:94-105 | a checker can go straight into `index` iff that cell is empty and, above the bottom row, the cell below it holds a checker |
| Game.PlayableIsLanding | NInARow.java:94-105 | on a board obeying gravity, `possibleChecker(index)` holds iff a drop into the index's column lands exactly on that index |
| Game.Connect4Game.Start | Connect4Game.java:26-33 | a fresh all-empty board of ROWS * COLS cells, `playerNum` to move, the given players |
| Game.Connect4Game.Copy | Connect4Game.java:41-55 | a fresh board holding the first ROWS * COLS cells of `initBoard`, `playerNum` to move, the given players |
| Game.Connect4Game.Initialize | Connect4Game.java:45-55 | the game gets a fresh board of ROWS * COLS cells equal to the first ROWS * COLS cells of `initBoard`, then the given mover and the given players |
| Game.Connect4Game.GetBoard | Connect4Game.java:64-83 | a fresh ROWS x COLS grid whose cell (r, c) is EMPTY, CHECKER0 or CHECKER1 as board cell r * COLS + c is 0, 1 or anything else |
| Game.SymbolDistinguishes | Connect4Game.java:69-80 | the cell values 0, 1 and 2 get distinct symbols, so the grid determines the board |
| Game.Connect4Game.GetBoardArray | Connect4Game.java:89-91 | returns the game's own array, not a copy |
| Game.Connect4Game.GetPlayerNum | Connect4Game.java:105-107 | returns the index of the player to move |
| Game.Connect4Game.IsValidMove | Connect4Game.java:122-140 | true iff the column is in range and some row of it holds 0 |
| Game.ValidIffTopEmpty | Connect4Game.java:122-140 | on a board obeying gravity, a column is a valid move iff its top cell is empty |
| Game.Connect4Game.MakeMove | Connect4Game.java:146-161 | the new board and mover are `Play` of the old ones; the array is the same object |
| Game.PlayPlacesLowest | Connect4Game.java:150-159 | on a valid column only the lowest empty cell changes, it receives mover + 1, every cell below it was occupied, and the mover becomes (mover + 1) % 2 |
| Game.PlayFullColumn | Connect4Game.java:150-160 | a move into a full column changes nothing |
| Game.ToggleSwaps | Connect4Game.java:157 | for movers 0 and 1, `(p + 1) % 2` is the other player |
| Game.StartIsReachable | Connect4Game.java:26-33 | the start of a game, with either player to move, obeys gravity with cells in {0, 1, 2} |
| Game.PlayKeepsReachable | Connect4Game.java:146-161 | a move keeps gravity, keeps every cell in {0, 1, 2} and the mover in {0, 1} |
| Game.Connect4Game.IsFull | Connect4Game.java:167-177 | true iff no column is a valid move |
| Game.FullIffNoEmptyCell | Connect4Game.java:167-177 | the board is full iff no cell holds 0 |
| Game.Connect4Game.GameIsOver | Connect4Game.java:183-212 | true iff the board is full or some straight run of four on-board cells holds four 1s or four 2s |
| Game.Connect4Game.FourLines | Connect4Game.java:194-195 | the list built for n = 4 consists of lines of four board indices, and some line holds four equal checkers iff some straight run does |
| Game.RunOnBoardIsRun | Connect4Game.java:183-212 | the run of four in the winning rule stays on the board iff its cells, listed in order, form an on-board straight run as used to check the line enumeration |
| Game.Connect4Game.ScanForFour | Connect4Game.java:196-207 | true iff some line of the list holds four 1s or four 2s |
| Game.FourAmongExists | Connect4Game.java:196-207 | the scan's verdict holds iff some index of the list has four 1s or four 2s |
| Game.LinesDecideFour | Connect4Game.java:193-207 | over the list NInARow builds for n = 4, "some line holds four equal checkers" is the geometric winning rule |
| Game.EmptyBoardNotOver | Connect4Game.java:26-33 | the game the first constructor creates is not over |
| Game.CopyIsIndependent | ComputerConnect4Player.java:231-233 | a scratch copy has its own array: moving in it gives `Play` of the original, and the original board and mover are unchanged |
| Moves.Connect4Move.constructor | Connect4Move.java:15-18 | the record holds the given value and column |
| Computer.ThreeScore | ComputerConnect4Player.java:87-114 | the four three-in-a-row patterns add at most 4 * 64 * 3 |
| Computer.TwoScore | ComputerConnect4Player.java:119-142 | the three adjacent two-in-a-row patterns add at most 3 * 16 * 3 |
| Computer.OneScore | ComputerConnect4Player.java:145-180 | the four one-in-a-row patterns add at most 4 * 4 * 3 |
| Computer.ZeroScore | ComputerConnect4Player.java:186-189 | the empty-line pattern adds at most 1 |
| Computer.LineScore | ComputerConnect4Player.java:79-190 | one line adds between 0 and 961 |
| Computer.EvalLines | ComputerConnect4Player.java:79-190 | the sum over a list of lines is between 0 and 961 per line |
| Computer.Eval | ComputerConnect4Player.java:67-195 | the evaluation lies in [0, 66309] |
| Computer.EvalSumsAllLines | ComputerConnect4Player.java:75-79 | summing over the list NInARow builds for n = 4, in its order, gives `Eval` |
| Computer.ComputerConnect4Player.StaticEval | ComputerConnect4Player.java:67-195 | returns `Eval` of the board for the player to move |
| Computer.ComputerConnect4Player.SumLines | ComputerConnect4Player.java:79-190 | the loop accumulates the line scores of the whole list from 0 |
| Computer.ComputerConnect4Player.AddLineScore | ComputerConnect4Player.java:80-189 | the twelve pattern tests of one pass add exactly that line's score |
| Computer.BlockedScoresNothing | ComputerConnect4Player.java:87-189 | a line with a cell that is neither 0 nor the player index scores nothing |
| Computer.SecondPlayerBlocks | ComputerConnect4Player.java:73-189 | for player index 0 or 1, a line holding a second-player checker (2) scores nothing |
| Computer.LineScoreByCount | ComputerConnect4Player.java:87-189 | for a nonzero index the patterns equal a count-based rule: 3 of mine scores 64, an adjacent 2 scores 16, 1 scores 4 (tripled when cell 0 is empty), 4 empty scores 1, anything else 0 |
| Computer.MoverZeroScore | ComputerConnect4Player.java:87-189 | for index 0 an all-empty line scores 321 (+640 when cell 0 is empty) and every other line scores 0 |
| Computer.EmptyBoardEval | ComputerConnect4Player.java:67-195 | on the empty board the evaluation is 66309 for index 0 and 69 for index 1 |
| Computer.ComputerConnect4Player.WithHorizon | ComputerConnect4Player.java:33-36 | sets the name and the search depth |
| Computer.ComputerConnect4Player.constructor | ComputerConnect4Player.java:42-44 | sets the name; the depth keeps Java's default 0 |
| Computer.ComputerConnect4Player.PickMove | ComputerConnect4Player.java:209-266 | returns a fresh move whose value and column are `Search` of the position with the given depth and window |
| Computer.ComputerConnect4Player.ChildMove | ComputerConnect4Player.java:229-254 | the value of one valid column is `ChildValue`: 100 x the pre-move evaluation if the move ends the game, else the negated child search with window (-high, -low), else the post-move evaluation |
| Computer.ComputerConnect4Player.GetMove | ComputerConnect4Player.java:50-57 | plays the column of the search with window (-MAX_VALUE, MAX_VALUE) |
| Computer.ScanGrows | ComputerConnect4Player.java:227-263 | the column loop never lowers the best value it starts from |
| Computer.ClampNegate | ComputerConnect4Player.java:244-246 | negating a child's value turns agreement on [-high, -low] into agreement on [low, high] |
| Computer.SearchAgrees | ComputerConnect4Player.java:209-266 | alpha-beta is exact inside its window: clamped to [low, high], the pruned value equals the unpruned negamax value |
| Computer.ScanAgrees | ComputerConnect4Player.java:227-263 | from any column, the loop's result clamped to the window equals the best reference value of the remaining valid columns |
| Computer.ChildAgrees | ComputerConnect4Player.java:236-254 | a child's pruned value and reference value agree inside the window |
| Computer.SearchBounds | ComputerConnect4Player.java:209-266 | the search returns the placeholder or a valid column with value within ±6630900, and never the placeholder on a board that is not full, so negation never overflows |
| Computer.ScanBounds | ComputerConnect4Player.java:227-263 | the loop keeps the best as placeholder or a valid in-range column, and replaces the placeholder once any valid column is met |
| Computer.ChildBounds | ComputerConnect4Player.java:236-254 | a child's value lies within ±6630900 |
| Computer.BestFromIsMax | ComputerConnect4Player.java:256-261 | the reference best of the columns from `col` is an upper bound of their values and is attained by one of them, or is MIN_VALUE when none is valid |
| Computer.RootScan | ComputerConnect4Player.java:224-263 | from any column, given an invariant on the columns already scanned, the root loop with the full window ends with the placeholder only on a full board, and otherwise with a valid column whose value is the reference value, at least that of every valid column and greater than that of every earlier one |
| Computer.SearchPicksBestMove | ComputerConnect4Player.java:50-52 | on a board that is not full, the move played is valid, its value is the minimax value of the position, and every earlier valid column is strictly worse; on a full board the search returns the placeholder |

## Findings

| source | as written | input that shows it | evidently intended | confidence | as-written member | corrected member |
|---|---|---|---|---|---|---|
| NInARow.java:34 | the descending-diagonal loop starts at row `ROWS - n + 1` | n = 5: the window from row 2, column 0 holds index -4 | start at row `n - 1`, the lowest row from which a run of n cells can descend | not executed | Lines.DescendingLeavesBoardForFive | Lines.FixedLinesAreRuns |

The two starts coincide only for n = 4, the one length the engine uses. `Lines.FixedLinesAgreeAtFour` proves that the list the rest of the model scans is also the corrected one.

## Left out

- The view (`Connect4View`, `Connect4ViewText`), the human player, the game loop in `Connect4.java` and `NInARow.toString`: user interface and I/O. They are not part of this model.
- Console output: `System.out.println` in `staticEval` and `pickMove`, and `view.reportMove` in `getMove`.
- The view field and the view argument of the first `Connect4Game` constructor: they are only stored.
- `getPlayers` and `getPlayerToMove`: the players are carried as an opaque `array<Player>` that is copied by reference.
- The `Connect4State` interface and the casts to `Connect4Game`: the model takes a `Connect4Game` directly.
- Game.Connect4Game.Initialize: Dafny wants every field set before `new;`, so each constructor first gives the fields provisional values and then calls `Initialize` on the new object, as the Java constructors do.
- `possibleChecker`: modelled as a function of the board contents, since the state serves only to reach the board. Java would throw on an out-of-range index; the model requires the index to be on the board, and the only index the engine ever passes is a cell value, always 0.
- Lines.NInARow.constructor: `n` is a `nat`. For a negative `n` Java throws at `new int[n]` in the first loop; the engine only builds n = 4.
- Game.Connect4Game.Copy: requires `initBoard` to have at least ROWS * COLS cells, and so does `Initialize`. Java throws in the copy loop on a shorter array; the engine only passes game boards.
- Game.Connect4Game.MakeMove: requires a column in [0, COLS). Java throws for a negative column. For a column from 7 to 41 it writes into another column's cell: column 7 fills cell 7, which is row 1 of column 0, when that cell is empty. Every caller checks `isValidMove` first: the text view loops until the move is valid, and `pickMove` tests validity before it moves.
- Java's 32-bit `int`: the model uses unbounded integers. `SearchBounds` and `Eval`'s bounds show that every score and search value stays within ±6630900, so the search never wraps around. `depth - 1` at `Integer.MIN_VALUE` cannot occur, because a negative depth never recurses.
- Loop bodies as helper methods: `pickMove`'s body for one valid column is `ChildMove`, and `staticEval`'s loop is `SumLines` with one pass as `AddLineScore`. The calls happen in the same order as in the source.
- `Eval`: defined over the closed-form list of 69 lines; `EvalSumsAllLines` shows it is the list NInARow builds.
