/** The line geometry of the board (NInARow.java): every straight window of
    `n` cells, as flat indices `row * COLS + col`, in the order the source's
    four nested loops produce them, and the "immediately playable" test. */
module Lines {
  import opened State

  /** The four directions a line can run in, in the order they are listed. */
  datatype Direction = Ascending | Descending | Horizontal | Vertical

  /** The index the source computes for cell `i` of the window whose loop
      counters are `outer` (first loop) and `inner` (second loop). Ascending
      and descending diagonals loop over rows then columns; horizontal and
      vertical lines loop over columns then rows. */
  function CellIndex(d: Direction, outer: int, inner: int, i: int): int {
    match d
    case Ascending => (outer + i) * COLS + (inner + i)
    case Descending => (outer - i) * COLS + (inner + i)
    case Horizontal => inner * COLS + outer + i
    case Vertical => (inner + i) * COLS + outer
  }

  /** The `n` indices of one window, as the innermost loop fills them in. */
  function Window(d: Direction, n: nat, outer: int, inner: int): (w: seq<int>)
    ensures |w| == n
  {
    seq(n, i => CellIndex(d, outer, inner, i))
  }

  /** First value of the outer loop counter, as written in the source. */
  function OuterFirst(d: Direction, n: nat): int {
    match d
    case Descending => ROWS - n + 1
    case _ => 0
  }

  /** Last value (inclusive) of the outer loop counter. */
  function OuterLast(d: Direction, n: nat): int {
    match d
    case Ascending => ROWS - n
    case Descending => ROWS - 1
    case Horizontal => COLS - n
    case Vertical => COLS - 1
  }

  /** Last value (inclusive) of the inner loop counter; it always starts at 0. */
  function InnerLast(d: Direction, n: nat): int {
    match d
    case Ascending => COLS - n
    case Descending => COLS - n
    case Horizontal => ROWS - 1
    case Vertical => ROWS - n
  }

  /** Windows produced for one value of the outer counter, inner counter in
      [0, k). The board is listed in the decreases clause only so that the
      verifier does not unfold a call with constant counters all the way. */
  function RowOf(d: Direction, n: nat, outer: int, k: int, board: seq<int>): seq<seq<int>>
    decreases k, board
  {
    if k <= 0 then [] else RowOf(d, n, outer, k - 1, board) + [Window(d, n, outer, k - 1)]
  }

  /** Windows produced while the outer counter runs over [lo, k); the board
      is in the decreases clause for the same reason as in RowOf. */
  function BlockOf(d: Direction, n: nat, lo: int, k: int, board: seq<int>): seq<seq<int>>
    decreases k - lo, board
  {
    if k <= lo then [] else BlockOf(d, n, lo, k - 1, board) + RowOf(d, n, k - 1, InnerLast(d, n) + 1, board)
  }

  /** All windows of one direction, in nested-loop order. */
  function Block(d: Direction, n: nat, board: seq<int>): seq<seq<int>> {
    BlockOf(d, n, OuterFirst(d, n), OuterLast(d, n) + 1, board)
  }

  /** The whole list: ascending, descending, horizontal, then vertical. */
  function AllLines(n: nat, board: seq<int>): seq<seq<int>> {
    Block(Ascending, n, board) + Block(Descending, n, board) + Block(Horizontal, n, board) + Block(Vertical, n, board)
  }

  /** Builds and holds the list of all `n`-in-a-row windows. */
  class NInARow {
    var totalInARows: seq<seq<int>>
    ghost const n: nat
    /** The contents of the board the list was built for. */
    ghost const origin: seq<int>

    ghost predicate Valid()
      reads this
    {
      totalInARows == AllLines(n, origin)
    }

    /** The list built for `n` and `board`; AllLinesIgnoresBoard shows that
        `board` plays no part in it. */
    constructor (n: nat, board: array<int>)
      ensures Valid() && this.n == n && origin == board[..]
      ensures totalInARows == AllLines(n, board[..])
    {
      this.n := n;
      origin := board[..];
      totalInARows := [];
      new;
      AddBlock(Ascending, n, origin);
      ghost var t1 := totalInARows;
      AddBlock(Descending, n, origin);
      ghost var t2 := totalInARows;
      AddBlock(Horizontal, n, origin);
      ghost var t3 := totalInARows;
      AddBlock(Vertical, n, origin);
      assert t1 == [] + Block(Ascending, n, origin);
      assert t2 == t1 + Block(Descending, n, origin);
      assert t3 == t2 + Block(Horizontal, n, origin);
      assert totalInARows == t3 + Block(Vertical, n, origin);
      EmptyConcat(Block(Ascending, n, origin));
    }

    /** One of the constructor's four nested loops: for every value of the
        outer counter, run the inner loop. */
    method AddBlock(d: Direction, n: nat, ghost board: seq<int>)
      modifies this`totalInARows
      ensures totalInARows == old(totalInARows) + Block(d, n, board)
    {
      var first, last := OuterFirst(d, n), OuterLast(d, n);
      var outer := first;
      while outer <= last
        invariant first <= outer <= last + 1 || outer == first
        invariant totalInARows == old(totalInARows) + BlockOf(d, n, first, outer, board)
      {
        ghost var done := BlockOf(d, n, first, outer, board);
        ghost var row := RowOf(d, n, outer, InnerLast(d, n) + 1, board);
        AddRow(d, n, outer, board);
        assert BlockOf(d, n, first, outer + 1, board) == done + row;
        ConcatAssoc(old(totalInARows), done, row);
        outer := outer + 1;
      }
      if outer != last + 1 {
        assert BlockOf(d, n, first, last + 1, board) == [];
      }
    }

    /** The middle loop: for every value of the inner counter, fill a fresh
        window and append it. */
    method AddRow(d: Direction, n: nat, outer: int, ghost board: seq<int>)
      modifies this`totalInARows
      ensures totalInARows == old(totalInARows) + RowOf(d, n, outer, InnerLast(d, n) + 1, board)
    {
      var inner := 0;
      while inner <= InnerLast(d, n)
        invariant 0 <= inner <= InnerLast(d, n) + 1 || inner == 0
        invariant totalInARows == old(totalInARows) + RowOf(d, n, outer, inner, board)
      {
        var inARow := FillWindow(d, n, outer, inner);
        assert RowOf(d, n, outer, inner + 1, board) == RowOf(d, n, outer, inner, board) + [inARow[..]];
        ConcatAssoc(old(totalInARows), RowOf(d, n, outer, inner, board), [inARow[..]]);
        totalInARows := totalInARows + [inARow[..]];
        inner := inner + 1;
      }
      assert RowOf(d, n, outer, inner, board) == RowOf(d, n, outer, InnerLast(d, n) + 1, board);
    }

    /** The innermost loop: a fresh array holding the window's indices. */
    static method FillWindow(d: Direction, n: nat, outer: int, inner: int) returns (inARow: array<int>)
      ensures fresh(inARow)
      ensures inARow[..] == Window(d, n, outer, inner)
    {
      inARow := new int[n];
      var i := 0;
      while i < n
        invariant 0 <= i <= n
        invariant forall j :: 0 <= j < i ==> inARow[j] == CellIndex(d, outer, inner, j)
      {
        inARow[i] := CellIndex(d, outer, inner, i);
        i := i + 1;
      }
    }

    /** The list built by the constructor. */
    function GetTotalInARows(): (lines: seq<seq<int>>)
      reads this
      requires Valid()
      ensures lines == AllLines(n, origin)
    {
      totalInARows
    }
  }

  /** Can a checker be dropped straight into `index` now? Above the bottom
      row the cell underneath must hold a checker and `index` itself be empty; in
      the bottom row `index` only has to be empty. */
  function PossibleChecker(board: seq<int>, index: int): (ok: bool)
    requires 0 <= index < |board|
    ensures ok <==> board[index] == 0 && (index >= COLS ==> board[index - COLS] > 0)
  {
    if index >= COLS then board[index - COLS] > 0 && board[index] == 0
    else board[index] == 0
  }

  // ---------------------------------------------------------------------
  // Geometry of the windows, independent of the loop counters.

  function RowStep(d: Direction): int {
    match d
    case Ascending => 1
    case Descending => -1
    case Horizontal => 0
    case Vertical => 1
  }

  function ColStep(d: Direction): int {
    match d
    case Vertical => 0
    case _ => 1
  }

  /** Difference between consecutive indices of a line in direction `d`. */
  function Step(d: Direction): int {
    RowStep(d) * COLS + ColStep(d)
  }

  /** `w` lists the cells of a straight run in direction `d` that starts at
      row `r`, column `c`, and every one of them lies on the board. */
  ghost predicate IsRun(w: seq<int>, d: Direction, r: int, c: int) {
    forall i :: 0 <= i < |w| ==>
      && 0 <= r + i * RowStep(d) < ROWS
      && 0 <= c + i * ColStep(d) < COLS
      && w[i] == (r + i * RowStep(d)) * COLS + (c + i * ColStep(d))
  }

  /** A window of four indices that all lie on the board. */
  predicate IsFour(w: seq<int>) {
    |w| == 4 && forall k :: 0 <= k < 4 ==> 0 <= w[k] < CELLS
  }
  /** Every line of `lines` is a window of four board indices. */
  predicate AllFour(lines: seq<seq<int>>) {
    forall i :: 0 <= i < |lines| ==> IsFour(lines[i])
  }


  /** Where the outer counter of a descending window has to start for the
      whole run to stay on the board: row n - 1. */
  function RunFirst(d: Direction, n: nat): int {
    match d
    case Descending => n - 1
    case _ => 0
  }

  /** One direction's windows with the outer counter started at RunFirst. */
  function FixedBlock(d: Direction, n: nat, board: seq<int>): seq<seq<int>> {
    BlockOf(d, n, RunFirst(d, n), OuterLast(d, n) + 1, board)
  }

  /** The enumeration with the descending loop starting at row n - 1; the
      other three directions are as written. */
  function FixedLines(n: nat, board: seq<int>): seq<seq<int>> {
    Block(Ascending, n, board) + FixedBlock(Descending, n, board) + Block(Horizontal, n, board) + Block(Vertical, n, board)
  }

  // ---------------------------------------------------------------------
  // Lemmas

  lemma EmptyConcat<T>(s: seq<T>)
    ensures [] + s == s
  {
  }

  lemma ConcatAssoc<T>(a: seq<T>, b: seq<T>, c: seq<T>)
    ensures (a + b) + c == a + (b + c)
  {
  }

  /** The row for one outer value holds the windows for inner counters
      0 .. k - 1, in that order. */
  lemma {:induction false} RowOfShape(d: Direction, n: nat, outer: int, k: int, board: seq<int>)
    ensures |RowOf(d, n, outer, k, board)| == if k <= 0 then 0 else k
    ensures forall j :: 0 <= j < |RowOf(d, n, outer, k, board)| ==> RowOf(d, n, outer, k, board)[j] == Window(d, n, outer, j)
    decreases k
  {
    if k > 0 {
      RowOfShape(d, n, outer, k - 1, board);
    }
  }

  /** Each block has (number of outer values) * (number of inner values) windows. */
  lemma {:induction false} BlockOfLength(d: Direction, n: nat, lo: int, k: int, board: seq<int>)
    requires InnerLast(d, n) + 1 >= 0
    ensures |BlockOf(d, n, lo, k, board)| == if k <= lo then 0 else (k - lo) * (InnerLast(d, n) + 1)
    decreases k - lo
  {
    if k > lo {
      var w := InnerLast(d, n) + 1;
      var prev := BlockOf(d, n, lo, k - 1, board);
      var row := RowOf(d, n, k - 1, w, board);
      assert BlockOf(d, n, lo, k, board) == prev + row;
      BlockOfLength(d, n, lo, k - 1, board);
      RowOfShape(d, n, k - 1, w, board);
      assert |row| == w;
      RowsStep(lo, k, w, |prev|);
    }
  }

  /** One more row of `w` windows after the rows [lo, k - 1). */
  lemma RowsStep(lo: int, k: int, w: int, len: int)
    requires k > lo && len == if k - 1 <= lo then 0 else (k - 1 - lo) * w
    ensures len + w == (k - lo) * w
  {
    if k - 1 > lo {
      MulStep(k - lo, w);
    }
  }

  /** The rows [lo, k - 1) before the last row of a non-empty block. */
  lemma RowsBefore(lo: int, k: int, w: int, len: int)
    requires k > lo && len == if k - 1 <= lo then 0 else (k - 1 - lo) * w
    ensures len == (k - 1 - lo) * w
  {
  }

  lemma MulStep(a: int, w: int)
    ensures a * w == (a - 1) * w + w
  {
  }

  /** Every window of a block comes from an outer value in [lo, k) and an
      inner value in [0, InnerLast]. */
  lemma {:induction false} BlockOfMember(d: Direction, n: nat, lo: int, k: int, j: int, board: seq<int>)
    requires 0 <= j < |BlockOf(d, n, lo, k, board)|
    ensures exists o, i :: lo <= o < k && 0 <= i <= InnerLast(d, n) && BlockOf(d, n, lo, k, board)[j] == Window(d, n, o, i)
    decreases k - lo
  {
    var prev := BlockOf(d, n, lo, k - 1, board);
    var row := RowOf(d, n, k - 1, InnerLast(d, n) + 1, board);
    assert BlockOf(d, n, lo, k, board) == prev + row;
    if j < |prev| {
      BlockOfMember(d, n, lo, k - 1, j, board);
      var o, i :| lo <= o < k - 1 && 0 <= i <= InnerLast(d, n) && prev[j] == Window(d, n, o, i);
      assert BlockOf(d, n, lo, k, board)[j] == Window(d, n, o, i);
    } else {
      RowOfShape(d, n, k - 1, InnerLast(d, n) + 1, board);
      assert BlockOf(d, n, lo, k, board)[j] == Window(d, n, k - 1, j - |prev|);
    }
  }

  /** Conversely every (outer, inner) pair in range yields a window of the
      block, at position (o - lo) * w + i where w = InnerLast + 1. */
  lemma BlockOfHas(d: Direction, n: nat, lo: int, k: int, o: int, i: int, board: seq<int>)
    requires lo <= o < k && 0 <= i <= InnerLast(d, n)
    ensures Window(d, n, o, i) in BlockOf(d, n, lo, k, board)
  {
    var w := InnerLast(d, n) + 1;
    assert 0 <= i < w;
    var j := (o - lo) * w + i;
    SlotInBlock(o - lo, k - lo, w, i);
    var block := BlockOf(d, n, lo, k, board);
    BlockOfLength(d, n, lo, k, board);
    assert j < |block|;
    BlockOfIndex(d, n, lo, k, w, j, board);
    assert lo + j / w == o && j % w == i;
    assert block[j] == Window(d, n, o, i);
  }

  /** Slot `i` of row `a` in a block of `b` rows of `w` slots lies inside
      the block and is found again by division and remainder. */
  lemma SlotInBlock(a: int, b: int, w: int, i: int)
    requires 0 <= a < b && 0 <= i < w
    ensures 0 <= a * w + i < b * w
    ensures (a * w + i) / w == a && (a * w + i) % w == i
  {
    MulStep(a + 1, w);
    MulSub(b, a + 1, w);
    MulAtLeast(1, w);
    if a + 1 < b {
      MulAtLeast(b - (a + 1), w);
    }
    DivModOf(a * w + i, a, i, w);
  }

  /** Euclidean division is unique: the quotient and remainder are the only
      pair that rebuilds `j`. */
  lemma DivModOf(j: int, q: int, r: int, w: int)
    requires w > 0 && 0 <= r < w && j == q * w + r
    ensures j / w == q && j % w == r
  {
    var q', r' := j / w, j % w;
    assert j == q' * w + r' && 0 <= r' < w;
    if q' < q {
      MulAtLeast(q - q', w);
      MulSub(q, q', w);
    } else if q < q' {
      MulAtLeast(q' - q, w);
      MulSub(q', q, w);
    }
  }

  lemma MulSub(a: int, c: int, w: int)
    ensures (a - c) * w == a * w - c * w
  {
  }

  lemma MulAtLeast(a: int, w: int)
    requires a >= 1 && w > 0
    ensures a * w >= w
  {
  }

  /** Indexing into a concatenation, on either side of the seam. */
  lemma ConcatIndex<T>(a: seq<T>, b: seq<T>, j: int)
    requires 0 <= j < |a| + |b|
    ensures (a + b)[j] == if j < |a| then a[j] else b[j - |a|]
  {
  }

  /** Window `j` of a block has outer counter lo + j / w and inner counter
      j % w, where w, the number of inner values, is InnerLast + 1. */
  lemma {:induction false} BlockOfIndex(d: Direction, n: nat, lo: int, k: int, w: int, j: int, board: seq<int>)
    requires w == InnerLast(d, n) + 1 && w > 0 && 0 <= j < |BlockOf(d, n, lo, k, board)|
    ensures BlockOf(d, n, lo, k, board)[j] == Window(d, n, lo + j / w, j % w)
    decreases k - lo
  {
    var prev := BlockOf(d, n, lo, k - 1, board);
    var row := RowOf(d, n, k - 1, w, board);
    assert BlockOf(d, n, lo, k, board) == prev + row;
    ConcatIndex(prev, row, j);
    if j < |prev| {
      BlockOfIndex(d, n, lo, k - 1, w, j, board);
    } else {
      assert k > lo;
      var i := j - |prev|;
      assert |prev| == (k - 1 - lo) * w by {
        BlockOfLength(d, n, lo, k - 1, board);
        RowsBefore(lo, k, w, |prev|);
      }
      assert i < w && row[i] == Window(d, n, k - 1, i) by {
        RowOfShape(d, n, k - 1, w, board);
      }
      DivModOf(j, k - 1 - lo, i, w);
    }
  }

  /** For n = 4 the list has exactly 69 lines: 12 ascending diagonals, 12
      descending diagonals, 24 horizontal and 21 vertical lines. */
  lemma LineCounts(board: seq<int>)
    ensures |Block(Ascending, 4, board)| == 12
    ensures |Block(Descending, 4, board)| == 12
    ensures |Block(Horizontal, 4, board)| == 24
    ensures |Block(Vertical, 4, board)| == 21
    ensures |AllLines(4, board)| == 69
  {
    BlockOfLength(Ascending, 4, OuterFirst(Ascending, 4), OuterLast(Ascending, 4) + 1, board);
    BlockOfLength(Descending, 4, OuterFirst(Descending, 4), OuterLast(Descending, 4) + 1, board);
    BlockOfLength(Horizontal, 4, OuterFirst(Horizontal, 4), OuterLast(Horizontal, 4) + 1, board);
    BlockOfLength(Vertical, 4, OuterFirst(Vertical, 4), OuterLast(Vertical, 4) + 1, board);
  }

  /** Line `i` of one direction's block for n = 4, in closed form: the
      outer counter is OuterFirst plus the quotient, and the inner counter
      the remainder, of `i` by the number of inner values. */
  function BlockLine(d: Direction, i: int): (w: seq<int>)
    ensures |w| == 4
  {
    Window(d, 4, OuterFirst(d, 4) + i / (InnerLast(d, 4) + 1), i % (InnerLast(d, 4) + 1))
  }

  /** Line `j` of the n = 4 list in closed form: the four directions fill
      consecutive blocks of 12, 12, 24 and 21 lines. */
  function FourAt(j: int): (w: seq<int>)
    ensures |w| == 4
  {
    if j < 12 then BlockLine(Ascending, j)
    else if j < 24 then BlockLine(Descending, j - 12)
    else if j < 48 then BlockLine(Horizontal, j - 24)
    else BlockLine(Vertical, j - 48)
  }

  /** The n = 4 list in closed form, line by line. */
  function Fours(): (lines: seq<seq<int>>)
    ensures |lines| == 69
  {
    seq(69, FourAt)
  }

  /** Line `j` of one direction's block, for n = 4, is BlockLine(d, j). */
  lemma BlockAt(d: Direction, j: int, board: seq<int>)
    requires 0 <= j < |Block(d, 4, board)|
    ensures Block(d, 4, board)[j] == BlockLine(d, j)
  {
    BlockOfIndex(d, 4, OuterFirst(d, 4), OuterLast(d, 4) + 1, InnerLast(d, 4) + 1, j, board);
  }

  /** Each direction's block is the slice of the closed form that starts at
      its offset: 0, 12, 24 and 48. */
  lemma BlockIsSlice(d: Direction, base: int, board: seq<int>)
    requires (d == Ascending && base == 0) || (d == Descending && base == 12)
          || (d == Horizontal && base == 24) || (d == Vertical && base == 48)
    ensures base + |Block(d, 4, board)| <= 69
    ensures Block(d, 4, board) == Fours()[base .. base + |Block(d, 4, board)|]
  {
    LineCounts(board);
    forall j | 0 <= j < |Block(d, 4, board)|
      ensures Block(d, 4, board)[j] == FourAt(base + j)
    {
      BlockAt(d, j, board);
      assert FourAt(base + j) == BlockLine(d, j);
    }
  }

  /** The closed form and the nested loops produce the same list. */
  lemma FoursAreAllLines(board: seq<int>)
    ensures AllLines(4, board) == Fours()
  {
    LineCounts(board);
    BlockIsSlice(Ascending, 0, board);
    BlockIsSlice(Descending, 12, board);
    BlockIsSlice(Horizontal, 24, board);
    BlockIsSlice(Vertical, 48, board);
    JoinSlices(Fours(), Block(Ascending, 4, board), Block(Descending, 4, board),
               Block(Horizontal, 4, board), Block(Vertical, 4, board));
  }

  /** Four consecutive slices that cover `s` concatenate back to `s`. */
  lemma JoinSlices<T>(s: seq<T>, p: seq<T>, q: seq<T>, u: seq<T>, v: seq<T>)
    requires |p| + |q| + |u| + |v| == |s|
    requires p == s[0..|p|] && q == s[|p|..|p| + |q|]
    requires u == s[|p| + |q|..|p| + |q| + |u|] && v == s[|p| + |q| + |u|..|s|]
    ensures p + q + u + v == s
  {
    assert p + q + u + v == s[0..|p|] + s[|p|..|p| + |q|] + s[|p| + |q|..|p| + |q| + |u|] + s[|p| + |q| + |u|..|s|];
  }

  /** Line `i` of a block in closed form is four board indices. */
  lemma BlockLineIsFour(d: Direction, i: int, board: seq<int>)
    requires 0 <= i < |Block(d, 4, board)|
    ensures IsFour(BlockLine(d, i))
  {
    BlockAt(d, i, board);
    var w := Block(d, 4, board)[i];
    var o, inner := LineOrigin(d, w, board);
    WindowIsRun(d, 4, o, inner);
    RunIsFour(w, d, StartRow(d, o, inner), StartCol(d, o, inner));
  }

  /** Every line of the closed form has four board indices. */
  lemma FoursAreFours(board: seq<int>)
    ensures AllFour(Fours())
  {
    LineCounts(board);
    forall j | 0 <= j < 69 ensures IsFour(Fours()[j]) {
      if j < 12 {
        BlockLineIsFour(Ascending, j, board);
        assert Fours()[j] == BlockLine(Ascending, j);
      } else if j < 24 {
        BlockLineIsFour(Descending, j - 12, board);
        assert Fours()[j] == BlockLine(Descending, j - 12);
      } else if j < 48 {
        BlockLineIsFour(Horizontal, j - 24, board);
        assert Fours()[j] == BlockLine(Horizontal, j - 24);
      } else {
        BlockLineIsFour(Vertical, j - 48, board);
        assert Fours()[j] == BlockLine(Vertical, j - 48);
      }
    }
  }

  /** Row and column where the window with counters (outer, inner) starts. */
  function StartRow(d: Direction, outer: int, inner: int): int {
    match d
    case Ascending => outer
    case Descending => outer
    case Horizontal => inner
    case Vertical => inner
  }

  function StartCol(d: Direction, outer: int, inner: int): int {
    match d
    case Ascending => inner
    case Descending => inner
    case Horizontal => outer
    case Vertical => outer
  }

  /** A window whose counters are in range, with the descending loop started
      at row n - 1, is a straight run that stays on the board. */
  lemma WindowIsRun(d: Direction, n: nat, o: int, i: int)
    requires RunFirst(d, n) <= o <= OuterLast(d, n) && 0 <= i <= InnerLast(d, n)
    ensures IsRun(Window(d, n, o, i), d, StartRow(d, o, i), StartCol(d, o, i))
  {
    var w := Window(d, n, o, i);
    forall t | 0 <= t < n
      ensures 0 <= StartRow(d, o, i) + t * RowStep(d) < ROWS
      ensures 0 <= StartCol(d, o, i) + t * ColStep(d) < COLS
      ensures w[t] == (StartRow(d, o, i) + t * RowStep(d)) * COLS + (StartCol(d, o, i) + t * ColStep(d))
    {
      match d
      case Ascending =>
      case Descending =>
      case Horizontal =>
      case Vertical =>
    }
  }

  /** Every line of direction `d` (n = 4) is a run of four on-board cells. */
  lemma {:induction false} LinesAreRuns(d: Direction, board: seq<int>)
    ensures forall w :: w in Block(d, 4, board) ==> |w| == 4 && exists r, c :: IsRun(w, d, r, c)
  {
    forall w | w in Block(d, 4, board)
      ensures |w| == 4 && exists r, c :: IsRun(w, d, r, c)
    {
      var o, i := LineOrigin(d, w, board);
      WindowIsRun(d, 4, o, i);
    }
  }

  /** Every run of four on-board cells in direction `d` is one of the lines:
      the enumeration misses nothing. */
  lemma RunsAreLines(d: Direction, w: seq<int>, r: int, c: int, board: seq<int>)
    requires |w| == 4 && IsRun(w, d, r, c)
    ensures w in Block(d, 4, board)
  {
    var o := if d.Horizontal? || d.Vertical? then c else r;
    var i := if d.Horizontal? || d.Vertical? then r else c;
    assert 0 <= r + 3 * RowStep(d) < ROWS && 0 <= c + 3 * ColStep(d) < COLS;
    assert 0 <= r + 0 * RowStep(d) < ROWS && 0 <= c + 0 * ColStep(d) < COLS;
    assert w == Window(d, 4, o, i) by {
      forall t | 0 <= t < 4 ensures w[t] == Window(d, 4, o, i)[t] {
        assert w[t] == (r + t * RowStep(d)) * COLS + (c + t * ColStep(d));
      }
    }
    BlockOfHas(d, 4, OuterFirst(d, 4), OuterLast(d, 4) + 1, o, i, board);
  }

  lemma WindowSteps(d: Direction, o: int, i: int)
    ensures var w := Window(d, 4, o, i);
      w[1] - w[0] == Step(d) && w[2] - w[1] == Step(d) && w[3] - w[2] == Step(d)
  {
    var w := Window(d, 4, o, i);
    assert w[0] == CellIndex(d, o, i, 0) && w[1] == CellIndex(d, o, i, 1);
    assert w[2] == CellIndex(d, o, i, 2) && w[3] == CellIndex(d, o, i, 3);
  }

  /** Consecutive indices of a line differ by COLS + 1 (ascending),
      -(COLS - 1) (descending), 1 (horizontal) or COLS (vertical). */
  lemma {:induction false} LineSteps(d: Direction, board: seq<int>)
    ensures forall w :: w in Block(d, 4, board) ==>
              |w| == 4 && w[1] - w[0] == Step(d) && w[2] - w[1] == Step(d) && w[3] - w[2] == Step(d)
  {
    forall w | w in Block(d, 4, board)
      ensures |w| == 4 && w[1] - w[0] == Step(d) && w[2] - w[1] == Step(d) && w[3] - w[2] == Step(d)
    {
      var o, i := LineOrigin(d, w, board);
      WindowSteps(d, o, i);
    }
  }

  /** The loop counters that produced a given line of direction `d`. */
  lemma LineOrigin(d: Direction, w: seq<int>, board: seq<int>) returns (o: int, i: int)
    requires w in Block(d, 4, board)
    ensures OuterFirst(d, 4) <= o <= OuterLast(d, 4) && 0 <= i <= InnerLast(d, 4)
    ensures w == Window(d, 4, o, i)
  {
    var j :| 0 <= j < |Block(d, 4, board)| && Block(d, 4, board)[j] == w;
    BlockOfMember(d, 4, OuterFirst(d, 4), OuterLast(d, 4) + 1, j, board);
    o, i :| OuterFirst(d, 4) <= o < OuterLast(d, 4) + 1 && 0 <= i <= InnerLast(d, 4) && w == Window(d, 4, o, i);
  }

  lemma RunIsFour(w: seq<int>, d: Direction, r: int, c: int)
    requires |w| == 4 && IsRun(w, d, r, c)
    ensures IsFour(w)
  {
    forall k | 0 <= k < 4 ensures 0 <= w[k] < CELLS {
      assert w[k] == (r + k * RowStep(d)) * COLS + (c + k * ColStep(d));
    }
  }

  /** Every line of the n = 4 list has four entries, each a board index. */
  lemma LinesAreFours(board: seq<int>)
    ensures AllFour(AllLines(4, board))
  {
    FoursAreAllLines(board);
    FoursAreFours(board);
  }

  /** The board argument is never read: one direction's windows for one
      outer value are the same whatever the board. */
  lemma {:induction false} RowOfIgnoresBoard(d: Direction, n: nat, outer: int, k: int, b1: seq<int>, b2: seq<int>)
    ensures RowOf(d, n, outer, k, b1) == RowOf(d, n, outer, k, b2)
    decreases k
  {
    if k > 0 {
      RowOfIgnoresBoard(d, n, outer, k - 1, b1, b2);
    }
  }

  lemma {:induction false} BlockOfIgnoresBoard(d: Direction, n: nat, lo: int, k: int, b1: seq<int>, b2: seq<int>)
    ensures BlockOf(d, n, lo, k, b1) == BlockOf(d, n, lo, k, b2)
    decreases k - lo
  {
    if k > lo {
      BlockOfIgnoresBoard(d, n, lo, k - 1, b1, b2);
      RowOfIgnoresBoard(d, n, k - 1, InnerLast(d, n) + 1, b1, b2);
    }
  }

  /** Two constructions with the same `n` give identical lists, whatever
      boards they are handed: the loops never read the board. In this model
      the `board` parameter of RowOf, BlockOf, Block and AllLines exists only
      for their decreases clauses, so the lemma also shows that it does not
      change the list. */
  lemma AllLinesIgnoresBoard(n: nat, b1: seq<int>, b2: seq<int>)
    ensures AllLines(n, b1) == AllLines(n, b2)
  {
    forall d: Direction ensures Block(d, n, b1) == Block(d, n, b2) {
      BlockOfIgnoresBoard(d, n, OuterFirst(d, n), OuterLast(d, n) + 1, b1, b2);
    }
  }

  /** As written, the descending loop starts at row ROWS - n + 1, which is
      the right start (n - 1) only for n = 4: for n = 5 the first descending
      window holds the index -4, which is not on the board. */
  lemma DescendingLeavesBoardForFive(board: seq<int>)
    ensures Window(Descending, 5, 2, 0) in AllLines(5, board)
    ensures Window(Descending, 5, 2, 0)[3] == -4
  {
    BlockOfHas(Descending, 5, OuterFirst(Descending, 5), OuterLast(Descending, 5) + 1, 2, 0, board);
  }

  /** With the descending loop started at row n - 1, every window of every
      length n is a straight run on the board. */
  lemma FixedLinesAreRuns(n: nat, board: seq<int>)
    ensures forall w :: w in FixedLines(n, board) ==> exists d, r, c :: IsRun(w, d, r, c)
  {
    forall d: Direction, w | w in FixedBlock(d, n, board)
      ensures exists r, c :: IsRun(w, d, r, c)
    {
      var j :| 0 <= j < |FixedBlock(d, n, board)| && FixedBlock(d, n, board)[j] == w;
      BlockOfMember(d, n, RunFirst(d, n), OuterLast(d, n) + 1, j, board);
      var o, i :| RunFirst(d, n) <= o < OuterLast(d, n) + 1 && 0 <= i <= InnerLast(d, n)
                  && w == Window(d, n, o, i);
      WindowIsRun(d, n, o, i);
    }
    assert FixedLines(n, board) == FixedBlock(Ascending, n, board) + FixedBlock(Descending, n, board)
                            + FixedBlock(Horizontal, n, board) + FixedBlock(Vertical, n, board);
  }

  /** For n = 4, the only length the engine uses, the corrected enumeration
      is the one the source builds. */
  lemma FixedLinesAgreeAtFour(board: seq<int>)
    ensures FixedLines(4, board) == AllLines(4, board)
  {
  }
}
