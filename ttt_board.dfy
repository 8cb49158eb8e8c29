/**
 * The tic-tac-toe board (tic_tac_toe/Board.java): a 6x6 grid of marks, the
 * placement rule, and the search for a winning streak of four.
 *
 * The specification works on snapshots of the grid (`Grid`, a sequence of
 * rows); the `Board` class keeps the source's two-dimensional array and each
 * of its methods is proved against the snapshot functions.
 */
module TicTacToeBoard {

  /** Mark.java. */
  datatype Mark = Blank | X | O

  const SIZE: int := 6
  const WIN_STREAK: int := 4

  type Grid = seq<seq<Mark>>

  predicate WellFormed(g: Grid)
  {
    |g| == SIZE && forall r :: 0 <= r < SIZE ==> |g[r]| == SIZE
  }

  /** checkCellWithinBoard. */
  predicate InBoard(r: int, c: int)
  {
    0 <= r < SIZE && 0 <= c < SIZE
  }

  /** A cell on the board holding mark m. */
  predicate CellIs(g: Grid, r: int, c: int, m: Mark)
    requires WellFormed(g)
  {
    InBoard(r, c) && g[r][c] == m
  }

  /** getMark: the mark of a cell on the board, Blank off the board. */
  function MarkAt(g: Grid, r: int, c: int): (m: Mark)
    requires WellFormed(g)
    ensures InBoard(r, c) ==> CellIs(g, r, c, m)
    ensures !InBoard(r, c) ==> m == Blank
  {
    if InBoard(r, c) then g[r][c] else Blank
  }

  /** The board of the constructor: every cell Blank. */
  predicate IsEmpty(g: Grid)
    requires WellFormed(g)
  {
    forall r, c :: 0 <= r < SIZE && 0 <= c < SIZE ==> g[r][c] == Blank
  }

  /** The grid with mark m written into cell (r, c). */
  function Place(g: Grid, r: int, c: int, m: Mark): (g': Grid)
    requires WellFormed(g) && InBoard(r, c)
    ensures WellFormed(g')
    ensures g'[r][c] == m
    ensures forall r', c' :: InBoard(r', c') && (r', c') != (r, c) ==> g'[r'][c'] == g[r'][c']
  {
    g[r := g[r][c := m]]
  }

  /** putMark's rule: a mark may go only into a blank cell on the board. */
  predicate CanPlace(g: Grid, r: int, c: int)
    requires WellFormed(g)
  {
    CellIs(g, r, c, Blank)
  }

  /** Bounds the steps of a walk in direction (dr, dc) that stays on the board. */
  function RunMeasure(r: int, c: int, dr: int, dc: int): int
  {
    if dr > 0 then SIZE - r else if dr < 0 then r + 1 else if dc > 0 then SIZE - c else c + 1
  }

  /**
   * countMarkInDirection: the number of consecutive cells holding m from
   * (r, c) on, stepping by (dr, dc); the still direction (0, 0) counts the
   * starting cell only.
   */
  function RunLength(g: Grid, r: int, c: int, dr: int, dc: int, m: Mark): nat
    requires WellFormed(g)
    decreases RunMeasure(r, c, dr, dc)
  {
    if CellIs(g, r, c, m) then
      if dr == 0 && dc == 0 then 1 else 1 + RunLength(g, r + dr, c + dc, dr, dc, m)
    else 0
  }

  /** The k cells from (r, c) in direction (dr, dc) are on the board and all hold m. */
  predicate Streak(g: Grid, r: int, c: int, dr: int, dc: int, m: Mark, k: int)
    requires WellFormed(g)
  {
    forall i :: 0 <= i < k ==> CellIs(g, r + i * dr, c + i * dc, m)
  }

  /** The still direction never counts more than one cell. */
  lemma StillRunIsShort(g: Grid, r: int, c: int, m: Mark)
    requires WellFormed(g)
    ensures RunLength(g, r, c, 0, 0, m) <= 1
    ensures RunLength(g, r, c, 0, 0, m) == 1 <==> CellIs(g, r, c, m)
  {
  }

  /** A streak of k cells is its first cell followed by a streak of k - 1 from the next cell. */
  lemma StreakShift(g: Grid, r: int, c: int, dr: int, dc: int, m: Mark, k: int)
    requires WellFormed(g) && k > 0
    ensures Streak(g, r, c, dr, dc, m, k) <==>
      CellIs(g, r, c, m) && Streak(g, r + dr, c + dc, dr, dc, m, k - 1)
  {
    if Streak(g, r, c, dr, dc, m, k) {
      assert CellIs(g, r + 0 * dr, c + 0 * dc, m);
      forall i | 0 <= i < k - 1
        ensures CellIs(g, (r + dr) + i * dr, (c + dc) + i * dc, m)
      {
        assert (r + dr) + i * dr == r + (i + 1) * dr && (c + dc) + i * dc == c + (i + 1) * dc;
        assert CellIs(g, r + (i + 1) * dr, c + (i + 1) * dc, m);
      }
    }
    if CellIs(g, r, c, m) && Streak(g, r + dr, c + dc, dr, dc, m, k - 1) {
      forall i | 0 < i < k
        ensures CellIs(g, r + i * dr, c + i * dc, m)
      {
        assert (r + dr) + (i - 1) * dr == r + i * dr && (c + dc) + (i - 1) * dc == c + i * dc;
        assert CellIs(g, (r + dr) + (i - 1) * dr, (c + dc) + (i - 1) * dc, m);
      }
    }
  }

  /**
   * For a moving direction, the count reaches k exactly when the k cells
   * from (r, c) along the direction are on the board and hold m.
   */
  lemma {:induction false} RunLengthIsStreak(g: Grid, r: int, c: int, dr: int, dc: int, m: Mark, k: nat)
    requires WellFormed(g) && (dr != 0 || dc != 0)
    ensures RunLength(g, r, c, dr, dc, m) >= k <==> Streak(g, r, c, dr, dc, m, k)
    decreases k
  {
    if k > 0 {
      RunLengthIsStreak(g, r + dr, c + dc, dr, dc, m, k - 1);
      StreakShift(g, r, c, dr, dc, m, k);
    }
  }

  /** A direction of findWinningStreak's loops. */
  predicate IsDirection(dr: int, dc: int)
  {
    -1 <= dr <= 1 && -1 <= dc <= 1
  }

  /**
   * findWinningStreak from direction (dr, dc) on, in the loops' order (row
   * delta outer, column delta inner, both from -1 to 1): the first direction
   * with four X's, or else four O's, decides; X is tried before O.
   */
  function StreakFrom(g: Grid, r: int, c: int, dr: int, dc: int): Mark
    requires WellFormed(g)
    decreases 2 - dr, 2 - dc
  {
    if dr > 1 then Blank
    else if dc > 1 then StreakFrom(g, r, c, dr + 1, -1)
    else if RunLength(g, r, c, dr, dc, X) >= WIN_STREAK then X
    else if RunLength(g, r, c, dr, dc, O) >= WIN_STREAK then O
    else StreakFrom(g, r, c, dr, dc + 1)
  }

  /** findWinningStreak. */
  function WinningStreak(g: Grid, r: int, c: int): Mark
    requires WellFormed(g)
  {
    StreakFrom(g, r, c, -1, -1)
  }

  /** getWinner from cell (r, c) on, in row-major order: the first cell with a streak decides. */
  function WinnerFrom(g: Grid, r: int, c: int): Mark
    requires WellFormed(g)
    decreases SIZE - r, SIZE + 1 - c
  {
    if r >= SIZE then Blank
    else if c >= SIZE then WinnerFrom(g, r + 1, 0)
    else if WinningStreak(g, r, c) != Blank then WinningStreak(g, r, c)
    else WinnerFrom(g, r, c + 1)
  }

  /** One step of getWinner's loops. */
  lemma WinnerFromStep(g: Grid, r: int, c: int)
    requires WellFormed(g) && 0 <= r < SIZE && 0 <= c <= SIZE
    ensures c == SIZE ==> WinnerFrom(g, r, c) == WinnerFrom(g, r + 1, 0)
    ensures c < SIZE && WinningStreak(g, r, c) != Blank ==> WinnerFrom(g, r, c) == WinningStreak(g, r, c)
    ensures c < SIZE && WinningStreak(g, r, c) == Blank ==> WinnerFrom(g, r, c) == WinnerFrom(g, r, c + 1)
  {
  }

  /** getWinner. */
  function Winner(g: Grid): Mark
    requires WellFormed(g)
  {
    WinnerFrom(g, 0, 0)
  }

  /** Some cell starts a run of at least four m's in some direction. */
  ghost predicate HasWinningRun(g: Grid, m: Mark)
    requires WellFormed(g)
  {
    exists r, c, dr, dc :: InBoard(r, c) && IsDirection(dr, dc) && RunLength(g, r, c, dr, dc, m) >= WIN_STREAK
  }

  /** checkAllCellsTaken. */
  predicate AllTaken(g: Grid)
    requires WellFormed(g)
  {
    forall r, c :: 0 <= r < SIZE && 0 <= c < SIZE ==> g[r][c] != Blank
  }

  /** gameEnded. */
  predicate GameEnded(g: Grid)
    requires WellFormed(g)
  {
    Winner(g) != Blank || AllTaken(g)
  }

  /** (dr, dc) comes no later than (dr', dc') in the loops' order. */
  predicate NotAfter(dr: int, dc: int, dr': int, dc': int)
  {
    dr < dr' || (dr == dr' && dc <= dc')
  }

  /** The result of findWinningStreak from (dr, dc) on is Blank or a mark with a run there. */
  lemma {:induction false} StreakFromSound(g: Grid, r: int, c: int, dr: int, dc: int)
    requires WellFormed(g) && -1 <= dr && -1 <= dc
    ensures StreakFrom(g, r, c, dr, dc) != Blank ==>
      exists dr', dc' :: IsDirection(dr', dc') && RunLength(g, r, c, dr', dc', StreakFrom(g, r, c, dr, dc)) >= WIN_STREAK
    decreases 2 - dr, 2 - dc
  {
    if dr <= 1 {
      if dc > 1 {
        StreakFromSound(g, r, c, dr + 1, -1);
      } else if RunLength(g, r, c, dr, dc, X) < WIN_STREAK && RunLength(g, r, c, dr, dc, O) < WIN_STREAK {
        StreakFromSound(g, r, c, dr, dc + 1);
      }
    }
  }
  /** findWinningStreak from (dr, dc) on finds a mark when a run of X or O lies in a direction not before it. */
  lemma {:induction false} StreakFromComplete(g: Grid, r: int, c: int, dr: int, dc: int, dr': int, dc': int, m: Mark)
    requires WellFormed(g) && -1 <= dc && IsDirection(dr', dc') && NotAfter(dr, dc, dr', dc') && m != Blank
    requires RunLength(g, r, c, dr', dc', m) >= WIN_STREAK
    ensures StreakFrom(g, r, c, dr, dc) != Blank
    decreases 2 - dr, 2 - dc
  {
    if dc > 1 {
      StreakFromComplete(g, r, c, dr + 1, -1, dr', dc', m);
    } else if (dr, dc) != (dr', dc') && StreakFrom(g, r, c, dr, dc) == Blank {
      StreakFromComplete(g, r, c, dr, dc + 1, dr', dc', m);
    }
  }

  /** The result of getWinner from (r, c) on is Blank or a mark with a winning run. */
  lemma {:induction false} WinnerFromSound(g: Grid, r: int, c: int)
    requires WellFormed(g) && 0 <= r && 0 <= c
    ensures WinnerFrom(g, r, c) != Blank ==> HasWinningRun(g, WinnerFrom(g, r, c))
    decreases SIZE - r, SIZE + 1 - c
  {
    if r < SIZE {
      if c >= SIZE {
        WinnerFromSound(g, r + 1, 0);
      } else if WinningStreak(g, r, c) != Blank {
        var w := WinningStreak(g, r, c);
        StreakFromSound(g, r, c, -1, -1);
        var dr, dc :| IsDirection(dr, dc) && RunLength(g, r, c, dr, dc, w) >= WIN_STREAK;
        assert InBoard(r, c);
      } else {
        WinnerFromSound(g, r, c + 1);
      }
    }
  }

  /** getWinner from (r, c) on finds a mark when a winning run starts at a cell not before it. */
  lemma {:induction false} WinnerFromComplete(g: Grid, r: int, c: int, r': int, c': int, dr: int, dc: int, m: Mark)
    requires WellFormed(g) && 0 <= c && InBoard(r', c') && NotAfter(r, c, r', c')
    requires IsDirection(dr, dc) && m != Blank && RunLength(g, r', c', dr, dc, m) >= WIN_STREAK
    ensures WinnerFrom(g, r, c) != Blank
    decreases SIZE - r, SIZE + 1 - c
  {
    if c >= SIZE {
      WinnerFromComplete(g, r + 1, 0, r', c', dr, dc, m);
    } else if (r, c) == (r', c') {
      StreakFromComplete(g, r, c, -1, -1, dr, dc, m);
    } else if WinningStreak(g, r, c) == Blank {
      WinnerFromComplete(g, r, c + 1, r', c', dr, dc, m);
    }
  }

  /**
   * getWinner names a mark exactly when some cell starts a run of four equal
   * non-blank marks in one of the eight directions, and the mark it names
   * has such a run.
   */
  lemma WinnerIffWinningRun(g: Grid)
    requires WellFormed(g)
    ensures Winner(g) != Blank <==> HasWinningRun(g, X) || HasWinningRun(g, O)
    ensures Winner(g) != Blank ==> HasWinningRun(g, Winner(g))
  {
    WinnerFromSound(g, 0, 0);
    if HasWinningRun(g, X) {
      var r, c, dr, dc :| InBoard(r, c) && IsDirection(dr, dc) && RunLength(g, r, c, dr, dc, X) >= WIN_STREAK;
      WinnerFromComplete(g, 0, 0, r, c, dr, dc, X);
    } else if HasWinningRun(g, O) {
      var r, c, dr, dc :| InBoard(r, c) && IsDirection(dr, dc) && RunLength(g, r, c, dr, dc, O) >= WIN_STREAK;
      WinnerFromComplete(g, 0, 0, r, c, dr, dc, O);
    }
  }

  /** A winning run of m is four cells in a line on the board holding m. */
  lemma WinningRunIsLine(g: Grid, r: int, c: int, dr: int, dc: int, m: Mark)
    requires WellFormed(g) && IsDirection(dr, dc)
    requires RunLength(g, r, c, dr, dc, m) >= WIN_STREAK
    ensures dr != 0 || dc != 0
    ensures Streak(g, r, c, dr, dc, m, WIN_STREAK)
  {
    if dr == 0 && dc == 0 {
      StillRunIsShort(g, r, c, m);
    }
    RunLengthIsStreak(g, r, c, dr, dc, m, WIN_STREAK);
  }

  /** The empty board has no winner and has not ended. */
  lemma EmptyGridNotEnded(g: Grid)
    requires WellFormed(g) && IsEmpty(g)
    ensures Winner(g) == Blank
    ensures !GameEnded(g)
  {
    forall r, c, dr, dc
      ensures RunLength(g, r, c, dr, dc, X) == 0 && RunLength(g, r, c, dr, dc, O) == 0
    {
    }
    WinnerIffWinningRun(g);
    assert !AllTaken(g) by { assert g[0][0] == Blank; }
  }

  /** The number of cells of a row holding m. */
  function CountInRow(row: seq<Mark>, m: Mark): (n: nat)
    ensures n <= |row|
  {
    if row == [] then 0 else CountInRow(row[..|row| - 1], m) + (if row[|row| - 1] == m then 1 else 0)
  }

  /** The number of cells of a grid holding m. */
  function Count(g: Grid, m: Mark): nat
  {
    if g == [] then 0 else Count(g[..|g| - 1], m) + CountInRow(g[|g| - 1], m)
  }

  /** Writing m' into cell c changes each mark's count by the mark removed and the mark added. */
  lemma {:induction false} CountInRowUpdate(row: seq<Mark>, c: int, m': Mark, m: Mark)
    requires 0 <= c < |row|
    ensures CountInRow(row[c := m'], m) ==
      CountInRow(row, m) - (if row[c] == m then 1 else 0) + (if m' == m then 1 else 0)
    decreases |row|
  {
    var row' := row[c := m'];
    assert row'[..|row'| - 1] == if c == |row| - 1 then row[..|row| - 1] else row[..|row| - 1][c := m'];
    if c < |row| - 1 {
      CountInRowUpdate(row[..|row| - 1], c, m', m);
    }
  }

  /** Replacing row r changes each mark's count by the difference of the rows' counts. */
  lemma {:induction false} CountRowUpdate(g: Grid, r: int, row: seq<Mark>, m: Mark)
    requires 0 <= r < |g|
    ensures Count(g[r := row], m) == Count(g, m) - CountInRow(g[r], m) + CountInRow(row, m)
    decreases |g|
  {
    var g' := g[r := row];
    assert g'[..|g'| - 1] == if r == |g| - 1 then g[..|g| - 1] else g[..|g| - 1][r := row];
    if r < |g| - 1 {
      CountRowUpdate(g[..|g| - 1], r, row, m);
    }
  }

  /** Placing m' on a blank cell: one more m', one Blank fewer, every other count unchanged. */
  lemma PlaceCount(g: Grid, r: int, c: int, m': Mark, m: Mark)
    requires WellFormed(g) && CanPlace(g, r, c) && m' != Blank
    ensures Count(Place(g, r, c, m'), m) ==
      Count(g, m) - (if m == Blank then 1 else 0) + (if m == m' then 1 else 0)
  {
    CountInRowUpdate(g[r], c, m', m);
    CountRowUpdate(g, r, g[r][c := m'], m);
  }

  /** Every row holds each cell once: the counts of the three marks add up to the row's length. */
  lemma {:induction false} RowCountsAddUp(row: seq<Mark>)
    ensures CountInRow(row, Blank) + CountInRow(row, X) + CountInRow(row, O) == |row|
    decreases |row|
  {
    if row != [] {
      RowCountsAddUp(row[..|row| - 1]);
    }
  }

  /** The counts of Blank, X and O in a grid add up to its number of cells. */
  lemma {:induction false} CountsAddUp(g: Grid)
    requires forall r :: 0 <= r < |g| ==> |g[r]| == SIZE
    ensures Count(g, Blank) + Count(g, X) + Count(g, O) == |g| * SIZE
    decreases |g|
  {
    if g != [] {
      CountsAddUp(g[..|g| - 1]);
      RowCountsAddUp(g[|g| - 1]);
    }
  }

  /** A grid has a blank cell exactly when its Blank count is positive. */
  lemma {:induction false} BlankCountPositive(g: Grid)
    requires forall r :: 0 <= r < |g| ==> |g[r]| == SIZE
    ensures Count(g, Blank) > 0 <==> exists r, c :: 0 <= r < |g| && 0 <= c < SIZE && g[r][c] == Blank
    decreases |g|
  {
    if g != [] {
      BlankCountPositive(g[..|g| - 1]);
      RowBlankCountPositive(g[|g| - 1]);
      if exists r, c :: 0 <= r < |g| && 0 <= c < SIZE && g[r][c] == Blank {
        var r, c :| 0 <= r < |g| && 0 <= c < SIZE && g[r][c] == Blank;
        if r < |g| - 1 {
          assert g[..|g| - 1][r][c] == Blank;
        }
      }
    }
  }

  /** A row has a blank cell exactly when its Blank count is positive. */
  lemma {:induction false} RowBlankCountPositive(row: seq<Mark>)
    ensures CountInRow(row, Blank) > 0 <==> exists c :: 0 <= c < |row| && row[c] == Blank
    decreases |row|
  {
    if row != [] {
      RowBlankCountPositive(row[..|row| - 1]);
      if exists c :: 0 <= c < |row| && row[c] == Blank {
        var c :| 0 <= c < |row| && row[c] == Blank;
        if c < |row| - 1 {
          assert row[..|row| - 1][c] == Blank;
        }
      }
    }
  }

  /** The board is full exactly when no cell is Blank by count. */
  lemma AllTakenIffNoBlank(g: Grid)
    requires WellFormed(g)
    ensures AllTaken(g) <==> Count(g, Blank) == 0
  {
    BlankCountPositive(g);
  }

  /** Board.java's board: the cells live in a 6x6 array. */
  class Board {
    const cells: array2<Mark>
    /** The marks of the cells, as a grid. */
    ghost var grid: Grid

    ghost predicate Valid()
      reads this, cells
    {
      cells.Length0 == SIZE && cells.Length1 == SIZE && WellFormed(grid) &&
      forall r, c :: 0 <= r < SIZE && 0 <= c < SIZE ==> grid[r][c] == cells[r, c]
    }

    /** Board(): every cell Blank. */
    constructor ()
      ensures Valid() && fresh(cells)
      ensures IsEmpty(grid)
    {
      var a := new Mark[SIZE, SIZE];
      var row := 0;
      while row < SIZE
        invariant 0 <= row <= SIZE
        invariant forall r, c :: 0 <= r < row && 0 <= c < SIZE ==> a[r, c] == Blank
      {
        var col := 0;
        while col < SIZE
          invariant 0 <= col <= SIZE
          invariant forall r, c :: 0 <= r < row && 0 <= c < SIZE ==> a[r, c] == Blank
          invariant forall c :: 0 <= c < col ==> a[row, c] == Blank
        {
          a[row, col] := Blank;
          col := col + 1;
        }
        row := row + 1;
      }
      cells := a;
      grid := seq(SIZE, r => seq(SIZE, c => Blank));
    }

    /** putMark: true and the mark written exactly when the cell is on the board and blank. */
    method PutMark(mark: Mark, row: int, col: int) returns (placed: bool)
      requires Valid()
      modifies this, cells
      ensures Valid()
      ensures placed <==> CanPlace(old(grid), row, col)
      ensures placed ==> grid == Place(old(grid), row, col, mark)
      ensures !placed ==> grid == old(grid)
    {
      if !(0 <= row < SIZE && 0 <= col < SIZE) || cells[row, col] != Blank {
        return false;
      }
      cells[row, col] := mark;
      grid := Place(grid, row, col, mark);
      return true;
    }

    /** getMark. */
    method GetMark(row: int, col: int) returns (m: Mark)
      requires Valid()
      ensures m == MarkAt(grid, row, col)
    {
      if !(0 <= row < SIZE && 0 <= col < SIZE) {
        return Blank;
      }
      return cells[row, col];
    }

    /** countMarkInDirection. */
    method CountMarkInDirection(row: int, col: int, rowDelta: int, colDelta: int, mark: Mark) returns (count: nat)
      requires Valid()
      ensures count == RunLength(grid, row, col, rowDelta, colDelta, mark)
    {
      count := 0;
      var r, c := row, col;
      while 0 <= r < SIZE && 0 <= c < SIZE && cells[r, c] == mark
        invariant count + RunLength(grid, r, c, rowDelta, colDelta, mark) == RunLength(grid, row, col, rowDelta, colDelta, mark)
        decreases RunMeasure(r, c, rowDelta, colDelta)
      {
        count := count + 1;
        if rowDelta == 0 && colDelta == 0 {
          return;
        }
        r := r + rowDelta;
        c := c + colDelta;
      }
    }

    /** findWinningStreak. */
    method FindWinningStreak(row: int, col: int) returns (winner: Mark)
      requires Valid()
      ensures winner == WinningStreak(grid, row, col)
    {
      var rowDelta := -1;
      while rowDelta <= 1
        invariant -1 <= rowDelta <= 2
        invariant WinningStreak(grid, row, col) == StreakFrom(grid, row, col, rowDelta, -1)
      {
        var colDelta := -1;
        while colDelta <= 1
          invariant -1 <= colDelta <= 2
          invariant WinningStreak(grid, row, col) == StreakFrom(grid, row, col, rowDelta, colDelta)
        {
          var countX := CountMarkInDirection(row, col, rowDelta, colDelta, X);
          if countX >= WIN_STREAK {
            return X;
          }
          var countO := CountMarkInDirection(row, col, rowDelta, colDelta, O);
          if countO >= WIN_STREAK {
            return O;
          }
          colDelta := colDelta + 1;
        }
        rowDelta := rowDelta + 1;
      }
      return Blank;
    }

    /** getWinner. */
    method GetWinner() returns (winner: Mark)
      requires Valid()
      ensures winner == Winner(grid)
    {
      var row := 0;
      while row < SIZE
        invariant 0 <= row <= SIZE
        invariant Winner(grid) == WinnerFrom(grid, row, 0)
      {
        var col := 0;
        while col < SIZE
          invariant 0 <= col <= SIZE
          invariant Winner(grid) == WinnerFrom(grid, row, col)
        {
          winner := FindWinningStreak(row, col);
          WinnerFromStep(grid, row, col);
          if winner != Blank {
            return;
          }
          col := col + 1;
        }
        WinnerFromStep(grid, row, col);
        row := row + 1;
      }
      return Blank;
    }

    /** checkAllCellsTaken. */
    method CheckAllCellsTaken() returns (taken: bool)
      requires Valid()
      ensures taken <==> AllTaken(grid)
    {
      var row := 0;
      while row < SIZE
        invariant 0 <= row <= SIZE
        invariant forall r, c :: 0 <= r < row && 0 <= c < SIZE ==> cells[r, c] != Blank
      {
        var col := 0;
        while col < SIZE
          invariant 0 <= col <= SIZE
          invariant forall c :: 0 <= c < col ==> cells[row, c] != Blank
        {
          if cells[row, col] == Blank {
            return false;
          }
          col := col + 1;
        }
        row := row + 1;
      }
      return true;
    }

    /** gameEnded: a winner, or no blank cell left. */
    method IsGameEnded() returns (ended: bool)
      requires Valid()
      ensures ended <==> GameEnded(grid)
    {
      var winner := GetWinner();
      if winner != Blank {
        return true;
      }
      ended := CheckAllCellsTaken();
    }
  }
}
