/**
 * The four tic-tac-toe players (the Player classes of tic_tac_toe) and the player
 * factory. A player's random draws and a human's typed numbers are oracle
 * streams fixed when the player is built; the player counts the attempts it
 * has made, so attempt k reads position k of its stream (two positions,
 * 2k and 2k + 1, for the player drawing a row and a column).
 */
module TicTacToePlayers {
  import opened Util
  import opened TicTacToeBoard
  import Oracle

  datatype PlayerKind = Human | Whatever | Clever | Snartypamts

  /**
   * HumanPlayer.getUserInput: the typed number's tens digit is the row and
   * its units digit the column, both counted from 1. Java's `/` and `%`
   * truncate toward zero, so a negative number gives a negative row and a
   * non-positive units digit.
   */
  function Decode(n: int): (int, int)
  {
    (JavaDiv(n, 10) - 1, JavaRem(n, 10) - 1)
  }

  /** The number a human types for cell (r, c). */
  function Encode(r: int, c: int): int
  {
    (r + 1) * 10 + c + 1
  }

  /** Typing the encoding of a cell selects that cell. */
  lemma DecodeEncode(r: int, c: int)
    requires InBoard(r, c)
    ensures Decode(Encode(r, c)) == (r, c)
  {
  }

  /** A typed number selects a cell on the board exactly when it is two digits from 1 to 6. */
  lemma DecodeOnBoard(n: int)
    ensures InBoard(Decode(n).0, Decode(n).1) <==> 11 <= n <= 66 && 1 <= n % 10 <= 6
    ensures InBoard(Decode(n).0, Decode(n).1) ==> n == Encode(Decode(n).0, Decode(n).1)
  {
    if n < 0 {
      assert JavaRem(n, 10) <= 0;
    }
  }

  /** Truncation: -5 reads as row -1 and column -6 (floor division would give row -2, column 4). */
  lemma DecodeNegativeExample()
    ensures Decode(-5) == (-1, -6)
    ensures Decode(5) == (-1, 4)
  {
  }

  /** The index of the first Blank of a row, or the row's length when there is none. */
  function FirstBlankInRow(row: seq<Mark>): (i: nat)
    ensures i <= |row|
    ensures forall j :: 0 <= j < i ==> row[j] != Blank
    ensures i < |row| ==> row[i] == Blank
  {
    if row == [] then 0 else if row[0] == Blank then 0 else 1 + FirstBlankInRow(row[1..])
  }

  predicate RowFull(g: Grid, r: int)
    requires WellFormed(g) && 0 <= r < SIZE
  {
    forall c :: 0 <= c < SIZE ==> g[r][c] != Blank
  }

  /** The first blank cell in row-major order, from row r on. */
  function FirstBlankFrom(g: Grid, r: nat): Option<(int, int)>
    requires WellFormed(g)
    decreases SIZE - r
  {
    if r >= SIZE then None
    else if FirstBlankInRow(g[r]) < SIZE then Some((r, FirstBlankInRow(g[r])))
    else FirstBlankFrom(g, r + 1)
  }

  /** The cell SnartypamtsPlayer fills: the first blank one in row-major order. */
  function FirstBlank(g: Grid): Option<(int, int)>
    requires WellFormed(g)
  {
    FirstBlankFrom(g, 0)
  }

  /** Cell (r, c) comes before cell (r', c') in row-major order. */
  predicate Before(r: int, c: int, r': int, c': int)
  {
    r < r' || (r == r' && c < c')
  }

  lemma {:induction false} FirstBlankFromSpec(g: Grid, r: nat)
    requires WellFormed(g)
    ensures FirstBlankFrom(g, r).None? <==> forall r', c :: r <= r' < SIZE && 0 <= c < SIZE ==> g[r'][c] != Blank
    ensures FirstBlankFrom(g, r).Some? ==>
      var (br, bc) := FirstBlankFrom(g, r).value;
      r <= br && CanPlace(g, br, bc) &&
      forall r', c :: r <= r' < SIZE && 0 <= c < SIZE && Before(r', c, br, bc) ==> g[r'][c] != Blank
    decreases SIZE - r
  {
    if r < SIZE && FirstBlankInRow(g[r]) == SIZE {
      FirstBlankFromSpec(g, r + 1);
    }
  }

  /**
   * The first blank cell is a blank cell with no blank cell before it, and
   * there is none exactly when every cell is taken.
   */
  lemma FirstBlankSpec(g: Grid)
    requires WellFormed(g)
    ensures FirstBlank(g).None? <==> AllTaken(g)
    ensures FirstBlank(g).Some? ==>
      var (br, bc) := FirstBlank(g).value;
      CanPlace(g, br, bc) && forall r, c :: InBoard(r, c) && Before(r, c, br, bc) ==> g[r][c] != Blank
  {
    FirstBlankFromSpec(g, 0);
  }

  /** CleverPlayer's row at attempt k. */
  function CleverRow(draws: Oracle.Stream, k: nat): (r: int)
    ensures 0 <= r < SIZE
  {
    Oracle.NextInt(draws(k), SIZE)
  }

  /** WhateverPlayer's cell at attempt k: a row draw, then a column draw. */
  function WhateverCell(draws: Oracle.Stream, k: nat): (cell: (int, int))
    ensures InBoard(cell.0, cell.1)
  {
    (Oracle.NextInt(draws(2 * k), SIZE), Oracle.NextInt(draws(2 * k + 1), SIZE))
  }

  /** HumanPlayer's cell at attempt k. */
  function HumanCell(inputs: nat -> int, k: nat): (int, int)
  {
    Decode(inputs(k))
  }

  /** Attempt k of a player aims at cell (r, c) (the clever player aims at a whole row). */
  predicate AttemptHits(kind: PlayerKind, draws: Oracle.Stream, inputs: nat -> int, k: nat, r: int, c: int)
  {
    match kind
    case Clever => CleverRow(draws, k) == r
    case Whatever => WhateverCell(draws, k) == (r, c)
    case Human => HumanCell(inputs, k) == (r, c)
    case Snartypamts => true
  }

  ghost predicate HitsAfter(kind: PlayerKind, draws: Oracle.Stream, inputs: nat -> int, pos: nat, r: int, c: int)
  {
    exists k: nat :: k >= pos && AttemptHits(kind, draws, inputs, k, r, c)
  }

  /**
   * Every cell is aimed at again and again: what a random generator does
   * with probability one, and what a human who keeps typing does. Without
   * it the source's retry loops need not end.
   */
  ghost predicate FairStreams(kind: PlayerKind, draws: Oracle.Stream, inputs: nat -> int)
  {
    forall pos: nat, r: int, c: int :: InBoard(r, c) ==> HitsAfter(kind, draws, inputs, pos, r, c)
  }

  /** The Player interface, with the state of the four implementations. */
  class Player {
    const kind: PlayerKind
    /** The raw draws of the player's Random. */
    const draws: Oracle.Stream
    /** The numbers a human types, in order. */
    const inputs: nat -> int
    /** The attempts made so far. */
    var attempts: nat

    constructor (kind: PlayerKind, draws: Oracle.Stream, inputs: nat -> int)
      ensures this.kind == kind && this.draws == draws && this.inputs == inputs && attempts == 0
    {
      this.kind := kind;
      this.draws := draws;
      this.inputs := inputs;
      attempts := 0;
    }

    /** Every cell is aimed at again and again by this player. */
    ghost predicate Fair()
    {
      FairStreams(kind, draws, inputs)
    }

    /**
     * Player.playTurn: the player puts its mark into exactly one blank
     * cell, chosen by its kind's strategy.
     */
    method PlayTurn(board: Board, mark: Mark) returns (ghost row: int, ghost col: int)
      requires board.Valid() && Fair() && !AllTaken(board.grid)
      modifies this, board, board.cells
      ensures board.Valid()
      ensures CanPlace(old(board.grid), row, col)
      ensures board.grid == Place(old(board.grid), row, col, mark)
    {
      ghost var g := board.grid;
      ghost var br, bc :| InBoard(br, bc) && g[br][bc] == Blank;
      assert HitsAfter(kind, draws, inputs, attempts, br, bc);
      ghost var k: nat :| k >= attempts && AttemptHits(kind, draws, inputs, k, br, bc);
      match kind
      case Snartypamts =>
        FirstBlankSpec(g);
        SnartypamtsTurn(board, mark);
        row, col := FirstBlank(g).value.0, FirstBlank(g).value.1;
      case Clever =>
        assert !RowFull(g, CleverRow(draws, k));
        row, col := CleverTurn(board, mark, k);
      case Whatever =>
        row, col := WhateverTurn(board, mark, k);
      case Human =>
        row, col := HumanTurn(board, mark, k);
    }

    /**
     * SnartypamtsPlayer.playTurn: the first blank cell in row-major order
     * gets the mark; a full board is left as it is.
     */
    method SnartypamtsTurn(board: Board, mark: Mark)
      requires board.Valid()
      modifies board, board.cells
      ensures board.Valid()
      ensures FirstBlank(old(board.grid)).Some? ==>
        var (r, c) := FirstBlank(old(board.grid)).value;
        board.grid == Place(old(board.grid), r, c, mark)
      ensures FirstBlank(old(board.grid)).None? ==> board.grid == old(board.grid)
    {
      ghost var g := board.grid;
      FirstBlankSpec(g);
      var row := 0;
      while row < SIZE
        invariant 0 <= row <= SIZE
        invariant board.Valid() && board.grid == g
        invariant forall r, c :: 0 <= r < row && 0 <= c < SIZE ==> g[r][c] != Blank
      {
        var col := 0;
        while col < SIZE
          invariant 0 <= col <= SIZE
          invariant board.Valid() && board.grid == g
          invariant forall c :: 0 <= c < col ==> g[row][c] != Blank
        {
          var placed := board.PutMark(mark, row, col);
          if placed {
            assert FirstBlank(g).value == (row, col) by {
              var (br, bc) := FirstBlank(g).value;
              assert !Before(row, col, br, bc);
              assert !Before(br, bc, row, col);
            }
            return;
          }
          col := col + 1;
        }
        row := row + 1;
      }
    }

    /**
     * CleverPlayer.playTurn: it draws rows until one has a blank cell and
     * fills that row's first blank cell. The attempts before the last drew
     * full rows.
     */
    method CleverTurn(board: Board, mark: Mark, ghost target: nat) returns (ghost row: int, ghost col: int)
      requires board.Valid()
      requires target >= attempts && !RowFull(board.grid, CleverRow(draws, target))
      modifies this, board, board.cells
      ensures board.Valid()
      ensures old(attempts) < attempts
      ensures forall j :: old(attempts) <= j < attempts - 1 ==> RowFull(old(board.grid), CleverRow(draws, j))
      ensures row == CleverRow(draws, attempts - 1) && col == FirstBlankInRow(old(board.grid)[row])
      ensures CanPlace(old(board.grid), row, col)
      ensures board.grid == Place(old(board.grid), row, col, mark)
    {
      ghost var g := board.grid;
      while true
        invariant old(attempts) <= attempts <= target
        invariant board.Valid() && board.grid == g
        invariant forall j :: old(attempts) <= j < attempts ==> RowFull(g, CleverRow(draws, j))
        decreases target - attempts
      {
        var randomRow := Oracle.NextInt(draws(attempts), SIZE);
        ghost var a := attempts;
        attempts := attempts + 1;
        var c := 0;
        while c < SIZE
          invariant 0 <= c <= SIZE
          invariant attempts == a + 1 && randomRow == CleverRow(draws, a)
          invariant board.Valid() && board.grid == g
          invariant forall c' :: 0 <= c' < c ==> g[randomRow][c'] != Blank
        {
          var placed := board.PutMark(mark, randomRow, c);
          if placed {
            row, col := randomRow, c;
            return;
          }
          c := c + 1;
        }
        assert RowFull(g, CleverRow(draws, a));
      }
    }

    /**
     * WhateverPlayer.playTurn: it draws a row and a column until the cell is
     * blank and fills it. The attempts before the last drew taken cells.
     */
    method WhateverTurn(board: Board, mark: Mark, ghost target: nat) returns (ghost row: int, ghost col: int)
      requires board.Valid()
      requires target >= attempts && CanPlace(board.grid, WhateverCell(draws, target).0, WhateverCell(draws, target).1)
      modifies this, board, board.cells
      ensures board.Valid()
      ensures old(attempts) < attempts
      ensures forall j :: old(attempts) <= j < attempts - 1 ==>
        !CanPlace(old(board.grid), WhateverCell(draws, j).0, WhateverCell(draws, j).1)
      ensures (row, col) == WhateverCell(draws, attempts - 1)
      ensures CanPlace(old(board.grid), row, col)
      ensures board.grid == Place(old(board.grid), row, col, mark)
    {
      ghost var g := board.grid;
      row, col := 0, 0;
      var placed := false;
      while !placed
        invariant old(attempts) <= attempts
        invariant !placed ==> attempts <= target
        invariant board.Valid()
        invariant !placed ==> board.grid == g
        invariant !placed ==> forall j :: old(attempts) <= j < attempts ==> !CanPlace(g, WhateverCell(draws, j).0, WhateverCell(draws, j).1)
        invariant placed ==> old(attempts) < attempts
        invariant placed ==> forall j :: old(attempts) <= j < attempts - 1 ==> !CanPlace(g, WhateverCell(draws, j).0, WhateverCell(draws, j).1)
        invariant placed ==> (row, col) == WhateverCell(draws, attempts - 1) && CanPlace(g, row, col)
        invariant placed ==> board.grid == Place(g, row, col, mark)
        decreases target + 1 - attempts
      {
        var r, c;
        placed, r, c := TryWhateverCell(board, mark);
        row, col := r, c;
      }
    }

    /** One attempt of WhateverPlayer.playTurn: draw a row and a column and try to fill that cell. */
    method TryWhateverCell(board: Board, mark: Mark) returns (placed: bool, row: int, col: int)
      requires board.Valid()
      modifies this, board, board.cells
      ensures board.Valid()
      ensures attempts == old(attempts) + 1
      ensures (row, col) == WhateverCell(draws, old(attempts))
      ensures placed <==> CanPlace(old(board.grid), row, col)
      ensures placed ==> board.grid == Place(old(board.grid), row, col, mark)
      ensures !placed ==> board.grid == old(board.grid)
    {
      row := Oracle.NextInt(draws(2 * attempts), SIZE);
      col := Oracle.NextInt(draws(2 * attempts + 1), SIZE);
      attempts := attempts + 1;
      placed := board.PutMark(mark, row, col);
    }

    /**
     * HumanPlayer.playTurn: it reads numbers until one names a blank cell on
     * the board and fills it. The numbers before the last named cells off
     * the board or taken.
     */
    method HumanTurn(board: Board, mark: Mark, ghost target: nat) returns (ghost row: int, ghost col: int)
      requires board.Valid()
      requires target >= attempts && CanPlace(board.grid, HumanCell(inputs, target).0, HumanCell(inputs, target).1)
      modifies this, board, board.cells
      ensures board.Valid()
      ensures old(attempts) < attempts
      ensures forall j :: old(attempts) <= j < attempts - 1 ==>
        !CanPlace(old(board.grid), HumanCell(inputs, j).0, HumanCell(inputs, j).1)
      ensures (row, col) == HumanCell(inputs, attempts - 1)
      ensures CanPlace(old(board.grid), row, col)
      ensures board.grid == Place(old(board.grid), row, col, mark)
    {
      ghost var g := board.grid;
      row, col := 0, 0;
      var placed := false;
      while !placed
        invariant old(attempts) <= attempts
        invariant !placed ==> attempts <= target
        invariant board.Valid()
        invariant !placed ==> board.grid == g
        invariant !placed ==> forall j :: old(attempts) <= j < attempts ==> !CanPlace(g, HumanCell(inputs, j).0, HumanCell(inputs, j).1)
        invariant placed ==> old(attempts) < attempts
        invariant placed ==> forall j :: old(attempts) <= j < attempts - 1 ==> !CanPlace(g, HumanCell(inputs, j).0, HumanCell(inputs, j).1)
        invariant placed ==> (row, col) == HumanCell(inputs, attempts - 1) && CanPlace(g, row, col)
        invariant placed ==> board.grid == Place(g, row, col, mark)
        decreases target + 1 - attempts
      {
        var userInput := Decode(inputs(attempts));
        ghost var a := attempts;
        assert userInput == HumanCell(inputs, a);
        attempts := attempts + 1;
        placed := board.PutMark(mark, userInput.0, userInput.1);
        row, col := userInput.0, userInput.1;
      }
    }
  }

  /** PlayerFactory's names. */
  function KindName(kind: PlayerKind): string
  {
    match kind
    case Human => "human"
    case Whatever => "whatever"
    case Clever => "clever"
    case Snartypamts => "snartypamts"
  }

  /** PlayerFactory.buildPlayer's choice: the kind a name stands for, None for any other name. */
  function KindOf(name: string): Option<PlayerKind>
  {
    if name == "human" then Some(Human)
    else if name == "whatever" then Some(Whatever)
    else if name == "clever" then Some(Clever)
    else if name == "snartypamts" then Some(Snartypamts)
    else None
  }

  /** A name is recognised exactly when it is a kind's name, and then it gives that kind. */
  lemma KindOfNames(name: string, kind: PlayerKind)
    ensures KindOf(KindName(kind)) == Some(kind)
    ensures KindOf(name) == Some(kind) <==> name == KindName(kind)
  {
  }

  /** PlayerFactory.buildPlayer: a new player of the named kind, null for an unknown name. */
  method BuildPlayer(name: string, draws: Oracle.Stream, inputs: nat -> int) returns (p: Player?)
    ensures p == null <==> KindOf(name).None?
    ensures p != null ==> (fresh(p) && p.kind == KindOf(name).value && p.attempts == 0 &&
      p.draws == draws && p.inputs == inputs)
  {
    var kind := KindOf(name);
    if kind.None? {
      return null;
    }
    p := new Player(kind.value, draws, inputs);
  }
}
