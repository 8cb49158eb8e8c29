/**
 * One tic-tac-toe game (tic_tac_toe/Game.java): X and O take turns on a
 * fresh board until someone has four in a row or the board is full. The
 * renderer only shows the board and is not modelled.
 */
module TicTacToeGame {
  import opened TicTacToeBoard
  import opened TicTacToePlayers

  class Game {
    const playerX: Player
    const playerO: Player

    constructor (playerX: Player, playerO: Player)
      ensures this.playerX == playerX && this.playerO == playerO
    {
      this.playerX := playerX;
      this.playerO := playerO;
    }

    /**
     * Game.run: turn k goes to the player and the mark at index k % 2 of
     * the pairs (playerX, playerO) and (X, O), so X moves first and the two
     * alternate. The game ends on a winner or a full board, and the result
     * is getWinner of the final board. X has made as many moves as O, or
     * one more.
     */
    method Run() returns (winner: Mark, ghost final: Grid)
      requires playerX.Fair() && playerO.Fair()
      modifies playerX, playerO
      ensures WellFormed(final) && GameEnded(final) && winner == Winner(final)
      ensures Count(final, X) == Count(final, O) || Count(final, X) == Count(final, O) + 1
    {
      var board := new Board();
      EmptyTally(board.grid);
      var ended := board.IsGameEnded();
      var counter := 0;
      while !ended
        invariant board.Valid() && fresh(board) && fresh(board.cells)
        invariant ended <==> GameEnded(board.grid)
        invariant Count(board.grid, X) == Count(board.grid, O) + Turn(counter)
        decreases Count(board.grid, Blank)
      {
        ghost var g := board.grid;
        var mark := if Turn(counter) == 0 then X else O;
        var player := if Turn(counter) == 0 then playerX else playerO;
        ghost var row, col := player.PlayTurn(board, mark);
        TurnCounts(g, row, col, mark);
        TurnStep(counter);
        counter := counter + 1;
        ended := board.IsGameEnded();
      }
      winner := board.GetWinner();
      final := board.grid;
    }
  }

  /** The index counter % 2 of the player whose turn it is. */
  function Turn(counter: nat): (t: nat)
    ensures t < 2
  {
    counter % 2
  }

  /** Turns alternate between the two players. */
  lemma TurnStep(counter: nat)
    ensures Turn(counter + 1) == 1 - Turn(counter)
  {
  }

  /** The empty board holds no X and no O. */
  lemma EmptyTally(g: Grid)
    requires WellFormed(g) && IsEmpty(g)
    ensures Count(g, X) == 0 && Count(g, O) == 0
  {
    EmptyCounts(g, X);
    EmptyCounts(g, O);
  }

  /** One turn: the mover's count grows by one, the other's stays, one Blank fewer. */
  lemma TurnCounts(g: Grid, r: int, c: int, m: Mark)
    requires WellFormed(g) && CanPlace(g, r, c) && m != Blank
    ensures Count(Place(g, r, c, m), X) == Count(g, X) + (if m == X then 1 else 0)
    ensures Count(Place(g, r, c, m), O) == Count(g, O) + (if m == O then 1 else 0)
    ensures Count(Place(g, r, c, m), Blank) == Count(g, Blank) - 1
  {
    PlaceCount(g, r, c, m, X);
    PlaceCount(g, r, c, m, O);
    PlaceCount(g, r, c, m, Blank);
  }

  /** A grid of blank rows holds no X and no O. */
  lemma {:induction false} EmptyCounts(g: Grid, m: Mark)
    requires m != Blank
    requires forall r :: 0 <= r < |g| ==> forall c :: 0 <= c < |g[r]| ==> g[r][c] == Blank
    ensures Count(g, m) == 0
    decreases |g|
  {
    if g != [] {
      EmptyCounts(g[..|g| - 1], m);
      EmptyRowCount(g[|g| - 1], m);
    }
  }

  lemma {:induction false} EmptyRowCount(row: seq<Mark>, m: Mark)
    requires m != Blank
    requires forall c :: 0 <= c < |row| ==> row[c] == Blank
    ensures CountInRow(row, m) == 0
    decreases |row|
  {
    if row != [] {
      EmptyRowCount(row[..|row| - 1], m);
    }
  }

  /** A finished game has filled at most the 36 cells, and a drawn game all of them. */
  lemma GameLength(final: Grid)
    requires WellFormed(final) && GameEnded(final)
    ensures Count(final, X) + Count(final, O) <= SIZE * SIZE
    ensures Winner(final) == Blank ==> Count(final, X) + Count(final, O) == SIZE * SIZE
  {
    CountsAddUp(final);
    AllTakenIffNoBlank(final);
  }
}
