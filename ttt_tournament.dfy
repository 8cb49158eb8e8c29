/**
 * A tic-tac-toe tournament (tic_tac_toe/Tournament.java and
 * RendererFactory.java): the command line names the number of rounds, the
 * renderer and the two players; the players then play that many games,
 * swapping marks every round, and the wins of each and the draws are
 * counted. Rendering and printing are not modelled; the renderer is kept
 * only as the factory's choice.
 */
module TicTacToeTournament {
  import opened Util
  import opened TicTacToeBoard
  import opened TicTacToePlayers
  import opened TicTacToeGame
  import Oracle

  /** main's number of command-line arguments. */
  const ARG_NUM := 4
  /** The slots of the results array. */
  const PLAYER1_RESULT := 0
  const PLAYER2_RESULT := 1
  const DRAW_RESULT := 2
  const RESULTS_NUM := 3

  datatype RendererKind = Console | Void

  /** RendererFactory.buildRenderer: "console" and "none" name a renderer, any other name none. */
  function BuildRenderer(rendererType: string): (r: Option<RendererKind>)
    ensures r == Some(Console) <==> rendererType == "console"
    ensures r == Some(Void) <==> rendererType == "none"
  {
    if rendererType == "console" then Some(Console)
    else if rendererType == "none" then Some(Void)
    else None
  }

  /** checkArgumentsValidity: a positive round count, a renderer and two players. */
  predicate ArgumentsValid(rounds: int, renderer: Option<RendererKind>,
                           player1: Option<PlayerKind>, player2: Option<PlayerKind>)
  {
    !(rounds <= 0 || renderer.None? || player1.None? || player2.None?)
  }

  /** What createTournament builds, before the player objects exist. */
  datatype Setup = Setup(rounds: int, renderer: RendererKind, kind1: PlayerKind, kind2: PlayerKind)

  /** createTournament's decision: the renderer and both players from their names, if the arguments are valid. */
  function Configure(rounds: int, renderType: string, player1Type: string, player2Type: string): Option<Setup>
  {
    var renderer := BuildRenderer(renderType);
    var player1 := KindOf(player1Type);
    var player2 := KindOf(player2Type);
    if !ArgumentsValid(rounds, renderer, player1, player2) then None
    else Some(Setup(rounds, renderer.value, player1.value, player2.value))
  }

  /**
   * A tournament is created exactly when the round count is positive, the
   * renderer name is "console" or "none" and both player names are known;
   * it then holds the kinds the names stand for.
   */
  lemma ConfigureSpec(rounds: int, renderType: string, player1Type: string, player2Type: string)
    ensures Configure(rounds, renderType, player1Type, player2Type).Some? <==>
      rounds > 0 && (renderType == "console" || renderType == "none") &&
      player1Type in KindNames() && player2Type in KindNames()
    ensures Configure(rounds, renderType, player1Type, player2Type).Some? ==>
      var s := Configure(rounds, renderType, player1Type, player2Type).value;
      s.rounds == rounds && s.kind1 == KindOf(player1Type).value && s.kind2 == KindOf(player2Type).value &&
      KindName(s.kind1) == player1Type && KindName(s.kind2) == player2Type
  {
    KnownNames(player1Type);
    KnownNames(player2Type);
  }

  /** The four names the player factory knows. */
  function KindNames(): set<string>
  {
    {"human", "whatever", "clever", "snartypamts"}
  }

  lemma KnownNames(name: string)
    ensures KindOf(name).Some? <==> name in KindNames()
    ensures KindOf(name).Some? ==> KindName(KindOf(name).value) == name
  {
    if KindOf(name).Some? {
      KindOfNames(name, KindOf(name).value);
    }
  }

  /** The mark player1 holds in round i: X (and the first move) in even rounds, O in odd ones. */
  function Player1Mark(i: nat): Mark
  {
    if i % 2 == 0 then X else O
  }

  /** The mark player2 holds in round i. */
  function Player2Mark(i: nat): Mark
  {
    if i % 2 == 0 then O else X
  }

  /** updateResults' slot for a game's result under the marks the two players held. */
  function Slot(result: Mark, mark1: Mark, mark2: Mark): (k: nat)
    ensures k < RESULTS_NUM
  {
    if result == mark1 then PLAYER1_RESULT
    else if result == mark2 then PLAYER2_RESULT
    else DRAW_RESULT
  }

  /**
   * In round i a game is credited to player1 exactly when the winning mark
   * is player1's mark that round, to player2 exactly when it is player2's,
   * and a game without a winner is a draw.
   */
  lemma RoundCredit(result: Mark, i: nat)
    ensures Player1Mark(i) != Player2Mark(i) && Player1Mark(i) != Blank && Player2Mark(i) != Blank
    ensures Slot(result, Player1Mark(i), Player2Mark(i)) == PLAYER1_RESULT <==> result == Player1Mark(i)
    ensures Slot(result, Player1Mark(i), Player2Mark(i)) == PLAYER2_RESULT <==> result == Player2Mark(i)
    ensures Slot(result, Player1Mark(i), Player2Mark(i)) == DRAW_RESULT <==> result == Blank
  {
  }

  /** One more in counter k. */
  function Bump(counters: seq<nat>, k: nat): (c: seq<nat>)
    requires k < |counters|
    ensures |c| == |counters| && c[k] == counters[k] + 1
    ensures forall j :: 0 <= j < |c| && j != k ==> c[j] == counters[j]
  {
    counters[k := counters[k] + 1]
  }

  /** The three counters after the given rounds' results, round i played with round i's marks. */
  function Tally(outcomes: seq<Mark>): (t: seq<nat>)
    ensures |t| == RESULTS_NUM
    decreases |outcomes|
  {
    if outcomes == [] then [0, 0, 0]
    else
      var n := |outcomes| - 1;
      Bump(Tally(outcomes[..n]), Slot(outcomes[n], Player1Mark(n), Player2Mark(n)))
  }

  /** Counting one more round: the counter of its slot grows by one. */
  lemma TallyStep(outcomes: seq<Mark>, result: Mark, before: seq<nat>, after: seq<nat>)
    requires before == Tally(outcomes)
    requires after == Bump(before, Slot(result, Player1Mark(|outcomes|), Player2Mark(|outcomes|)))
    ensures after == Tally(outcomes + [result])
  {
    assert (outcomes + [result])[..|outcomes|] == outcomes;
  }

  /** Every round lands in exactly one counter, so the counters add up to the rounds played. */
  lemma {:induction false} TallySum(outcomes: seq<Mark>)
    ensures Tally(outcomes)[0] + Tally(outcomes)[1] + Tally(outcomes)[2] == |outcomes|
    decreases |outcomes|
  {
    if outcomes != [] {
      TallySum(outcomes[..|outcomes| - 1]);
    }
  }

  /** The rounds whose result went into counter k. */
  function RoundsIn(outcomes: seq<Mark>, k: nat): set<nat>
  {
    set i: nat | i < |outcomes| && Slot(outcomes[i], Player1Mark(i), Player2Mark(i)) == k
  }

  /** Counter k holds the number of rounds whose result went into it. */
  lemma {:induction false} TallyCounts(outcomes: seq<Mark>, k: nat)
    requires k < RESULTS_NUM
    ensures Tally(outcomes)[k] == |RoundsIn(outcomes, k)|
    decreases |outcomes|
  {
    if outcomes != [] {
      var n := |outcomes| - 1;
      TallyCounts(outcomes[..n], k);
      if Slot(outcomes[n], Player1Mark(n), Player2Mark(n)) == k {
        assert RoundsIn(outcomes, k) == RoundsIn(outcomes[..n], k) + {n};
      } else {
        assert RoundsIn(outcomes, k) == RoundsIn(outcomes[..n], k);
      }
    }
  }

  /**
   * The counters of playTournament's results: player1's wins are the rounds
   * won with the mark player1 held, player2's likewise, and the draws are
   * the rounds without a winner.
   */
  lemma TallyMeaning(outcomes: seq<Mark>)
    ensures Tally(outcomes)[PLAYER1_RESULT] == |set i: nat | i < |outcomes| && outcomes[i] == Player1Mark(i)|
    ensures Tally(outcomes)[PLAYER2_RESULT] == |set i: nat | i < |outcomes| && outcomes[i] == Player2Mark(i)|
    ensures Tally(outcomes)[DRAW_RESULT] == |set i: nat | i < |outcomes| && outcomes[i] == Blank|
  {
    forall i: nat | i < |outcomes| {
      RoundCredit(outcomes[i], i);
    }
    TallyCounts(outcomes, PLAYER1_RESULT);
    TallyCounts(outcomes, PLAYER2_RESULT);
    TallyCounts(outcomes, DRAW_RESULT);
    assert RoundsIn(outcomes, PLAYER1_RESULT) == set i: nat | i < |outcomes| && outcomes[i] == Player1Mark(i);
    assert RoundsIn(outcomes, PLAYER2_RESULT) == set i: nat | i < |outcomes| && outcomes[i] == Player2Mark(i);
    assert RoundsIn(outcomes, DRAW_RESULT) == set i: nat | i < |outcomes| && outcomes[i] == Blank;
  }

  /**
   * updateResults: the counter of the result's slot grows by one and the
   * other two stay.
   */
  method UpdateResults(result: Mark, playerMarks: seq<Mark>, results: array<nat>)
    requires |playerMarks| == 2 && results.Length == RESULTS_NUM
    modifies results
    ensures results[..] == Bump(old(results[..]), Slot(result, playerMarks[0], playerMarks[1]))
  {
    if result == playerMarks[0] {
      results[PLAYER1_RESULT] := results[PLAYER1_RESULT] + 1;
    } else if result == playerMarks[1] {
      results[PLAYER2_RESULT] := results[PLAYER2_RESULT] + 1;
    } else {
      results[DRAW_RESULT] := results[DRAW_RESULT] + 1;
    }
  }

  /** A game's result: the winner of some finished board (Blank for a full board without one). */
  ghost predicate Decided(result: Mark)
  {
    exists g: Grid :: WellFormed(g) && GameEnded(g) && result == Winner(g)
  }

  class Tournament {
    const rounds: int
    const renderer: RendererKind
    const player1: Player
    const player2: Player

    constructor (rounds: int, renderer: RendererKind, player1: Player, player2: Player)
      ensures this.rounds == rounds && this.renderer == renderer
      ensures this.player1 == player1 && this.player2 == player2
    {
      this.rounds := rounds;
      this.renderer := renderer;
      this.player1 := player1;
      this.player2 := player2;
    }

    /**
     * playTournament: round i is a game between the players in the order
     * and with the marks of index i % 2 of {{player1, player2}, {player2,
     * player1}} and {{X, O}, {O, X}}; every result goes into the counters.
     * The outcomes are the rounds' winning marks, each the winner of a
     * finished board, and the counters are their tally.
     */
    method PlayTournament() returns (results: array<nat>, ghost outcomes: seq<Mark>)
      requires player1.Fair() && player2.Fair()
      modifies player1, player2
      ensures fresh(results) && results.Length == RESULTS_NUM
      ensures |outcomes| == (if rounds > 0 then rounds else 0)
      ensures forall i :: 0 <= i < |outcomes| ==> Decided(outcomes[i])
      ensures results[..] == Tally(outcomes)
    {
      results := new nat[RESULTS_NUM](_ => 0);
      outcomes := [];
      var i := 0;
      while i < rounds
        invariant 0 <= i <= (if rounds > 0 then rounds else 0) && |outcomes| == i
        invariant forall j :: 0 <= j < i ==> Decided(outcomes[j])
        invariant results[..] == Tally(outcomes)
      {
        var first := if i % 2 == 0 then player1 else player2;
        var second := if i % 2 == 0 then player2 else player1;
        var marks := if i % 2 == 0 then [X, O] else [O, X];
        var game := new Game(first, second);
        var winner, final := game.Run();
        ghost var before := results[..];
        UpdateResults(winner, marks, results);
        TallyStep(outcomes, winner, before, results[..]);
        outcomes := outcomes + [winner];
        i := i + 1;
      }
    }
  }
  /** The player built from a name meets the fairness its retry loops need. */
  ghost predicate FairNamed(name: string, draws: Oracle.Stream, inputs: nat -> int)
  {
    KindOf(name).Some? ==> FairStreams(KindOf(name).value, draws, inputs)
  }

  /**
   * createTournament: the renderer and the two players from their names,
   * and a tournament exactly when checkArgumentsValidity accepts them. Each
   * player gets its own stream of draws and typed numbers.
   */
  method CreateTournament(rounds: int, renderType: string, player1Type: string, player2Type: string,
                          draws1: Oracle.Stream, inputs1: nat -> int, draws2: Oracle.Stream, inputs2: nat -> int)
    returns (t: Tournament?)
    ensures t == null <==> Configure(rounds, renderType, player1Type, player2Type).None?
    ensures t != null ==>
      var s := Configure(rounds, renderType, player1Type, player2Type).value;
      fresh(t) && fresh(t.player1) && fresh(t.player2) && t.player1 != t.player2 &&
      t.rounds == rounds && t.renderer == s.renderer &&
      t.player1.kind == s.kind1 && t.player1.draws == draws1 && t.player1.inputs == inputs1 &&
      t.player2.kind == s.kind2 && t.player2.draws == draws2 && t.player2.inputs == inputs2
  {
    var renderer := BuildRenderer(renderType);
    var player1 := BuildPlayer(player1Type, draws1, inputs1);
    var player2 := BuildPlayer(player2Type, draws2, inputs2);
    var kind1 := if player1 == null then None else Some(player1.kind);
    var kind2 := if player2 == null then None else Some(player2.kind);
    if !ArgumentsValid(rounds, renderer, kind1, kind2) {
      return null;
    }
    t := new Tournament(rounds, renderer.value, player1, player2);
  }

  /**
   * Tournament.main: with exactly four arguments (the round count, read
   * by parseInt, the renderer and the two players) and valid ones, the
   * tournament is played and its counters returned; otherwise nothing is
   * played. Every round is counted once.
   */
  method Start(args: seq<string>, parseInt: string -> int,
               draws1: Oracle.Stream, inputs1: nat -> int, draws2: Oracle.Stream, inputs2: nat -> int)
    returns (results: Option<seq<nat>>)
    requires |args| == ARG_NUM ==> FairNamed(args[2], draws1, inputs1) && FairNamed(args[3], draws2, inputs2)
    ensures results.None? <==> |args| != ARG_NUM || Configure(parseInt(args[0]), args[1], args[2], args[3]).None?
    ensures results.Some? ==>
      |results.value| == RESULTS_NUM &&
      results.value[PLAYER1_RESULT] + results.value[PLAYER2_RESULT] + results.value[DRAW_RESULT] == parseInt(args[0])
  {
    if |args| != ARG_NUM {
      return None;
    }
    var rounds := parseInt(args[0]);
    var tournament := CreateTournament(rounds, args[1], args[2], args[3], draws1, inputs1, draws2, inputs2);
    if tournament == null {
      return None;
    }
    var counters, outcomes := tournament.PlayTournament();
    TallySum(outcomes);
    results := Some(counters[..]);
  }
}
