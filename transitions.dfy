/**
 The store's three state transitions as functions of the state they start from,
 the invariant they keep, and what each one promises about the moves, the
 current round and the list of all games.
 */
module Transitions {
  import opened GameTypes
  import opened Rules

  // ---- the invariant the store's operations keep ----

  /**
   Moves of one game as alternating play produces them: at most nine, each on a
   square 1..9, no square twice, and the i-th move made by `players[i % 2]`.
   */
  ghost predicate WellFormedMoves(players: seq<Player>, moves: seq<Move>)
    requires |players| == 2
  {
    && |moves| <= 9
    && (forall i :: 0 <= i < |moves| ==> 1 <= moves[i].squareId <= 9 && moves[i].player == players[i % 2])
    && (forall i, j :: 0 <= i < j < |moves| ==> moves[i].squareId != moves[j].squareId)
  }

  /** An archived game: well-formed, over, and recorded with the status win detection gives its moves. */
  ghost predicate ArchivedGame(players: seq<Player>, g: CompletedGame)
    requires |players| == 2
  {
    WellFormedMoves(players, g.moves) && g.status == StatusOf(players, g.moves) && g.status.isComplete
  }

  ghost predicate Consistent(players: seq<Player>, s: GameState)
    requires |players| == 2
  {
    && WellFormedMoves(players, s.currentGameMoves)
    && (forall g :: g in s.history.currentRoundGames ==> ArchivedGame(players, g))
    && (forall g :: g in s.history.allGames ==> ArchivedGame(players, g))
  }

  /**
   A move on a free square by the player whose turn it is keeps the moves
   well-formed: turns keep alternating, starting with `players[0]`.
   */
  lemma AppendMoveWellFormed(players: seq<Player>, moves: seq<Move>, squareId: int)
    requires |players| == 2 && WellFormedMoves(players, moves) && |moves| < 9
    requires 1 <= squareId <= 9 && forall m :: m in moves ==> m.squareId != squareId
    ensures WellFormedMoves(players, moves + [Move(squareId, players[|moves| % 2])])
  {
    var moves' := moves + [Move(squareId, players[|moves| % 2])];
    forall i, j | 0 <= i < j < |moves'| ensures moves'[i].squareId != moves'[j].squareId {
      assert moves'[i] == moves[i];
      if j == |moves| {
        assert moves[i] in moves;
      } else {
        assert moves'[j] == moves[j];
      }
    }
  }

  /** Every archived game's winner is a configured player. */
  lemma ArchivedWinnerConfigured(players: seq<Player>, g: CompletedGame)
    requires |players| == 2 && ArchivedGame(players, g)
    ensures WinnerConfigured(players, g)
  {
  }

  /** An empty board: nobody has won and the game is not over. */
  lemma EmptyBoardNotOver(players: seq<Player>)
    ensures StatusOf(players, []) == Status(false, None)
  {
    forall i | 0 <= i < |players| ensures !Wins([], players[i]) {
      MatchesAnyExactly(WinningPatterns, []);
      forall j | 0 <= j < |WinningPatterns| ensures !Covers(WinningPatterns[j], []) {
        assert WinningPatterns[j][0] in WinningPatterns[j];
      }
    }
  }

  /** Reading an empty slot gives a consistent state whose game has no moves, is player one's turn and is not over. */
  lemma InitialGame(players: seq<Player>)
    requires |players| == 2
    ensures Consistent(players, InitialValue)
    ensures GameOf(players, InitialValue) == GameView([], players[0], Status(false, None))
  {
    EmptyBoardNotOver(players);
  }

  // ---- the transitions ----

  /** `playerMove`: the player whose turn it is takes `squareId`. */
  function AfterMove(players: seq<Player>, s: GameState, squareId: int): (r: GameState)
    requires |players| == 2
  {
    s.(currentGameMoves := s.currentGameMoves + [Move(squareId, CurrentPlayer(players, s.currentGameMoves))])
  }

  /** The games a reset adds to the round: the current game if it is over, else none. */
  function Archived(players: seq<Player>, s: GameState): (r: seq<CompletedGame>)
    requires |players| == 2
  {
    var game := GameOf(players, s);
    if game.status.isComplete then [CompletedGame(game.moves, game.status)] else []
  }

  /** `reset`: archive a finished game into the round, then clear the board. */
  function AfterReset(players: seq<Player>, s: GameState): (r: GameState)
    requires |players| == 2
  {
    GameState([], s.history.(currentRoundGames := s.history.currentRoundGames + Archived(players, s)))
  }

  /** `newRound`: reset, then move the whole round to the end of the list of all games. */
  function AfterNewRound(players: seq<Player>, s: GameState): (r: GameState)
    requires |players| == 2
  {
    var r := AfterReset(players, s);
    r.(history := History([], r.history.allGames + r.history.currentRoundGames))
  }

  // ---- what each transition promises ----

  /**
   A move adds exactly one entry, at the end, made by the player whose turn it
   was; the earlier moves and both history lists are unchanged.
   */
  lemma MoveAppendsOne(players: seq<Player>, s: GameState, squareId: int)
    requires |players| == 2
    ensures var moves, moves' := s.currentGameMoves, AfterMove(players, s, squareId).currentGameMoves;
      && |moves'| == |moves| + 1
      && moves'[..|moves|] == moves
      && moves'[|moves|] == Move(squareId, players[|moves| % 2])
    ensures AfterMove(players, s, squareId).history == s.history
  {
  }

  /** After a move it is the other player's turn. */
  lemma TurnPasses(players: seq<Player>, s: GameState, squareId: int)
    requires |players| == 2
    ensures CurrentPlayer(players, AfterMove(players, s, squareId).currentGameMoves) ==
      players[1 - |s.currentGameMoves| % 2]
  {
  }

  /**
   A reset always empties the board and never touches the list of all games; it
   appends exactly the finished game, with the moves and status the `game` view
   reported, and leaves the round unchanged when the game was not over.
   */
  lemma ResetArchivesFinishedGame(players: seq<Player>, s: GameState)
    requires |players| == 2
    ensures var s', game := AfterReset(players, s), GameOf(players, s);
      && s'.currentGameMoves == []
      && s'.history.allGames == s.history.allGames
      && (game.status.isComplete ==>
            s'.history.currentRoundGames == s.history.currentRoundGames + [CompletedGame(s.currentGameMoves, game.status)])
      && (!game.status.isComplete ==> s'.history.currentRoundGames == s.history.currentRoundGames)
  {
  }

  /** Resetting twice is the same as resetting once: an empty board is never archived. */
  lemma ResetIdempotent(players: seq<Player>, s: GameState)
    requires |players| == 2
    ensures AfterReset(players, AfterReset(players, s)) == AfterReset(players, s)
  {
    EmptyBoardNotOver(players);
  }

  /**
   A new round leaves the board and the round empty and appends the round, as
   the reset left it and in order, to the list of all games.
   */
  lemma NewRoundMovesRound(players: seq<Player>, s: GameState)
    requires |players| == 2
    ensures var s' := AfterNewRound(players, s);
      && s'.currentGameMoves == []
      && s'.history.currentRoundGames == []
      && s'.history.allGames ==
           s.history.allGames + s.history.currentRoundGames + Archived(players, s)
  {
  }

  /** A reset scores the archived game: its winner gains one win, or the ties grow by one. */
  lemma ResetScoresGame(players: seq<Player>, s: GameState, id: int)
    requires |players| == 2
    ensures var games, games' := s.history.currentRoundGames, AfterReset(players, s).history.currentRoundGames;
      var status := GameOf(players, s).status;
      && CountWins(games', id) == CountWins(games, id) + (if status.isComplete && status.winner.Some? && status.winner.value.id == id then 1 else 0)
      && CountTies(games') == CountTies(games) + (if status.isComplete && status.winner.None? then 1 else 0)
  {
    var games, games' := s.history.currentRoundGames, AfterReset(players, s).history.currentRoundGames;
    if GameOf(players, s).status.isComplete {
      assert games'[..|games'| - 1] == games;
    } else {
      assert games' == games;
    }
  }

  // ---- the invariant is kept ----

  /** A move on a free square keeps the state consistent. */
  lemma MovePreservesConsistent(players: seq<Player>, s: GameState, squareId: int)
    requires |players| == 2 && Consistent(players, s)
    requires 1 <= squareId <= 9 && |s.currentGameMoves| < 9
    requires forall m :: m in s.currentGameMoves ==> m.squareId != squareId
    ensures Consistent(players, AfterMove(players, s, squareId))
  {
    AppendMoveWellFormed(players, s.currentGameMoves, squareId);
  }

  /** A reset keeps the state consistent: what it archives is a finished, well-formed game. */
  lemma ResetPreservesConsistent(players: seq<Player>, s: GameState)
    requires |players| == 2 && Consistent(players, s)
    ensures Consistent(players, AfterReset(players, s))
  {
    var s' := AfterReset(players, s);
    forall g | g in s'.history.currentRoundGames ensures ArchivedGame(players, g) {
      if g !in s.history.currentRoundGames {
        assert g in Archived(players, s);
      }
    }
  }

  /** A new round keeps the state consistent. */
  lemma NewRoundPreservesConsistent(players: seq<Player>, s: GameState)
    requires |players| == 2 && Consistent(players, s)
    ensures Consistent(players, AfterNewRound(players, s))
  {
    ResetPreservesConsistent(players, s);
  }
}
