/**
 The state container. A `Store` owns one storage slot holding the persisted
 `GameState`, derives the `game` and `stats` views from it on every read, and
 changes it only through three operations, each of which reads the slot, builds a
 new state and writes the whole of it back.
 */
module GameStore {
  import opened GameTypes
  import opened Rules
  import opened Transitions

  class Store {
    /** The key of the storage slot. */
    const storageKey: string
    /** The configured players, in turn order. */
    const players: seq<Player>
    /** The storage slot under `storageKey`: `None` while nothing has been stored. */
    var slot: Option<GameState>

    /** The game is configured for exactly two players. */
    ghost predicate Valid() {
      |players| == 2
    }

    /** `stored` is whatever the slot already holds when the store is created. */
    constructor (key: string, players: seq<Player>, stored: Option<GameState>)
      requires |players| == 2
      ensures Valid()
      ensures storageKey == key && this.players == players && slot == stored
      ensures stored.None? ==> GetState() == InitialValue
    {
      storageKey := key;
      this.players := players;
      slot := stored;
    }

    /** Reads the slot; an absent value reads as the initial empty state. */
    function GetState(): (r: GameState)
      reads this
      ensures slot.None? ==> r == InitialValue
      ensures slot.Some? ==> r == slot.value
    {
      if slot.Some? then slot.value else InitialValue
    }

    /** Commits a new state: the whole stored value is replaced. */
    method SaveState(newState: GameState)
      modifies this
      ensures slot == Some(newState)
    {
      slot := Some(newState);
    }

    /**
     The `game` view: the current moves, the player whose turn it is (by the
     parity of the number of moves), and the status, found by scanning every
     player and every winning pattern and keeping the last match.
     */
    method Game() returns (view: GameView)
      requires Valid()
      ensures view.moves == GetState().currentGameMoves
      ensures view.currentPlayer == players[|view.moves| % 2]
      ensures view.status.winner == LastWinner(players, view.moves)
      ensures view.status.isComplete <==> view.status.winner.Some? || |view.moves| == 9
      ensures view == GameOf(players, GetState())
    {
      var state := GetState();
      var moves := state.currentGameMoves;
      var currentPlayer := players[|moves| % 2];
      var winner: Option<Player> := None;
      for i := 0 to |players|
        invariant winner == LastWinner(players[..i], moves)
      {
        var player := players[i];
        var selectedSquareIds := Occupied(moves, player);
        for j := 0 to |WinningPatterns|
          invariant winner == if MatchesAny(WinningPatterns[..j], selectedSquareIds) then Some(player)
                              else LastWinner(players[..i], moves)
        {
          if Covers(WinningPatterns[j], selectedSquareIds) {
            winner := Some(player);
          }
          assert WinningPatterns[..j + 1][..j] == WinningPatterns[..j];
        }
        assert WinningPatterns[..|WinningPatterns|] == WinningPatterns;
        assert players[..i + 1][..i] == players[..i];
      }
      assert players[..|players|] == players;
      view := GameView(moves, currentPlayer, Status(winner.Some? || |moves| == 9, winner));
    }

    /**
     The `stats` view of the current round: one entry per configured player, in
     player order, with the number of games that player won, and the number of
     games without a winner.
     */
    function Stats(): (r: StatsView)
      requires Valid()
      reads this
      ensures |r.playerWithStats| == |players|
      ensures forall i :: 0 <= i < |players| ==>
        r.playerWithStats[i].player == players[i] &&
        r.playerWithStats[i].wins == |GamesWonBy(GetState().history.currentRoundGames, players[i].id)|
      ensures r.ties == |TiedGames(GetState().history.currentRoundGames)|
    {
      var games := GetState().history.currentRoundGames;
      var ps := players;
      StatsView(
        seq(|ps|, i requires 0 <= i < |ps| => PlayerWithStats(ps[i], CountWins(games, ps[i].id))),
        CountTies(games))
    }

    /** In a consistent state, with players of distinct ids, the round's wins and ties add up to its games. */
    lemma StatsAddUp()
      requires Valid() && Consistent(players, GetState()) && players[0].id != players[1].id
      ensures Stats().playerWithStats[0].wins + Stats().playerWithStats[1].wins + Stats().ties ==
        |GetState().history.currentRoundGames|
    {
      var games := GetState().history.currentRoundGames;
      forall k | 0 <= k < |games| ensures WinnerConfigured(players, games[k]) {
        assert games[k] in games;
        ArchivedWinnerConfigured(players, games[k]);
      }
      WinsAndTiesPartition(players, games);
    }

    /**
     Appends a move on `squareId` by the player whose turn it is. The caller has
     already checked that the square is free.
     */
    method PlayerMove(squareId: int)
      requires Valid()
      requires 1 <= squareId <= 9
      requires forall m :: m in GetState().currentGameMoves ==> m.squareId != squareId
      requires |GetState().currentGameMoves| < 9
      modifies this
      ensures slot == Some(AfterMove(players, old(GetState()), squareId))
    {
      var stateClone := GetState();
      var game := Game();
      stateClone := stateClone.(currentGameMoves := stateClone.currentGameMoves + [Move(squareId, game.currentPlayer)]);
      SaveState(stateClone);
    }

    /**
     Clears the board. A finished game is first archived, with the moves and the
     status the `game` view reports; an unfinished one is dropped.
     */
    method Reset()
      requires Valid()
      modifies this
      ensures slot == Some(AfterReset(players, old(GetState())))
    {
      var stateClone := GetState();
      var game := Game();
      if game.status.isComplete {
        stateClone := stateClone.(history := stateClone.history.(
          currentRoundGames := stateClone.history.currentRoundGames + [CompletedGame(game.moves, game.status)]));
      }
      stateClone := stateClone.(currentGameMoves := []);
      assert stateClone.history.currentRoundGames ==
        old(GetState()).history.currentRoundGames + Archived(players, old(GetState()));
      SaveState(stateClone);
    }

    /**
     Ends the round: resets the board (archiving a finished game), then moves every
     game of the round, in order, to the end of the list of all games.
     */
    method NewRound()
      requires Valid()
      modifies this
      ensures slot == Some(AfterNewRound(players, old(GetState())))
    {
      Reset();
      var stateClone := GetState();
      stateClone := stateClone.(history := History([], stateClone.history.allGames + stateClone.history.currentRoundGames));
      SaveState(stateClone);
    }
  }
}
