/**
 Concrete games with the two players the app configures, and a client that
 drives a store through two games of one round and a new round, using only the
 store's contracts.
 */
module Scenarios {
  import opened GameTypes
  import opened Rules
  import opened Transitions
  import opened GameStore

  const P1: Player := Player(1, "Player 1", "fa-x", "turquoise")
  const P2: Player := Player(2, "Player 2", "fa-o", "yellow")
  const Players: seq<Player> := [P1, P2]

  /** Player 1 takes the diagonal 1-5-9 on the fifth move. */
  const DiagonalWin: seq<Move> :=
    [Move(1, P1), Move(2, P2), Move(5, P1), Move(3, P2), Move(9, P1)]

  /** Player 1 completes the top row, then play goes on and player 2 completes the middle row. */
  const BothRows: seq<Move> :=
    [Move(1, P1), Move(4, P2), Move(2, P1), Move(5, P2), Move(3, P1), Move(6, P2)]

  /** A full board without a line: X O X / X O O / O X X. */
  const FullBoardNoLine: seq<Move> :=
    [Move(1, P1), Move(2, P2), Move(3, P1), Move(5, P2), Move(8, P1),
     Move(6, P2), Move(4, P1), Move(7, P2), Move(9, P1)]

  /** A player holding a line after five moves is reported as the winner. */
  lemma DiagonalWinIsWon()
    ensures StatusOf(Players, DiagonalWin) == Status(true, Some(P1))
  {
    assert Wins(DiagonalWin, P1) by {
      var x := Occupied(DiagonalWin, P1);
      assert 1 in x && 5 in x && 9 in x;
      LineHeld(DiagonalWin, P1, 1);
    }
    assert !Wins(DiagonalWin, P2) by {
      var o := Occupied(DiagonalWin, P2);
      assert 1 !in o && 4 !in o && 5 !in o && 6 !in o && 7 !in o;
      NoLineHeld(DiagonalWin, P2, [1, 1, 1, 5, 5, 6, 4, 7]);
    }
    SoleWinner(Players, DiagonalWin, 0);
  }

  /** In `BothRows` player 1 holds the top row. */
  lemma BothRowsFirstHoldsLine()
    ensures Wins(BothRows, P1)
  {
    var x := Occupied(BothRows, P1);
    assert 1 in x && 2 in x && 3 in x;
    LineHeld(BothRows, P1, 0);
  }

  /** In `BothRows` player 2 holds the middle row. */
  lemma BothRowsSecondHoldsLine()
    ensures Wins(BothRows, P2)
  {
    var o := Occupied(BothRows, P2);
    assert 4 in o && 5 in o && 6 in o;
    LineHeld(BothRows, P2, 6);
  }

  /**
   `BothRows` is ordinary alternating play on free squares: nothing stops play
   after the first line is completed, so two players holding a line can arise
   from the app's own moves.
   */
  lemma BothRowsIsAlternatingPlay()
    ensures WellFormedMoves(Players, BothRows)
  {
  }

  /** When both players hold a line, the later-configured player is reported, not the first to complete one. */
  lemma BothRowsReportsSecondPlayer()
    ensures StatusOf(Players, BothRows) == Status(true, Some(P2))
  {
    BothRowsFirstHoldsLine();
    BothRowsSecondHoldsLine();
    BothWinSecondReported(Players, BothRows);
  }

  /** On the full board, player 1 misses a square of every line. */
  lemma FullBoardFirstHoldsNoLine()
    ensures !Wins(FullBoardNoLine, P1)
  {
    OccupiedAbsent(FullBoardNoLine, P1, 2);
    OccupiedAbsent(FullBoardNoLine, P1, 5);
    OccupiedAbsent(FullBoardNoLine, P1, 6);
    OccupiedAbsent(FullBoardNoLine, P1, 7);
    NoLineHeld(FullBoardNoLine, P1, [2, 5, 7, 5, 5, 6, 5, 7]);
  }

  /** On the full board, player 2 misses a square of every line. */
  lemma FullBoardSecondHoldsNoLine()
    ensures !Wins(FullBoardNoLine, P2)
  {
    OccupiedAbsent(FullBoardNoLine, P2, 1);
    OccupiedAbsent(FullBoardNoLine, P2, 3);
    OccupiedAbsent(FullBoardNoLine, P2, 4);
    OccupiedAbsent(FullBoardNoLine, P2, 8);
    NoLineHeld(FullBoardNoLine, P2, [1, 1, 1, 8, 3, 3, 4, 8]);
  }

  /** Nine moves with no line held is a tie. */
  lemma FullBoardNoLineIsTie()
    ensures StatusOf(Players, FullBoardNoLine) == Status(true, None)
  {
    FullBoardFirstHoldsNoLine();
    FullBoardSecondHoldsNoLine();
    TieExactly(Players, FullBoardNoLine);
  }

  /** Plays `DiagonalWin` on an empty board. */
  method PlayDiagonalWin(store: Store)
    requires store.Valid() && store.players == Players && store.GetState().currentGameMoves == []
    modifies store
    ensures store.GetState() == old(store.GetState()).(currentGameMoves := DiagonalWin)
  {
    store.PlayerMove(1);
    store.PlayerMove(2);
    store.PlayerMove(5);
    store.PlayerMove(3);
    store.PlayerMove(9);
  }

  /** Plays the first four moves of `FullBoardNoLine` on an empty board. */
  method PlayFullBoardOpening(store: Store)
    requires store.Valid() && store.players == Players && store.GetState().currentGameMoves == []
    modifies store
    ensures store.GetState() == old(store.GetState()).(currentGameMoves := FullBoardNoLine[..4])
  {
    store.PlayerMove(1);
    store.PlayerMove(2);
    store.PlayerMove(3);
    store.PlayerMove(5);
  }

  /** Plays `FullBoardNoLine` on an empty board. */
  method PlayFullBoard(store: Store)
    requires store.Valid() && store.players == Players && store.GetState().currentGameMoves == []
    modifies store
    ensures store.GetState() == old(store.GetState()).(currentGameMoves := FullBoardNoLine)
  {
    PlayFullBoardOpening(store);
    store.PlayerMove(8);
    store.PlayerMove(6);
    store.PlayerMove(4);
    store.PlayerMove(7);
    store.PlayerMove(9);
  }

  const WonGame: CompletedGame := CompletedGame(DiagonalWin, Status(true, Some(P1)))
  const TiedGame: CompletedGame := CompletedGame(FullBoardNoLine, Status(true, None))

  /** A round of a game won by player 1 and a tie scores one win for player 1, none for player 2 and one tie. */
  lemma WinThenTieScores()
    ensures CountWins([WonGame, TiedGame], P1.id) == 1
    ensures CountWins([WonGame, TiedGame], P2.id) == 0
    ensures CountTies([WonGame, TiedGame]) == 1
  {
    var round := [WonGame, TiedGame];
    assert round[..1][..0] == [] && round[..1] == [WonGame];
  }

  /** Plays `DiagonalWin` on an empty board and resets: the won game is archived. */
  method ArchiveWin(store: Store)
    requires store.Valid() && store.players == Players && store.GetState().currentGameMoves == []
    modifies store
    ensures store.GetState() == old(store.GetState()).(history := old(store.GetState()).history.(
      currentRoundGames := old(store.GetState()).history.currentRoundGames + [WonGame]))
  {
    PlayDiagonalWin(store);
    DiagonalWinIsWon();
    store.Reset();
  }

  /** Plays `FullBoardNoLine` on an empty board and resets: the tie is archived. */
  method ArchiveTie(store: Store)
    requires store.Valid() && store.players == Players && store.GetState().currentGameMoves == []
    modifies store
    ensures store.GetState() == old(store.GetState()).(history := old(store.GetState()).history.(
      currentRoundGames := old(store.GetState()).history.currentRoundGames + [TiedGame]))
  {
    PlayFullBoard(store);
    FullBoardNoLineIsTie();
    store.Reset();
  }

  /** One round of a won game and a tie, scored and then closed by a new round. */
  method WinThenTieRound() {
    var store := new Store("live-t3-storage-key", Players, None);
    ArchiveWin(store);
    ArchiveTie(store);
    assert store.GetState() == GameState([], History([WonGame, TiedGame], []));
    WinThenTieScores();
    var stats := store.Stats();
    assert stats.playerWithStats[0].wins == 1;
    assert stats.playerWithStats[1].wins == 0;
    assert stats.ties == 1;
    EmptyBoardNotOver(Players);
    store.NewRound();
    assert store.GetState() == GameState([], History([], [WonGame, TiedGame]));
  }
}
