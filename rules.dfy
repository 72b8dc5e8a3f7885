/**
 The rules the store derives its views from: which squares a player holds, the
 eight winning lines, who has won (with the store's "last match wins" tie-break),
 when a game is over, and how the wins and ties of a round are counted.
 */
module Rules {
  import opened GameTypes

  /** The eight winning lines, in the order the store tries them. */
  const WinningPatterns: seq<seq<int>> := [
    [1, 2, 3],
    [1, 5, 9],
    [1, 4, 7],
    [2, 5, 8],
    [3, 5, 7],
    [3, 6, 9],
    [4, 5, 6],
    [7, 8, 9]
  ]

  /** The squares of the moves made by a player with `p`'s id, in play order. */
  function Occupied(moves: seq<Move>, p: Player): (squares: seq<int>)
    ensures |squares| <= |moves|
    ensures forall x :: x in squares <==>
      exists m :: m in moves && m.player.id == p.id && m.squareId == x
  {
    if moves == [] then []
    else
      (if moves[0].player.id == p.id then [moves[0].squareId] else []) + Occupied(moves[1..], p)
  }

  /** A square that no move by `p` is on is not held by `p`. */
  lemma OccupiedAbsent(moves: seq<Move>, p: Player, x: int)
    requires forall i :: 0 <= i < |moves| && moves[i].squareId == x ==> moves[i].player.id != p.id
    ensures x !in Occupied(moves, p)
  {
    forall m | m in moves && m.player.id == p.id ensures m.squareId != x {
      var i :| 0 <= i < |moves| && moves[i] == m;
    }
  }

  /** Every square of `pattern` is among `squares`. */
  predicate Covers(pattern: seq<int>, squares: seq<int>) {
    forall v :: v in pattern ==> v in squares
  }

  /**
   Some pattern of `patterns` is covered by `squares`; stated the way the store
   scans the patterns, one at a time in order (see MatchesAnyExactly).
   */
  predicate MatchesAny(patterns: seq<seq<int>>, squares: seq<int>) {
    patterns != [] &&
    (MatchesAny(patterns[..|patterns| - 1], squares) || Covers(patterns[|patterns| - 1], squares))
  }

  lemma {:induction false} MatchesAnyExactly(patterns: seq<seq<int>>, squares: seq<int>)
    ensures MatchesAny(patterns, squares) <==> exists j :: 0 <= j < |patterns| && Covers(patterns[j], squares)
  {
    if patterns != [] {
      var init := patterns[..|patterns| - 1];
      MatchesAnyExactly(init, squares);
      assert forall j :: 0 <= j < |init| ==> init[j] == patterns[j];
    }
  }

  /** Player `p` holds all three squares of some winning line. */
  predicate Wins(moves: seq<Move>, p: Player) {
    MatchesAny(WinningPatterns, Occupied(moves, p))
  }

  /** A player wins exactly when it holds every square of one of the eight winning lines. */
  lemma WinsExactly(moves: seq<Move>, p: Player)
    ensures Wins(moves, p) <==>
      exists j :: 0 <= j < |WinningPatterns| && Covers(WinningPatterns[j], Occupied(moves, p))
  {
    MatchesAnyExactly(WinningPatterns, Occupied(moves, p));
  }

  /** A player missing one square of every winning line has not won. */
  lemma NoLineHeld(moves: seq<Move>, p: Player, missing: seq<int>)
    requires |missing| == |WinningPatterns|
    requires forall j :: 0 <= j < |WinningPatterns| ==>
      missing[j] in WinningPatterns[j] && missing[j] !in Occupied(moves, p)
    ensures !Wins(moves, p)
  {
    WinsExactly(moves, p);
  }

  /** A player holding every square of winning line `j` has won. */
  lemma LineHeld(moves: seq<Move>, p: Player, j: nat)
    requires j < |WinningPatterns| && forall v :: v in WinningPatterns[j] ==> v in Occupied(moves, p)
    ensures Wins(moves, p)
  {
    WinsExactly(moves, p);
    assert Covers(WinningPatterns[j], Occupied(moves, p));
  }

  /**
   The winner win detection reports. Players are tried in order and every match
   overwrites the previous one, so the reported winner is the LAST player that
   holds a winning line; there is none exactly when no player holds one.
   */
  function LastWinner(players: seq<Player>, moves: seq<Move>): (r: Option<Player>)
    ensures r.None? <==> forall i :: 0 <= i < |players| ==> !Wins(moves, players[i])
    ensures r.Some? ==> r.value in players && Wins(moves, r.value)
  {
    if players == [] then None
    else
      var init, last := players[..|players| - 1], players[|players| - 1];
      if Wins(moves, last) then Some(last)
      else
        assert forall i :: 0 <= i < |init| ==> init[i] == players[i];
        LastWinner(init, moves)
  }

  /** `players[i]` is `w`, holds a winning line, and no player after it holds one. */
  predicate LastMatchAt(players: seq<Player>, moves: seq<Move>, w: Player, i: int) {
    && 0 <= i < |players|
    && players[i] == w
    && Wins(moves, players[i])
    && forall k :: i < k < |players| ==> !Wins(moves, players[k])
  }

  /** When the last player holds no line, the last match among the players before it is the last match overall. */
  lemma LastMatchAtExtends(players: seq<Player>, moves: seq<Move>, w: Player, i: int)
    requires players != [] && !Wins(moves, players[|players| - 1])
    requires LastMatchAt(players[..|players| - 1], moves, w, i)
    ensures LastMatchAt(players, moves, w, i)
  {
    var init := players[..|players| - 1];
    forall k | i < k < |players| ensures !Wins(moves, players[k]) {
      if k < |init| {
        assert players[k] == init[k];
      }
    }
  }

  /**
   The reported winner is the configured player at the highest position that
   holds a winning line: every player after it holds none.
   */
  lemma {:induction false} LastWinnerIsLastMatch(players: seq<Player>, moves: seq<Move>)
    requires LastWinner(players, moves).Some?
    ensures exists i :: LastMatchAt(players, moves, LastWinner(players, moves).value, i)
    decreases |players|, 1
  {
    var n := |players| - 1;
    if Wins(moves, players[n]) {
      assert LastMatchAt(players, moves, LastWinner(players, moves).value, n);
    } else {
      LastMatchBeforeLast(players, moves);
    }
  }

  /** The induction step: when the last player holds no line, the winner comes from the players before it. */
  lemma {:induction false} LastMatchBeforeLast(players: seq<Player>, moves: seq<Move>)
    requires players != [] && !Wins(moves, players[|players| - 1]) && LastWinner(players, moves).Some?
    ensures exists i :: LastMatchAt(players, moves, LastWinner(players, moves).value, i)
    decreases |players|, 0
  {
    var n := |players| - 1;
    var init := players[..n];
    var w := LastWinner(init, moves).value;
    LastWinnerIsLastMatch(init, moves);
    var i :| LastMatchAt(init, moves, w, i);
    LastMatchAtExtends(players, moves, w, i);
  }

  /** The status the `game` view reports for a list of moves. */
  function StatusOf(players: seq<Player>, moves: seq<Move>): (r: Status) {
    var winner := LastWinner(players, moves);
    Status(winner.Some? || |moves| == 9, winner)
  }

  /** Whose turn it is: players alternate, starting with the first, by the parity of the number of moves. */
  function CurrentPlayer(players: seq<Player>, moves: seq<Move>): (r: Player)
    requires |players| == 2
  {
    players[|moves| % 2]
  }

  /** The `game` view of a state: the moves, whose turn it is and the status. */
  function GameOf(players: seq<Player>, s: GameState): (r: GameView)
    requires |players| == 2
  {
    var moves := s.currentGameMoves;
    GameView(moves, CurrentPlayer(players, moves), StatusOf(players, moves))
  }

  /** A game is over exactly when some player holds a winning line or all nine squares are taken. */
  lemma StatusIsComplete(players: seq<Player>, moves: seq<Move>)
    ensures StatusOf(players, moves).isComplete <==>
      (exists i :: 0 <= i < |players| && Wins(moves, players[i])) || |moves| == 9
  {
  }

  /** A tie is exactly a full board on which no player holds a winning line. */
  lemma TieExactly(players: seq<Player>, moves: seq<Move>)
    ensures StatusOf(players, moves) == Status(true, None) <==>
      |moves| == 9 && forall i :: 0 <= i < |players| ==> !Wins(moves, players[i])
  {
  }

  /** When exactly one configured player holds a winning line, that player is the winner and the game is over. */
  lemma SoleWinner(players: seq<Player>, moves: seq<Move>, k: nat)
    requires k < |players| && Wins(moves, players[k])
    requires forall i :: 0 <= i < |players| && i != k ==> !Wins(moves, players[i])
    ensures StatusOf(players, moves) == Status(true, Some(players[k]))
  {
    LastWinnerIsLastMatch(players, moves);
  }

  /** When both players hold a winning line, the second configured player is reported. */
  lemma BothWinSecondReported(players: seq<Player>, moves: seq<Move>)
    requires |players| == 2 && Wins(moves, players[0]) && Wins(moves, players[1])
    ensures StatusOf(players, moves) == Status(true, Some(players[1]))
  {
  }

  /** Squares held depend only on which moves were made, not on their order. */
  lemma {:induction false} OccupiedIgnoresOrder(m1: seq<Move>, m2: seq<Move>, p: Player)
    requires multiset(m1) == multiset(m2)
    ensures forall x :: x in Occupied(m1, p) <==> x in Occupied(m2, p)
  {
    forall x ensures x in Occupied(m1, p) ==> x in Occupied(m2, p) {
      if x in Occupied(m1, p) {
        var m :| m in m1 && m.player.id == p.id && m.squareId == x;
        assert m in multiset(m2);
      }
    }
    forall x ensures x in Occupied(m2, p) ==> x in Occupied(m1, p) {
      if x in Occupied(m2, p) {
        var m :| m in m2 && m.player.id == p.id && m.squareId == x;
        assert m in multiset(m1);
      }
    }
  }

  /**
   Win detection does not depend on how the board is recorded: two move lists
   holding the same moves in any order yield the same winner.
   */
  lemma {:induction false} WinnerIgnoresMoveOrder(players: seq<Player>, m1: seq<Move>, m2: seq<Move>)
    requires multiset(m1) == multiset(m2)
    ensures LastWinner(players, m1) == LastWinner(players, m2)
  {
    if players != [] {
      var last := players[|players| - 1];
      OccupiedIgnoresOrder(m1, m2, last);
      assert Wins(m1, last) == Wins(m2, last) by {
        MatchesAnyExactly(WinningPatterns, Occupied(m1, last));
        MatchesAnyExactly(WinningPatterns, Occupied(m2, last));
        forall j | 0 <= j < |WinningPatterns|
          ensures Covers(WinningPatterns[j], Occupied(m1, last)) == Covers(WinningPatterns[j], Occupied(m2, last))
        {
        }
      }
      WinnerIgnoresMoveOrder(players[..|players| - 1], m1, m2);
    }
  }

  // ---- counting the round: the `stats` view ----

  /** The game was won by the player with id `id`. */
  predicate WonBy(g: CompletedGame, id: int) {
    g.status.winner.Some? && g.status.winner.value.id == id
  }

  /** The game ended without a winner. */
  predicate IsTie(g: CompletedGame) {
    g.status.winner.None?
  }

  /** Positions of the games won by the player with id `id`. */
  ghost function GamesWonBy(games: seq<CompletedGame>, id: int): set<int> {
    set k | 0 <= k < |games| && WonBy(games[k], id)
  }

  /** Positions of the games that ended without a winner. */
  ghost function TiedGames(games: seq<CompletedGame>): set<int> {
    set k | 0 <= k < |games| && IsTie(games[k])
  }

  /** The number of games won by the player with id `id`. */
  function CountWins(games: seq<CompletedGame>, id: int): (n: nat)
    ensures n == |GamesWonBy(games, id)|
  {
    if games == [] then 0
    else
      var init := games[..|games| - 1];
      var won := WonBy(games[|games| - 1], id);
      assert GamesWonBy(games, id) == GamesWonBy(init, id) + (if won then {|init|} else {});
      CountWins(init, id) + (if won then 1 else 0)
  }

  /** The number of games that ended without a winner. */
  function CountTies(games: seq<CompletedGame>): (n: nat)
    ensures n == |TiedGames(games)|
  {
    if games == [] then 0
    else
      var init := games[..|games| - 1];
      var tied := IsTie(games[|games| - 1]);
      assert TiedGames(games) == TiedGames(init) + (if tied then {|init|} else {});
      CountTies(init) + (if tied then 1 else 0)
  }

  /** The recorded winner, if any, is one of the configured players. */
  predicate WinnerConfigured(players: seq<Player>, g: CompletedGame) {
    g.status.winner.None? || g.status.winner.value in players
  }

  /**
   With two players of distinct ids and every recorded winner a configured
   player, the wins of both players and the ties account for every game once.
   */
  lemma {:induction false} WinsAndTiesPartition(players: seq<Player>, games: seq<CompletedGame>)
    requires |players| == 2 && players[0].id != players[1].id
    requires forall k :: 0 <= k < |games| ==> WinnerConfigured(players, games[k])
    ensures CountWins(games, players[0].id) + CountWins(games, players[1].id) + CountTies(games) == |games|
  {
    if games != [] {
      var init := games[..|games| - 1];
      assert forall k :: 0 <= k < |init| ==> init[k] == games[k];
      WinsAndTiesPartition(players, init);
    }
  }
}
