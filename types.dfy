/**
 The records the tic-tac-toe game state is made of. Everything here is a value:
 the store replaces its whole state on every commit, so no record is updated in
 place.
 */
module GameTypes {

  /** A JavaScript value that may be `null`. */
  datatype Option<+T> = None | Some(value: T)

  /** One of the two configured players; `id` is the key moves and winners are compared by. */
  datatype Player = Player(id: int, name: string, iconClass: string, colorClass: string)

  /** A square (1..9) claimed by a player; the order of moves is the order of turns. */
  datatype Move = Move(squareId: int, player: Player)

  /** `winner == None && isComplete` is a tie. */
  datatype Status = Status(isComplete: bool, winner: Option<Player>)

  /** A game snapshot archived by a reset. */
  datatype CompletedGame = CompletedGame(moves: seq<Move>, status: Status)

  datatype History = History(currentRoundGames: seq<CompletedGame>, allGames: seq<CompletedGame>)

  /** The persisted root record. */
  datatype GameState = GameState(currentGameMoves: seq<Move>, history: History)

  /** The derived `game` view: never persisted, recomputed on every read. */
  datatype GameView = GameView(moves: seq<Move>, currentPlayer: Player, status: Status)

  /** One entry of the `stats` view: a configured player together with its wins in the round. */
  datatype PlayerWithStats = PlayerWithStats(player: Player, wins: nat)

  /** The derived `stats` view over the current round. */
  datatype StatsView = StatsView(playerWithStats: seq<PlayerWithStats>, ties: nat)

  /** What a read yields when nothing is stored: no moves and an empty history. */
  const InitialValue: GameState := GameState([], History([], []))
}
