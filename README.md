# Tic-tac-toe game store

A Dafny model of the `Store` class of the vanilla-JavaScript tic-tac-toe app
(`T3-vanilla-js/js/store.js`). The store keeps one persisted `GameState`: the
moves of the game on the board (`currentGameMoves`), the finished games of the
current round (`history.currentRoundGames`) and the finished games of earlier
rounds (`history.allGames`). It derives two views from that state on every read:

- `game`: the moves, whose turn it is (by the parity of the number of moves)
  and the status. Win detection scans every configured player and every one of
  the eight winning lines. Each match overwrites the previous one, so when two
  players hold a line the one configured later is reported.
- `stats`: for each configured player, in order, the number of games of the
  round that player won, and the number of tied games.

It changes the state only through three operations. Each one reads the slot,
builds a new state and writes the whole state back:

- `playerMove` appends a move by the player whose turn it is.
- `reset` archives a finished game into the round and clears the board.
- `newRound` resets, then moves the whole round to the end of `allGames`.

Layout:

- `types.dfy` (`GameTypes`): the records and `InitialValue`.
- `rules.dfy` (`Rules`): occupied squares, the winning lines, `LastWinner` (the
  reference definition of what the scan reports), the status, and counting wins
  and ties.
- `transitions.dfy` (`Transitions`): the three transitions as functions of the
  old state (`AfterMove`, `AfterReset`, `AfterNewRound`), the consistency
  invariant they keep, and what each one promises.
- `store.dfy` (`GameStore`): the `Store` class. A `slot: Option<GameState>`
  field stands for the storage slot. `Game` keeps the source's nested scan
  loops. `PlayerMove`, `Reset` and `NewRound` are proved to leave exactly the
  state the matching transition function gives.
- `scenarios.dfy` (`Scenarios`): concrete games with the two players the app
  configures. These are a diagonal win, two players each holding a line, and a
  full board tie. A client drives a store through one round of a win and a tie
  and then a new round, using only the store's contracts.

The model tries the eight lines in the order `T3-vanilla-js/js/store.js:58-67`
lists them. A match records the player, not the line, so the reported winner
does not depend on that order.

Nothing in the store or in the app stops play after a line is completed, so
ordinary alternating play can reach a board on which both players hold a line
(`Scenarios.BothRowsIsAlternatingPlay`). The store then reports the second
configured player, whoever completed a line first.

## Model

| member | source | states |
|---|---|---|
| GameStore.Store.constructor | T3-vanilla-js/js/store.js:13-20 | The store keeps its key and its two players, and the slot starts with whatever was already stored. An empty slot reads as the initial state. |
| GameStore.Store.SaveState | T3-vanilla-js/js/store.js:138-160 | A commit replaces the whole stored state with the new one. |
| GameStore.Store.GetState | T3-vanilla-js/js/store.js:163-166 | An empty slot reads as the initial state (no moves, empty history); otherwise the read yields the stored state. |
| GameStore.Store.Game | T3-vanilla-js/js/store.js:50-96 | The view shows the stored moves. It is the turn of `players[#moves % 2]`. The nested scan reports `LastWinner` of the players. The game is complete iff there is a winner or nine moves. |
| GameStore.Store.Stats | T3-vanilla-js/js/store.js:24-47 | There is one entry per configured player, in order. Each entry holds that player and the number of round games whose winner has its id. `ties` is the number of round games without a winner. |
| GameStore.Store.StatsAddUp | T3-vanilla-js/js/store.js:24-47 | In a consistent state with players of distinct ids, both players' wins plus the ties equal the number of games in the round. |
| GameStore.Store.PlayerMove | T3-vanilla-js/js/store.js:100-109 | The new state is `AfterMove` of the old one. The caller must pick a free square in 1..9 while fewer than nine moves exist, which is the guard of T3-vanilla-js/js/app.js:54-61. |
| GameStore.Store.Reset | T3-vanilla-js/js/store.js:112-124 | The new state is `AfterReset` of the old one. |
| GameStore.Store.NewRound | T3-vanilla-js/js/store.js:127-135 | The new state is `AfterNewRound` of the old one. |
| Rules.Occupied | T3-vanilla-js/js/store.js:75-77 | The result holds a square exactly when some move by a player with `p`'s id is on it. It has no more entries than there are moves. |
| Rules.OccupiedAbsent | T3-vanilla-js/js/store.js:75-77 | A square that no move by the player is on is not among the player's held squares. |
| Rules.MatchesAnyExactly | T3-vanilla-js/js/store.js:80-84 | Scanning the patterns one at a time finds a match iff some pattern has all its squares held. |
| Rules.WinsExactly | T3-vanilla-js/js/store.js:58-67 | A player wins iff it holds every square of one of the eight winning lines. |
| Rules.NoLineHeld | T3-vanilla-js/js/store.js:58-84 | A player missing one square of each of the eight lines has not won. |
| Rules.LineHeld | T3-vanilla-js/js/store.js:58-84 | A player holding all squares of one winning line has won. |
| Rules.LastWinner | T3-vanilla-js/js/store.js:69-85 | There is no winner iff no configured player holds a line. A reported winner is a configured player that holds a line. |
| Rules.LastWinnerIsLastMatch | T3-vanilla-js/js/store.js:73-85 | Some position `i` satisfies `LastMatchAt`: the reported winner is `players[i]`, it holds a line, and no player after position `i` holds one. |
| Rules.LastMatchAtExtends | T3-vanilla-js/js/store.js:73-85 | When the last player holds no line, the last match among the earlier players stays the last match once that player is scanned. |
| Rules.StatusIsComplete | T3-vanilla-js/js/store.js:92 | A game is complete iff some player holds a winning line or there are nine moves. |
| Rules.TieExactly | T3-vanilla-js/js/store.js:91-93 | The status is "complete, no winner" iff there are nine moves and no player holds a line. |
| Rules.SoleWinner | T3-vanilla-js/js/store.js:73-93 | When exactly one player holds a line, that player is reported and the game is complete. |
| Rules.BothWinSecondReported | T3-vanilla-js/js/store.js:73-85 | When both players hold a line, the second configured player is reported. |
| Rules.OccupiedIgnoresOrder | T3-vanilla-js/js/store.js:75-77 | The same moves in any order give the same set of held squares. |
| Rules.WinnerIgnoresMoveOrder | T3-vanilla-js/js/store.js:73-85 | The same moves in any order give the same winner. |
| Rules.CountWins | T3-vanilla-js/js/store.js:31-33 | The count equals the number of positions of games won by the player with that id. |
| Rules.CountTies | T3-vanilla-js/js/store.js:43-45 | The count equals the number of positions of games with no winner. |
| Rules.WinsAndTiesPartition | T3-vanilla-js/js/store.js:24-47 | With two players of distinct ids and every winner configured, both players' wins plus the ties equal the number of games. |
| Transitions.AppendMoveWellFormed | T3-vanilla-js/js/store.js:100-109 | A move on a free square by the player whose turn it is keeps the moves alternating, in 1..9 and distinct. |
| Transitions.ArchivedWinnerConfigured | T3-vanilla-js/js/store.js:115-119 | The winner recorded in an archived game is a configured player. |
| Transitions.EmptyBoardNotOver | T3-vanilla-js/js/store.js:69-93 | On an empty board nobody has won and the game is not complete. |
| Transitions.InitialGame | T3-vanilla-js/js/store.js:1-7 | The initial state is consistent. Its game has no moves, it is the first player's turn, and the game is not over. |
| Transitions.MoveAppendsOne | T3-vanilla-js/js/store.js:100-109 | A move adds exactly one entry, at the end, holding the square and the player whose turn it was. Earlier moves and both history lists are unchanged. |
| Transitions.TurnPasses | T3-vanilla-js/js/store.js:55 | After a move it is the other player's turn. |
| Transitions.ResetArchivesFinishedGame | T3-vanilla-js/js/store.js:112-124 | After a reset the board is empty and `allGames` is unchanged. A complete game is appended to the round with the pre-reset moves and status; otherwise the round is unchanged. |
| Transitions.ResetIdempotent | T3-vanilla-js/js/store.js:112-124 | Resetting twice gives the same state as resetting once. |
| Transitions.NewRoundMovesRound | T3-vanilla-js/js/store.js:127-135 | After a new round the board and the round are empty. `allGames` is the old list followed by the round, in order, plus the game the reset archived. |
| Transitions.ResetScoresGame | T3-vanilla-js/js/store.js:112-124 | A reset of a won game adds one win for its winner. A reset of a tie adds one tie. Otherwise the counts are unchanged. |
| Transitions.MovePreservesConsistent | T3-vanilla-js/js/store.js:100-109 | A move on a free square keeps the state consistent. |
| Transitions.ResetPreservesConsistent | T3-vanilla-js/js/store.js:112-124 | A reset keeps the state consistent: the game it archives is finished and well-formed. |
| Transitions.NewRoundPreservesConsistent | T3-vanilla-js/js/store.js:127-135 | A new round keeps the state consistent. |
| Scenarios.DiagonalWinIsWon | T3-vanilla-js/js/store.js:73-93 | Player 1 holding the diagonal 1-5-9 after five moves is reported as the winner. |
| Scenarios.BothRowsIsAlternatingPlay | T3-vanilla-js/js/store.js:100-109 | The two-rows game is well-formed alternating play on free squares, so it is reachable through `playerMove`. |
| Scenarios.BothRowsReportsSecondPlayer | T3-vanilla-js/js/store.js:73-85 | Player 1 completes a row first and player 2 completes one later. Player 2 is reported. |
| Scenarios.FullBoardNoLineIsTie | T3-vanilla-js/js/store.js:92 | A full board without a line is complete with no winner. |
| Scenarios.WinThenTieScores | T3-vanilla-js/js/store.js:24-47 | A round of a player 1 win and a tie scores 1, 0 and 1 tie. |

## Left out

- Storage I/O (`localStorage`, `JSON.stringify`, `JSON.parse`) is left out. Its parse error path is left out too. The slot is a plain field holding the stored value, or nothing.
- An empty string in the slot also reads as the initial state in the source. The model has no serialized form, so that case does not arise.
- GameStore.Store.constructor: receives the slot's existing content as a parameter. The source reads it from the browser on each access.
- `structuredClone` is left out. Datatypes are values, so changing the copy cannot change the stored state.
- The `EventTarget` base class and the `statechange` event that every commit dispatches are left out. Observers and rendering are not modelled.
- GameStore.Store.SaveState: models only a plain new state, which is the only form the store passes. The updater-function argument and the "invalid argument" error are left out.
- The cross-tab `storage` listener and last-write-wins between tabs are left out. They are concurrency across browser contexts.
- The rest of `T3-vanilla-js/js/app.js` (DOM wiring, `View`) is left out. Only its occupied-square check is modelled, as the precondition of `PlayerMove`.
- GameStore.Store.PlayerMove: also requires a square in 1..9 and fewer than nine moves. The squares come from the nine board cells, and on a full board every cell is occupied, so the app's occupancy check already rules these out.
- GameStore.Store.Stats: each entry is a `PlayerWithStats(player, wins)` pair. The source spreads the player's fields into a new object beside `wins`.
- GameStore.Store.Valid: the store is modelled for exactly two players, as the app configures. The turn formula `players[#moves % 2]` assumes two.
