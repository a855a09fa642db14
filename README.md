# Tic-Tac-Toe match engine of the Nakama Go server, in Dafny

This project models the server-side Tic-Tac-Toe match handler of
`nakama-go-server/main.go` and the flat-board winner check of
`nakama-go-server/matching/matching.go`, and proves properties of them.

- `tictactoe.dfy` (module `TicTacToe`): the `[3][3]string` board, the table of
  the eight winning lines, `checkWinner` and `isBoardFull` as functions whose
  contracts say what they compute (the first complete line's symbol; "no cell
  is empty").
- `matching.dfy` (module `Matching`): the `[9]int` board (0 empty, 1 X, 2 O),
  the `TicTacToeState` shape and matching.go's `checkWinner`, including its
  trailing draw scan, which returns 0 on every path.
- `encoding.dfy` (module `Encoding`): the two winner checks agree when cell
  (row, col) is read as square 3 * row + col and any injective encoding sends
  "" to 0. `Symbol` is one such encoding: matching.go's own "" to 0, "X" to 1,
  "O" to 2, with every other string sent to a distinct larger number.
- `session.dfy` (module `Session`): the `MatchState` the host passes to every
  match callback, as a class whose fields the callbacks update in place
  (`Presences`, `Board`, `CurrentPlayer`, `Started`, `Winner`). The callbacks
  are its methods. The match dispatcher is a `Dispatcher` object. It keeps a
  ghost log of the opcode of every `BroadcastMessage` call, so contracts can
  say which opcodes each callback emits.
- `registry.dfy` (module `Registry`): the process-wide `matchStore` table, the
  `find_or_create_match` RPC (`FindOrCreateMatch`) and `MatchTerminate`.
- `wrappers.dfy` (module `Wrappers`): `Option` and `Result`.

What the live code does, as modelled:

- Move application is commented out in both `MatchDataSend` and `MatchSignal`.
  No callback ever writes the board. `Pristine()` (empty board, no winner)
  holds after `MatchInit` and every callback keeps it. `EmptyBoardNeverEnds`
  shows that `MatchLoop` then never ends a game. Only a leave ends one.
- `MatchLoop` is still specified over an arbitrary board through `LoopStep`.
  `Winner` is "" for no winner (and after a leave), "draw" for a full board
  without a line, and otherwise the winning cell's contents.
- The registry entry the RPC stores (`&MatchState{Started: true}`) is a
  different object from the session state `MatchInit` builds. Nothing ever
  updates or removes it, so the table holds it as a value (`MatchRecord`). The
  RPC answers with any started entry, and only creates a match when no entry
  has started. Every entry is created started and none is removed, so the table
  never holds more than one entry (`MatchStore.Valid`).

Notes on the source, as the model follows it:

- `Winner` has two draw values. The field's comment (main.go:26) says `""`
  means a draw, and a leave during a game sets `""` as a draw (main.go:184).
  `MatchLoop` writes `"draw"` for a full board without a line (main.go:210).
  A draw by leaving therefore looks the same as "no winner yet".
- A leave during a game broadcasts opcode 1, the same opcode as the start of a
  game (main.go:168, 187). A game ended by `MatchLoop` broadcasts opcode 2.
  `MatchSignal` broadcasts opcode 3. `MatchDataSend` broadcasts opcode 4 to
  everyone before any check.
- The comment at main.go:59 speaks of "an active match". The RPC returns an
  entry whose `Started` is set, and it stores every new entry with `Started`
  set. `MatchTerminate` removes nothing: its loop is commented out
  (main.go:261-267).
- A match that ended because a player left admits a newcomer and starts
  again, because `MatchJoinAttempt` only checks the presence count and
  `Started` (`RestartAfterLeave`).
- The first player is whichever key Go's map iteration yields first
  (main.go:161-165), so only membership in `Presences` is specified.

## Model

| member | source | states |
|---|---|---|
| `TicTacToe.CheckWinnerFrom` | nakama-go-server/main.go:231-237 | the scan from line k returns "" iff none of lines k..7 is complete, else the first complete line's first cell |
| `TicTacToe.CheckWinner` | nakama-go-server/main.go:219-238 | result is "" iff no line has three equal non-"" cells; otherwise it is the symbol of the first such line in table order (rows, columns, diagonals) |
| `TicTacToe.WinnerFillsALine` | nakama-go-server/main.go:233-234 | a non-empty result fills all three cells of some line |
| `TicTacToe.WinnerExistsIffLine` | nakama-go-server/main.go:219-238 | a winner is reported exactly when some line is filled with one non-empty symbol |
| `TicTacToe.RowFullFrom` | nakama-go-server/main.go:242-246 | the inner loop returns true iff no cell of the row from column j on is "" |
| `TicTacToe.FullFrom` | nakama-go-server/main.go:241-247 | the outer loop returns true iff no cell in rows i..2 is "" |
| `TicTacToe.IsBoardFull` | nakama-go-server/main.go:240-249 | true iff no cell of the board equals "" |
| `TicTacToe.EmptyGridIsOpen` | nakama-go-server/main.go:219-249 | the zero board has no winner and is not full |
| `TicTacToe.DiagonalWins` | nakama-go-server/main.go:227 | X on the main diagonal of an otherwise empty board wins for X |
| `TicTacToe.FullBoardWithoutLine` | nakama-go-server/main.go:219-249 | a full board without a complete line has no winner and is full (the draw case) |
| `Matching.DrawScan` | nakama-go-server/matching/matching.go:43-48 | the draw scan: it stops at the first empty square and returns 0 there, or 0 after the last square (its constant result is stated by DrawScanIsZero) |
| `Matching.DrawScanIsZero` | nakama-go-server/matching/matching.go:42-48 | the draw scan returns 0 from every start square, so it cannot change the result |
| `Matching.CheckWinnerFrom` | nakama-go-server/matching/matching.go:36-48 | from line k: 0 iff none of lines k..7 is complete; a nonzero result is the first square of the first complete line |
| `Matching.CheckWinner` | nakama-go-server/matching/matching.go:25-49 | returns board[a] of the first line in table order with board[a] != 0 and all three equal; 0 iff there is no such line |
| `Matching.FirstCompleteLineDecides` | nakama-go-server/matching/matching.go:36-41 | if line k is complete and no earlier line is, the result is that line's first square |
| `Matching.NonzeroResultFillsALine` | nakama-go-server/matching/matching.go:36-41 | a nonzero result fills all three squares of some line, so it is a value present on the board |
| `Matching.DrawLooksUnfinished` | nakama-go-server/matching/matching.go:42-48 | with no complete line, a full board and an open board both give 0: draw and unfinished are indistinguishable |
| `Matching.EmptyBoardYieldsZero` | nakama-go-server/matching/matching.go:36-48 | the all-zero board yields 0 |
| `Encoding.LineTablesAgree` | nakama-go-server/matching/matching.go:26-35 | the flat line table is main.go's table under (r, c) to 3r + c: the same 8 lines in the same order |
| `Encoding.LineTestsAgree` | nakama-go-server/matching/matching.go:38 | for every line, the flat test (b[a] != 0, b[a] == b[b], b[b] == b[c]) holds iff main.go's test (a != "", a == b, a == c) holds |
| `Encoding.CheckWinnersAgreeFrom` | nakama-go-server/matching/matching.go:36-41 | from every line index the two scans agree under an injective encoding with "" to 0 |
| `Encoding.CheckWinnersAgree` | nakama-go-server/matching/matching.go:25-49 | the flat checkWinner of the encoded board is the encoding of main.go's checkWinner |
| `Encoding.CodeInjective` | nakama-go-server/matching/matching.go:7 | distinct strings get distinct codes, so the flat board's encoding can be extended to every string |
| `Encoding.SymbolIsFaithful` | nakama-go-server/matching/matching.go:7 | the encoding "" to 0, "X" to 1, "O" to 2 (other strings to distinct larger numbers) keeps "" as 0 and is injective |
| `Encoding.SymbolBoardsAgree` | nakama-go-server/matching/matching.go:25-49 | under that encoding, matching.go's checkWinner of the flattened board is the encoding of main.go's checkWinner |
| `Session.Joined` | nakama-go-server/main.go:154-156 | the insert loop as a fold: every joining user id becomes a key and no present key is lost |
| `Session.JoinedKeys` | nakama-go-server/main.go:154-156 | after the insert loop the keys are the old keys plus every joining user id, nothing else |
| `Session.JoinedKeepsOthers` | nakama-go-server/main.go:154-156 | a present user who does not join keeps their presence |
| `Session.JoinedLastWins` | nakama-go-server/main.go:154-156 | for a user id that joins twice in a batch, the later presence is stored |
| `Session.RejoinDoesNotGrow` | nakama-go-server/main.go:154-156 | rejoining user ids that are already present does not grow the map |
| `Session.LoopStep` | nakama-go-server/main.go:196-216 | a no-op unless started with no winner; otherwise a board with a winner ends the game with that winner and one opcode 2, a full board without one ends it with "draw" and one opcode 2, and any other board leaves it running with nothing broadcast |
| `Session.LoopStepIdempotent` | nakama-go-server/main.go:196-216 | a second tick on the same board changes nothing and broadcasts nothing |
| `Session.LoopStepKeepsWinnerConsistent` | nakama-go-server/main.go:200-214 | Winner stays "", the board's winner, or "draw" for a full board without one |
| `Session.EmptyBoardNeverEnds` | nakama-go-server/main.go:200-214 | on the empty board a tick never ends the game and broadcasts nothing |
| `Session.Dispatcher.BroadcastMessage` | nakama-go-server/main.go:168 | every broadcast appends its opcode to the log |
| `Session.MatchState.constructor` | nakama-go-server/main.go:87-93 | no presences, all-"" board, CurrentPlayer "", not started, Winner "" |
| `Session.MatchInit` | nakama-go-server/main.go:85-95 | a fresh state as above, tick rate 10, empty label |
| `Session.MatchState.MatchJoinAttempt` | nakama-go-server/main.go:143-148 | accepts iff fewer than 2 presences and not started; changes nothing |
| `Session.MatchState.MatchJoin` | nakama-go-server/main.go:150-172 | presences become the insert fold of the batch; Started turns true iff it was false and exactly 2 are present, and then CurrentPlayer is a present user id and exactly one opcode 1 is logged; otherwise turn and log are unchanged; board and winner never change |
| `Session.MatchState.MatchLeave` | nakama-go-server/main.go:174-191 | every leaving user id is removed; a running game ends with Winner "" and one opcode 1; otherwise only Presences changes and nothing is logged |
| `Session.MatchState.MatchLoop` | nakama-go-server/main.go:193-217 | Started, Winner and the log follow LoopStep; Board, Presences and CurrentPlayer are never modified |
| `Session.MatchState.MatchDataSend` | nakama-go-server/main.go:96-141 | logs opcode 4 first and unconditionally, changes no field, and reports which check stopped the move (inactive game, wrong opcode, unreadable data) or the parsed move |
| `Session.MatchState.MatchSignal` | nakama-go-server/main.go:275-318 | echoes the data, changes no field, logs opcode 3 iff started, no winner and the data reads as "row,col" |
| `Session.StartWithTwo` | nakama-go-server/main.go:150-172 | two distinct users joining a fresh match start it, give the turn to one of them and log [1] |
| `Session.LeaveEndsGame` | nakama-go-server/main.go:174-191 | a third joiner is rejected, a tick changes nothing, and a leave ends the game with Winner "" |
| `Session.RestartAfterLeave` | nakama-go-server/main.go:143-172 | after a leave the ended match admits a newcomer and starts again |
| `Registry.MatchIdResponse` | nakama-go-server/main.go:76 | the RPC's answer `{"match_id":"<id>"}` built by `fmt.Sprintf` (its inverse is stated by ResponseRoundTrip) |
| `Registry.ResponseRoundTrip` | nakama-go-server/main.go:76 | the RPC's JSON answer carries the match id back unchanged |
| `Registry.MatchStore.constructor` | nakama-go-server/main.go:13-18 | the table starts empty |
| `Registry.MatchStore.FindOrCreateMatch` | nakama-go-server/main.go:47-78 | bad payload: error, table unchanged; some started entry: its id answered, table unchanged; else a failed create errors with the table unchanged and a successful one stores exactly the new id as started; at most one entry is kept |
| `Registry.MatchStore.MatchTerminate` | nakama-go-server/main.go:255-269 | returns the state it was given and removes nothing from the table |

## Left out

- The table's `sync.RWMutex` and its `Lock`/`Unlock` calls: concurrency. Every registry call is modelled as running alone, as it does under the lock.
- `nk.MatchCreate`: a host call. Its outcome (a match id or an error) is the `created` parameter of `FindOrCreateMatch`.
- `json.Unmarshal` of the RPC payload: library code. Its outcome is the `params` parameter. The user id it yields is never used.
- `fmt.Sscanf` of "row,col": library code. Its outcome is the `scanned` parameter of `MatchDataSend` and `MatchSignal`. Nothing the live code does depends on the parsed numbers.
- `json.Marshal` payloads and the delivery of broadcasts: serialisation and I/O. Only each broadcast's opcode is logged.
- Every `logger` call: I/O. The branch a move message takes is returned as `MoveOutcome` instead.
- `MatchDataSend` receives bytes. The model takes them as the string the source converts them to.
- The order of Go's map iteration: the first player and the started entry the RPC returns are chosen nondeterministically. The contracts state only membership.
- The unchecked `state.(*MatchState)` type assertions: the state is always a `MatchState`.
- `InitModule` and `newMatch`: registration with the host, with no game logic.
- Commented-out code: move validation and application in main.go, and everything in matching.go after its `checkWinner`.
- nakama-go-server/matching/match.go, nakama-go-server/onmove.go and nakama-go-server/healthCheck.go are not part of this model: glue, drafts and a constant liveness answer.
- The React UI is not part of this model.
