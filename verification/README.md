# Jeopardy Multiplayer — a Dafny model of the room logic

The application is a multiplayer trivia game. A host creates a room under a
short code. Other players join it by code and callsign. The host edits the
3×5 question board in the lobby and starts the game, and every client follows
the room's status through a realtime-database subscription. Under the React
markup sits a small amount of sequential decision logic, and this project
models that logic and proves properties of it:

- `helpers.dfy` (`Helpers`): room-code generation from four `Math.random()`
  rolls, and the deterministic default board.
- `game_service.dfy` (`GameService`): the room store. The database's `rooms/`
  tree is a `map<string, Room>`, each room's roster a `map<string, Player>`, and
  `createRoom`, `joinRoom`, `leaveRoom`, `updateBoard`, `updateStatus` and the
  `subscribeToRoom` projection are pure functions on that map.
- `landing_page.dfy` (`LandingPage`): normalisation of the host and join forms
  and of the player-limit field.
- `game_board.dfy` (`GameBoard`): the clue-selection state machine
  (open clue, answered ids, answer shown).
- `board_editor.dfy` (`BoardEditor`): the editor's board operations and clue modal.
- `app.dfy` (`App`): the view router. Its state is `(view, roomCode,
  currentPlayerId, gameState)`. Handlers return the next state together with
  the room-service calls they issue, and a subscription delivery is an input.
- `types.dfy`, `text.dfy`, `base.dfy`: the shared records, ASCII versions of
  the JavaScript string primitives the code uses (`trim`, `toUpperCase`,
  `toLowerCase`, `substring`, `parseInt`, number rendering), and `Option`/`Result`.

Nondeterminism is lifted out into parameters. `Math.random()` becomes a
sequence of reals in [0, 1), `Date.now()` becomes a natural-number stamp, and
`confirm()` becomes a boolean. An awaited service result becomes an argument of
the handler that awaits it.

The room store checks capacity and callsigns, but it does not verify who is
host, does not version the state, and keeps no shared clue state. The
answered-clue set stays local to each client's game screen.

A host's client is never given a player id: `createRoom` does not return the
host's id and `handleHost` sets none. Its leave therefore issues no
`leaveRoom` call, so the room node stays behind after its host has gone
(`App.HostLeaveIssuesNoCall`, `App.NoPlayerIdWithoutJoin`). The model keeps
this behaviour as written.

## Model

| member | source | states |
|---|---|---|
| `Helpers.RollIndex` | copy-of-jeopardy-multiplayer-online/utils/helpers.ts:7 | `floor(r * 32)` for a roll in [0, 1) is an index in [0, 32), so `charAt` never yields the empty string |
| `Helpers.RoomCode` | copy-of-jeopardy-multiplayer-online/utils/helpers.ts:3-10 | a generated code has exactly 4 characters, each from the alphabet `ABCDEFGHJKLMNPQRSTUVWXYZ23456789`, so none is I, O, 0 or 1 |
| `Helpers.GenerateRoomCode` | copy-of-jeopardy-multiplayer-online/utils/helpers.ts:5-9 | the append loop produces a 4-character code of unambiguous characters, the same code as `RoomCode` |
| `Helpers.InitialBoard` | copy-of-jeopardy-multiplayer-online/utils/helpers.ts:15-59 | 3 categories titled CYBER SPACE, RETRO TECH, NETRUNNER LORE; 5 clues each; clue j worth (j+1)*100, so values run 100..500 and strictly increase down a column; ids `clue-{cat}-{clue}`; question and answer are the bank entry at the same position |
| `Helpers.ClueIdInjective` | copy-of-jeopardy-multiplayer-online/utils/helpers.ts:53 | two single-digit positions share a clue id only if they are the same position |
| `Helpers.InitialClueIdsDistinct` | copy-of-jeopardy-multiplayer-online/utils/helpers.ts:49-58 | the 15 clue ids of the default board are pairwise distinct |
| `GameService.CreateRoom` | copy-of-jeopardy-multiplayer-online/services/gameService.ts:19-50 | a code already in use gives ROOM CODE ALREADY IN USE and the tree is unchanged; otherwise exactly one room is added, waiting, with the given capacity and the default board; its only player is the host with score 0; no other room changes |
| `GameService.CreatedRoomHasOneHost` | copy-of-jeopardy-multiplayer-online/services/gameService.ts:28-45 | a freshly created room has exactly one player flagged host |
| `GameService.JoinRoom` | copy-of-jeopardy-multiplayer-online/services/gameService.ts:58-94 | the checks run in order and each is exact: ROOM NOT FOUND iff the code is absent, ROOM IS FULL iff the roster size is at least `maxPlayers`, CALLSIGN TAKEN iff a player's name matches after lower-casing; success iff all three checks pass; every refusal leaves the tree unchanged; success files a non-host with score 0 under `player-{stamp}` and changes nothing else |
| `GameService.JoinWithinCapacity` | copy-of-jeopardy-multiplayer-online/services/gameService.ts:69-73 | a join into a room at or under capacity leaves it at or under capacity |
| `GameService.JoinRosterSize` | copy-of-jeopardy-multiplayer-online/services/gameService.ts:81-92 | a successful join grows the roster by exactly one when the id is fresh, and overwrites the existing entry when the id collides |
| `GameService.PlayerIdNotHostKey` | copy-of-jeopardy-multiplayer-online/services/gameService.ts:28-81 | a `player-` id never has the `host-` prefix |
| `GameService.JoinPreservesHosts` | copy-of-jeopardy-multiplayer-online/services/gameService.ts:81-92 | a join never adds, removes or overwrites a host, so the set of hosts is unchanged and the room stays well formed |
| `GameService.JoinsNeverOverfill` | copy-of-jeopardy-multiplayer-online/services/gameService.ts:69-92 | any sequence of joins keeps a room that starts at or under capacity at or under capacity, with the same host set |
| `GameService.UpdateBoard` | copy-of-jeopardy-multiplayer-online/services/gameService.ts:127-131 | only the room's board changes, and it reads back as the board written |
| `GameService.UpdateStatus` | copy-of-jeopardy-multiplayer-online/services/gameService.ts:134-138 | only the room's status changes, and it becomes the status written |
| `GameService.LeaveRoom` | copy-of-jeopardy-multiplayer-online/services/gameService.ts:141-148 | a host leave removes the whole room; any other leave removes only that player's entry and keeps the rest of the room; other rooms are untouched |
| `GameService.LeavePreservesHosts` | copy-of-jeopardy-multiplayer-online/services/gameService.ts:145-146 | a non-host leave keeps the room well formed and removes a host only when the given id is a host's |
| `GameService.StoredBoard` | copy-of-jeopardy-multiplayer-online/services/gameService.ts:114 | a written board reads back unchanged through `board \|\| []`, the empty board included |
| `GameService.PlayersToArray` | copy-of-jeopardy-multiplayer-online/services/gameService.ts:12-15 | the list has one entry per roster id, and holds exactly the roster's players |
| `GameService.Snapshot` | copy-of-jeopardy-multiplayer-online/services/gameService.ts:101-121 | an absent room yields null; otherwise the snapshot carries the room's code, host name, status and capacity, its roster as a list, and its board, read as empty when absent |
| `GameService.SnapshotAfterUpdateBoard` | copy-of-jeopardy-multiplayer-online/services/gameService.ts:109-131 | after `updateBoard(code, b)`, the room's subscribers receive exactly `b` |
| `GameService.HostLeaveClosesRoom` | copy-of-jeopardy-multiplayer-online/services/gameService.ts:119-148 | after a host leave, subscribers receive null and a later join gets ROOM NOT FOUND |
| `Text.Trim` | copy-of-jeopardy-multiplayer-online/components/LandingPage.tsx:24 | `trim()` is empty exactly when the string is all white space; otherwise it neither starts nor ends with white space, and only white space is cut from either end |
| `Text.ParseInt` | copy-of-jeopardy-multiplayer-online/components/LandingPage.tsx:55 | `parseInt` is NaN exactly when no decimal digit follows the leading white space and an optional sign; the same reading serves the point-value input at BoardEditor.tsx line 164 |
| `Text.ParseIntOfDigits` | copy-of-jeopardy-multiplayer-online/components/LandingPage.tsx:55 | a non-empty run of decimal digits parses to the number it denotes |
| `Text.ParseIntOfNegatedDigits` | copy-of-jeopardy-multiplayer-online/components/LandingPage.tsx:55 | a minus sign followed by decimal digits parses to the negated number |
| `Text.ParseIntReadsLeadingDigits` | copy-of-jeopardy-multiplayer-online/components/LandingPage.tsx:55 | after leading white space, a run of digits followed by anything that is not a digit parses to the value of that run, so `"3.5"` and `" 12abc"` give 3 and 12 |
| `Text.ParseIntReadsNegatedDigits` | copy-of-jeopardy-multiplayer-online/components/LandingPage.tsx:55 | the same with a minus sign before the digits: the value of the run, negated |
| `Text.ParseIntOfNatToString` | copy-of-jeopardy-multiplayer-online/components/LandingPage.tsx:55 | `parseInt` reads back the decimal rendering of every natural number |
| `LandingPage.SubmittedLimit` | copy-of-jeopardy-multiplayer-online/components/LandingPage.tsx:29-31 | the limit is always in [1, 8]: a cleared field (NaN) gives 1, an in-range number is kept, a number below 1 becomes 1 and a number above 8 becomes 8 |
| `LandingPage.HostSubmit` | copy-of-jeopardy-multiplayer-online/components/LandingPage.tsx:22-38 | a callsign that trims to empty is refused with "Host Identity Required." and `onHost` is not called; otherwise the name goes on unchanged, the limit lies in [1, 8], and the code is the untrimmed custom code upper-cased and cut to 8 characters when it is not blank, or a generated code when it is |
| `LandingPage.JoinSubmit` | copy-of-jeopardy-multiplayer-online/components/LandingPage.tsx:40-47 | a blank callsign or code is refused with "Credentials Incomplete."; otherwise the name goes on unchanged and the code upper-cased |
| `LandingPage.MaxPlayersChange` | copy-of-jeopardy-multiplayer-online/components/LandingPage.tsx:49-61 | '' clears the field, a parsed integer is stored clamped to [1, 8], and non-numeric input leaves the field unchanged |
| `LandingPage.MaxPlayersBlur` | copy-of-jeopardy-multiplayer-online/components/LandingPage.tsx:63-65 | '' or 0 becomes 4, any other value is kept, and the field is never left blank |
| `LandingPage.ChangeToNumber` | copy-of-jeopardy-multiplayer-online/components/LandingPage.tsx:55-59 | typing the digits of a number stores that number, clamped |
| `LandingPage.FieldStaysInRange` | copy-of-jeopardy-multiplayer-online/components/LandingPage.tsx:49-65 | from a blank or in-range field, any sequence of changes and blurs keeps it blank or in [1, 8], and a blur always leaves a number in [1, 8] |
| `LandingPage.DefaultFieldStaysInRange` | copy-of-jeopardy-multiplayer-online/components/LandingPage.tsx:14-65 | from its first-render value 4 the field is only ever blank or in [1, 8], so a host submit passes on the field's number, or 1 when it is blank |
| `GameBoard.CurrentClue` | copy-of-jeopardy-multiplayer-online/components/GameBoard.tsx:18 | there is a current clue exactly when a position is open, and it is the clue at that position |
| `GameBoard.ClickClue` | copy-of-jeopardy-multiplayer-online/components/GameBoard.tsx:20-26 | clicking an answered clue changes nothing; clicking any other clue opens it with the answer hidden and keeps the answered set |
| `GameBoard.CloseClue` | copy-of-jeopardy-multiplayer-online/components/GameBoard.tsx:28-33 | closing adds exactly the open clue's id to the answered set, or nothing when no clue is open; afterwards no clue is open |
| `GameBoard.Reveal` | copy-of-jeopardy-multiplayer-online/components/GameBoard.tsx:116 | reveal shows the answer and leaves the open clue and the answered set alone |
| `GameBoard.AnsweredOnlyGrows` | copy-of-jeopardy-multiplayer-online/components/GameBoard.tsx:14-33 | no sequence of clicks, closes and reveals removes an id from the answered set |
| `GameBoard.AnsweredAreBoardIds` | copy-of-jeopardy-multiplayer-online/components/GameBoard.tsx:18-33 | every id that enters the answered set is the id of a clue on the board |
| `GameBoard.AnsweredFromMount` | copy-of-jeopardy-multiplayer-online/components/GameBoard.tsx:14-33 | starting from the mount state (no clue open, nothing answered), any sequence of clicks, closes and reveals keeps the answered set within the ids of clues on the board |
| `BoardEditor.RetitleCategory` | copy-of-jeopardy-multiplayer-online/components/BoardEditor.tsx:27-31 | only the chosen category's title changes; the length, the other categories and all clues stay the same |
| `BoardEditor.RetitleUndo` | copy-of-jeopardy-multiplayer-online/components/BoardEditor.tsx:27-31 | retitling a category and then restoring its old title gives back the original board |
| `BoardEditor.NewCategory` | copy-of-jeopardy-multiplayer-online/components/BoardEditor.tsx:34-43 | the new category has id `cat-<stamp>`, is titled NEW SECTOR, and has 5 placeholder clues with ids `clue-<stamp>-<i>` worth (i+1)*100 |
| `BoardEditor.AddCategory` | copy-of-jeopardy-multiplayer-online/components/BoardEditor.tsx:33-45 | the board grows by exactly one category at the end, and the existing prefix is unchanged |
| `BoardEditor.WithoutIndex` | copy-of-jeopardy-multiplayer-online/components/BoardEditor.tsx:49 | the filter drops exactly the element at the index and keeps the others in order; an out-of-range index drops nothing |
| `BoardEditor.RemoveCategory` | copy-of-jeopardy-multiplayer-online/components/BoardEditor.tsx:47-52 | a confirmed removal yields the board with that index deleted, in order; without confirmation nothing changes |
| `BoardEditor.OpenClueModal` | copy-of-jeopardy-multiplayer-online/components/BoardEditor.tsx:54-57 | the modal opens on the chosen position with a copy of the current clue there |
| `BoardEditor.SaveClue` | copy-of-jeopardy-multiplayer-online/components/BoardEditor.tsx:59-66 | with a clue being edited, exactly `board[c].clues[k]` is replaced by the edited copy, everything else is kept, and the modal closes; otherwise nothing changes |
| `BoardEditor.CloseModal` | copy-of-jeopardy-multiplayer-online/components/BoardEditor.tsx:68-71 | both modal fields become null and the board is kept |
| `BoardEditor.EditValue` | copy-of-jeopardy-multiplayer-online/components/BoardEditor.tsx:164 | point-value text that does not parse stores 0; only the value changes |
| `BoardEditor.EditQuestion` | copy-of-jeopardy-multiplayer-online/components/BoardEditor.tsx:175 | the question becomes the typed text and every other field of the clue is kept |
| `BoardEditor.EditAnswer` | copy-of-jeopardy-multiplayer-online/components/BoardEditor.tsx:182 | the answer becomes the typed text and every other field of the clue is kept |
| `BoardEditor.SaveUneditedIsNoOp` | copy-of-jeopardy-multiplayer-online/components/BoardEditor.tsx:54-64 | opening a clue and saving it unedited gives back the same board |
| `BoardEditor.RemoveAddedCategory` | copy-of-jeopardy-multiplayer-online/components/BoardEditor.tsx:33-50 | removing the category just added gives back the original board |
| `App.Find` | copy-of-jeopardy-multiplayer-online/App.tsx:109 | `find` returns the first matching player, or nothing when no player matches |
| `App.OnRoomUpdate` | copy-of-jeopardy-multiplayer-online/App.tsx:32-48 | a delivered state replaces `gameState`; `playing` forces the game view; `waiting` sends every view except lobby, editor and mode-select to the lobby; other statuses keep the view; null resets to landing with no room, an empty id, status waiting, capacity 4 and the default board |
| `App.HandleLocalLeave` | copy-of-jeopardy-multiplayer-online/App.tsx:93-105 | landing view, no room code, empty player id, and a default room state: no code, no host name, no players, waiting, capacity 4, the default board |
| `App.HandleHost` | copy-of-jeopardy-multiplayer-online/App.tsx:54-73 | always issues `createRoom`; success sets the room code and the mode-select view and never sets the player id; failure changes nothing |
| `App.HandleJoin` | copy-of-jeopardy-multiplayer-online/App.tsx:79-91 | always issues `joinRoom`; success with an id sets the room code, the player id and the lobby view; failure changes nothing |
| `App.HandleModeSelect` | copy-of-jeopardy-multiplayer-online/App.tsx:75-77 | any mode leads to the lobby and nothing else changes |
| `App.IsHostHere` | copy-of-jeopardy-multiplayer-online/App.tsx:109 | true iff the first listed player with the current id is flagged host; false when none is listed |
| `App.HandleLeave` | copy-of-jeopardy-multiplayer-online/App.tsx:107-113 | issues `leaveRoom(code, id, isHost)` only when both the room code and the player id are non-empty, and always resets locally |
| `App.HandleOpenEditor` | copy-of-jeopardy-multiplayer-online/App.tsx:116-118 | the editor view opens and nothing else changes |
| `App.HandleSaveBoard` | copy-of-jeopardy-multiplayer-online/App.tsx:120-125 | issues `updateBoard` only when a room code is set, and always returns to the lobby |
| `App.HandleCancelEdit` | copy-of-jeopardy-multiplayer-online/App.tsx:127-129 | returns to the lobby and nothing else changes |
| `App.HandleStartGame` | copy-of-jeopardy-multiplayer-online/App.tsx:132-136 | issues `updateStatus(code, 'playing')` only when a room code is set, and leaves the local state, the view included, unchanged |
| `App.LobbyViewer` | copy-of-jeopardy-multiplayer-online/App.tsx:160 | the lobby is rendered for the player's own id; without one, for the id of the first listed host, or for '' when no player is a host |
| `App.Render` | copy-of-jeopardy-multiplayer-online/App.tsx:147-181 | landing and mode selection render their own screens; the lobby renders only in the lobby view with a room code in the room state, with that code, roster, capacity and viewer, and otherwise shows nothing; the editor shows the room's board, and the game screen the room's board and roster |
| `App.NoPlayerIdWithoutJoin` | copy-of-jeopardy-multiplayer-online/App.tsx:54-113 | only a successful join sets the player id, so a client that never joined (a host, in particular) issues no `leaveRoom` on leave |
| `App.HostLeaveIssuesNoCall` | copy-of-jeopardy-multiplayer-online/App.tsx:54-113 | after a successful host from the start state, the host's leave issues no service call |
| `App.JoinedPlayerLeave` | copy-of-jeopardy-multiplayer-online/App.tsx:79-113 | a joined non-host's leave asks the service to remove exactly its own entry, as a non-host |
| `App.JoinThenSnapshot` | copy-of-jeopardy-multiplayer-online/App.tsx:29-91 | a successful join followed by the snapshot of the still-waiting room shows the lobby, with the new player listed; when the room has a non-empty code, the lobby screen renders with that code for the new player's id |
| `App.StartGameReachesEveryClient` | copy-of-jeopardy-multiplayer-online/App.tsx:36-43 | the host's start issues `updateStatus(code, playing)`; once written, every client subscribed to that room receives a playing snapshot and moves to the game screen, whatever screen it was on |

## Left out

- Database plumbing (`initializeApp`, `ref`, `get`, `set`, `update`, `remove`, `onValue`, firebaseConfig.ts) is foreign I/O. Each call is a map operation, and a subscription delivery is an input to `App.OnRoomUpdate`.
- The `try`/`catch` paths of `createRoom` and `joinRoom` (gameService.ts lines 51-54 and 95-97) are not modelled. They report the database error's message, or `CONNECTION FAILED` when it has none. They are reached when the network fails, and also when a typed room code holds a character the database forbids in a path (such as `.`, `#`, `$`, `[` or `]`).
- Room codes are opaque map keys in the model. The source puts the typed code straight into the path `rooms/${roomCode}`, so a code containing `/` addresses a node nested inside another room (`AB/CD` writes under room `AB`). The model claims nothing about such codes.
- Concurrency is not modelled. `createRoom` and `joinRoom` read and then write without atomicity, so two clients can race for the same code or the last slot. The model is sequential and claims nothing about such races.
- `GameService.UpdateBoard`: on an absent room it leaves the tree unchanged, and `GameService.UpdateStatus` does the same. The database's `update` would instead create a partial room node, which the model's room record cannot represent.
- `GameService.PlayersToArray`: does not fix the order of the list, because the database's key enumeration order is outside the model.
- The room node's unused `currentView: 'lobby'` field is not stored.
- Player ids come from a `Date.now()` stamp. A colliding join overwrites the existing entry, and the model does this too (`GameService.JoinRosterSize`).
- `getInitialBoard`, `createRoom` and `addCategory` call `Date.now()` several times. The model takes one stamp per board or category, plus a separate stamp for the host id.
- `BoardEditor.RetitleCategory`: the model has value semantics. It does not model the source's in-place mutation of category objects shared with the application's room state, and `BoardEditor.SaveClue` has the same limit.
- `sleep` is a timer. The async/await sequencing, the `isLoading` overlay, `alert`, the clipboard and `useEffect` cleanup are not modelled.
- The markup components (NeonButton.tsx, NeonInput.tsx, ModeSelection.tsx, LobbyPage.tsx) are out of scope. LobbyPage's only logic is display arithmetic: the start guard, the host lookup and the vacant-slot count.
- The "Correct" button is not modelled because it is wired to nothing. Scores never change.
- `Text.Trim`, `Text.ToUpper` and `Text.ToLower` cover ASCII only, because full Unicode case mapping and white space are beyond the model. The same holds for callsign comparison in `GameService.JoinRoom`.
- `Text.ParseInt`: JavaScript numbers are doubles, while the model reads digits into unbounded integers. The two agree up to 2^53; above that `parseInt` rounds, and from about 309 digits on it gives `Infinity`. `Text.ParseIntOfDigits` and the other value lemmas hold in the source only up to 2^53. `BoardEditor.EditValue` stores the exact integer where the source would store a rounded value or `Infinity` (`Infinity || 0` stays `Infinity`). The player limit does not depend on this, because it is clamped to [1, 8].
- `Text.ParseInt`: reads decimal digits only. `parseInt` without a radix would also accept a `0x` prefix, but a number input never produces one.
- Input `maxLength` attributes (12 for callsigns, 8 for codes) are browser-enforced, so they are not modelled. The 8-character cut in `handleHostSubmit` is modelled.
