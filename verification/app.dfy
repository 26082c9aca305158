/**
 * The application shell (App.tsx): the client's view, room code, own player
 * id and last received room state, and the handlers that move between
 * screens. Each handler is a pure step from the state before to the state
 * after, together with the room-service calls it issues (`effects`). An
 * awaited service call's outcome is a parameter of the handler, and a
 * subscription delivery is an input event.
 */
module App {
  import opened Base
  import opened Types
  import Helpers
  import GameService

  datatype AppState = AppState(
    view: ViewMode,
    roomCode: Option<string>,
    currentPlayerId: string,
    gameState: GameState)

  /** A call into the room service. */
  datatype Effect =
    | CreateRoomCall(hostName: string, code: string, maxPlayers: int)
    | JoinRoomCall(playerName: string, code: string)
    | LeaveRoomCall(code: string, playerId: string, isHost: bool)
    | UpdateBoardCall(code: string, board: Board)
    | UpdateStatusCall(code: string, status: Status)

  datatype Transition = Transition(state: AppState, effects: seq<Effect>)

  /** Capacity shown before any room state arrives. */
  const DefaultMaxPlayers: int := 4

  /** The room state before any room is joined; `getInitialBoard()` is
      evaluated with `Date.now()` = `stamp`. */
  function EmptyGameState(stamp: nat): GameState {
    GameState(None, None, [], Waiting, Helpers.InitialBoard(stamp), DefaultMaxPlayers)
  }

  /** The state the application starts in. */
  function Initial(stamp: nat): AppState {
    AppState(Landing, None, "", EmptyGameState(stamp))
  }

  /** JavaScript truthiness of a `string | null`: present and non-empty. */
  predicate Present(code: Option<string>) {
    code.Some? && code.value != ""
  }

  /** `Array.prototype.find`: the first player that matches, if any. */
  function Find(players: seq<Player>, matches: Player -> bool): (r: Option<Player>)
    ensures r.None? <==> forall i :: 0 <= i < |players| ==> !matches(players[i])
    ensures r.Some? ==> exists i ::
      && 0 <= i < |players| && players[i] == r.value && matches(players[i])
      && forall j :: 0 <= j < i ==> !matches(players[j])
  {
    if players == [] then None
    else if matches(players[0]) then Some(players[0])
    else
      var r := Find(players[1..], matches);
      assert forall i :: 1 <= i < |players| ==> players[i] == players[1..][i - 1];
      r
  }

  /** `handleLocalLeave`: back to the landing screen with no room, no player id
      and a fresh default room state. */
  function HandleLocalLeave(s: AppState, stamp: nat): (r: AppState)
    ensures r.view == Landing && r.roomCode.None? && r.currentPlayerId == ""
    ensures r.gameState.roomCode.None? && r.gameState.hostName.None? && r.gameState.players == []
    ensures r.gameState.status == Waiting && r.gameState.maxPlayers == DefaultMaxPlayers
    ensures r.gameState.board == Helpers.InitialBoard(stamp)
  {
    Initial(stamp)
  }

  /** The subscription callback. A delivered room state replaces the local one;
      `playing` forces the game screen, `waiting` sends every screen but the
      lobby, the editor and mode selection to the lobby, and any other status
      keeps the screen. A `null` delivery (the room is gone) resets to landing.
      While no room code is set there is no subscription, so nothing arrives. */
  function OnRoomUpdate(s: AppState, data: Option<GameState>, stamp: nat): (r: AppState)
    ensures !Present(s.roomCode) ==> r == s
    ensures Present(s.roomCode) && data.Some? ==>
      && r.gameState == data.value
      && r.roomCode == s.roomCode && r.currentPlayerId == s.currentPlayerId
      && (data.value.status == Playing ==> r.view == Game)
      && (data.value.status == Waiting ==>
            r.view == if s.view in {Lobby, Editor, ModeSelect} then s.view else Lobby)
      && (data.value.status == Finished ==> r.view == s.view)
    ensures Present(s.roomCode) && data.None? ==> r == Initial(stamp)
  {
    if !Present(s.roomCode) then s
    else match data
      case Some(d) =>
        var view :=
          if d.status == Playing && s.view != Game then Game
          else if d.status == Waiting && s.view != Lobby && s.view != Editor && s.view != ModeSelect then Lobby
          else s.view;
        s.(gameState := d, view := view)
      case None => HandleLocalLeave(s, stamp)
  }

  /** `handleHost`, resumed with the outcome of `createRoom`. Success records the
      room code and moves to mode selection but leaves the player id as it was;
      failure changes nothing. */
  function HandleHost(s: AppState, name: string, code: string, maxPlayers: int,
                      reply: Result<(), GameService.ServiceError>): (r: Transition)
    ensures r.effects == [CreateRoomCall(name, code, maxPlayers)]
    ensures reply.Ok? ==>
      r.state.view == ModeSelect && r.state.roomCode == Some(code)
      && r.state.currentPlayerId == s.currentPlayerId && r.state.gameState == s.gameState
    ensures reply.Err? ==> r.state == s
  {
    var state := if reply.Ok? then s.(roomCode := Some(code), view := ModeSelect) else s;
    Transition(state, [CreateRoomCall(name, code, maxPlayers)])
  }

  /** `handleJoin`, resumed with the outcome of `joinRoom`. Success with a player
      id records the room code and the id and opens the lobby; otherwise nothing changes. */
  function HandleJoin(s: AppState, name: string, code: string,
                      reply: Result<string, GameService.ServiceError>): (r: Transition)
    ensures r.effects == [JoinRoomCall(name, code)]
    ensures reply.Ok? && reply.value != "" ==>
      r.state.view == Lobby && r.state.roomCode == Some(code)
      && r.state.currentPlayerId == reply.value && r.state.gameState == s.gameState
    ensures !(reply.Ok? && reply.value != "") ==> r.state == s
  {
    var state :=
      if reply.Ok? && reply.value != "" then
        s.(roomCode := Some(code), currentPlayerId := reply.value, view := Lobby)
      else s;
    Transition(state, [JoinRoomCall(name, code)])
  }

  /** `handleModeSelect`: whichever mode is picked, the lobby opens. */
  function HandleModeSelect(s: AppState, mode: string): (r: AppState)
    ensures r.view == Lobby && r.(view := s.view) == s
  {
    s.(view := Lobby)
  }

  /** Whether the current player is flagged host in the last room state;
      a player not in the list counts as not host. */
  function IsHostHere(s: AppState): (isHost: bool)
    ensures isHost <==> exists i ::
      && 0 <= i < |s.gameState.players|
      && s.gameState.players[i].id == s.currentPlayerId && s.gameState.players[i].isHost
      && forall j :: 0 <= j < i ==> s.gameState.players[j].id != s.currentPlayerId
  {
    var id := s.currentPlayerId;
    match Find(s.gameState.players, (p: Player) => p.id == id)
    case Some(p) => p.isHost
    case None => false
  }

  /** `handleLeave`: tells the service only when both a room code and a player
      id are known, passing whether that player is host; the local reset
      happens either way. */
  function HandleLeave(s: AppState, stamp: nat): (r: Transition)
    ensures r.state == HandleLocalLeave(s, stamp)
    ensures Present(s.roomCode) && s.currentPlayerId != "" ==>
      r.effects == [LeaveRoomCall(s.roomCode.value, s.currentPlayerId, IsHostHere(s))]
    ensures !(Present(s.roomCode) && s.currentPlayerId != "") ==> r.effects == []
  {
    var effects :=
      if Present(s.roomCode) && s.currentPlayerId != "" then
        [LeaveRoomCall(s.roomCode.value, s.currentPlayerId, IsHostHere(s))]
      else [];
    Transition(HandleLocalLeave(s, stamp), effects)
  }

  /** `handleOpenEditor` */
  function HandleOpenEditor(s: AppState): (r: AppState)
    ensures r.view == Editor && r.(view := s.view) == s
  {
    s.(view := Editor)
  }

  /** `handleSaveBoard`: writes the board when a room code is set, and returns to the lobby. */
  function HandleSaveBoard(s: AppState, board: Board): (r: Transition)
    ensures r.state.view == Lobby && r.state.(view := s.view) == s
    ensures Present(s.roomCode) ==> r.effects == [UpdateBoardCall(s.roomCode.value, board)]
    ensures !Present(s.roomCode) ==> r.effects == []
  {
    var effects := if Present(s.roomCode) then [UpdateBoardCall(s.roomCode.value, board)] else [];
    Transition(s.(view := Lobby), effects)
  }

  /** `handleCancelEdit` */
  function HandleCancelEdit(s: AppState): (r: AppState)
    ensures r.view == Lobby && r.(view := s.view) == s
  {
    s.(view := Lobby)
  }

  /** `handleStartGame`: asks the service to set the room playing when a room
      code is set; the screen itself changes only when that status comes back. */
  function HandleStartGame(s: AppState): (r: Transition)
    ensures r.state == s
    ensures Present(s.roomCode) ==> r.effects == [UpdateStatusCall(s.roomCode.value, Playing)]
    ensures !Present(s.roomCode) ==> r.effects == []
  {
    var effects := if Present(s.roomCode) then [UpdateStatusCall(s.roomCode.value, Playing)] else [];
    Transition(s, effects)
  }

  /** What the application renders. */
  datatype Screen =
    | LandingScreen
    | ModeSelectScreen
    | LobbyScreen(code: string, players: seq<Player>, maxPlayers: int, viewerId: string)
    | EditorScreen(board: Board)
    | GameScreen(board: Board, players: seq<Player>)
    | NothingShown

  /** The id the lobby is rendered for: the player's own id, or, when it has
      none, the id of the first host in the list, or the empty string. */
  function LobbyViewer(s: AppState): (id: string)
    ensures s.currentPlayerId != "" ==> id == s.currentPlayerId
    ensures s.currentPlayerId == "" ==> forall i ::
      && 0 <= i < |s.gameState.players| && s.gameState.players[i].isHost
      && (forall j :: 0 <= j < i ==> !s.gameState.players[j].isHost)
      ==> id == s.gameState.players[i].id
    ensures s.currentPlayerId == "" && (forall i :: 0 <= i < |s.gameState.players| ==> !s.gameState.players[i].isHost)
      ==> id == ""
  {
    if s.currentPlayerId != "" then s.currentPlayerId
    else match Find(s.gameState.players, (p: Player) => p.isHost)
      case Some(h) => h.id
      case None => ""
  }

  /** The render: each view shows its screen, except that the lobby shows only
      once a room state with a room code has arrived. */
  function Render(s: AppState): (screen: Screen)
    ensures screen.LobbyScreen? <==> s.view == Lobby && Present(s.gameState.roomCode)
    ensures screen.NothingShown? <==> s.view == Lobby && !Present(s.gameState.roomCode)
    ensures screen.LobbyScreen? ==>
      screen.code == s.gameState.roomCode.value && screen.players == s.gameState.players
      && screen.maxPlayers == s.gameState.maxPlayers && screen.viewerId == LobbyViewer(s)
    ensures screen == LandingScreen <==> s.view == Landing
    ensures screen == ModeSelectScreen <==> s.view == ModeSelect
    ensures screen.EditorScreen? <==> s.view == Editor
    ensures screen.EditorScreen? ==> screen.board == s.gameState.board
    ensures screen.GameScreen? <==> s.view == Game
    ensures screen.GameScreen? ==>
      screen.board == s.gameState.board && screen.players == s.gameState.players
  {
    match s.view
    case Landing => LandingScreen
    case ModeSelect => ModeSelectScreen
    case Lobby =>
      if Present(s.gameState.roomCode) then
        LobbyScreen(s.gameState.roomCode.value, s.gameState.players, s.gameState.maxPlayers, LobbyViewer(s))
      else NothingShown
    case Editor => EditorScreen(s.gameState.board)
    case Game => GameScreen(s.gameState.board, s.gameState.players)
  }

  /** Everything that can happen to the application. */
  datatype Event =
    | RoomUpdate(data: Option<GameState>, stamp: nat)
    | Host(name: string, code: string, maxPlayers: int, hostReply: Result<(), GameService.ServiceError>)
    | Join(name: string, code: string, joinReply: Result<string, GameService.ServiceError>)
    | Leave(leaveStamp: nat)
    | SelectMode(mode: string)
    | OpenEditor
    | SaveBoard(board: Board)
    | CancelEdit
    | StartGame

  function Step(s: AppState, e: Event): Transition {
    match e
    case RoomUpdate(data, stamp) => Transition(OnRoomUpdate(s, data, stamp), [])
    case Host(name, code, maxPlayers, reply) => HandleHost(s, name, code, maxPlayers, reply)
    case Join(name, code, reply) => HandleJoin(s, name, code, reply)
    case Leave(stamp) => HandleLeave(s, stamp)
    case SelectMode(mode) => Transition(HandleModeSelect(s, mode), [])
    case OpenEditor => Transition(HandleOpenEditor(s), [])
    case SaveBoard(board) => HandleSaveBoard(s, board)
    case CancelEdit => Transition(HandleCancelEdit(s), [])
    case StartGame => HandleStartGame(s)
  }

  function Run(s: AppState, events: seq<Event>): AppState
    decreases |events|
  {
    if events == [] then s else Run(Step(s, events[0]).state, events[1..])
  }

  predicate JoinSucceeds(e: Event) {
    e.Join? && e.joinReply.Ok? && e.joinReply.value != ""
  }

  /** Only a successful join ever sets the player id: a client that has not
      joined (in particular a host, after any number of events) still has an
      empty id, so its leave issues no service call and the room is not torn down. */
  lemma {:induction false} NoPlayerIdWithoutJoin(s: AppState, events: seq<Event>, stamp: nat)
    requires s.currentPlayerId == ""
    requires forall i :: 0 <= i < |events| ==> !JoinSucceeds(events[i])
    ensures Run(s, events).currentPlayerId == ""
    ensures HandleLeave(Run(s, events), stamp).effects == []
    decreases |events|
  {
    if events != [] {
      var next := Step(s, events[0]).state;
      assert next.currentPlayerId == "" by {
        assert !JoinSucceeds(events[0]);
      }
      assert forall i :: 0 <= i < |events| - 1 ==> events[1..][i] == events[i + 1];
      NoPlayerIdWithoutJoin(next, events[1..], stamp);
    }
  }

  /** A host who created a room from the landing screen and then leaves issues no
      service call at all. */
  lemma HostLeaveIssuesNoCall(stamp: nat, name: string, code: string, maxPlayers: int, leaveStamp: nat)
    ensures var hosted := HandleHost(Initial(stamp), name, code, maxPlayers, Ok(())).state;
      hosted.view == ModeSelect && HandleLeave(hosted, leaveStamp).effects == []
  {
  }

  /** A player who joined and then leaves asks the service to remove exactly
      their own entry from that room, as a non-host when the last room state
      lists them as an ordinary player. */
  lemma JoinedPlayerLeave(s: AppState, name: string, code: string, playerId: string, update: GameState,
                          updateStamp: nat, leaveStamp: nat)
    requires code != "" && playerId != ""
    requires forall i :: 0 <= i < |update.players| && update.players[i].id == playerId ==>
      !update.players[i].isHost
    ensures var joined := HandleJoin(s, name, code, Ok(playerId)).state;
      var synced := OnRoomUpdate(joined, Some(update), updateStamp);
      HandleLeave(synced, leaveStamp).effects == [LeaveRoomCall(code, playerId, false)]
  {
  }

  /** End to end with the room store: a successful join followed by the
      subscription's snapshot of the still-waiting room shows the lobby, with the
      new player in the roster. */
  lemma JoinThenSnapshot(rooms: GameService.Rooms, s: AppState, name: string, code: string,
                         stamp: nat, updateStamp: nat)
    requires code != "" && s.view == Landing
    requires GameService.JoinRoom(rooms, name, code, stamp).result.Ok?
    requires rooms[code].status == Waiting
    ensures var reply := GameService.JoinRoom(rooms, name, code, stamp);
      var joined := HandleJoin(s, name, code, reply.result).state;
      var synced := OnRoomUpdate(joined, GameService.Snapshot(reply.rooms, code), updateStamp);
      && synced.view == Lobby
      && synced.currentPlayerId == GameService.PlayerId(stamp)
      && Player(GameService.PlayerId(stamp), name, false, 0) in synced.gameState.players
      && (rooms[code].roomCode != "" ==>
            && Render(synced).LobbyScreen?
            && Render(synced).code == rooms[code].roomCode
            && Render(synced).viewerId == GameService.PlayerId(stamp))
  {
    var reply := GameService.JoinRoom(rooms, name, code, stamp);
    var room := reply.rooms[code];
    var joined := HandleJoin(s, name, code, reply.result).state;
    var snapshot := GameService.Snapshot(reply.rooms, code);
    assert snapshot.Some? && snapshot.value.status == Waiting;
    var synced := OnRoomUpdate(joined, snapshot, updateStamp);
    assert synced.gameState == snapshot.value;
    assert room.players[GameService.PlayerId(stamp)] in room.players.Values;
  }

  /** End to end with the room store: when the host starts the game, the status
      write it issues reaches every client subscribed to that room, and each of
      them, whatever screen it is on, moves to the game screen. */
  lemma StartGameReachesEveryClient(rooms: GameService.Rooms, host: AppState, client: AppState, stamp: nat)
    requires Present(host.roomCode) && host.roomCode.value in rooms
    requires client.roomCode == host.roomCode
    ensures var effects := HandleStartGame(host).effects;
      && effects == [UpdateStatusCall(host.roomCode.value, Playing)]
      && var after := GameService.UpdateStatus(rooms, effects[0].code, effects[0].status);
      && var synced := OnRoomUpdate(client, GameService.Snapshot(after, client.roomCode.value), stamp);
      && synced.view == Game
      && synced.gameState.status == Playing
      && Render(synced).GameScreen?
  {
    var code := host.roomCode.value;
    var after := GameService.UpdateStatus(rooms, code, Playing);
    var snapshot := GameService.Snapshot(after, code);
    assert snapshot.Some? && snapshot.value.status == Playing;
  }
}
