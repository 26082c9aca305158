/**
 * The room store (services/gameService.ts). The realtime database's `rooms/`
 * tree is a map from room code to room node, and each room's `players` child
 * is a map from player id to player record. Every database read becomes a map
 * lookup and every `set`/`update`/`remove` a map update, so each service call
 * is a pure function from the tree before the call to the tree after it.
 */
module GameService {
  import opened Base
  import opened Text
  import opened Types
  import Helpers

  /** One node `rooms/{code}`. `board` is `None` when the node has no board
      child: the database keeps no empty arrays, so writing `[]` removes it. */
  datatype Room = Room(
    hostName: string,
    roomCode: string,
    status: Status,
    maxPlayers: int,
    board: Option<Board>,
    players: map<string, Player>)

  /** The `rooms/` tree. */
  type Rooms = map<string, Room>

  /** The failures the service reports: ROOM CODE ALREADY IN USE, ROOM NOT FOUND,
      ROOM IS FULL and CALLSIGN TAKEN. */
  datatype ServiceError = CodeInUse | RoomNotFound | RoomFull | CallsignTaken

  /** The tree after a call together with what the call returned. */
  datatype Reply<T> = Reply(rooms: Rooms, result: Result<T, ServiceError>)

  /** `host-${Date.now()}` */
  function HostId(stamp: nat): string {
    "host-" + NatToString(stamp)
  }

  /** `player-${Date.now()}` */
  function PlayerId(stamp: nat): string {
    "player-" + NatToString(stamp)
  }

  predicate IsHostKey(k: string) {
    |k| >= 5 && k[..5] == "host-"
  }

  /** The ids of the players flagged as host. */
  function HostKeys(players: map<string, Player>): set<string> {
    set k | k in players && players[k].isHost
  }

  /** A room node as the service writes it: every player is filed under its own
      id, and only an id the host path generates can carry the host flag. */
  predicate WellFormed(room: Room) {
    forall k :: k in room.players ==>
      room.players[k].id == k && (room.players[k].isHost ==> IsHostKey(k))
  }

  /** What the database holds after the board `board` is written. */
  function StoredBoard(board: Board): (stored: Option<Board>)
    ensures stored.GetOr([]) == board
    ensures stored.None? <==> board == []
  {
    if board == [] then None else Some(board)
  }

  /** `createRoom`: a code already in the tree is refused and the tree kept;
      otherwise exactly one new room appears under `roomCode`, waiting, with the
      requested capacity, the default board and the host as its only player. */
  function CreateRoom(rooms: Rooms, hostName: string, roomCode: string, maxPlayers: int,
                      hostStamp: nat, boardStamp: nat): (r: Reply<()>)
    ensures r.result.Err? <==> roomCode in rooms
    ensures r.result.Err? ==> r.result.error == CodeInUse && r.rooms == rooms
    ensures r.result.Ok? ==>
      && r.rooms.Keys == rooms.Keys + {roomCode}
      && (forall c :: c in rooms ==> r.rooms[c] == rooms[c])
      && var room := r.rooms[roomCode];
      && room.hostName == hostName
      && room.roomCode == roomCode
      && room.status == Waiting
      && room.maxPlayers == maxPlayers
      && room.board == Some(Helpers.InitialBoard(boardStamp))
      && room.players.Keys == {HostId(hostStamp)}
      && room.players[HostId(hostStamp)] == Player(HostId(hostStamp), hostName, true, 0)
      && WellFormed(room)
      && HostKeys(room.players) == {HostId(hostStamp)}
  {
    if roomCode in rooms then
      Reply(rooms, Err(CodeInUse))
    else
      var hostId := HostId(hostStamp);
      var host := Player(hostId, hostName, true, 0);
      var room := Room(hostName, roomCode, Waiting, maxPlayers,
                       Some(Helpers.InitialBoard(boardStamp)), map[hostId := host]);
      Reply(rooms[roomCode := room], Ok(()))
  }

  /** Two callsigns clash when they are equal after lower-casing. */
  predicate SameCallsign(a: string, b: string) {
    ToLower(a) == ToLower(b)
  }

  predicate NameTaken(players: map<string, Player>, name: string) {
    exists k :: k in players && SameCallsign(players[k].name, name)
  }

  /** `joinRoom`: the checks run in order (room exists, room has a free slot,
      callsign is free), every refusal keeps the tree, and a success files one
      non-host player with score 0 under `player-${stamp}`, touching nothing else. */
  function JoinRoom(rooms: Rooms, playerName: string, roomCode: string, stamp: nat): (r: Reply<string>)
    ensures r.result == Err(RoomNotFound) <==> roomCode !in rooms
    ensures r.result == Err(RoomFull) <==>
      roomCode in rooms && |rooms[roomCode].players| >= rooms[roomCode].maxPlayers
    ensures r.result == Err(CallsignTaken) <==>
      && roomCode in rooms
      && |rooms[roomCode].players| < rooms[roomCode].maxPlayers
      && NameTaken(rooms[roomCode].players, playerName)
    ensures r.result.Ok? <==>
      && roomCode in rooms
      && |rooms[roomCode].players| < rooms[roomCode].maxPlayers
      && !NameTaken(rooms[roomCode].players, playerName)
    ensures r.result.Err? ==> r.rooms == rooms
    ensures r.result.Ok? ==>
      && r.result.value == PlayerId(stamp)
      && r.rooms.Keys == rooms.Keys
      && (forall c :: c in rooms && c != roomCode ==> r.rooms[c] == rooms[c])
      && var before := rooms[roomCode];
      && var after := r.rooms[roomCode];
      && after.(players := before.players) == before
      && after.players.Keys == before.players.Keys + {PlayerId(stamp)}
      && after.players[PlayerId(stamp)] == Player(PlayerId(stamp), playerName, false, 0)
      && (forall k :: k in before.players && k != PlayerId(stamp) ==> after.players[k] == before.players[k])
  {
    if roomCode !in rooms then
      Reply(rooms, Err(RoomNotFound))
    else
      var room := rooms[roomCode];
      if |room.players| >= room.maxPlayers then
        Reply(rooms, Err(RoomFull))
      else if NameTaken(room.players, playerName) then
        Reply(rooms, Err(CallsignTaken))
      else
        var playerId := PlayerId(stamp);
        var player := Player(playerId, playerName, false, 0);
        Reply(rooms[roomCode := room.(players := room.players[playerId := player])], Ok(playerId))
  }

  /** `updateBoard`: only the room's board changes, and reads back as `board`. */
  function UpdateBoard(rooms: Rooms, roomCode: string, board: Board): (r: Rooms)
    ensures r.Keys == rooms.Keys
    ensures forall c :: c in rooms && c != roomCode ==> r[c] == rooms[c]
    ensures roomCode in rooms ==>
      r[roomCode].(board := rooms[roomCode].board) == rooms[roomCode]
      && r[roomCode].board.GetOr([]) == board
  {
    if roomCode in rooms then rooms[roomCode := rooms[roomCode].(board := StoredBoard(board))]
    else rooms
  }

  /** `updateStatus`: only the room's status changes. */
  function UpdateStatus(rooms: Rooms, roomCode: string, status: Status): (r: Rooms)
    ensures r.Keys == rooms.Keys
    ensures forall c :: c in rooms && c != roomCode ==> r[c] == rooms[c]
    ensures roomCode in rooms ==>
      r[roomCode].status == status
      && r[roomCode].(status := rooms[roomCode].status) == rooms[roomCode]
  {
    if roomCode in rooms then rooms[roomCode := rooms[roomCode].(status := status)]
    else rooms
  }

  /** `leaveRoom`: a host takes the whole room down; anyone else removes only
      their own entry and leaves the rest of the room as it was. */
  function LeaveRoom(rooms: Rooms, roomCode: string, playerId: string, isHost: bool): (r: Rooms)
    ensures isHost ==> r.Keys == rooms.Keys - {roomCode}
    ensures !isHost ==> r.Keys == rooms.Keys
    ensures forall c :: c in r && c != roomCode ==> r[c] == rooms[c]
    ensures !isHost && roomCode in rooms ==>
      && r[roomCode].(players := rooms[roomCode].players) == rooms[roomCode]
      && r[roomCode].players.Keys == rooms[roomCode].players.Keys - {playerId}
      && forall k :: k in r[roomCode].players ==> r[roomCode].players[k] == rooms[roomCode].players[k]
  {
    if isHost then rooms - {roomCode}
    else if roomCode in rooms then
      var room := rooms[roomCode];
      rooms[roomCode := room.(players := room.players - {playerId})]
    else rooms
  }

  /** A player id the join path generates never looks like a host id. */
  lemma PlayerIdNotHostKey(stamp: nat)
    ensures !IsHostKey(PlayerId(stamp))
  {
    assert PlayerId(stamp)[..5][0] == 'p';
  }

  /** A room the service wrote keeps its shape through a join, and a join
      never adds, removes or overwrites a host: the set of hosts is unchanged. */
  lemma JoinPreservesHosts(rooms: Rooms, playerName: string, roomCode: string, stamp: nat)
    requires roomCode in rooms && WellFormed(rooms[roomCode])
    ensures var after := JoinRoom(rooms, playerName, roomCode, stamp).rooms[roomCode];
      WellFormed(after) && HostKeys(after.players) == HostKeys(rooms[roomCode].players)
  {
    var r := JoinRoom(rooms, playerName, roomCode, stamp);
    if r.result.Ok? {
      PlayerIdNotHostKey(stamp);
      var before := rooms[roomCode].players;
      var after := r.rooms[roomCode].players;
      assert PlayerId(stamp) in before ==> !before[PlayerId(stamp)].isHost;
      assert HostKeys(after) == HostKeys(before);
    }
  }

  /** A join into a room at or under its capacity leaves it at or under its capacity. */
  lemma JoinWithinCapacity(rooms: Rooms, playerName: string, roomCode: string, stamp: nat)
    requires roomCode in rooms && |rooms[roomCode].players| <= rooms[roomCode].maxPlayers
    ensures var after := JoinRoom(rooms, playerName, roomCode, stamp).rooms;
      roomCode in after && |after[roomCode].players| <= after[roomCode].maxPlayers
  {
    var r := JoinRoom(rooms, playerName, roomCode, stamp);
    if r.result.Ok? {
      var before := rooms[roomCode].players;
      var after := r.rooms[roomCode].players;
      assert after.Keys == before.Keys + {PlayerId(stamp)};
      assert |after.Keys| <= |before.Keys| + |{PlayerId(stamp)}|;
    }
  }

  /** A successful join with a fresh id grows the roster by exactly one; with an
      id already present (two joins in the same millisecond) it overwrites that entry. */
  lemma JoinRosterSize(rooms: Rooms, playerName: string, roomCode: string, stamp: nat)
    requires JoinRoom(rooms, playerName, roomCode, stamp).result.Ok?
    ensures var before := rooms[roomCode].players;
      var after := JoinRoom(rooms, playerName, roomCode, stamp).rooms[roomCode].players;
      |after| == if PlayerId(stamp) in before then |before| else |before| + 1
  {
    var before := rooms[roomCode].players;
    var after := JoinRoom(rooms, playerName, roomCode, stamp).rooms[roomCode].players;
    if PlayerId(stamp) in before {
      assert after.Keys == before.Keys;
    } else {
      assert after.Keys == before.Keys + {PlayerId(stamp)};
    }
  }

  /** One join attempt: the callsign typed and the `Date.now()` of the call. */
  datatype JoinAttempt = JoinAttempt(name: string, stamp: nat)

  /** The tree after the attempts run one after another against the same room. */
  function JoinAll(rooms: Rooms, roomCode: string, attempts: seq<JoinAttempt>): Rooms
  {
    if attempts == [] then rooms
    else JoinAll(JoinRoom(rooms, attempts[0].name, roomCode, attempts[0].stamp).rooms,
                 roomCode, attempts[1..])
  }

  /** However many joins arrive one after another, a room that starts at or
      under its capacity never exceeds it, and its hosts never change. */
  lemma {:induction false} JoinsNeverOverfill(rooms: Rooms, roomCode: string, attempts: seq<JoinAttempt>)
    requires roomCode in rooms && |rooms[roomCode].players| <= rooms[roomCode].maxPlayers
    requires WellFormed(rooms[roomCode])
    ensures var after := JoinAll(rooms, roomCode, attempts);
      && roomCode in after
      && |after[roomCode].players| <= after[roomCode].maxPlayers
      && after[roomCode].maxPlayers == rooms[roomCode].maxPlayers
      && WellFormed(after[roomCode])
      && HostKeys(after[roomCode].players) == HostKeys(rooms[roomCode].players)
    decreases |attempts|
  {
    if attempts != [] {
      var a := attempts[0];
      var next := JoinRoom(rooms, a.name, roomCode, a.stamp).rooms;
      JoinWithinCapacity(rooms, a.name, roomCode, a.stamp);
      JoinPreservesHosts(rooms, a.name, roomCode, a.stamp);
      JoinsNeverOverfill(next, roomCode, attempts[1..]);
    }
  }

  /** A room the service just created has exactly one host. */
  lemma CreatedRoomHasOneHost(rooms: Rooms, hostName: string, roomCode: string, maxPlayers: int,
                              hostStamp: nat, boardStamp: nat)
    requires roomCode !in rooms
    ensures var r := CreateRoom(rooms, hostName, roomCode, maxPlayers, hostStamp, boardStamp);
      |HostKeys(r.rooms[roomCode].players)| == 1
  {
  }

  /** A non-host leave keeps the room's shape, and removes a host only when the
      id it names is a host's. */
  lemma LeavePreservesHosts(rooms: Rooms, roomCode: string, playerId: string)
    requires roomCode in rooms && WellFormed(rooms[roomCode])
    ensures var after := LeaveRoom(rooms, roomCode, playerId, false)[roomCode];
      WellFormed(after)
      && HostKeys(after.players) == HostKeys(rooms[roomCode].players) - {playerId}
  {
    var after := LeaveRoom(rooms, roomCode, playerId, false)[roomCode];
    assert HostKeys(after.players) == HostKeys(rooms[roomCode].players) - {playerId};
  }

  /** `playersToArray`: the roster as a list with one entry per id. The order
      is the database's enumeration order, which the model leaves open. */
  ghost function PlayersToArray(players: map<string, Player>): (list: seq<Player>)
    ensures |list| == |players|
    ensures forall i :: 0 <= i < |list| ==> list[i] in players.Values
    ensures forall k :: k in players ==> players[k] in list
    decreases |players|
  {
    if |players| == 0 then []
    else
      var k :| k in players;
      var rest := players - {k};
      assert |rest| == |players| - 1;
      var list := [players[k]] + PlayersToArray(rest);
      assert forall j :: j in players && j != k ==> j in rest && players[j] == rest[j];
      list
  }

  /** What `subscribeToRoom` delivers for the current tree: `None` (JavaScript
      `null`) once the room is gone, otherwise the room's fields, its roster as
      a list and its board, read as empty when the node has none. */
  ghost function Snapshot(rooms: Rooms, roomCode: string): (s: Option<GameState>)
    ensures s.None? <==> roomCode !in rooms
    ensures s.Some? ==>
      var room := rooms[roomCode];
      && s.value.roomCode == Some(room.roomCode)
      && s.value.hostName == Some(room.hostName)
      && s.value.status == room.status
      && s.value.maxPlayers == room.maxPlayers
      && s.value.board == room.board.GetOr([])
      && |s.value.players| == |room.players|
      && (forall p :: p in s.value.players <==> p in room.players.Values)
  {
    if roomCode !in rooms then None
    else
      var room := rooms[roomCode];
      Some(GameState(Some(room.roomCode), Some(room.hostName), PlayersToArray(room.players),
                     room.status, room.board.GetOr([]), room.maxPlayers))
  }

  /** Round trip through the database: after `updateBoard(code, b)` every
      subscriber of the room receives exactly `b`, the empty board included. */
  lemma SnapshotAfterUpdateBoard(rooms: Rooms, roomCode: string, board: Board)
    requires roomCode in rooms
    ensures Snapshot(UpdateBoard(rooms, roomCode, board), roomCode).Some?
    ensures Snapshot(UpdateBoard(rooms, roomCode, board), roomCode).value.board == board
  {
  }

  /** After the host leaves, every subscriber of the room receives `null`,
      and a later join is refused with ROOM NOT FOUND. */
  lemma HostLeaveClosesRoom(rooms: Rooms, roomCode: string, hostId: string, name: string, stamp: nat)
    ensures Snapshot(LeaveRoom(rooms, roomCode, hostId, true), roomCode) == None
    ensures JoinRoom(LeaveRoom(rooms, roomCode, hostId, true), name, roomCode, stamp).result
         == Err(RoomNotFound)
  {
  }
}
