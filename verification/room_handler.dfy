/**
 * The room socket handlers that act on a stored room: fetching a room's
 * data, which also advances an expired turn, and deleting an empty room.
 * The current time of `Date.now()` is the parameter `now`.
 */
module RoomHandler {
  import opened JsObject
  import opened Entities
  import opened Store
  import opened RoomMethods

  /** The mover's time is up: the room's next-move deadline is not after `now`. */
  predicate TurnExpired(room: Room, now: int) {
    room.nextMoveTime <= now
  }

  /** The room `handleGetData` works with once an expired turn has been passed on. */
  function Current(m: RoomModel, room: Room, now: int): (r: Room)
    ensures !TurnExpired(room, now) ==> r == room
    ensures TurnExpired(room, now) ==> r == m.changeMovingPlayer(room)
  {
    if TurnExpired(room, now) then m.changeMovingPlayer(room) else room
  }

  /**
   * What `handleGetData` sends to the requesting connection about `room`,
   * in order: the room, then the winner if set, then the scores and the
   * remaining time once the game has started.
   */
  function DataMessages(m: RoomModel, room: Room, socket: SocketId, now: int): (msgs: seq<Effect>)
    ensures |msgs| == 1 + (if HasWinner(room) then 1 else 0) + (if room.started then 2 else 0)
    ensures msgs[0] == Sent(ToSocket(socket), RoomData(room))
    ensures HasWinner(room) ==> msgs[1] == Sent(ToSocket(socket), WinnerIs(room.winner.value))
    ensures room.started ==>
              && msgs[|msgs| - 2] == Sent(ToSocket(socket), ScoreUpdate(m.getFormattedScores(room)))
              && msgs[|msgs| - 1] == Sent(ToSocket(socket), TimeRemaining(m.getRemainingGameTime(room, now)))
    ensures forall i :: 0 <= i < |msgs| ==> msgs[i].Sent? && msgs[i].to == ToSocket(socket)
    ensures (exists o :: Sent(ToSocket(socket), WinnerIs(o)) in msgs) <==> HasWinner(room)
    ensures HasWinner(room) ==> Sent(ToSocket(socket), WinnerIs(room.winner.value)) in msgs
    ensures (exists e :: Sent(ToSocket(socket), ScoreUpdate(e)) in msgs) <==> room.started
    ensures Sent(ToSocket(socket), TimeRemaining(m.getRemainingGameTime(room, now))) in msgs <==> room.started
  {
    [Sent(ToSocket(socket), RoomData(room))]
    + (if HasWinner(room) then [Sent(ToSocket(socket), WinnerIs(room.winner.value))] else [])
    + (if room.started
       then [Sent(ToSocket(socket), ScoreUpdate(m.getFormattedScores(room))),
             Sent(ToSocket(socket), TimeRemaining(m.getRemainingGameTime(room, now)))]
       else [])
  }

  /**
   * `handleGetData()` for the connection `socket`: when the deadline has
   * passed the turn moves on and the room is saved before anything is
   * sent; then the requester alone receives the room, the winner if any,
   * and, once started, the scores and the remaining time.
   */
  function GetDataSpec(w: World, m: RoomModel, s: Session, socket: SocketId, now: int): (w': World)
    ensures s.roomId !in w.rooms ==> w' == w
    ensures s.roomId in w.rooms && !TurnExpired(w.rooms[s.roomId], now) ==>
              w'.rooms == w.rooms && w'.log == w.log + DataMessages(m, w.rooms[s.roomId], socket, now)
    ensures s.roomId in w.rooms && TurnExpired(w.rooms[s.roomId], now) ==>
              var room := m.changeMovingPlayer(w.rooms[s.roomId]);
              && w'.rooms == w.rooms[s.roomId := room]
              && w'.log == w.log + [Saved(s.roomId, room)] + DataMessages(m, room, socket, now)
  {
    if s.roomId !in w.rooms then w
    else
      var room := Current(m, w.rooms[s.roomId], now);
      var w1 := if TurnExpired(w.rooms[s.roomId], now) then SaveRoom(w, s.roomId, room) else w;
      World(w1.rooms, w1.log + DataMessages(m, room, socket, now))
  }

  method HandleGetData(store: RoomStore, m: RoomModel, s: Session, socket: SocketId, now: int)
    modifies store
    ensures store.Snapshot() == GetDataSpec(old(store.Snapshot()), m, s, socket, now)
  {
    var loaded := store.Load(s.roomId);
    if loaded.None? {
      return;
    }
    var room := loaded.value;
    if room.nextMoveTime <= now {
      room := m.changeMovingPlayer(room);
      store.Save(s.roomId, room);
    }
    ghost var base := store.Snapshot();
    ghost var first := [Sent(ToSocket(socket), RoomData(room))];
    ghost var win := if HasWinner(room) then [Sent(ToSocket(socket), WinnerIs(room.winner.value))] else [];
    ghost var rest := if room.started
      then [Sent(ToSocket(socket), ScoreUpdate(m.getFormattedScores(room))),
            Sent(ToSocket(socket), TimeRemaining(m.getRemainingGameTime(room, now)))]
      else [];
    store.Emit(ToSocket(socket), RoomData(room));
    if HasWinner(room) {
      store.Emit(ToSocket(socket), WinnerIs(room.winner.value));
    }
    assert store.log == base.log + first + win;
    if room.started {
      store.Emit(ToSocket(socket), ScoreUpdate(m.getFormattedScores(room)));
      store.Emit(ToSocket(socket), TimeRemaining(m.getRemainingGameTime(room, now)));
    }
    assert store.log == base.log + first + win + rest;
    ConcatAssoc(base.log, first, win, rest);
    assert DataMessages(m, room, socket, now) == first + win + rest;
  }

  lemma ConcatAssoc(a: seq<Effect>, b: seq<Effect>, c: seq<Effect>, d: seq<Effect>)
    ensures a + b + c + d == a + (b + c + d)
  {
  }

  /** Several connections fetching the same room's data one after another. */
  function FetchAll(w: World, m: RoomModel, s: Session, sockets: seq<SocketId>, now: int): World
    decreases |sockets|
  {
    if sockets == [] then w else FetchAll(GetDataSpec(w, m, s, sockets[0], now), m, s, sockets[1..], now)
  }

  /** Fetching data before the deadline is read-only, however often it happens. */
  lemma {:induction false} GetDataBeforeDeadlineKeepsRooms(w: World, m: RoomModel, s: Session, sockets: seq<SocketId>, now: int)
    requires s.roomId in w.rooms && !TurnExpired(w.rooms[s.roomId], now)
    ensures FetchAll(w, m, s, sockets, now).rooms == w.rooms
    decreases |sockets|
  {
    if sockets != [] {
      GetDataBeforeDeadlineKeepsRooms(GetDataSpec(w, m, s, sockets[0], now), m, s, sockets[1..], now);
    }
  }

  /** The message a refused deletion sends back. */
  const CannotDelete := "Cannot delete room with active players"

  /** A room may be deleted only if it exists and nobody is in it. */
  predicate Deletable(w: World, roomId: RoomId) {
    roomId in w.rooms && |w.rooms[roomId].players| == 0
  }

  /**
   * `handleDeleteRoom({ roomId })` for the connection `socket`: an empty
   * room is deleted and the new room list goes to every connection (the
   * others by broadcast, the requester directly); anything else is refused
   * with an error sent to the requester alone.
   */
  function DeleteSpec(w: World, socket: SocketId, roomId: RoomId): (w': World)
    ensures Deletable(w, roomId) ==>
              && w'.rooms == w.rooms - {roomId}
              && w'.log == w.log + [Deleted(roomId), Sent(ToOthers(socket), RoomList(w'.rooms)),
                                    Sent(ToSocket(socket), RoomList(w'.rooms))]
    ensures !Deletable(w, roomId) ==>
              && w'.rooms == w.rooms
              && w'.log == w.log + [Sent(ToSocket(socket), Unauthorized(CannotDelete))]
  {
    if Deletable(w, roomId) then
      var w1 := DeleteRoom(w, roomId);
      Send(Send(w1, ToOthers(socket), RoomList(w1.rooms)), ToSocket(socket), RoomList(w1.rooms))
    else
      Send(w, ToSocket(socket), Unauthorized(CannotDelete))
  }

  method HandleDeleteRoom(store: RoomStore, socket: SocketId, roomId: RoomId)
    modifies store
    ensures store.Snapshot() == DeleteSpec(old(store.Snapshot()), socket, roomId)
  {
    var room := store.Load(roomId);
    if room.Some? && |room.value.players| == 0 {
      store.Delete(roomId);
      var updatedRooms := store.rooms;
      store.Emit(ToOthers(socket), RoomList(updatedRooms));
      store.Emit(ToSocket(socket), RoomList(updatedRooms));
    } else {
      store.Emit(ToSocket(socket), Unauthorized(CannotDelete));
    }
  }

  /** Delete requests handled one after another. */
  function DeleteAll(w: World, requests: seq<(SocketId, RoomId)>): World
    decreases |requests|
  {
    if requests == [] then w else DeleteAll(DeleteSpec(w, requests[0].0, requests[0].1), requests[1..])
  }

  /** A room with players survives any number of delete requests. */
  lemma {:induction false} OccupiedRoomSurvivesDeletes(w: World, requests: seq<(SocketId, RoomId)>, id: RoomId)
    requires id in w.rooms && |w.rooms[id].players| > 0
    ensures id in DeleteAll(w, requests).rooms && DeleteAll(w, requests).rooms[id] == w.rooms[id]
    decreases |requests|
  {
    if requests != [] {
      var w1 := DeleteSpec(w, requests[0].0, requests[0].1);
      assert id in w1.rooms && w1.rooms[id] == w.rooms[id];
      OccupiedRoomSurvivesDeletes(w1, requests[1..], id);
    }
  }
}
