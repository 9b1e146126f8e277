/**
 * The room collection the handlers load from and save to, and the
 * messages they send. A handler's whole effect is what it does to the
 * rooms and, in order, the effects it records: saves, deletes and sends.
 * The database, the socket server and the change-stream rebroadcast are
 * not part of this model.
 */
module Store {
  import opened JsObject
  import opened Entities
  import opened Scoring

  /** Who a message goes to: everyone in a room, one connection, or every connection but one. */
  datatype Audience = ToRoom(room: RoomId) | ToSocket(socket: SocketId) | ToOthers(socket: SocketId)

  /** A message, named after the socket event that carries it. */
  datatype Event =
    | RolledNumber(n: int)                                  // 'game:roll'
    | RoomData(room: Room)                                  // 'room:data'
    | WinnerIs(outcome: string)                             // 'game:winner'
    | ScoreUpdate(table: Obj<ScoreRow>)                     // 'game:scores'
    | TimeRemaining(seconds: int)                           // 'game:timeRemaining'
    | DrawOffered(offeringPlayer: string, playerId: PlayerId) // 'game:drawOffered'
    | DrawResponse(accepted: bool)                          // 'game:drawResponse'
    | PausedIs(paused: bool)                                // 'game:paused'
    | RoomList(rooms: map<RoomId, Room>)                    // 'room:rooms'
    | Unauthorized(message: string)                         // 'error:unauthorized'

  /** One observable effect of a handler, in the order it happens. */
  datatype Effect =
    | Saved(id: RoomId, room: Room)
    | RolledNumberSaved(id: RoomId, n: int)
    | Deleted(id: RoomId)
    | Sent(to: Audience, event: Event)

  /** The rooms and everything recorded so far. */
  datatype World = World(rooms: map<RoomId, Room>, log: seq<Effect>)

  /**
   * `updateRoom(room)`: the stored document with that id takes the new
   * contents; an update that matches no document changes nothing.
   */
  function SaveRoom(w: World, id: RoomId, room: Room): (w': World)
    ensures id in w.rooms ==> w'.rooms == w.rooms[id := room]
    ensures id !in w.rooms ==> w'.rooms == w.rooms
    ensures w'.log == w.log + [Saved(id, room)]
  {
    World(if id in w.rooms then w.rooms[id := room] else w.rooms, w.log + [Saved(id, room)])
  }

  /** `updateRoom({ _id, rolledNumber })`: only the stored die value changes. */
  function SaveRolledNumber(w: World, id: RoomId, n: int): (w': World)
    ensures id in w.rooms ==> w'.rooms == w.rooms[id := w.rooms[id].(rolledNumber := n)]
    ensures id !in w.rooms ==> w'.rooms == w.rooms
    ensures w'.log == w.log + [RolledNumberSaved(id, n)]
  {
    World(if id in w.rooms then w.rooms[id := w.rooms[id].(rolledNumber := n)] else w.rooms,
          w.log + [RolledNumberSaved(id, n)])
  }

  /** `deleteRoom(id)` */
  function DeleteRoom(w: World, id: RoomId): (w': World)
    ensures w'.rooms.Keys == w.rooms.Keys - {id}
    ensures forall k :: k in w'.rooms ==> w'.rooms[k] == w.rooms[k]
    ensures w'.log == w.log + [Deleted(id)]
  {
    World(w.rooms - {id}, w.log + [Deleted(id)])
  }

  /** An emit: the rooms stay as they are. */
  function Send(w: World, to: Audience, event: Event): (w': World)
    ensures w'.rooms == w.rooms
    ensures w'.log == w.log + [Sent(to, event)]
  {
    World(w.rooms, w.log + [Sent(to, event)])
  }

  /** The persisted rooms, with the record of effects, as one mutable object. */
  class RoomStore {
    var rooms: map<RoomId, Room>
    var log: seq<Effect>

    constructor (initial: map<RoomId, Room>)
      ensures rooms == initial && log == []
    {
      rooms := initial;
      log := [];
    }

    function Snapshot(): World
      reads this
    {
      World(rooms, log)
    }

    /** `getRoom(id)`, with `null` as None. */
    method Load(id: RoomId) returns (r: Option<Room>)
      ensures r.Some? <==> id in rooms
      ensures r.Some? ==> r.value == rooms[id]
    {
      r := if id in rooms then Some(rooms[id]) else None;
    }

    method Save(id: RoomId, room: Room)
      modifies this
      ensures Snapshot() == SaveRoom(old(Snapshot()), id, room)
    {
      if id in rooms {
        rooms := rooms[id := room];
      }
      log := log + [Saved(id, room)];
    }

    method SaveRolled(id: RoomId, n: int)
      modifies this
      ensures Snapshot() == SaveRolledNumber(old(Snapshot()), id, n)
    {
      if id in rooms {
        rooms := rooms[id := rooms[id].(rolledNumber := n)];
      }
      log := log + [RolledNumberSaved(id, n)];
    }

    method Delete(id: RoomId)
      modifies this
      ensures Snapshot() == DeleteRoom(old(Snapshot()), id)
    {
      rooms := rooms - {id};
      log := log + [Deleted(id)];
    }

    method Emit(to: Audience, event: Event)
      modifies this
      ensures Snapshot() == Send(old(Snapshot()), to, event)
    {
      log := log + [Sent(to, event)];
    }
  }
}
