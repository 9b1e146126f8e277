/**
 * The in-game socket handlers. Each one loads a room, returns early when
 * the room is finished (and, for most, when it is paused), changes the
 * loaded room, saves it and emits to the room. Each handler is one atomic
 * step; a room id with no stored room makes the handler throw on its
 * first field access, which is modelled as "nothing happens".
 *
 * Every handler has a specification function on `World` values, stating
 * its guards and its whole effect, and a method that performs the same
 * steps on a `RoomStore` and is proved to agree with it.
 */
module GameHandler {
  import opened JsObject
  import opened Entities
  import opened Store
  import opened RoomMethods

  /** Rooms other than `id` are untouched, no room appears or disappears, and the log only grows. */
  ghost predicate OnlyTouches(w: World, w': World, id: RoomId) {
    && w'.rooms.Keys == w.rooms.Keys
    && (forall k :: k in w.rooms && k != id ==> w'.rooms[k] == w.rooms[k])
    && w.log <= w'.log
  }

  /** `endGame(outcome)`, the winner broadcast and the save, as quit, draw-accept and surrender do them. */
  function Conclude(w: World, m: RoomModel, id: RoomId, room: Room, outcome: string): (w': World)
    requires id in w.rooms
    ensures w'.rooms == w.rooms[id := m.endGame(room, outcome)]
    ensures w'.log == w.log + [Sent(ToRoom(id), WinnerIs(outcome)), Saved(id, m.endGame(room, outcome))]
  {
    SaveRoom(Send(w, ToRoom(id), WinnerIs(outcome)), id, m.endGame(room, outcome))
  }

  // ---------------------------------------------------------------- move

  /** The room after a valid move: the pawn moved and the turn passed. */
  function AfterMove(m: RoomModel, room: Room, pawnId: PawnId): Room {
    m.changeMovingPlayer(m.movePawn(room, m.getPawn(room, pawnId)))
  }

  /** `handleMovePawn(pawnId)` */
  function MoveSpec(w: World, m: RoomModel, s: Session, pawnId: PawnId): (w': World)
    ensures OnlyTouches(w, w', s.roomId)
    ensures s.roomId !in w.rooms ==> w' == w
    ensures s.roomId in w.rooms && (HasWinner(w.rooms[s.roomId]) || w.rooms[s.roomId].paused) ==> w' == w
    ensures s.roomId in w.rooms && !m.isMoveValid(s, m.getPawn(w.rooms[s.roomId], pawnId), w.rooms[s.roomId]) ==>
              w' == w
    ensures s.roomId in w.rooms && !HasWinner(w.rooms[s.roomId]) && !w.rooms[s.roomId].paused
            && m.isMoveValid(s, m.getPawn(w.rooms[s.roomId], pawnId), w.rooms[s.roomId]) ==>
              var moved := AfterMove(m, w.rooms[s.roomId], pawnId);
              var win := m.getWinner(moved);
              && w'.rooms[s.roomId] == (if Truthy(win) then m.endGame(moved, win.value) else moved)
              && w'.log == w.log + [Sent(ToRoom(s.roomId), ScoreUpdate(m.getFormattedScores(moved)))]
                            + (if Truthy(win) then [Sent(ToRoom(s.roomId), WinnerIs(win.value))] else [])
                            + [Saved(s.roomId, w'.rooms[s.roomId])]
  {
    var id := s.roomId;
    if id !in w.rooms then w
    else
      var room := w.rooms[id];
      if HasWinner(room) || room.paused then w
      else if !m.isMoveValid(s, m.getPawn(room, pawnId), room) then w
      else
        var moved := AfterMove(m, room, pawnId);
        var w1 := Send(w, ToRoom(id), ScoreUpdate(m.getFormattedScores(moved)));
        var win := m.getWinner(moved);
        if Truthy(win) then
          var ended := m.endGame(moved, win.value);
          SaveRoom(Send(w1, ToRoom(id), WinnerIs(win.value)), id, ended)
        else
          SaveRoom(w1, id, moved)
  }

  method HandleMovePawn(store: RoomStore, m: RoomModel, s: Session, pawnId: PawnId)
    modifies store
    ensures store.Snapshot() == MoveSpec(old(store.Snapshot()), m, s, pawnId)
  {
    var loaded := store.Load(s.roomId);
    if loaded.None? {
      return;
    }
    var room := loaded.value;
    if HasWinner(room) || room.paused {
      return;
    }
    var pawn := m.getPawn(room, pawnId);
    if m.isMoveValid(s, pawn, room) {
      room := m.movePawn(room, pawn);
      room := m.changeMovingPlayer(room);
      store.Emit(ToRoom(s.roomId), ScoreUpdate(m.getFormattedScores(room)));
      var winner := m.getWinner(room);
      if Truthy(winner) {
        room := m.endGame(room, winner.value);
        store.Emit(ToRoom(s.roomId), WinnerIs(winner.value));
      }
      store.Save(s.roomId, room);
    }
  }

  // ---------------------------------------------------------------- roll

  /**
   * `handleRollDice()` with the die value `rolled` standing for `rollDice()`.
   * The roll is broadcast and stored on its own; if the roller then cannot
   * move, the room as loaded, with its earlier die value, is passed through
   * `changeMovingPlayer` and saved whole.
   */
  function RollSpec(w: World, m: RoomModel, s: Session, rolled: int): (w': World)
    requires 1 <= rolled <= 6
    ensures OnlyTouches(w, w', s.roomId)
    ensures s.roomId !in w.rooms ==> w' == w
    ensures s.roomId in w.rooms && (HasWinner(w.rooms[s.roomId]) || w.rooms[s.roomId].paused) ==> w' == w
    ensures s.roomId in w.rooms && !HasWinner(w.rooms[s.roomId]) && !w.rooms[s.roomId].paused ==>
              var room := w.rooms[s.roomId];
              var player := m.getPlayer(room, s.playerId);
              var turnPasses := player.Some? && !m.canMove(player.value, room, rolled);
              && w'.rooms[s.roomId] == (if turnPasses then m.changeMovingPlayer(room) else room.(rolledNumber := rolled))
              && w'.log == w.log + [Sent(ToRoom(s.roomId), RolledNumber(rolled)), RolledNumberSaved(s.roomId, rolled)]
                            + (if turnPasses then [Saved(s.roomId, m.changeMovingPlayer(room))] else [])
  {
    var id := s.roomId;
    if id !in w.rooms then w
    else
      var room := w.rooms[id];
      if room.paused || HasWinner(room) then w
      else
        var w1 := SaveRolledNumber(Send(w, ToRoom(id), RolledNumber(rolled)), id, rolled);
        match m.getPlayer(room, s.playerId)
        case None => w1
        case Some(player) =>
          if !m.canMove(player, room, rolled) then SaveRoom(w1, id, m.changeMovingPlayer(room)) else w1
  }

  method HandleRollDice(store: RoomStore, m: RoomModel, s: Session, rolled: int)
    requires 1 <= rolled <= 6
    modifies store
    ensures store.Snapshot() == RollSpec(old(store.Snapshot()), m, s, rolled)
  {
    var loaded := store.Load(s.roomId);
    if loaded.None? {
      return;
    }
    var room := loaded.value;
    if room.paused || HasWinner(room) {
      return;
    }
    store.Emit(ToRoom(s.roomId), RolledNumber(rolled));
    store.SaveRolled(s.roomId, rolled);
    var player := m.getPlayer(room, s.playerId);
    if player.None? {
      return;
    }
    if !m.canMove(player.value, room, rolled) {
      room := m.changeMovingPlayer(room);
      store.Save(s.roomId, room);
    }
  }

  // ---------------------------------------------------------------- quit

  /** `handleQuitGame({ roomId })`: ends the game as "quit", paused or not. */
  function QuitSpec(w: World, m: RoomModel, roomId: RoomId): (w': World)
    ensures OnlyTouches(w, w', roomId)
    ensures roomId !in w.rooms ==> w' == w
    ensures roomId in w.rooms && HasWinner(w.rooms[roomId]) ==> w' == w
    ensures roomId in w.rooms && !HasWinner(w.rooms[roomId]) ==>
              && w'.rooms[roomId] == m.endGame(w.rooms[roomId], "quit")
              && w'.log == w.log + [Sent(ToRoom(roomId), WinnerIs("quit")), Saved(roomId, w'.rooms[roomId])]
  {
    if roomId !in w.rooms then w
    else
      var room := w.rooms[roomId];
      if HasWinner(room) then w else Conclude(w, m, roomId, room, "quit")
  }

  method HandleQuitGame(store: RoomStore, m: RoomModel, roomId: RoomId)
    modifies store
    ensures store.Snapshot() == QuitSpec(old(store.Snapshot()), m, roomId)
  {
    var loaded := store.Load(roomId);
    if loaded.None? {
      return;
    }
    var room := loaded.value;
    if HasWinner(room) {
      return;
    }
    room := m.endGame(room, "quit");
    store.Emit(ToRoom(roomId), WinnerIs("quit"));
    store.Save(roomId, room);
  }

  // ---------------------------------------------------------------- draws

  /** `handleOfferDraw({ roomId, playerName, playerId })`: a broadcast only. */
  function OfferDrawSpec(w: World, roomId: RoomId, playerName: string, playerId: PlayerId): (w': World)
    ensures w'.rooms == w.rooms
    ensures roomId !in w.rooms || HasWinner(w.rooms[roomId]) || w.rooms[roomId].paused ==> w' == w
    ensures roomId in w.rooms && !HasWinner(w.rooms[roomId]) && !w.rooms[roomId].paused ==>
              w'.log == w.log + [Sent(ToRoom(roomId), DrawOffered(playerName, playerId))]
  {
    if roomId !in w.rooms then w
    else
      var room := w.rooms[roomId];
      if HasWinner(room) || room.paused then w
      else Send(w, ToRoom(roomId), DrawOffered(playerName, playerId))
  }

  method HandleOfferDraw(store: RoomStore, roomId: RoomId, playerName: string, playerId: PlayerId)
    modifies store
    ensures store.Snapshot() == OfferDrawSpec(old(store.Snapshot()), roomId, playerName, playerId)
  {
    var loaded := store.Load(roomId);
    if loaded.None? {
      return;
    }
    var room := loaded.value;
    if HasWinner(room) || room.paused {
      return;
    }
    store.Emit(ToRoom(roomId), DrawOffered(playerName, playerId));
  }

  /** `handleAcceptDraw({ roomId })`: ends the game as "draw" unless finished or paused. */
  function AcceptDrawSpec(w: World, m: RoomModel, roomId: RoomId): (w': World)
    ensures OnlyTouches(w, w', roomId)
    ensures roomId !in w.rooms || HasWinner(w.rooms[roomId]) || w.rooms[roomId].paused ==> w' == w
    ensures roomId in w.rooms && !HasWinner(w.rooms[roomId]) && !w.rooms[roomId].paused ==>
              && w'.rooms[roomId] == m.endGame(w.rooms[roomId], "draw")
              && w'.log == w.log + [Sent(ToRoom(roomId), WinnerIs("draw")), Saved(roomId, w'.rooms[roomId])]
  {
    if roomId !in w.rooms then w
    else
      var room := w.rooms[roomId];
      if HasWinner(room) || room.paused then w else Conclude(w, m, roomId, room, "draw")
  }

  method HandleAcceptDraw(store: RoomStore, m: RoomModel, roomId: RoomId)
    modifies store
    ensures store.Snapshot() == AcceptDrawSpec(old(store.Snapshot()), m, roomId)
  {
    var loaded := store.Load(roomId);
    if loaded.None? {
      return;
    }
    var room := loaded.value;
    if HasWinner(room) || room.paused {
      return;
    }
    room := m.endGame(room, "draw");
    store.Emit(ToRoom(roomId), WinnerIs("draw"));
    store.Save(roomId, room);
  }

  /** `handleDeclineDraw({ roomId })`: a broadcast only. */
  function DeclineDrawSpec(w: World, roomId: RoomId): (w': World)
    ensures w'.rooms == w.rooms
    ensures roomId !in w.rooms || HasWinner(w.rooms[roomId]) || w.rooms[roomId].paused ==> w' == w
    ensures roomId in w.rooms && !HasWinner(w.rooms[roomId]) && !w.rooms[roomId].paused ==>
              w'.log == w.log + [Sent(ToRoom(roomId), DrawResponse(false))]
  {
    if roomId !in w.rooms then w
    else
      var room := w.rooms[roomId];
      if HasWinner(room) || room.paused then w
      else Send(w, ToRoom(roomId), DrawResponse(false))
  }

  method HandleDeclineDraw(store: RoomStore, roomId: RoomId)
    modifies store
    ensures store.Snapshot() == DeclineDrawSpec(old(store.Snapshot()), roomId)
  {
    var loaded := store.Load(roomId);
    if loaded.None? {
      return;
    }
    var room := loaded.value;
    if HasWinner(room) || room.paused {
      return;
    }
    store.Emit(ToRoom(roomId), DrawResponse(false));
  }

  // ---------------------------------------------------------------- pause

  /** `handlePauseGame({ roomId, paused })`: sets the flag, even to its current value, then saves and broadcasts. */
  function PauseSpec(w: World, roomId: RoomId, paused: bool): (w': World)
    ensures OnlyTouches(w, w', roomId)
    ensures roomId !in w.rooms || HasWinner(w.rooms[roomId]) ==> w' == w
    ensures roomId in w.rooms && !HasWinner(w.rooms[roomId]) ==>
              && w'.rooms[roomId] == w.rooms[roomId].(paused := paused)
              && w'.log == w.log + [Saved(roomId, w'.rooms[roomId]), Sent(ToRoom(roomId), PausedIs(paused))]
  {
    if roomId !in w.rooms then w
    else
      var room := w.rooms[roomId];
      if HasWinner(room) then w
      else Send(SaveRoom(w, roomId, room.(paused := paused)), ToRoom(roomId), PausedIs(paused))
  }

  method HandlePauseGame(store: RoomStore, roomId: RoomId, paused: bool)
    modifies store
    ensures store.Snapshot() == PauseSpec(old(store.Snapshot()), roomId, paused)
  {
    var loaded := store.Load(roomId);
    if loaded.None? {
      return;
    }
    var room := loaded.value;
    if HasWinner(room) {
      return;
    }
    room := room.(paused := paused);
    store.Save(roomId, room);
    store.Emit(ToRoom(roomId), PausedIs(paused));
  }

  // ---------------------------------------------------------------- surrender

  /** The players whose id differs from the surrendering player's, in room order. */
  function Remaining(players: seq<Player>, playerId: PlayerId): (r: seq<Player>)
    ensures |r| <= |players|
    ensures forall p :: p in r <==> p in players && p.id != playerId
  {
    if players == [] then []
    else (if players[0].id != playerId then [players[0]] else []) + Remaining(players[1..], playerId)
  }

  /** Each player other than the surrendering one is kept as often as it occurs; the others are dropped. */
  lemma {:induction false} RemainingCounts(players: seq<Player>, playerId: PlayerId)
    ensures forall p :: multiset(Remaining(players, playerId))[p]
                     == if p.id != playerId then multiset(players)[p] else 0
  {
    if players != [] {
      assert players == [players[0]] + players[1..];
      RemainingCounts(players[1..], playerId);
    }
  }

  /** The filter keeps room order: it distributes over any split of the player list. */
  lemma {:induction false} RemainingAppend(a: seq<Player>, b: seq<Player>, playerId: PlayerId)
    ensures Remaining(a + b, playerId) == Remaining(a, playerId) + Remaining(b, playerId)
  {
    if a == [] {
      assert a + b == b;
    } else {
      var head := if a[0].id != playerId then [a[0]] else [];
      assert (a + b)[0] == a[0];
      assert (a + b)[1..] == a[1..] + b;
      RemainingAppend(a[1..], b, playerId);
      assert head + (Remaining(a[1..], playerId) + Remaining(b, playerId))
          == (head + Remaining(a[1..], playerId)) + Remaining(b, playerId);
    }
  }

  /** The outcome of a surrender: the only other player's colour, or else the score decides. */
  function SurrenderOutcome(m: RoomModel, room: Room, playerId: PlayerId): (outcome: string)
    ensures |Remaining(room.players, playerId)| == 1 ==>
              exists p :: p in room.players && p.id != playerId && outcome == p.color
    ensures |Remaining(room.players, playerId)| != 1 ==> outcome == m.getWinnerByScore(room)
  {
    var remaining := Remaining(room.players, playerId);
    if |remaining| == 1 then
      assert remaining[0] in remaining;
      remaining[0].color
    else m.getWinnerByScore(room)
  }

  /** In a two-player room, whichever player surrenders, the other one wins. */
  lemma {:induction false} TwoPlayerSurrender(m: RoomModel, room: Room, playerId: PlayerId, i: nat)
    requires |room.players| == 2 && i < 2
    requires room.players[i].id == playerId && room.players[1 - i].id != playerId
    ensures SurrenderOutcome(m, room, playerId) == room.players[1 - i].color
  {
    var ps := room.players;
    assert ps[1..][1..] == [];
    assert Remaining(ps[1..][1..], playerId) == [];
    assert Remaining(ps[1..], playerId) == if i == 0 then [ps[1]] else [];
    assert Remaining(ps, playerId) == [ps[1 - i]];
  }

  /** `handleSurrender({ roomId, playerId })` */
  function SurrenderSpec(w: World, m: RoomModel, roomId: RoomId, playerId: PlayerId): (w': World)
    ensures OnlyTouches(w, w', roomId)
    ensures roomId !in w.rooms || HasWinner(w.rooms[roomId]) || w.rooms[roomId].paused ==> w' == w
    ensures roomId in w.rooms && !HasWinner(w.rooms[roomId]) && !w.rooms[roomId].paused ==>
              var outcome := SurrenderOutcome(m, w.rooms[roomId], playerId);
              && w'.rooms[roomId] == m.endGame(w.rooms[roomId], outcome)
              && w'.log == w.log + [Sent(ToRoom(roomId), WinnerIs(outcome)), Saved(roomId, w'.rooms[roomId])]
  {
    if roomId !in w.rooms then w
    else
      var room := w.rooms[roomId];
      if HasWinner(room) || room.paused then w
      else Conclude(w, m, roomId, room, SurrenderOutcome(m, room, playerId))
  }

  method HandleSurrender(store: RoomStore, m: RoomModel, roomId: RoomId, playerId: PlayerId)
    modifies store
    ensures store.Snapshot() == SurrenderSpec(old(store.Snapshot()), m, roomId, playerId)
  {
    var loaded := store.Load(roomId);
    if loaded.None? {
      return;
    }
    var room := loaded.value;
    if HasWinner(room) || room.paused {
      return;
    }
    var remaining := Remaining(room.players, playerId);
    var outcome;
    if |remaining| == 1 {
      outcome := remaining[0].color;
    } else {
      outcome := m.getWinnerByScore(room);
    }
    room := m.endGame(room, outcome);
    store.Emit(ToRoom(roomId), WinnerIs(outcome));
    store.Save(roomId, room);
  }

  // ---------------------------------------------------------------- sequences of events

  /** One in-game socket event with the data its handler reads. */
  datatype Action =
    | Roll(session: Session, rolled: int)
    | Move(session: Session, pawnId: PawnId)
    | Quit(roomId: RoomId)
    | OfferDraw(roomId: RoomId, playerName: string, playerId: PlayerId)
    | AcceptDraw(roomId: RoomId)
    | DeclineDraw(roomId: RoomId)
    | Pause(roomId: RoomId, paused: bool)
    | Surrender(roomId: RoomId, playerId: PlayerId)

  /** The room an event is about: the session's room for roll and move, the payload's otherwise. */
  function Target(a: Action): RoomId {
    match a
    case Roll(s, _) => s.roomId
    case Move(s, _) => s.roomId
    case _ => a.roomId
  }

  /** One event, handled to completion before the next. A die value outside 1..6 cannot occur and is ignored. */
  function Step(w: World, m: RoomModel, a: Action): (w': World)
    ensures OnlyTouches(w, w', Target(a))
    ensures Target(a) in w.rooms && HasWinner(w.rooms[Target(a)]) ==> w' == w
  {
    match a
    case Roll(s, rolled) => if 1 <= rolled <= 6 then RollSpec(w, m, s, rolled) else w
    case Move(s, pawnId) => MoveSpec(w, m, s, pawnId)
    case Quit(id) => QuitSpec(w, m, id)
    case OfferDraw(id, name, pid) => OfferDrawSpec(w, id, name, pid)
    case AcceptDraw(id) => AcceptDrawSpec(w, m, id)
    case DeclineDraw(id) => DeclineDrawSpec(w, id)
    case Pause(id, paused) => PauseSpec(w, id, paused)
    case Surrender(id, pid) => SurrenderSpec(w, m, id, pid)
  }

  function Run(w: World, m: RoomModel, actions: seq<Action>): World
    decreases |actions|
  {
    if actions == [] then w else Run(Step(w, m, actions[0]), m, actions[1..])
  }

  /** In-game events never create or delete rooms, and they only add to the log. */
  lemma {:induction false} RunKeepsRoomsAndLog(w: World, m: RoomModel, actions: seq<Action>)
    ensures Run(w, m, actions).rooms.Keys == w.rooms.Keys
    ensures w.log <= Run(w, m, actions).log
    decreases |actions|
  {
    if actions != [] {
      RunKeepsRoomsAndLog(Step(w, m, actions[0]), m, actions[1..]);
    }
  }

  /** A finished room is absorbing: no sequence of in-game events changes it. */
  lemma {:induction false} FinishedRoomIsFrozen(w: World, m: RoomModel, actions: seq<Action>, id: RoomId)
    requires id in w.rooms && HasWinner(w.rooms[id])
    ensures id in Run(w, m, actions).rooms && Run(w, m, actions).rooms[id] == w.rooms[id]
    decreases |actions|
  {
    if actions != [] {
      FinishedRoomIsFrozen(Step(w, m, actions[0]), m, actions[1..], id);
    }
  }

  /** Events aimed only at a finished room have no effect at all: no save and no message. */
  lemma {:induction false} FinishedRoomIsSilent(w: World, m: RoomModel, actions: seq<Action>, id: RoomId)
    requires id in w.rooms && HasWinner(w.rooms[id])
    requires forall i :: 0 <= i < |actions| ==> Target(actions[i]) == id
    ensures Run(w, m, actions) == w
    decreases |actions|
  {
    if actions != [] {
      FinishedRoomIsSilent(w, m, actions[1..], id);
    }
  }

  /**
   * When `endGame` records its outcome, quitting finishes the room for
   * good: whatever events follow, the room stays as the quit left it.
   */
  lemma QuitIsFinal(w: World, m: RoomModel, id: RoomId, rest: seq<Action>)
    requires EndGameRecordsOutcome(m)
    requires id in w.rooms
    ensures var w1 := Step(w, m, Quit(id));
            id in Run(w, m, [Quit(id)] + rest).rooms
            && Run(w, m, [Quit(id)] + rest).rooms[id] == w1.rooms[id]
            && HasWinner(w1.rooms[id])
  {
    var w1 := Step(w, m, Quit(id));
    assert ([Quit(id)] + rest)[1..] == rest;
    FinishedRoomIsFrozen(w1, m, rest, id);
  }

  /**
   * The second save of a roll writes the room as it was loaded: when the
   * roller cannot move, the stored room does not depend on the die value.
   */
  lemma RollWriteBackIgnoresDie(w: World, m: RoomModel, s: Session, r1: int, r2: int)
    requires 1 <= r1 <= 6 && 1 <= r2 <= 6
    requires s.roomId in w.rooms && !HasWinner(w.rooms[s.roomId]) && !w.rooms[s.roomId].paused
    requires m.getPlayer(w.rooms[s.roomId], s.playerId).Some?
    requires !m.canMove(m.getPlayer(w.rooms[s.roomId], s.playerId).value, w.rooms[s.roomId], r1)
    requires !m.canMove(m.getPlayer(w.rooms[s.roomId], s.playerId).value, w.rooms[s.roomId], r2)
    ensures RollSpec(w, m, s, r1).rooms == RollSpec(w, m, s, r2).rooms
  {
  }
}
