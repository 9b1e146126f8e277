/**
 * The persisted entities of a Ludo room, as the server loads and saves
 * them. Colours are the strings "red", "blue", "green", "yellow"; nothing
 * in the core rules out other strings, so the type does not either.
 */
module Entities {
  import opened JsObject

  type Color = string
  type RoomId = string
  type PlayerId = string
  type PawnId = string
  type SocketId = string

  /**
   * A pawn: its colour, its track coordinate, the coordinate that stands
   * for "at base", and its accumulated score.
   */
  datatype Pawn = Pawn(color: Color, position: int, basePos: int, score: int)

  datatype Player = Player(id: PlayerId, name: string, color: Color)

  /**
   * A room document. `winner` is unset (None) or a colour, "draw" or
   * "quit"; once set the game is over.
   */
  datatype Room = Room(
    players: seq<Player>,
    pawns: seq<Pawn>,
    started: bool,
    paused: bool,
    winner: Option<string>,
    rolledNumber: int,
    nextMoveTime: int)

  /** What a connection's session says about its owner. */
  datatype Session = Session(roomId: RoomId, playerId: PlayerId)

  /** The colours of the players, in slot order. */
  function Colors(players: seq<Player>): (cs: seq<Color>)
    ensures |cs| == |players|
    ensures forall i :: 0 <= i < |players| ==> cs[i] == players[i].color
  {
    if players == [] then [] else Colors(players[..|players| - 1]) + [players[|players| - 1].color]
  }
}
