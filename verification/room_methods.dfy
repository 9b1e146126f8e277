/**
 * The methods of the room and player documents that the handlers call but
 * whose definitions are not part of this model (`getPawn`, `movePawn`,
 * `changeMovingPlayer`, `getWinner`, `endGame`, `getPlayer`, `canMove`,
 * `getWinnerByScore`, `getFormattedScores`, `getRemainingGameTime`, and
 * the helper `isMoveValid`). They are parameters: every result below
 * holds for every choice of them, unless a lemma names an assumption.
 */
module RoomMethods {
  import opened JsObject
  import opened Entities
  import opened Scoring

  datatype RoomModel = RoomModel(
    getPawn: (Room, PawnId) -> Option<Pawn>,
    isMoveValid: (Session, Option<Pawn>, Room) -> bool,
    movePawn: (Room, Option<Pawn>) -> Room,
    changeMovingPlayer: Room -> Room,
    getWinner: Room -> Option<string>,
    endGame: (Room, string) -> Room,
    getPlayer: (Room, PlayerId) -> Option<Player>,
    canMove: (Player, Room, int) -> bool,
    getWinnerByScore: Room -> string,
    getFormattedScores: Room -> Obj<ScoreRow>,
    getRemainingGameTime: (Room, int) -> int)

  /** JavaScript truthiness of an optional string: set and not empty. */
  predicate Truthy(s: Option<string>) {
    s.Some? && s.value != ""
  }

  /** `room.winner` is truthy: the game is over. */
  predicate HasWinner(room: Room) {
    Truthy(room.winner)
  }

  /**
   * The one thing the call sites show about `endGame(outcome)`: it records
   * the outcome as the room's winner. Only lemmas that say so rely on it.
   */
  ghost predicate EndGameRecordsOutcome(m: RoomModel) {
    forall room, outcome :: m.endGame(room, outcome).winner == Some(outcome)
  }
}
