/**
 * Whether a pawn may move for a die value (the client's `canPawnMove`).
 */
module MoveLegality {
  import opened JsObject
  import opened Entities

  /**
   * What the JavaScript function returns. A roll that overshoots the home
   * column hits `break` in the colour switch and falls off the end of the
   * function, so the caller receives `undefined`, which is falsy.
   */
  datatype JsResult = True | False | Undefined {
    predicate Truthy() {
      this == True
    }
  }

  /** The highest track coordinate a pawn of each colour may reach. */
  function Ceiling(color: Color): (r: Option<int>)
    ensures r.Some? <==> color in {"red", "blue", "green", "yellow"}
  {
    if color == "red" then Some(73)
    else if color == "blue" then Some(79)
    else if color == "green" then Some(85)
    else if color == "yellow" then Some(91)
    else None
  }

  predicate AtBase(pawn: Pawn) {
    pawn.position == pawn.basePos
  }

  /**
   * A pawn at base leaves only on a 1 or a 6, whatever its colour; a pawn
   * on the track moves only if it stays within its colour's ceiling; a
   * pawn of an unknown colour on the track never moves.
   */
  function CanPawnMove(pawn: Pawn, rolledNumber: int): (r: JsResult)
    ensures AtBase(pawn) ==> (r == True <==> rolledNumber == 1 || rolledNumber == 6)
    ensures AtBase(pawn) ==> r != Undefined
    ensures !AtBase(pawn) ==>
              (r.Truthy() <==> Ceiling(pawn.color).Some? && pawn.position + rolledNumber <= Ceiling(pawn.color).value)
    ensures !AtBase(pawn) && Ceiling(pawn.color).None? ==> r == False
    ensures !AtBase(pawn) && Ceiling(pawn.color).Some? && !r.Truthy() ==> r == Undefined
  {
    if (rolledNumber == 1 || rolledNumber == 6) && pawn.position == pawn.basePos then True
    else if pawn.position != pawn.basePos then
      if pawn.color == "red" then (if pawn.position + rolledNumber <= 73 then True else Undefined)
      else if pawn.color == "blue" then (if pawn.position + rolledNumber <= 79 then True else Undefined)
      else if pawn.color == "green" then (if pawn.position + rolledNumber <= 85 then True else Undefined)
      else if pawn.color == "yellow" then (if pawn.position + rolledNumber <= 91 then True else Undefined)
      else False
    else False
  }

  /** On the track, a legal roll stays legal when made smaller. */
  lemma SmallerRollStaysLegal(pawn: Pawn, roll: int, smaller: int)
    requires !AtBase(pawn) && smaller <= roll
    requires CanPawnMove(pawn, roll).Truthy()
    ensures CanPawnMove(pawn, smaller).Truthy()
  {
  }

  /** At base, the colour does not matter. */
  lemma BaseRuleIgnoresColor(p: Pawn, q: Pawn, roll: int)
    requires AtBase(p) && AtBase(q)
    ensures CanPawnMove(p, roll) == CanPawnMove(q, roll)
  {
  }
}
