/**
 * The live scoreboard: it keeps the latest score table and the one before
 * it, becomes visible on the first update, and can be minimised. Its
 * state variables are the fields of a class; rendering reads them.
 */
module Scoreboard {
  import opened JsObject
  import opened Scoring
  import opened Standings

  /** The score of the table's entry for `color`, 0 when there is no entry. */
  function ScoreIn(table: Obj<ScoreRow>, color: string): (s: int)
    ensures Get(table, color).None? ==> s == 0
    ensures Get(table, color).Some? ==> s == Get(table, color).value.score
  {
    match Get(table, color)
    case None => 0
    case Some(row) => row.score
  }

  class Scoreboard {
    var scores: Obj<ScoreRow>
    var previousScores: Obj<ScoreRow>
    var isVisible: bool
    var isMinimized: bool

    /** The initial state: empty tables, hidden, not minimised. */
    constructor ()
      ensures scores == [] && previousScores == []
      ensures !isVisible && !isMinimized
    {
      scores := [];
      previousScores := [];
      isVisible := false;
      isMinimized := false;
    }

    /** `handleScoreUpdate(scoresData)` */
    method HandleScoreUpdate(scoresData: Obj<ScoreRow>)
      modifies this
      ensures previousScores == old(scores) && scores == scoresData && isVisible
      ensures isMinimized == old(isMinimized)
      ensures forall c :: GetScoreChange(c) == ScoreIn(scoresData, c) - ScoreIn(old(scores), c)
      ensures ShowsPlaceholder() <==> scoresData == []
    {
      previousScores := scores;
      scores := scoresData;
      isVisible := true;
    }

    /** `toggleScoreboard()`: a second toggle restores the first state. */
    method ToggleScoreboard()
      modifies this
      ensures isMinimized == !old(isMinimized)
      ensures scores == old(scores) && previousScores == old(previousScores) && isVisible == old(isVisible)
    {
      isMinimized := !isMinimized;
    }

    /** `sortedPlayers` */
    function SortedPlayers(): (r: seq<ScoreRow>)
      reads this
      ensures multiset(r) == multiset(Values(scores))
      ensures Ordered(r)
    {
      SortStandings(Values(scores))
    }

    /** `getScoreChange(color)`, a missing entry counting as 0 on either side. */
    function GetScoreChange(color: string): (d: int)
      reads this
      ensures ScoreIn(previousScores, color) + d == ScoreIn(scores, color)
    {
      ScoreIn(scores, color) - ScoreIn(previousScores, color)
    }

    /**
     * The waiting placeholder replaces the table until an update arrives,
     * and whenever the table is empty: otherwise there is a row to show.
     */
    predicate ShowsPlaceholder(): (shown: bool)
      reads this
      ensures shown <==> !isVisible || SortedPlayers() == []
    {
      !isVisible || |Keys(scores)| == 0
    }

    /**
     * The row at `index` of the sorted list is marked as leading when it is
     * the first one; a leading row is outranked by no row on the board.
     */
    predicate IsLeading(index: nat): (leading: bool)
      reads this
      ensures leading && index < |SortedPlayers()| ==>
                forall j :: 0 <= j < |SortedPlayers()| ==>
                  !Outranks(SortedPlayers()[j], SortedPlayers()[index])
                  && SortedPlayers()[j].score <= SortedPlayers()[index].score
    {
      index == 0
    }
  }

  /**
   * The leading row has the highest score on the board, and when the
   * table is not empty exactly one row leads.
   */
  lemma LeaderHasHighestScore(board: Scoreboard)
    requires board.scores != []
    ensures |board.SortedPlayers()| == |board.scores|
    ensures forall i :: 0 <= i < |board.SortedPlayers()| ==>
              (board.IsLeading(i) <==> i == 0)
              && board.SortedPlayers()[i].score <= board.SortedPlayers()[0].score
  {
    var rows := Values(board.scores);
    LeaderIsTop(rows);
    var sorted := board.SortedPlayers();
    forall i | 0 <= i < |sorted| ensures sorted[i].score <= sorted[0].score {
      assert sorted[i] in multiset(rows);
    }
  }
}
