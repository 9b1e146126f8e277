/**
 * The end-of-game overlay: final standings, the winner's statistics and
 * rank, the badge and colour class of each standing, and the headline
 * chosen by how the game ended. `finalScores` is the score table the
 * server sends, keyed by colour.
 */
module WinnerOverlay {
  import opened JsObject
  import opened Text
  import opened Scoring
  import opened Standings

  /** `sortedPlayers` */
  function SortedPlayers(finalScores: Obj<ScoreRow>): (r: seq<ScoreRow>)
    ensures multiset(r) == multiset(Values(finalScores))
    ensures Ordered(r)
  {
    SortStandings(Values(finalScores))
  }

  /** The position of the first row whose colour is strictly equal to `color`, or -1 when there is none. */
  function FindIndex(rows: seq<ScoreRow>, color: string): (i: int)
    ensures -1 <= i < |rows|
    ensures i == -1 <==> forall j :: 0 <= j < |rows| ==> rows[j].color != color
    ensures i >= 0 ==> rows[i].color == color && forall j :: 0 <= j < i ==> rows[j].color != color
  {
    if rows == [] then -1
    else if rows[0].color == color then 0
    else
      var i := FindIndex(rows[1..], color);
      if i == -1 then -1 else i + 1
  }

  datatype WinnerStats = WinnerStats(score: int, captures: int, rank: int, totalPlayers: nat)

  /**
   * `winnerStats`: nothing without a (truthy) winner or without a table
   * entry for it; otherwise the entry's score and captures, the 1-based
   * position of the first standing of that colour (0 if none), and the
   * number of standings.
   */
  function GetWinnerStats(winner: Option<string>, finalScores: Obj<ScoreRow>): (st: Option<WinnerStats>)
    ensures st.Some? <==> winner.Some? && winner.value != "" && Get(finalScores, winner.value).Some?
    ensures st.Some? ==>
              var row := Get(finalScores, winner.value).value;
              var sorted := SortedPlayers(finalScores);
              && st.value.score == row.score && st.value.captures == row.captures
              && st.value.totalPlayers == |finalScores|
              && 0 <= st.value.rank <= |finalScores|
              && (st.value.rank == 0 <==> forall j :: 0 <= j < |sorted| ==> sorted[j].color != winner.value)
              && (st.value.rank > 0 ==> sorted[st.value.rank - 1].color == winner.value)
              && (st.value.rank > 0 ==> forall j :: 0 <= j < st.value.rank - 1 ==> sorted[j].color != winner.value)
  {
    if winner.None? || winner.value == "" then None
    else match Get(finalScores, winner.value)
      case None => None
      case Some(stats) =>
        var sorted := SortedPlayers(finalScores);
        Some(WinnerStats(stats.score, stats.captures, FindIndex(sorted, winner.value) + 1, |sorted|))
  }

  /** Every entry's row carries its own key as its colour, as the server builds the table. */
  ghost predicate KeyedByColor(t: Obj<ScoreRow>) {
    forall i :: 0 <= i < |t| ==> t[i].value.color == t[i].key
  }

  /** Sorting loses no row, so a colour present in the table is found among the standings. */
  lemma {:induction false} ColorIsFound(finalScores: Obj<ScoreRow>, i: nat)
    requires i < |finalScores|
    ensures FindIndex(SortedPlayers(finalScores), finalScores[i].value.color) >= 0
  {
    var row := Values(finalScores)[i];
    var sorted := SortedPlayers(finalScores);
    assert row in multiset(sorted) by {
      assert row in multiset(Values(finalScores));
    }
    var j :| 0 <= j < |sorted| && sorted[j] == row;
  }

  /** With a well-formed table keyed by colour, a winner that has an entry always has a rank of 1 or more. */
  lemma WinnerIsRanked(winner: string, finalScores: Obj<ScoreRow>)
    requires WellFormed(finalScores) && KeyedByColor(finalScores)
    requires winner != "" && Get(finalScores, winner).Some?
    ensures GetWinnerStats(Some(winner), finalScores).value.rank >= 1
  {
    var i := KeyedEntry(finalScores, winner);
    ColorIsFound(finalScores, i);
    var sorted := SortedPlayers(finalScores);
    var j := FindIndex(sorted, winner);
    assert sorted[j].color == winner;
  }

  /** The entry holding key `k` of a well-formed table keyed by colour carries colour `k`. */
  lemma KeyedEntry(t: Obj<ScoreRow>, k: string) returns (i: nat)
    requires WellFormed(t) && KeyedByColor(t) && Get(t, k).Some?
    ensures i < |t| && t[i].key == k && t[i].value.color == k
  {
    assert k in Keys(t);
    i :| 0 <= i < |t| && Keys(t)[i] == k;
  }

  /** The table `formatScoresForClient` builds is keyed by colour. */
  lemma FormattedTableIsKeyedByColor(room: Entities.Room, table: Obj<ScoreRow>)
    requires WellFormed(table)
    requires forall k :: k in Keys(table) ==> Get(table, k) == Some(RowFor(room, room.players, k))
    ensures KeyedByColor(table)
  {
    forall i | 0 <= i < |table| ensures table[i].value.color == table[i].key {
      assert table[i].key in Keys(table);
    }
  }

  /** `getPlayerColorClass(color)` */
  function GetPlayerColorClass(color: string): (cls: string)
    ensures ToLower(color) == "red" <==> cls == "bg-game-red"
    ensures ToLower(color) == "blue" <==> cls == "bg-game-blue"
    ensures ToLower(color) == "green" <==> cls == "bg-game-green"
    ensures ToLower(color) == "yellow" <==> cls == "bg-game-yellow"
    ensures ToLower(color) !in {"red", "blue", "green", "yellow"} <==> cls == "bg-game-gray"
  {
    var key := ToLower(color);
    if key == "red" then "bg-game-red"
    else if key == "blue" then "bg-game-blue"
    else if key == "green" then "bg-game-green"
    else if key == "yellow" then "bg-game-yellow"
    else "bg-game-gray"
  }

  /** The lookup ignores letter case. */
  lemma ColorClassIgnoresCase(color: string)
    ensures GetPlayerColorClass(ToLower(color)) == GetPlayerColorClass(color)
  {
    ToLowerIdempotent(color);
  }

  datatype Badge = Badge(emoji: string, cls: string)

  const Gold := Badge("\U{1F947}", "bg-yellow-400 text-yellow-900")
  const Silver := Badge("\U{1F948}", "bg-gray-300 text-gray-800")
  const Bronze := Badge("\U{1F949}", "bg-orange-400 text-orange-900")

  /** `getRankBadge(index)` for a standing's 0-based position. */
  function GetRankBadge(index: nat): (b: Badge)
    ensures index == 0 <==> b == Gold
    ensures index == 1 <==> b == Silver
    ensures index == 2 <==> b == Bronze
    ensures index >= 3 ==> AllDigits(b.emoji) && ParseNat(b.emoji) == index + 1
    ensures index >= 3 ==> b.emoji != [] && b.emoji[0] != '0'
    ensures index >= 3 ==> b.cls == "bg-gray-200 text-gray-700"
  {
    if index == 0 then Gold
    else if index == 1 then Silver
    else if index == 2 then Bronze
    else
      ParseNatToString(index + 1);
      Badge(NatToString(index + 1), "bg-gray-200 text-gray-700")
  }

  /** Different positions get different badges. */
  lemma RankBadgesDistinct(i: nat, j: nat)
    requires i != j
    ensures GetRankBadge(i) != GetRankBadge(j)
  {
  }

  /** The headline for the outcome in `winner`. */
  function Headline(winner: string): (h: string)
    ensures winner == "draw" <==> h == "Game Draw!"
    ensures winner == "quit" || winner == "surrender" <==> h == "Game Ended"
    ensures winner !in {"draw", "quit", "surrender"} <==> h == "Game Over!"
  {
    if winner == "draw" then "Game Draw!"
    else if winner == "quit" then "Game Ended"
    else if winner == "surrender" then "Game Ended"
    else "Game Over!"
  }

  /** The "Wins!" line, present exactly when a colour won. */
  function WinsLine(winner: string, finalScores: Obj<ScoreRow>): (line: Option<string>)
    ensures line.Some? <==> Headline(winner) == "Game Over!"
    ensures line.Some? && Get(finalScores, winner).Some? && Get(finalScores, winner).value.playerName != "" ==>
              line.value == Get(finalScores, winner).value.playerName + " Wins!"
    ensures line.Some? && (Get(finalScores, winner).None? || Get(finalScores, winner).value.playerName == "") ==>
              line.value == Capitalize(winner) + " Wins!"
  {
    if winner in {"draw", "quit", "surrender"} then None
    else
      var name := match Get(finalScores, winner)
        case Some(row) => if row.playerName != "" then row.playerName else Capitalize(winner)
        case None => Capitalize(winner);
      Some(name + " Wins!")
  }
}
