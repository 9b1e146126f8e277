/**
 * Per-colour scores, the derived capture count, score transfer on capture
 * and the choice of a winner by score (the server's scoring service).
 */
module Scoring {
  import opened JsObject
  import opened Entities

  /** One row of the score table sent to clients. */
  datatype ScoreRow = ScoreRow(playerName: string, color: Color, score: int, captures: int)

  // ---------------------------------------------------------------------
  // Per-colour totals

  /** The pawns of colour `c`, in their original order. */
  function PawnsOf(pawns: seq<Pawn>, c: Color): seq<Pawn> {
    if pawns == [] then []
    else (if pawns[0].color == c then [pawns[0]] else []) + PawnsOf(pawns[1..], c)
  }

  /** The sum of the scores, starting from 0. */
  function SumScores(ps: seq<Pawn>): int {
    if ps == [] then 0 else ps[0].score + SumScores(ps[1..])
  }

  /** What one pawn adds to colour `c`'s total. */
  function Share(p: Pawn, c: Color): int {
    if p.color == c then p.score else 0
  }

  /**
   * `calculatePlayerScore(pawns, c)`: the sum of the scores of the pawns of
   * colour `c`, which is the independent pawn-by-pawn sum of shares.
   */
  function CalculatePlayerScore(pawns: seq<Pawn>, c: Color): (s: int)
    ensures s == SumOfShares(pawns, c)
  {
    FilteredSumIsSumOfShares(pawns, c);
    SumScores(PawnsOf(pawns, c))
  }

  lemma {:induction false} SumScoresAppend(a: seq<Pawn>, b: seq<Pawn>)
    ensures SumScores(a + b) == SumScores(a) + SumScores(b)
  {
    if a == [] {
      assert a + b == b;
    } else {
      assert (a + b)[0] == a[0];
      assert (a + b)[1..] == a[1..] + b;
      SumScoresAppend(a[1..], b);
    }
  }

  lemma {:induction false} PawnsOfAppend(a: seq<Pawn>, b: seq<Pawn>, c: Color)
    ensures PawnsOf(a + b, c) == PawnsOf(a, c) + PawnsOf(b, c)
  {
    if a == [] {
      assert a + b == b;
    } else {
      var head := if a[0].color == c then [a[0]] else [];
      assert (a + b)[0] == a[0];
      assert (a + b)[1..] == a[1..] + b;
      PawnsOfAppend(a[1..], b, c);
      assert PawnsOf(a + b, c) == head + (PawnsOf(a[1..], c) + PawnsOf(b, c));
      assert PawnsOf(a, c) == head + PawnsOf(a[1..], c);
      assert head + (PawnsOf(a[1..], c) + PawnsOf(b, c)) == (head + PawnsOf(a[1..], c)) + PawnsOf(b, c);
    }
  }

  /** A colour's total is additive over any split of the pawn list. */
  lemma PlayerScoreAppend(a: seq<Pawn>, b: seq<Pawn>, c: Color)
    ensures CalculatePlayerScore(a + b, c) == CalculatePlayerScore(a, c) + CalculatePlayerScore(b, c)
  {
    PawnsOfAppend(a, b, c);
    SumScoresAppend(PawnsOf(a, c), PawnsOf(b, c));
  }

  /** The total of a single pawn is its share. */
  lemma PlayerScoreSingle(p: Pawn, c: Color)
    ensures CalculatePlayerScore([p], c) == Share(p, c)
  {
    assert [p][1..] == [];
    assert PawnsOf([], c) == [];
    assert PawnsOf([p], c) == if p.color == c then [p] else [];
    assert SumScores([p]) == p.score + SumScores([]);
  }

  /** Peeling off the first pawn. */
  lemma PlayerScoreCons(pawns: seq<Pawn>, c: Color)
    requires pawns != []
    ensures CalculatePlayerScore(pawns, c) == Share(pawns[0], c) + CalculatePlayerScore(pawns[1..], c)
  {
    assert pawns == [pawns[0]] + pawns[1..];
    PlayerScoreAppend([pawns[0]], pawns[1..], c);
    PlayerScoreSingle(pawns[0], c);
  }

  /** The same total without the filter: every pawn contributes its share. */
  function SumOfShares(pawns: seq<Pawn>, c: Color): int {
    if pawns == [] then 0 else Share(pawns[0], c) + SumOfShares(pawns[1..], c)
  }

  /** Filtering by colour and then summing is summing the shares. */
  lemma {:induction false} FilteredSumIsSumOfShares(pawns: seq<Pawn>, c: Color)
    ensures SumScores(PawnsOf(pawns, c)) == SumOfShares(pawns, c)
  {
    if pawns != [] {
      var head := if pawns[0].color == c then [pawns[0]] else [];
      assert PawnsOf(pawns, c) == head + PawnsOf(pawns[1..], c);
      SumScoresAppend(head, PawnsOf(pawns[1..], c));
      assert SumScores(head) == Share(pawns[0], c) by {
        if head != [] {
          assert head[1..] == [];
        }
      }
      FilteredSumIsSumOfShares(pawns[1..], c);
    }
  }

  /**
   * The total of colour `c` is the sum of the shares, pawn by pawn: zero
   * when no pawn has colour `c`, and non-negative when no score is
   * negative.
   */
  lemma {:induction false} PlayerScoreBounds(pawns: seq<Pawn>, c: Color)
    ensures (forall i :: 0 <= i < |pawns| ==> pawns[i].color != c) ==> CalculatePlayerScore(pawns, c) == 0
    ensures (forall i :: 0 <= i < |pawns| ==> pawns[i].score >= 0) ==> CalculatePlayerScore(pawns, c) >= 0
  {
    if pawns != [] {
      PlayerScoreCons(pawns, c);
      PlayerScoreBounds(pawns[1..], c);
    }
  }

  /** Replacing one pawn changes colour `c`'s total by the difference of the shares. */
  lemma PlayerScoreUpdate(pawns: seq<Pawn>, i: nat, p: Pawn, c: Color)
    requires i < |pawns|
    ensures CalculatePlayerScore(pawns[i := p], c)
         == CalculatePlayerScore(pawns, c) - Share(pawns[i], c) + Share(p, c)
  {
    var front, back := pawns[..i], pawns[i + 1..];
    assert pawns == front + [pawns[i]] + back;
    assert pawns[i := p] == front + [p] + back;
    PlayerScoreAppend(front + [pawns[i]], back, c);
    PlayerScoreAppend(front, [pawns[i]], c);
    PlayerScoreAppend(front + [p], back, c);
    PlayerScoreAppend(front, [p], c);
    PlayerScoreSingle(pawns[i], c);
    PlayerScoreSingle(p, c);
  }

  /** `getPlayerCaptureCount`: the colour's total divided by 10, rounded down (Dafny's `/` floors for a positive divisor). */
  function CaptureCount(pawns: seq<Pawn>, c: Color): (r: int)
    ensures 10 * r <= CalculatePlayerScore(pawns, c) < 10 * r + 10
  {
    CalculatePlayerScore(pawns, c) / 10
  }

  /** The derived capture count only depends on the total, and grows with it. */
  lemma CaptureCountMonotone(pawns: seq<Pawn>, c: Color, pawns': seq<Pawn>, c': Color)
    requires CalculatePlayerScore(pawns, c) <= CalculatePlayerScore(pawns', c')
    ensures CaptureCount(pawns, c) <= CaptureCount(pawns', c')
  {
  }

  // ---------------------------------------------------------------------
  // Score changes on single pawns

  /** The effect of `pawn.resetScore()`, whose body is not part of this model: it is taken to zero the score. */
  function ResetScore(p: Pawn): (r: Pawn)
    ensures r.score == 0 && r.(score := p.score) == p
  {
    p.(score := 0)
  }

  /**
   * The pawns after `handleCaptureScoring(pawns[striker], pawns[victim])`:
   * the striker first absorbs the victim's score, then the victim is reset.
   * When both name the same pawn, that pawn ends at zero.
   */
  function AfterCapture(pawns: seq<Pawn>, striker: nat, victim: nat): (r: seq<Pawn>)
    requires striker < |pawns| && victim < |pawns|
  {
    var absorbed := pawns[striker := pawns[striker].(score := pawns[striker].score + pawns[victim].score)];
    absorbed[victim := ResetScore(absorbed[victim])]
  }

  /** Score over all pawns, whatever their colour. */
  function TotalScore(pawns: seq<Pawn>): int {
    SumScores(pawns)
  }

  lemma TotalScoreUpdate(pawns: seq<Pawn>, i: nat, p: Pawn)
    requires i < |pawns|
    ensures TotalScore(pawns[i := p]) == TotalScore(pawns) - pawns[i].score + p.score
  {
    var front, back := pawns[..i], pawns[i + 1..];
    assert pawns == front + [pawns[i]] + back;
    assert pawns[i := p] == front + [p] + back;
    SumScoresAppend(front + [pawns[i]], back);
    SumScoresAppend(front, [pawns[i]]);
    SumScoresAppend(front + [p], back);
    SumScoresAppend(front, [p]);
    assert [p][1..] == [] && [pawns[i]][1..] == [];
  }

  /**
   * A capture moves the victim's score to the striker: the striker gains
   * exactly it, the victim ends at zero, nothing else changes and the
   * total over all pawns is conserved.
   */
  lemma CaptureConservesTotal(pawns: seq<Pawn>, striker: nat, victim: nat)
    requires striker < |pawns| && victim < |pawns| && striker != victim
    ensures |AfterCapture(pawns, striker, victim)| == |pawns|
    ensures AfterCapture(pawns, striker, victim)[striker].score == pawns[striker].score + pawns[victim].score
    ensures AfterCapture(pawns, striker, victim)[victim].score == 0
    ensures TotalScore(AfterCapture(pawns, striker, victim)) == TotalScore(pawns)
  {
    var absorbed := pawns[striker := pawns[striker].(score := pawns[striker].score + pawns[victim].score)];
    TotalScoreUpdate(pawns, striker, absorbed[striker]);
    TotalScoreUpdate(absorbed, victim, ResetScore(absorbed[victim]));
  }

  /**
   * Per colour, a capture adds the victim's prior score to the striker's
   * colour and takes it from the victim's colour.
   */
  lemma CaptureMovesScoreBetweenColors(pawns: seq<Pawn>, striker: nat, victim: nat, c: Color)
    requires striker < |pawns| && victim < |pawns| && striker != victim
    ensures CalculatePlayerScore(AfterCapture(pawns, striker, victim), c)
         == CalculatePlayerScore(pawns, c)
            + (if pawns[striker].color == c then pawns[victim].score else 0)
            - (if pawns[victim].color == c then pawns[victim].score else 0)
  {
    var absorbed := pawns[striker := pawns[striker].(score := pawns[striker].score + pawns[victim].score)];
    PlayerScoreUpdate(pawns, striker, absorbed[striker], c);
    PlayerScoreUpdate(absorbed, victim, ResetScore(absorbed[victim]), c);
  }

  /** `handleCaptureScoring(strikerPawn, victimPawn)`, on the room's pawn array. */
  method HandleCaptureScoring(pawns: array<Pawn>, striker: nat, victim: nat)
    requires striker < pawns.Length && victim < pawns.Length
    modifies pawns
    ensures pawns[..] == AfterCapture(old(pawns[..]), striker, victim)
    ensures striker != victim ==> TotalScore(pawns[..]) == old(TotalScore(pawns[..]))
  {
    ghost var before := pawns[..];
    pawns[striker] := pawns[striker].(score := pawns[striker].score + pawns[victim].score);
    pawns[victim] := ResetScore(pawns[victim]);
    if striker != victim {
      CaptureConservesTotal(before, striker, victim);
    }
  }

  /**
   * `pawn.updateScore(steps)` adds the steps moved to the pawn's score and
   * changes nothing else. Its body is not part of this model; only results
   * that say so rely on it.
   */
  ghost predicate AddsSteps(updateScore: (Pawn, int) -> Pawn) {
    forall p, steps :: updateScore(p, steps) == p.(score := p.score + steps)
  }

  /**
   * `updatePawnScoreAfterMove(pawn, steps)` on the room's pawn array, with
   * the pawn method `updateScore` as a parameter.
   */
  method UpdatePawnScoreAfterMove(pawns: array<Pawn>, i: nat, steps: int, updateScore: (Pawn, int) -> Pawn)
    requires i < pawns.Length
    modifies pawns
    ensures pawns[..] == old(pawns[..])[i := updateScore(old(pawns[i]), steps)]
    ensures AddsSteps(updateScore) ==>
              forall c :: CalculatePlayerScore(pawns[..], c)
                       == old(CalculatePlayerScore(pawns[..], c)) + (if pawns[i].color == c then steps else 0)
  {
    ghost var before := pawns[..];
    pawns[i] := updateScore(pawns[i], steps);
    if AddsSteps(updateScore) {
      assert pawns[i] == before[i].(score := before[i].score + steps);
      forall c ensures CalculatePlayerScore(pawns[..], c)
                    == CalculatePlayerScore(before, c) + (if pawns[i].color == c then steps else 0) {
        assert pawns[..] == before[i := pawns[i]];
        PlayerScoreUpdate(before, i, pawns[i], c);
      }
    }
  }

  // ---------------------------------------------------------------------
  // Score tables

  /** The colour of every player is a key whose value is that colour's total. */
  ghost predicate IsScoreTable(room: Room, scores: Obj<int>) {
    FilledFrom(scores, Colors(room.players), Totals(room.pawns))
  }

  /** Each colour's total over `pawns`, as a function of the colour. */
  function Totals(pawns: seq<Pawn>): Color -> int {
    c => CalculatePlayerScore(pawns, c)
  }

  /** An object whose lookups all give the key's total holds the key's total in every entry. */
  lemma LookupsToEntries<V>(o: Obj<V>, value: string -> V)
    requires WellFormed(o)
    requires forall k :: k in Keys(o) ==> Get(o, k) == Some(value(k))
    ensures forall idx :: 0 <= idx < |o| ==> o[idx].value == value(o[idx].key)
  {
    forall idx | 0 <= idx < |o| ensures o[idx].value == value(o[idx].key) {
      assert o[idx].key == Keys(o)[idx];
    }
  }

  lemma ColorsPrefix(players: seq<Player>, i: nat)
    requires i < |players|
    ensures Colors(players[..i + 1]) == Colors(players[..i]) + [players[i].color]
  {
    assert players[..i + 1][..i] == players[..i];
  }

  lemma DedupSnoc(s: seq<string>, x: string)
    ensures Dedup(s + [x]) == if x in Dedup(s) then Dedup(s) else Dedup(s) + [x]
  {
    assert (s + [x])[..|s|] == s;
  }

  /** The table after the colours of the first `i` players have been written into it. */
  ghost predicate TotalsUpTo(room: Room, scores: Obj<int>, i: nat)
    requires i <= |room.players|
  {
    && WellFormed(scores)
    && Keys(scores) == Dedup(Colors(room.players[..i]))
    && forall k :: k in Keys(scores) ==> Get(scores, k) == Some(CalculatePlayerScore(room.pawns, k))
  }

  /** Writing the total of player `i`'s colour extends the table by that player. */
  lemma TotalsStep(room: Room, scores: Obj<int>, i: nat)
    requires i < |room.players| && TotalsUpTo(room, scores, i)
    ensures var c := room.players[i].color;
            TotalsUpTo(room, Put(scores, c, CalculatePlayerScore(room.pawns, c)), i + 1)
  {
    var c := room.players[i].color;
    ColorsPrefix(room.players, i);
    DedupSnoc(Colors(room.players[..i]), c);
    PutKeepsLookups(scores, c, CalculatePlayerScore(room.pawns, c), Totals(room.pawns), Totals(room.pawns));
  }

  /** `getAllPlayerScores(room)`: one key per player colour, in player order. */
  method GetAllPlayerScores(room: Room) returns (scores: Obj<int>)
    ensures IsScoreTable(room, scores)
    ensures WellFormed(scores)
    ensures Keys(scores) == Dedup(Colors(room.players))
    ensures forall k :: k in Keys(scores) ==> Get(scores, k) == Some(CalculatePlayerScore(room.pawns, k))
  {
    scores := [];
    var i := 0;
    while i < |room.players|
      invariant 0 <= i <= |room.players|
      invariant TotalsUpTo(room, scores, i)
    {
      var color := room.players[i].color;
      TotalsStep(room, scores, i);
      scores := Put(scores, color, CalculatePlayerScore(room.pawns, color));
      i := i + 1;
    }
    assert room.players[..i] == room.players;
    LookupsToEntries(scores, Totals(room.pawns));
  }

  /** `Math.max(...values)`, with None for the `-Infinity` of an empty list. */
  function MaxOf(vs: seq<int>): (m: Option<int>)
    ensures m.None? <==> vs == []
    ensures m.Some? ==> m.value in vs && forall v :: v in vs ==> v <= m.value
  {
    if vs == [] then None
    else
      assert forall v :: v in vs ==> v == vs[0] || v in vs[1..];
      match MaxOf(vs[1..])
      case None => Some(vs[0])
      case Some(rest) => Some(if vs[0] >= rest then vs[0] else rest)
  }

  /** The keys of `scores` whose value is strictly equal to `maxScore`, in key order. */
  function TopKeys(scores: Obj<int>, maxScore: Option<int>): (top: seq<string>)
    ensures |top| <= |scores|
  {
    if scores == [] then []
    else (if Some(scores[0].value) == maxScore then [scores[0].key] else []) + TopKeys(scores[1..], maxScore)
  }

  /** A key is kept by the filter iff one of its entries holds `maxScore`. */
  lemma {:induction false} TopKeysMembers(scores: Obj<int>, maxScore: Option<int>, x: string)
    ensures x in TopKeys(scores, maxScore)
        <==> exists idx :: 0 <= idx < |scores| && scores[idx].key == x && Some(scores[idx].value) == maxScore
  {
    if scores != [] {
      var rest := scores[1..];
      var head := if Some(scores[0].value) == maxScore then [scores[0].key] else [];
      assert TopKeys(scores, maxScore) == head + TopKeys(rest, maxScore);
      TopKeysMembers(rest, maxScore, x);
      if x in TopKeys(scores, maxScore) && x !in head {
        var idx :| 0 <= idx < |rest| && rest[idx].key == x && Some(rest[idx].value) == maxScore;
        assert scores[idx + 1] == rest[idx];
      }
      if exists idx :: 0 <= idx < |scores| && scores[idx].key == x && Some(scores[idx].value) == maxScore {
        var idx :| 0 <= idx < |scores| && scores[idx].key == x && Some(scores[idx].value) == maxScore;
        if idx > 0 {
          assert rest[idx - 1] == scores[idx];
        }
      }
    }
  }

  /** The first key holding `maxScore` heads the filtered keys. */
  lemma {:induction false} TopKeysFirst(scores: Obj<int>, maxScore: Option<int>, idx: nat)
    requires idx < |scores| && Some(scores[idx].value) == maxScore
    requires forall t :: 0 <= t < idx ==> Some(scores[t].value) != maxScore
    ensures |TopKeys(scores, maxScore)| > 0 && TopKeys(scores, maxScore)[0] == scores[idx].key
  {
    if idx > 0 {
      assert Some(scores[0].value) != maxScore;
      assert forall t :: 0 <= t < idx - 1 ==> scores[1..][t] == scores[t + 1];
      TopKeysFirst(scores[1..], maxScore, idx - 1);
    }
  }

  /** Every key the filter keeps holds the maximum, so its total is the maximum. */
  lemma {:induction false} TopKeysHoldMax(scores: Obj<int>, m: int, total: Color -> int)
    requires forall idx :: 0 <= idx < |scores| ==> scores[idx].value == total(scores[idx].key)
    ensures forall t :: 0 <= t < |TopKeys(scores, Some(m))| ==> total(TopKeys(scores, Some(m))[t]) == m
  {
    if scores != [] {
      assert forall idx :: 0 <= idx < |scores[1..]| ==> scores[1..][idx] == scores[idx + 1];
      TopKeysHoldMax(scores[1..], m, total);
    }
  }

  /** Colour `c` scores at least as much as every player's colour. */
  ghost predicate IsTopColor(room: Room, c: Color) {
    forall j :: 0 <= j < |room.players| ==>
      CalculatePlayerScore(room.pawns, room.players[j].color) <= CalculatePlayerScore(room.pawns, c)
  }

  /**
   * The key order and the values of a table filled from the colours `cs`
   * with `table[c] = total(c)`.
   */
  ghost predicate FilledFrom(scores: Obj<int>, cs: seq<Color>, total: Color -> int) {
    && Keys(scores) == Dedup(cs)
    && forall idx :: 0 <= idx < |scores| ==> scores[idx].value == total(scores[idx].key)
  }

  /** The largest value of such a table is the largest total over `cs`, and some colour of `cs` attains it. */
  lemma FilledMax(scores: Obj<int>, cs: seq<Color>, total: Color -> int)
    requires |cs| > 0 && FilledFrom(scores, cs, total)
    ensures MaxOf(Values(scores)).Some?
    ensures forall j :: 0 <= j < |cs| ==> total(cs[j]) <= MaxOf(Values(scores)).value
    ensures exists j :: 0 <= j < |cs| && total(cs[j]) == MaxOf(Values(scores)).value
  {
    var vals := Values(scores);
    assert cs[0] in Dedup(cs);
    var maxScore := MaxOf(vals).value;
    forall j | 0 <= j < |cs| ensures total(cs[j]) <= maxScore {
      assert cs[j] in Keys(scores);
      var idx :| 0 <= idx < |scores| && Keys(scores)[idx] == cs[j];
      assert vals[idx] in vals;
    }
    var idx :| 0 <= idx < |vals| && vals[idx] == maxScore;
    assert scores[idx].key == Keys(scores)[idx];
    assert scores[idx].key in cs;
  }

  /**
   * The keys of such a table that hold its maximum all carry the same
   * total, and the first of them is the first colour of `cs` with the
   * maximal total.
   */
  lemma FilledFirstTop(scores: Obj<int>, cs: seq<Color>, total: Color -> int) returns (j0: nat)
    requires |cs| > 0 && FilledFrom(scores, cs, total)
    ensures var top := TopKeys(scores, MaxOf(Values(scores)));
      && |top| > 0 && j0 < |cs| && top[0] == cs[j0]
      && (forall t :: 0 <= t < |top| ==> total(top[t]) == total(cs[j0]))
      && (forall j :: 0 <= j < |cs| ==> total(cs[j]) <= total(cs[j0]))
      && (forall j :: 0 <= j < j0 ==> total(cs[j]) < total(cs[j0]))
  {
    var idx;
    j0, idx := FirstMaxEntry(scores, cs, total);
    TopKeysFirst(scores, MaxOf(Values(scores)), idx);
    TopKeysHoldMax(scores, MaxOf(Values(scores)).value, total);
  }

  /**
   * The first colour of `cs` with the maximal total, and the entry that
   * holds it: no earlier entry holds the maximum.
   */
  lemma FirstMaxEntry(scores: Obj<int>, cs: seq<Color>, total: Color -> int) returns (j0: nat, idx: nat)
    requires |cs| > 0 && FilledFrom(scores, cs, total)
    ensures MaxOf(Values(scores)).Some?
    ensures j0 < |cs| && idx < |scores| && scores[idx].key == cs[j0]
    ensures Some(scores[idx].value) == MaxOf(Values(scores)) && total(cs[j0]) == scores[idx].value
    ensures forall t :: 0 <= t < idx ==> Some(scores[t].value) != MaxOf(Values(scores))
    ensures forall j :: 0 <= j < |cs| ==> total(cs[j]) <= total(cs[j0])
    ensures forall j :: 0 <= j < j0 ==> total(cs[j]) < total(cs[j0])
  {
    FilledMax(scores, cs, total);
    var m := MaxOf(Values(scores)).value;
    var jt :| 0 <= jt < |cs| && total(cs[jt]) == m;
    j0, idx := FirstEntryWithTotal(scores, cs, total, m, jt);
  }

  /** The first colour of `cs` whose total is `m`, and the first entry of the table whose key has that total. */
  lemma FirstEntryWithTotal(scores: Obj<int>, cs: seq<Color>, total: Color -> int, m: int, jt: nat)
    returns (j0: nat, idx: nat)
    requires Keys(scores) == Dedup(cs)
    requires jt < |cs| && total(cs[jt]) == m
    ensures j0 < |cs| && total(cs[j0]) == m && forall j :: 0 <= j < j0 ==> total(cs[j]) != m
    ensures idx < |scores| && scores[idx].key == cs[j0]
    ensures forall t :: 0 <= t < idx ==> total(scores[t].key) != m
  {
    var S := set c | c in cs && total(c) == m;
    j0 := FirstIn(cs, S, jt);
    idx := FirstEntryIn(scores, cs, S, j0);
    forall j | 0 <= j < j0 ensures total(cs[j]) != m {
      assert cs[j] !in S;
    }
    forall t | 0 <= t < idx ensures total(scores[t].key) != m {
      assert scores[t].key in cs && scores[t].key !in S;
    }
  }

  /** The entry for the first colour of `cs` in `S` is the first entry whose key lies in `S`. */
  lemma FirstEntryIn(scores: Obj<int>, cs: seq<Color>, S: set<string>, j0: nat) returns (idx: nat)
    requires Keys(scores) == Dedup(cs)
    requires j0 < |cs| && cs[j0] in S && forall t :: 0 <= t < j0 ==> cs[t] !in S
    ensures idx < |scores| && scores[idx].key == cs[j0]
    ensures forall t :: 0 <= t < idx ==> scores[t].key !in S && scores[t].key in cs
  {
    idx := DedupPosition(cs, S, j0);
    assert scores[idx].key == Keys(scores)[idx];
    forall t | 0 <= t < idx ensures scores[t].key !in S && scores[t].key in cs {
      assert scores[t].key == Keys(scores)[t];
      assert Keys(scores)[t] in Dedup(cs);
    }
  }

  /** Where the first element of `s` in `S` sits in Dedup(s). */
  lemma DedupPosition(s: seq<string>, S: set<string>, j: nat) returns (idx: nat)
    requires j < |s| && s[j] in S
    requires forall t :: 0 <= t < j ==> s[t] !in S
    ensures idx < |Dedup(s)| && Dedup(s)[idx] == s[j]
    ensures forall t :: 0 <= t < idx ==> Dedup(s)[t] !in S
  {
    DedupKeepsFirst(s, S, j);
    idx :| 0 <= idx < |Dedup(s)| && Dedup(s)[idx] == s[j] && forall t :: 0 <= t < idx ==> Dedup(s)[t] !in S;
  }

  /** The first index at or before `j` whose element lies in `S`. */
  function FirstIn(s: seq<string>, S: set<string>, j: nat): (f: nat)
    requires j < |s| && s[j] in S
    ensures f <= j && s[f] in S && forall t :: 0 <= t < f ==> s[t] !in S
  {
    if s[0] in S then 0
    else
      var f := FirstIn(s[1..], S, j - 1);
      assert forall t :: 1 <= t < f + 1 ==> s[t] == s[1..][t - 1];
      f + 1
  }

  /**
   * In the table of a room with players, the first key holding the
   * maximum is the colour of the first player whose colour has the
   * maximal total, and every key holding the maximum has the same derived
   * capture count.
   */
  lemma TopOfScoreTable(room: Room, scores: Obj<int>) returns (j0: nat)
    requires |room.players| > 0 && IsScoreTable(room, scores)
    ensures var top := TopKeys(scores, MaxOf(Values(scores)));
      && |top| > 0 && j0 < |room.players| && room.players[j0].color == top[0]
      && IsTopColor(room, top[0])
      && (forall j :: 0 <= j < j0 ==> !IsTopColor(room, room.players[j].color))
      && (forall t :: 0 <= t < |top| ==> CaptureCount(room.pawns, top[t]) == CaptureCount(room.pawns, top[0]))
  {
    var cs := Colors(room.players);
    j0 := FilledFirstTop(scores, cs, Totals(room.pawns));
    var top := TopKeys(scores, MaxOf(Values(scores)));
    assert IsTopColor(room, top[0]);
    forall j | 0 <= j < j0 ensures !IsTopColor(room, room.players[j].color) {
      assert CalculatePlayerScore(room.pawns, cs[j]) < CalculatePlayerScore(room.pawns, cs[j0]);
    }
  }

  /**
   * `determineWinner(room)`: a colour of maximal score; among tied
   * colours the one with strictly more derived captures replaces the
   * candidate. Tied colours have the same total, hence the same derived
   * capture count, so the tie-break never fires and the result is the
   * colour of the first player whose colour has the maximal total. With
   * no players the result is `undefined` (None).
   */
  method DetermineWinner(room: Room) returns (winner: Option<Color>)
    ensures winner.None? <==> room.players == []
    ensures winner.Some? ==> winner.value in Colors(room.players) && IsTopColor(room, winner.value)
    ensures winner.Some? ==>
              exists i :: 0 <= i < |room.players| && room.players[i].color == winner.value &&
                          forall j :: 0 <= j < i ==> !IsTopColor(room, room.players[j].color)
  {
    var scores := GetAllPlayerScores(room);
    var maxScore := MaxOf(Values(scores));
    var topPlayers := TopKeys(scores, maxScore);
    TopPlayersFacts(room, scores);
    if |topPlayers| == 1 {
      return Some(topPlayers[0]);
    }
    winner := BreakTie(room.pawns, topPlayers);
    if winner.Some? {
      ghost var w :| 0 <= w < |topPlayers| && topPlayers[w] == winner.value && FirstMostCaptures(room.pawns, topPlayers, w);
      // Every top colour has the same capture count, so only the first can lead.
      assert w == 0;
    }
  }

  /** `top[w]` has the most derived captures in `top`, and every colour before it strictly fewer. */
  ghost predicate FirstMostCaptures(pawns: seq<Pawn>, top: seq<Color>, w: nat)
    requires w < |top|
  {
    && (forall t :: 0 <= t < |top| ==> CaptureCount(pawns, top[t]) <= CaptureCount(pawns, top[w]))
    && (forall t :: 0 <= t < w ==> CaptureCount(pawns, top[t]) < CaptureCount(pawns, top[w]))
  }

  /**
   * The tie-break loop of `determineWinner`: start from the first tied
   * colour and take a later one only when it has strictly more derived
   * captures. The result is the first colour with the most captures
   * (`undefined` for no colours).
   */
  method BreakTie(pawns: seq<Pawn>, top: seq<Color>) returns (winner: Option<Color>)
    ensures winner.None? <==> top == []
    ensures winner.Some? ==>
              exists w :: 0 <= w < |top| && top[w] == winner.value && FirstMostCaptures(pawns, top, w)
  {
    if top == [] {
      return None;
    }
    winner := Some(top[0]);
    var maxCaptures := CaptureCount(pawns, top[0]);
    ghost var w := 0;
    var i := 1;
    while i < |top|
      invariant 1 <= i <= |top| && w < i
      invariant winner == Some(top[w]) && maxCaptures == CaptureCount(pawns, top[w])
      invariant forall t :: 0 <= t < i ==> CaptureCount(pawns, top[t]) <= maxCaptures
      invariant forall t :: 0 <= t < w ==> CaptureCount(pawns, top[t]) < maxCaptures
    {
      var candidate := top[i];
      var captures := CaptureCount(pawns, candidate);
      if captures > maxCaptures {
        winner := Some(candidate);
        maxCaptures := captures;
        w := i;
      }
      i := i + 1;
    }
  }

  /**
   * What `determineWinner` relies on about the keys of a room's score
   * table that hold the maximum: there are some exactly when there are
   * players, the first is the colour of the first player with the maximal
   * total, and all of them have the same derived capture count.
   */
  lemma TopPlayersFacts(room: Room, scores: Obj<int>)
    requires IsScoreTable(room, scores)
    ensures var top := TopKeys(scores, MaxOf(Values(scores)));
      && (top == [] <==> room.players == [])
      && (top != [] ==> top[0] in Colors(room.players) && IsTopColor(room, top[0]))
      && (top != [] ==>
            exists i :: 0 <= i < |room.players| && room.players[i].color == top[0] &&
                        forall j :: 0 <= j < i ==> !IsTopColor(room, room.players[j].color))
      && (forall t :: 0 <= t < |top| ==> CaptureCount(room.pawns, top[t]) == CaptureCount(room.pawns, top[0]))
  {
    var top := TopKeys(scores, MaxOf(Values(scores)));
    if room.players == [] {
      assert Keys(scores) == [];
      assert top == [];
    } else {
      var j0 := TopOfScoreTable(room, scores);
      FirstTopWitness(room, j0, top[0]);
    }
  }

  /** The colour of the first player whose colour has the maximal total. */
  lemma FirstTopWitness(room: Room, j0: nat, c: Color)
    requires j0 < |room.players| && room.players[j0].color == c
    requires forall j :: 0 <= j < j0 ==> !IsTopColor(room, room.players[j].color)
    ensures c in Colors(room.players)
    ensures exists i :: 0 <= i < |room.players| && room.players[i].color == c &&
                        forall j :: 0 <= j < i ==> !IsTopColor(room, room.players[j].color)
  {
    assert Colors(room.players)[j0] == c;
  }

  /** The name of the last player of colour `c`: the one whose row survives in the table. */
  function NameOf(players: seq<Player>, c: Color): string {
    if players == [] then ""
    else if players[|players| - 1].color == c then players[|players| - 1].name
    else NameOf(players[..|players| - 1], c)
  }

  /** The row `formatScoresForClient` builds for colour `c`, naming the last of `players` with that colour. */
  function RowFor(room: Room, players: seq<Player>, c: Color): ScoreRow {
    ScoreRow(NameOf(players, c), c, CalculatePlayerScore(room.pawns, c), CaptureCount(room.pawns, c))
  }

  /** Appending a player changes only the row of that player's colour, which it now names. */
  lemma RowForSnoc(room: Room, players: seq<Player>, i: nat)
    requires i < |players|
    ensures RowFor(room, players[..i + 1], players[i].color)
         == ScoreRow(players[i].name, players[i].color,
                     CalculatePlayerScore(room.pawns, players[i].color), CaptureCount(room.pawns, players[i].color))
    ensures forall k :: k != players[i].color ==> RowFor(room, players[..i + 1], k) == RowFor(room, players[..i], k)
  {
    assert players[..i + 1][..i] == players[..i];
  }

  /** Assigning `o[k0] = v0` keeps `o` a table of `g` when `g` agrees with `f` off `k0`. */
  lemma PutKeepsLookups<V>(o: Obj<V>, k0: string, v0: V, f: string -> V, g: string -> V)
    requires forall k :: k in Keys(o) ==> Get(o, k) == Some(f(k))
    requires g(k0) == v0
    requires forall k :: k != k0 ==> g(k) == f(k)
    ensures forall k :: k in Keys(Put(o, k0, v0)) ==> Get(Put(o, k0, v0), k) == Some(g(k))
  {
  }

  /** The table after the first `i` players have been written into it. */
  ghost predicate RowsUpTo(room: Room, table: Obj<ScoreRow>, i: nat)
    requires i <= |room.players|
  {
    && WellFormed(table)
    && Keys(table) == Dedup(Colors(room.players[..i]))
    && forall k :: k in Keys(table) ==> Get(table, k) == Some(RowFor(room, room.players[..i], k))
  }

  /** Writing the row of player `i` extends the table by that player. */
  lemma FormatStep(room: Room, table: Obj<ScoreRow>, i: nat)
    requires i < |room.players| && RowsUpTo(room, table, i)
    ensures var p := room.players[i];
            RowsUpTo(room, Put(table, p.color, ScoreRow(p.name, p.color, CalculatePlayerScore(room.pawns, p.color),
                                                         CaptureCount(room.pawns, p.color))), i + 1)
  {
    var p := room.players[i];
    var row := ScoreRow(p.name, p.color, CalculatePlayerScore(room.pawns, p.color), CaptureCount(room.pawns, p.color));
    ColorsPrefix(room.players, i);
    DedupSnoc(Colors(room.players[..i]), p.color);
    RowForSnoc(room, room.players, i);
    PutKeepsLookups(table, p.color, row,
                    k => RowFor(room, room.players[..i], k), k => RowFor(room, room.players[..i + 1], k));
  }

  /** `formatScoresForClient(room)`: one row per player colour, in player order. */
  method FormatScoresForClient(room: Room) returns (table: Obj<ScoreRow>)
    ensures WellFormed(table)
    ensures Keys(table) == Dedup(Colors(room.players))
    ensures forall k :: k in Keys(table) ==> Get(table, k) == Some(RowFor(room, room.players, k))
  {
    table := [];
    var i := 0;
    while i < |room.players|
      invariant 0 <= i <= |room.players|
      invariant RowsUpTo(room, table, i)
    {
      var player := room.players[i];
      var row := ScoreRow(player.name, player.color,
                          CalculatePlayerScore(room.pawns, player.color), CaptureCount(room.pawns, player.color));
      FormatStep(room, table, i);
      table := Put(table, player.color, row);
      i := i + 1;
    }
    assert room.players[..i] == room.players;
  }
}
