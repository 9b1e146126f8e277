/**
 * The order both the scoreboard and the end-of-game overlay show players
 * in: the values of the score table sorted by a comparator that puts the
 * higher score first and, on equal scores, more captures first.
 * `Array.prototype.sort` is stable, so rows that tie on both keep the
 * order they had in the score table.
 */
module Standings {
  import opened Scoring

  /** The comparator is negative for (a, b): `a` belongs strictly before `b`. */
  predicate Outranks(a: ScoreRow, b: ScoreRow) {
    a.score > b.score || (a.score == b.score && a.captures > b.captures)
  }

  /** The comparator is zero: neither row outranks the other. */
  predicate SameRank(a: ScoreRow, b: ScoreRow) {
    a.score == b.score && a.captures == b.captures
  }

  /** No row is outranked by a row after it. */
  ghost predicate Ordered(s: seq<ScoreRow>) {
    forall i, j :: 0 <= i < j < |s| ==> !Outranks(s[j], s[i])
  }

  /** Places `x` after the rows that outrank it and before every other row. */
  function Insert(x: ScoreRow, s: seq<ScoreRow>): (r: seq<ScoreRow>)
    requires Ordered(s)
    ensures Ordered(r)
    ensures multiset(r) == multiset(s) + multiset{x}
  {
    if s == [] then [x]
    else if Outranks(s[0], x) then
      OrderedTail(s);
      var rest := Insert(x, s[1..]);
      assert s == [s[0]] + s[1..];
      HeadStaysFirst(s[0], x, s[1..], rest);
      [s[0]] + rest
    else
      [x] + s
  }

  lemma OrderedTail(s: seq<ScoreRow>)
    requires s != [] && Ordered(s)
    ensures Ordered(s[1..])
  {
    forall i, j | 0 <= i < j < |s[1..]| ensures !Outranks(s[1..][j], s[1..][i]) {
      assert s[1..][j] == s[j + 1] && s[1..][i] == s[i + 1];
    }
  }

  /**
   * A row that outranks `x` and no row of `tail` still leads once the rows
   * of `tail` and `x` are reordered into `rest`.
   */
  lemma HeadStaysFirst(h: ScoreRow, x: ScoreRow, tail: seq<ScoreRow>, rest: seq<ScoreRow>)
    requires Ordered([h] + tail) && Ordered(rest)
    requires Outranks(h, x)
    requires multiset(rest) == multiset(tail) + multiset{x}
    ensures Ordered([h] + rest)
  {
    forall j | 0 <= j < |rest| ensures !Outranks(rest[j], h) {
      assert rest[j] in multiset(rest);
      if rest[j] != x {
        assert rest[j] in multiset(tail);
        var t :| 0 <= t < |tail| && tail[t] == rest[j];
        assert ([h] + tail)[t + 1] == rest[j] && ([h] + tail)[0] == h;
      }
    }
    forall i, j | 0 <= i < j < |[h] + rest| ensures !Outranks(([h] + rest)[j], ([h] + rest)[i]) {
      assert ([h] + rest)[j] == rest[j - 1];
      if i > 0 {
        assert ([h] + rest)[i] == rest[i - 1];
      } else {
        assert ([h] + rest)[i] == h;
      }
    }
  }

  /** The sorted copy of `rows`. */
  function SortStandings(rows: seq<ScoreRow>): (r: seq<ScoreRow>)
    ensures Ordered(r)
    ensures multiset(r) == multiset(rows)
    ensures |r| == |rows|
  {
    if rows == [] then []
    else
      assert rows == [rows[0]] + rows[1..];
      Insert(rows[0], SortStandings(rows[1..]))
  }

  /** The rows that tie with `k` on both keys, in order. */
  function Tied(s: seq<ScoreRow>, k: ScoreRow): seq<ScoreRow> {
    if s == [] then []
    else (if SameRank(s[0], k) then [s[0]] else []) + Tied(s[1..], k)
  }

  lemma TiedCons(y: ScoreRow, s: seq<ScoreRow>, k: ScoreRow)
    ensures Tied([y] + s, k) == (if SameRank(y, k) then [y] else []) + Tied(s, k)
  {
    assert ([y] + s)[1..] == s;
  }

  lemma SwapEmpty(a: seq<ScoreRow>, b: seq<ScoreRow>, c: seq<ScoreRow>)
    requires a == [] || b == []
    ensures a + (b + c) == b + (a + c)
  {
    if a == [] {
      assert a + (b + c) == b + c && a + c == c;
    } else {
      assert b + (a + c) == a + c && b + c == c;
    }
  }

  lemma {:induction false} TiedInsert(x: ScoreRow, s: seq<ScoreRow>, k: ScoreRow)
    requires Ordered(s)
    ensures Tied(Insert(x, s), k) == (if SameRank(x, k) then [x] else []) + Tied(s, k)
  {
    var mine := if SameRank(x, k) then [x] else [];
    if s == [] {
      assert Insert(x, s) == [x] + s;
      TiedCons(x, s, k);
    } else if Outranks(s[0], x) {
      OrderedTail(s);
      var rest := Insert(x, s[1..]);
      assert Insert(x, s) == [s[0]] + rest;
      TiedCons(s[0], rest, k);
      TiedInsert(x, s[1..], k);
      assert s == [s[0]] + s[1..];
      TiedCons(s[0], s[1..], k);
      var head := if SameRank(s[0], k) then [s[0]] else [];
      var tail := Tied(s[1..], k);
      // Rows of different rank cannot both tie with `k`.
      assert head == [] || mine == [];
      SwapEmpty(head, mine, tail);
    } else {
      assert Insert(x, s) == [x] + s;
      TiedCons(x, s, k);
    }
  }

  /** The sort is stable: rows of equal rank come out in the order they went in. */
  lemma {:induction false} SortIsStable(rows: seq<ScoreRow>, k: ScoreRow)
    ensures Tied(SortStandings(rows), k) == Tied(rows, k)
  {
    if rows != [] {
      SortIsStable(rows[1..], k);
      TiedInsert(rows[0], SortStandings(rows[1..]), k);
    }
  }

  /** The first row is one of the input rows, and no input row outranks it. */
  lemma LeaderIsTop(rows: seq<ScoreRow>)
    requires rows != []
    ensures SortStandings(rows)[0] in rows
    ensures forall r :: r in rows ==> !Outranks(r, SortStandings(rows)[0])
    ensures forall r :: r in rows ==> r.score <= SortStandings(rows)[0].score
  {
    var sorted := SortStandings(rows);
    assert sorted[0] in multiset(sorted);
    forall r | r in rows ensures !Outranks(r, sorted[0]) {
      assert r in multiset(rows);
      var j :| 0 <= j < |sorted| && sorted[j] == r;
    }
  }
}
