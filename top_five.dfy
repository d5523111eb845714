/**
 * The three rankings of dashboard.py lines 76, 81 and 86: the recap table sorted
 * by recency ascending, or by frequency or monetary value descending, then
 * `head(5)`. The order among records with equal keys is not fixed by the source;
 * the contracts below say nothing about it.
 */
module TopFive {
  import opened Recap
  import opened Sequences

  /** Which column a ranking sorts by, and so in which direction. */
  datatype Metric = ByRecency | ByFrequency | ByMonetary

  /** Number of records `head()` keeps. */
  const TopCount: nat := 5

  /** The sort key with its direction folded in: smaller scores are listed first. */
  function Score(r: RfmRecord, m: Metric): int {
    match m
    case ByRecency => r.recency
    case ByFrequency => -(r.frequency as int)
    case ByMonetary => -r.monetary
  }

  /** `a` may be listed before `b`. */
  predicate RanksAtLeast(a: RfmRecord, b: RfmRecord, m: Metric) {
    Score(a, m) <= Score(b, m)
  }

  /** Recency ranks ascending; frequency and monetary value rank descending. */
  lemma RanksAtLeastMeaning(a: RfmRecord, b: RfmRecord)
    ensures RanksAtLeast(a, b, ByRecency) <==> a.recency <= b.recency
    ensures RanksAtLeast(a, b, ByFrequency) <==> a.frequency >= b.frequency
    ensures RanksAtLeast(a, b, ByMonetary) <==> a.monetary >= b.monetary
  {
  }

  predicate Ranked(s: seq<RfmRecord>, m: Metric) {
    forall i, j :: 0 <= i < j < |s| ==> Score(s[i], m) <= Score(s[j], m)
  }

  /** A ranked sequence stays ranked when a record that ranks at least as high as all of it goes in front. */
  lemma RankedCons(x: RfmRecord, s: seq<RfmRecord>, m: Metric)
    requires Ranked(s, m)
    requires forall y :: y in multiset(s) ==> Score(x, m) <= Score(y, m)
    ensures Ranked([x] + s, m)
  {
    forall j | 0 <= j < |s| ensures Score(x, m) <= Score(s[j], m) {
      assert s[j] in multiset(s);
    }
  }

  /** Inserts `x` into a ranked sequence. */
  function Insert(x: RfmRecord, s: seq<RfmRecord>, m: Metric): (r: seq<RfmRecord>)
    requires Ranked(s, m)
    ensures multiset(r) == multiset(s) + multiset{x}
    ensures Ranked(r, m)
  {
    if s == [] then [x]
    else
      MultisetFirst(s);
      if Score(x, m) <= Score(s[0], m) then
        RankedCons(x, s, m);
        [x] + s
      else
        var rest := Insert(x, s[1..], m);
        InsertBehind(x, s, rest, m);
        [s[0]] + rest
  }

  /** A record that ranks below the head of a ranked sequence goes somewhere behind that head. */
  lemma InsertBehind(x: RfmRecord, s: seq<RfmRecord>, rest: seq<RfmRecord>, m: Metric)
    requires Ranked(s, m) && |s| > 0 && Score(s[0], m) < Score(x, m)
    requires Ranked(rest, m) && multiset(rest) == multiset(s[1..]) + multiset{x}
    ensures Ranked([s[0]] + rest, m)
  {
    HeadRanksFirst(s, m);
    assert forall y :: y in multiset(rest) ==> y == x || y in multiset(s[1..]);
    RankedCons(s[0], rest, m);
  }

  /** The head of a ranked sequence ranks at least as high as everything after it. */
  lemma HeadRanksFirst(s: seq<RfmRecord>, m: Metric)
    requires Ranked(s, m) && |s| > 0
    ensures forall y :: y in multiset(s[1..]) ==> Score(s[0], m) <= Score(y, m)
  {
    forall y | y in multiset(s[1..]) ensures Score(s[0], m) <= Score(y, m) {
      var j :| 0 <= j < |s[1..]| && s[1..][j] == y;
      assert s[j + 1] == y;
    }
  }

  /** `sort_values(by=metric)` with the metric's direction. */
  function SortBy(s: seq<RfmRecord>, m: Metric): (r: seq<RfmRecord>)
    ensures multiset(r) == multiset(s)
    ensures Ranked(r, m)
  {
    if s == [] then []
    else
      MultisetFirst(s);
      Insert(s[0], SortBy(s[1..], m), m)
  }

  /** `sort_values(...).head(5)`. */
  function Top(table: seq<RfmRecord>, m: Metric): seq<RfmRecord> {
    var sorted := SortBy(table, m);
    sorted[..if |sorted| < TopCount then |sorted| else TopCount]
  }

  /** In a ranked sequence, nothing after position `n` ranks strictly better than anything before it. */
  lemma RankedSplit(sorted: seq<RfmRecord>, n: nat, m: Metric)
    requires Ranked(sorted, m) && n <= |sorted|
    ensures forall x, y :: x in multiset(sorted[n..]) && y in sorted[..n] ==> Score(y, m) <= Score(x, m)
  {
    forall x, y | x in multiset(sorted[n..]) && y in sorted[..n]
      ensures Score(y, m) <= Score(x, m)
    {
      var j :| 0 <= j < |sorted[n..]| && sorted[n..][j] == x;
      var i :| 0 <= i < n && sorted[..n][i] == y;
      assert sorted[i] == y && sorted[n + j] == x;
    }
  }

  /** The ranking holds min(5, |table|) records, listed best first. */
  lemma TopShape(table: seq<RfmRecord>, m: Metric)
    ensures |Top(table, m)| == (if |table| < TopCount then |table| else TopCount)
    ensures Ranked(Top(table, m), m)
  {
    assert |multiset(SortBy(table, m))| == |multiset(table)|;
  }

  /** Every record of the ranking comes from the table, no more often than it occurs there. */
  lemma TopFromTable(table: seq<RfmRecord>, m: Metric)
    ensures multiset(Top(table, m)) <= multiset(table)
  {
    var sorted := SortBy(table, m);
    var n := if |sorted| < TopCount then |sorted| else TopCount;
    assert sorted == sorted[..n] + sorted[n..];
  }

  /** No record left out of the ranking ranks strictly better than one that was chosen. */
  lemma TopBest(table: seq<RfmRecord>, m: Metric)
    ensures var top := Top(table, m);
      forall x, y :: x in multiset(table) - multiset(top) && y in top ==> RanksAtLeast(y, x, m)
  {
    var sorted := SortBy(table, m);
    var n := if |sorted| < TopCount then |sorted| else TopCount;
    var top, rest := sorted[..n], sorted[n..];
    assert sorted == top + rest;
    assert multiset(table) - multiset(top) == multiset(rest);
    RankedSplit(sorted, n, m);
  }

  // ---------------------------------------------------------------------------
  // Tie order does not change what a ranking shows of its metric
  // ---------------------------------------------------------------------------

  /** The metric column of a ranking, with its direction folded in. */
  function Scores(s: seq<RfmRecord>, m: Metric): (v: seq<int>)
    ensures |v| == |s|
  {
    seq(|s|, i requires 0 <= i < |s| => Score(s[i], m))
  }

  /** Dropping one record of a ranked sequence leaves it ranked. */
  lemma RankedRemoveAt(q: seq<RfmRecord>, j: nat, m: Metric)
    requires Ranked(q, m) && j < |q|
    ensures Ranked(q[..j] + q[j + 1..], m)
  {
    var r := q[..j] + q[j + 1..];
    forall a, b | 0 <= a < b < |r| ensures Score(r[a], m) <= Score(r[b], m) {
      var a' := if a < j then a else a + 1;
      var b' := if b < j then b else b + 1;
      assert r[a] == q[a'] && r[b] == q[b'];
    }
  }

  lemma RankedTail(p: seq<RfmRecord>, m: Metric)
    requires Ranked(p, m) && |p| > 0
    ensures Ranked(p[1..], m)
  {
    forall a, b | 0 <= a < b < |p| - 1 ensures Score(p[1..][a], m) <= Score(p[1..][b], m) {
      assert p[1..][a] == p[a + 1] && p[1..][b] == p[b + 1];
    }
  }

  /** Two rankings of the same records by the same metric agree on the first score. */
  lemma RankedHeadsAgree(p: seq<RfmRecord>, q: seq<RfmRecord>, m: Metric)
    requires Ranked(p, m) && Ranked(q, m) && multiset(p) == multiset(q) && |p| > 0 && |q| > 0
    ensures Score(p[0], m) == Score(q[0], m)
  {
    assert p[0] in multiset(q) && q[0] in multiset(p);
    var j :| 0 <= j < |q| && q[j] == p[0];
    var k :| 0 <= k < |p| && p[k] == q[0];
  }

  /**
   * Removing the head `p[0]` of one ranking and its copy `q[j]` from the other
   * shifts positions by one only among records that tie with the head, so
   * agreement of the remainders is agreement of the whole.
   */
  lemma ScoresAfterRemoval(p: seq<RfmRecord>, q: seq<RfmRecord>, j: nat, m: Metric)
    requires Ranked(q, m) && |p| == |q| && j < |q|
    requires Score(q[j], m) == Score(q[0], m) == Score(p[0], m)
    requires var tail, rest := p[1..], q[..j] + q[j + 1..];
      forall i :: 0 <= i < |tail| ==> Score(tail[i], m) == Score(rest[i], m)
    ensures forall i :: 0 <= i < |p| ==> Score(p[i], m) == Score(q[i], m)
  {
    var tail, rest := p[1..], q[..j] + q[j + 1..];
    forall i | 0 < i < |p| ensures Score(p[i], m) == Score(q[i], m) {
      assert tail[i - 1] == p[i];
      if i <= j {
        // q[i - 1] and q[i] lie between q[0] and q[j], which tie
        assert rest[i - 1] == q[i - 1];
      } else {
        assert rest[i - 1] == q[i];
      }
    }
  }

  /**
   * Two rankings of the same records by the same metric list the same scores,
   * position by position, whatever order they give records with equal keys.
   */
  lemma {:induction false} RankedScoresAgree(p: seq<RfmRecord>, q: seq<RfmRecord>, m: Metric)
    requires Ranked(p, m) && Ranked(q, m) && multiset(p) == multiset(q)
    ensures |p| == |q|
    ensures forall i :: 0 <= i < |p| ==> Score(p[i], m) == Score(q[i], m)
    decreases |p|
  {
    assert |q| == |multiset(q)| == |multiset(p)| == |p|;
    if p != [] {
      assert p[0] in multiset(q);
      var j :| 0 <= j < |q| && q[j] == p[0];
      MultisetRemoveAt(q, j);
      MultisetFirst(p);
      RankedRemoveAt(q, j, m);
      RankedTail(p, m);
      RankedScoresAgree(p[1..], q[..j] + q[j + 1..], m);
      RankedHeadsAgree(p, q, m);
      ScoresAfterRemoval(p, q, j, m);
    }
  }

  /**
   * The metric column of a top-5 list is the first min(5, |table|) scores of any
   * ranking of the table: which of several tied records the sort puts first
   * does not change the values shown.
   */
  lemma TopScoresDetermined(table: seq<RfmRecord>, p: seq<RfmRecord>, m: Metric)
    requires multiset(p) == multiset(table) && Ranked(p, m)
    ensures |Top(table, m)| <= |p|
    ensures Scores(Top(table, m), m) == Scores(p[..|Top(table, m)|], m)
  {
    var sorted := SortBy(table, m);
    assert |p| == |multiset(p)| == |multiset(table)| == |multiset(sorted)| == |sorted|;
    RankedScoresAgree(sorted, p, m);
  }
}
