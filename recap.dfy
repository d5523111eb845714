/**
 * The RFM recap of `create_rfm_recap`: rows are grouped by session key, and each
 * session yields its recency (days from the reference day back to the session's
 * latest date), its frequency (row count) and its monetary value (sum of totals).
 *
 * The group-by is modelled as one left-to-right pass that keeps a running group
 * per key (GroupRows). It is proved equal to the per-session definitions
 * (SessionRows, Frequency, Monetary, LatestDate), which describe each group on its own.
 */
module Recap {
  import opened Sessions
  import opened Sequences

  /**
   * The three columns the aggregation reads of a row once `session_id` has been
   * added: the session key, the date and the total.
   */
  datatype Entry = Entry(sessionId: string, date: int, total: int)

  function EntryOf(r: Row): Entry {
    Entry(SessionId(r), r.date, r.total)
  }

  /** The table as `groupby('session_id')` sees it once the `session_id` column is in place. */
  function Keyed(rows: seq<Row>): (entries: seq<Entry>)
    ensures |entries| == |rows|
  {
    seq(|rows|, i requires 0 <= i < |rows| => EntryOf(rows[i]))
  }

  /** The key of each entry is the row's `session_id`; two entries share it exactly when their rows share date and hour. */
  lemma KeyedSessions(rows: seq<Row>, i: nat, j: nat)
    requires i < |rows| && j < |rows|
    ensures Keyed(rows)[i].sessionId == SessionColumn(rows)[i]
    ensures Keyed(rows)[i].sessionId == Keyed(rows)[j].sessionId
            <==> rows[i].date == rows[j].date && rows[i].hr == rows[j].hr
  {
    SessionColumnShared(rows, i, j);
  }

  lemma KeyedConcat(a: seq<Row>, b: seq<Row>)
    ensures Keyed(a + b) == Keyed(a) + Keyed(b)
  {
    forall i | 0 <= i < |a + b| ensures Keyed(a + b)[i] == (Keyed(a) + Keyed(b))[i] {
      if i < |a| {
        assert (a + b)[i] == a[i];
      } else {
        assert (a + b)[i] == b[i - |a|];
      }
    }
  }

  /** Reordering the rows reorders the keyed entries. */
  lemma {:induction false} KeyedPermutation(p: seq<Row>, q: seq<Row>)
    requires multiset(p) == multiset(q)
    ensures multiset(Keyed(p)) == multiset(Keyed(q))
  {
    if p == [] {
      assert |q| == |multiset(q)| == 0;
    } else {
      var prefix, x := p[..|p| - 1], p[|p| - 1];
      MultisetLast(p);
      assert x in multiset(q);
      var j :| 0 <= j < |q| && q[j] == x;
      MultisetRemoveAt(q, j);
      KeyedPermutation(prefix, q[..j] + q[j + 1..]);
      KeyedLast(p);
      KeyedRemoveAt(q, j);
    }
  }

  lemma KeyedLast(p: seq<Row>)
    requires |p| > 0
    ensures multiset(Keyed(p)) == multiset(Keyed(p[..|p| - 1])) + multiset{EntryOf(p[|p| - 1])}
  {
    assert p == p[..|p| - 1] + [p[|p| - 1]];
    KeyedConcat(p[..|p| - 1], [p[|p| - 1]]);
    assert Keyed([p[|p| - 1]]) == [EntryOf(p[|p| - 1])];
  }

  lemma KeyedRemoveAt(q: seq<Row>, j: nat)
    requires j < |q|
    ensures multiset(Keyed(q)) == multiset(Keyed(q[..j] + q[j + 1..])) + multiset{EntryOf(q[j])}
  {
    var before, at, after := q[..j], [q[j]], q[j + 1..];
    assert q == before + (at + after);
    KeyedConcat(before, at + after);
    KeyedConcat(at, after);
    KeyedConcat(before, after);
    assert Keyed(at) == [EntryOf(q[j])];
  }

  datatype RfmRecord = RfmRecord(sessionId: string, recency: int, frequency: nat, monetary: int)

  /** The two KeyErrors that create_rfm_recap raises before it changes anything. */
  datatype MissingColumn = DateOrHr | Total

  datatype Result<T> = Ok(value: T) | KeyError(missing: MissingColumn)

  function Max(a: int, b: int): int {
    if a >= b then a else b
  }

  // ---------------------------------------------------------------------------
  // Per-session reference definitions
  // ---------------------------------------------------------------------------

  /** `df['date'].max()` on a non-empty table. */
  function MaxDate(rows: seq<Entry>): int
    requires |rows| > 0
  {
    if |rows| == 1 then rows[0].date else Max(MaxDate(rows[..|rows| - 1]), rows[|rows| - 1].date)
  }

  /** MaxDate is the date of some row and no row is later. */
  lemma {:induction false} MaxDateIsMaximum(rows: seq<Entry>)
    requires |rows| > 0
    ensures exists i :: 0 <= i < |rows| && rows[i].date == MaxDate(rows)
    ensures forall i :: 0 <= i < |rows| ==> rows[i].date <= MaxDate(rows)
  {
    if |rows| > 1 {
      var prefix := rows[..|rows| - 1];
      MaxDateIsMaximum(prefix);
      assert forall i :: 0 <= i < |prefix| ==> prefix[i] == rows[i];
      if MaxDate(prefix) < rows[|rows| - 1].date {
        assert rows[|rows| - 1].date == MaxDate(rows);
      } else {
        var i :| 0 <= i < |prefix| && prefix[i].date == MaxDate(prefix);
        assert rows[i].date == MaxDate(rows);
      }
    } else {
      assert rows[0].date == MaxDate(rows);
    }
  }

  /** `today_date`: the day after the latest date. */
  function ReferenceDay(rows: seq<Entry>): int
    requires |rows| > 0
  {
    MaxDate(rows) + 1
  }

  /** Sum of the `total` column. */
  function SumTotals(rows: seq<Entry>): int {
    if rows == [] then 0 else SumTotals(rows[..|rows| - 1]) + rows[|rows| - 1].total
  }

  /** The distinct session keys of a table. */
  function SessionKeys(rows: seq<Entry>): set<string> {
    set r | r in rows :: r.sessionId
  }

  /** The rows of session `k`, in table order. */
  function SessionRows(rows: seq<Entry>, k: string): (s: seq<Entry>)
    ensures forall r :: r in s ==> r in rows && r.sessionId == k
  {
    if rows == [] then []
    else
      var prefix := rows[..|rows| - 1];
      var last := rows[|rows| - 1];
      assert forall r :: r in prefix ==> r in rows;
      if last.sessionId == k then SessionRows(prefix, k) + [last] else SessionRows(prefix, k)
  }

  lemma {:induction false} SessionRowsCount(rows: seq<Entry>, k: string, r: Entry)
    ensures multiset(SessionRows(rows, k))[r] == if r.sessionId == k then multiset(rows)[r] else 0
  {
    if rows != [] {
      var prefix := rows[..|rows| - 1];
      assert rows == prefix + [rows[|rows| - 1]];
      SessionRowsCount(prefix, k, r);
    }
  }

  lemma SessionRowsNonEmpty(rows: seq<Entry>, k: string)
    ensures |SessionRows(rows, k)| > 0 <==> k in SessionKeys(rows)
  {
    if k in SessionKeys(rows) {
      var r :| r in rows && r.sessionId == k;
      SessionRowsCount(rows, k, r);
      assert r in multiset(SessionRows(rows, k));
    }
    if |SessionRows(rows, k)| > 0 {
      assert SessionRows(rows, k)[0] in SessionRows(rows, k);
    }
  }

  /** Number of rows in session `k`. */
  function Frequency(rows: seq<Entry>, k: string): nat {
    |SessionRows(rows, k)|
  }

  /** Sum of `total` over the rows of session `k`. */
  function Monetary(rows: seq<Entry>, k: string): int {
    SumTotals(SessionRows(rows, k))
  }

  /** Latest date among the rows of session `k`. */
  function LatestDate(rows: seq<Entry>, k: string): int
    requires k in SessionKeys(rows)
  {
    SessionRowsNonEmpty(rows, k);
    MaxDate(SessionRows(rows, k))
  }

  /** The record the recap promises for session `k`. */
  function ExpectedRecord(rows: seq<Entry>, k: string): RfmRecord
    requires k in SessionKeys(rows)
  {
    RfmRecord(k, ReferenceDay(rows) - LatestDate(rows, k), Frequency(rows, k), Monetary(rows, k))
  }

  // ---------------------------------------------------------------------------
  // The group-by as a single pass over the rows
  // ---------------------------------------------------------------------------

  /** Running aggregate of one group: latest date, row count, sum of totals. */
  datatype Group = Group(latest: int, count: nat, revenue: int)

  /** The groups seen so far, with their keys in order of first appearance. */
  datatype Grouping = Grouping(order: seq<string>, groups: map<string, Group>)

  ghost predicate Covered(g: Grouping) {
    forall k :: k in g.order ==> k in g.groups
  }

  /** Folds one more row into the groups. */
  function Absorb(g: Grouping, row: Entry): (g': Grouping)
    requires Covered(g)
    ensures Covered(g')
  {
    var k := row.sessionId;
    if k in g.groups then
      var a := g.groups[k];
      Grouping(g.order, g.groups[k := Group(Max(a.latest, row.date), a.count + 1, a.revenue + row.total)])
    else
      Grouping(g.order + [k], g.groups[k := Group(row.date, 1, row.total)])
  }

  function GroupRows(rows: seq<Entry>): (g: Grouping)
    ensures Covered(g)
  {
    if rows == [] then Grouping([], map[])
    else Absorb(GroupRows(rows[..|rows| - 1]), rows[|rows| - 1])
  }

  function RecordOf(k: string, a: Group, today: int): RfmRecord {
    RfmRecord(k, today - a.latest, a.count, a.revenue)
  }

  /** One record per key of `order`, in that order (`reset_index`). */
  function Emit(order: seq<string>, groups: map<string, Group>, today: int): seq<RfmRecord>
    requires forall k :: k in order ==> k in groups
  {
    if order == [] then []
    else
      var k := order[|order| - 1];
      Emit(order[..|order| - 1], groups, today) + [RecordOf(k, groups[k], today)]
  }

  /**
   * The recap table of dashboard.py lines 20-25. A table without rows has no
   * groups and so yields no records; the reference day is then never used.
   */
  function RfmTable(rows: seq<Entry>): seq<RfmRecord> {
    if |rows| == 0 then []
    else
      var g := GroupRows(rows);
      Emit(g.order, g.groups, ReferenceDay(rows))
  }

  /** The recap with its column checks, dashboard.py lines 12-27. */
  function RfmRecap(columns: set<string>, rows: seq<Row>): (r: Result<seq<RfmRecord>>)
    ensures r.KeyError? <==> !({"date", "hr", "total"} <= columns)
    ensures r == KeyError(DateOrHr) <==> !({"date", "hr"} <= columns)
    ensures r.Ok? ==> r.value == RfmTable(Keyed(rows))
  {
    if "date" !in columns || "hr" !in columns then KeyError(DateOrHr)
    else if "total" !in columns then KeyError(Total)
    else Ok(RfmTable(Keyed(rows)))
  }

  // ---------------------------------------------------------------------------
  // Sums over the groups and over the table
  // ---------------------------------------------------------------------------

  function FrequencyTotal(t: seq<RfmRecord>): int {
    if t == [] then 0 else FrequencyTotal(t[..|t| - 1]) + t[|t| - 1].frequency
  }

  function MonetaryTotal(t: seq<RfmRecord>): int {
    if t == [] then 0 else MonetaryTotal(t[..|t| - 1]) + t[|t| - 1].monetary
  }

  /** Row count and revenue summed over the groups listed in `order`. */
  function Totals(order: seq<string>, groups: map<string, Group>): (int, int)
    requires forall k :: k in order ==> k in groups
  {
    if order == [] then (0, 0)
    else
      var rest := Totals(order[..|order| - 1], groups);
      var a := groups[order[|order| - 1]];
      (rest.0 + a.count, rest.1 + a.revenue)
  }

  ghost predicate Distinct<T>(s: seq<T>) {
    forall i, j :: 0 <= i < j < |s| ==> s[i] != s[j]
  }

  lemma {:induction false} TotalsFrame(order: seq<string>, groups: map<string, Group>, k: string, a: Group)
    requires forall k' :: k' in order ==> k' in groups
    requires k !in order
    ensures Totals(order, groups[k := a]) == Totals(order, groups)
  {
    if order != [] {
      TotalsFrame(order[..|order| - 1], groups, k, a);
    }
  }

  lemma {:induction false} TotalsUpdate(order: seq<string>, groups: map<string, Group>, k: string, a: Group)
    requires forall k' :: k' in order ==> k' in groups
    requires Distinct(order) && k in order
    ensures Totals(order, groups[k := a]).0 == Totals(order, groups).0 - groups[k].count + a.count
    ensures Totals(order, groups[k := a]).1 == Totals(order, groups).1 - groups[k].revenue + a.revenue
  {
    var prefix := order[..|order| - 1];
    if order[|order| - 1] == k {
      assert k !in prefix;
      TotalsFrame(prefix, groups, k, a);
    } else {
      assert k in prefix;
      TotalsUpdate(prefix, groups, k, a);
    }
  }

  lemma {:induction false} EmitTotals(order: seq<string>, groups: map<string, Group>, today: int)
    requires forall k :: k in order ==> k in groups
    ensures FrequencyTotal(Emit(order, groups, today)) == Totals(order, groups).0
    ensures MonetaryTotal(Emit(order, groups, today)) == Totals(order, groups).1
  {
    if order != [] {
      var e := Emit(order, groups, today);
      EmitTotals(order[..|order| - 1], groups, today);
      assert e[..|e| - 1] == Emit(order[..|order| - 1], groups, today);
    }
  }

  lemma {:induction false} EmitAt(order: seq<string>, groups: map<string, Group>, today: int)
    requires forall k :: k in order ==> k in groups
    ensures |Emit(order, groups, today)| == |order|
    ensures forall i :: 0 <= i < |order| ==>
              Emit(order, groups, today)[i] == RecordOf(order[i], groups[order[i]], today)
  {
    if order != [] {
      EmitAt(order[..|order| - 1], groups, today);
    }
  }

  // ---------------------------------------------------------------------------
  // The single pass computes the per-session definitions
  // ---------------------------------------------------------------------------

  lemma SessionKeysSnoc(prefix: seq<Entry>, row: Entry)
    ensures SessionKeys(prefix + [row]) == SessionKeys(prefix) + {row.sessionId}
  {
    assert forall r :: r in prefix + [row] <==> r in prefix || r == row;
  }

  lemma SessionRowsSnoc(prefix: seq<Entry>, row: Entry, k: string)
    ensures SessionRows(prefix + [row], k)
            == if row.sessionId == k then SessionRows(prefix, k) + [row] else SessionRows(prefix, k)
  {
    assert (prefix + [row])[..|prefix|] == prefix;
  }

  /** The pass lists every session key once, in order of first appearance. */
  lemma {:induction false} GroupRowsKeys(rows: seq<Entry>)
    ensures Distinct(GroupRows(rows).order)
    ensures forall k :: k in GroupRows(rows).order <==> k in SessionKeys(rows)
    ensures GroupRows(rows).groups.Keys == SessionKeys(rows)
  {
    if rows != [] {
      var prefix, row := rows[..|rows| - 1], rows[|rows| - 1];
      assert rows == prefix + [row];
      GroupRowsKeys(prefix);
      SessionKeysSnoc(prefix, row);
    }
  }

  /** Absorbing a row of a session already seen extends that session's group. */
  lemma AbsorbSeen(prefix: seq<Entry>, row: Entry, g: Grouping)
    requires Covered(g) && row.sessionId in SessionKeys(prefix) && row.sessionId in g.groups
    requires g.groups[row.sessionId] == Group(LatestDate(prefix, row.sessionId), Frequency(prefix, row.sessionId), Monetary(prefix, row.sessionId))
    ensures var k := row.sessionId;
      Absorb(g, row).groups[k] == Group(LatestDate(prefix + [row], k), Frequency(prefix + [row], k), Monetary(prefix + [row], k))
  {
    var k := row.sessionId;
    SessionKeysSnoc(prefix, row);
    SessionRowsSnoc(prefix, row, k);
    var s := SessionRows(prefix, k);
    SessionRowsNonEmpty(prefix, k);
    assert (s + [row])[..|s|] == s;
  }

  /** Absorbing the first row of a session starts a group of one. */
  lemma AbsorbFirst(prefix: seq<Entry>, row: Entry, g: Grouping)
    requires Covered(g) && row.sessionId !in SessionKeys(prefix) && row.sessionId !in g.groups
    ensures var k := row.sessionId;
      Absorb(g, row).groups[k] == Group(LatestDate(prefix + [row], k), Frequency(prefix + [row], k), Monetary(prefix + [row], k))
  {
    var k := row.sessionId;
    SessionKeysSnoc(prefix, row);
    SessionRowsSnoc(prefix, row, k);
    SessionRowsNonEmpty(prefix, k);
    var s := SessionRows(prefix + [row], k);
    assert s == [row];
    assert MaxDate(s) == row.date;
    assert SumTotals(s) == SumTotals([]) + row.total by {
      assert s[..0] == [];
    }
  }

  /** Absorbing a row leaves the groups of the other sessions alone. */
  lemma AbsorbOther(prefix: seq<Entry>, row: Entry, g: Grouping, k: string)
    requires Covered(g) && k != row.sessionId && k in SessionKeys(prefix) && k in g.groups
    requires g.groups[k] == Group(LatestDate(prefix, k), Frequency(prefix, k), Monetary(prefix, k))
    ensures Absorb(g, row).groups[k] == Group(LatestDate(prefix + [row], k), Frequency(prefix + [row], k), Monetary(prefix + [row], k))
  {
    SessionKeysSnoc(prefix, row);
    SessionRowsSnoc(prefix, row, k);
  }

  /** The pass leaves in the group of `k` the latest date, row count and revenue of session `k`. */
  lemma {:induction false} GroupRowsGroup(rows: seq<Entry>, k: string)
    requires k in SessionKeys(rows)
    ensures k in GroupRows(rows).groups
    ensures GroupRows(rows).groups[k] == Group(LatestDate(rows, k), Frequency(rows, k), Monetary(rows, k))
  {
    GroupRowsKeys(rows);
    var prefix, row := rows[..|rows| - 1], rows[|rows| - 1];
    assert rows == prefix + [row];
    var g := GroupRows(prefix);
    GroupRowsKeys(prefix);
    SessionKeysSnoc(prefix, row);
    if k in SessionKeys(prefix) {
      GroupRowsGroup(prefix, k);
      if row.sessionId == k {
        AbsorbSeen(prefix, row, g);
      } else {
        AbsorbOther(prefix, row, g, k);
      }
    } else {
      AbsorbFirst(prefix, row, g);
    }
  }

  /** The counts of all groups add up to the number of rows, their revenues to the sum of totals. */
  lemma {:induction false} GroupRowsTotals(rows: seq<Entry>)
    ensures Totals(GroupRows(rows).order, GroupRows(rows).groups) == (|rows|, SumTotals(rows))
  {
    if rows != [] {
      var prefix, row := rows[..|rows| - 1], rows[|rows| - 1];
      var g := GroupRows(prefix);
      GroupRowsTotals(prefix);
      GroupRowsKeySet(prefix);
      AbsorbTotals(g, row);
    }
  }

  /** The pass keeps one group per listed key and lists no key twice. */
  lemma GroupRowsKeySet(rows: seq<Entry>)
    ensures Distinct(GroupRows(rows).order)
    ensures GroupRows(rows).groups.Keys == set k | k in GroupRows(rows).order
  {
    GroupRowsKeys(rows);
  }

  /** Absorbing a row adds one to the total count and its total to the total revenue. */
  lemma AbsorbTotals(g: Grouping, row: Entry)
    requires Covered(g) && Distinct(g.order) && g.groups.Keys == set k | k in g.order
    ensures Totals(Absorb(g, row).order, Absorb(g, row).groups).0 == Totals(g.order, g.groups).0 + 1
    ensures Totals(Absorb(g, row).order, Absorb(g, row).groups).1 == Totals(g.order, g.groups).1 + row.total
  {
    var k := row.sessionId;
    var g' := Absorb(g, row);
    if k in g.groups {
      TotalsUpdate(g.order, g.groups, k, g'.groups[k]);
    } else {
      TotalsFrame(g.order, g.groups, k, g'.groups[k]);
      assert (g.order + [k])[..|g.order|] == g.order;
    }
  }

  // ---------------------------------------------------------------------------
  // Properties of the recap table
  // ---------------------------------------------------------------------------

  lemma {:induction false} DistinctCard<T>(s: seq<T>)
    requires Distinct(s)
    ensures |set x | x in s| == |s|
  {
    if s != [] {
      var prefix := s[..|s| - 1];
      DistinctCard(prefix);
      assert (set x | x in s) == (set x | x in prefix) + {s[|s| - 1]};
    }
  }

  /** The table's keys are the pass's keys, in the same order. */
  lemma RfmTableOrder(rows: seq<Entry>)
    requires |rows| > 0
    ensures |RfmTable(rows)| == |GroupRows(rows).order|
    ensures forall i :: 0 <= i < |RfmTable(rows)| ==> RfmTable(rows)[i].sessionId == GroupRows(rows).order[i]
  {
    var g := GroupRows(rows);
    EmitAt(g.order, g.groups, ReferenceDay(rows));
  }

  /** The table lists each session key of the input exactly once. */
  lemma RfmTableSessions(rows: seq<Entry>)
    ensures var t := RfmTable(rows);
      && (forall i, j :: 0 <= i < j < |t| ==> t[i].sessionId != t[j].sessionId)
      && (forall k :: k in SessionKeys(rows) <==> exists i :: 0 <= i < |t| && t[i].sessionId == k)
      && |t| == |SessionKeys(rows)|
  {
    if |rows| > 0 {
      var t, order := RfmTable(rows), GroupRows(rows).order;
      GroupRowsKeys(rows);
      RfmTableOrder(rows);
      forall k | k in SessionKeys(rows)
        ensures exists i :: 0 <= i < |t| && t[i].sessionId == k
      {
        var i :| 0 <= i < |order| && order[i] == k;
        assert t[i].sessionId == k;
      }
      DistinctCard(order);
      assert (set x | x in order) == SessionKeys(rows);
    }
  }

  /** The record at position `i` of the table is the expected record of its session. */
  lemma RfmTableAt(rows: seq<Entry>, i: nat)
    requires i < |RfmTable(rows)|
    ensures RfmTable(rows)[i].sessionId in SessionKeys(rows)
    ensures RfmTable(rows)[i] == ExpectedRecord(rows, RfmTable(rows)[i].sessionId)
  {
    var g := GroupRows(rows);
    GroupRowsKeys(rows);
    EmitAt(g.order, g.groups, ReferenceDay(rows));
    assert g.order[i] in g.order;
    GroupRowsGroup(rows, g.order[i]);
  }

  /**
   * A record is in the table exactly when it is the expected record of one of
   * the input's sessions: frequency is the row count, monetary the sum of totals,
   * recency the reference day minus the session's latest date.
   */
  lemma RfmTableRecords(rows: seq<Entry>)
    ensures forall rec :: rec in RfmTable(rows) <==>
              rec.sessionId in SessionKeys(rows) && rec == ExpectedRecord(rows, rec.sessionId)
  {
    var t := RfmTable(rows);
    forall rec | rec in t
      ensures rec.sessionId in SessionKeys(rows) && rec == ExpectedRecord(rows, rec.sessionId)
    {
      var i :| 0 <= i < |t| && t[i] == rec;
      RfmTableAt(rows, i);
    }
    RfmTableSessions(rows);
    forall rec: RfmRecord | rec.sessionId in SessionKeys(rows) && rec == ExpectedRecord(rows, rec.sessionId)
      ensures rec in t
    {
      var i :| 0 <= i < |t| && t[i].sessionId == rec.sessionId;
      RfmTableAt(rows, i);
    }
  }

  /** Frequencies add up to the number of rows, monetary values to the sum of all totals. */
  lemma RfmTableTotals(rows: seq<Entry>)
    ensures FrequencyTotal(RfmTable(rows)) == |rows|
    ensures MonetaryTotal(RfmTable(rows)) == SumTotals(rows)
  {
    if |rows| > 0 {
      var g := GroupRows(rows);
      GroupRowsTotals(rows);
      EmitTotals(g.order, g.groups, ReferenceDay(rows));
    }
  }

  /** The recency of session `k` is at least one day, and exactly one when the session reaches the latest date. */
  lemma ExpectedRecency(rows: seq<Entry>, k: string)
    requires k in SessionKeys(rows)
    ensures ExpectedRecord(rows, k).frequency >= 1 && ExpectedRecord(rows, k).recency >= 1
    ensures ExpectedRecord(rows, k).recency == 1
            <==> exists r :: r in rows && r.sessionId == k && r.date == MaxDate(rows)
  {
    SessionRowsNonEmpty(rows, k);
    var s := SessionRows(rows, k);
    MaxDateIsMaximum(s);
    MaxDateIsMaximum(rows);
    var j :| 0 <= j < |s| && s[j].date == MaxDate(s);
    assert s[j] in rows;
    if exists r :: r in rows && r.sessionId == k && r.date == MaxDate(rows) {
      var r :| r in rows && r.sessionId == k && r.date == MaxDate(rows);
      SessionRowsCount(rows, k, r);
      assert r in multiset(s);
      var i :| 0 <= i < |s| && s[i] == r;
    }
  }

  /**
   * Every session has at least one row and a recency of at least one day; the
   * recency is exactly one day for the sessions that reach the latest date, and
   * there is always such a session.
   */
  lemma RfmTableRecency(rows: seq<Entry>)
    requires |rows| > 0
    ensures forall rec :: rec in RfmTable(rows) ==> rec.frequency >= 1 && rec.recency >= 1
    ensures forall rec :: rec in RfmTable(rows) ==>
              (rec.recency == 1 <==> exists r :: r in rows && r.sessionId == rec.sessionId && r.date == MaxDate(rows))
    ensures exists rec :: rec in RfmTable(rows) && rec.recency == 1
  {
    var t := RfmTable(rows);
    RfmTableRecords(rows);
    forall rec | rec in t
      ensures rec.frequency >= 1 && rec.recency >= 1
      ensures rec.recency == 1 <==> exists r :: r in rows && r.sessionId == rec.sessionId && r.date == MaxDate(rows)
    {
      ExpectedRecency(rows, rec.sessionId);
    }
    MaxDateIsMaximum(rows);
    var i :| 0 <= i < |rows| && rows[i].date == MaxDate(rows);
    var k := rows[i].sessionId;
    assert k in SessionKeys(rows);
    ExpectedRecency(rows, k);
    assert ExpectedRecord(rows, k) in t;
  }

  // ---------------------------------------------------------------------------
  // The recap does not depend on the order of the input rows
  // ---------------------------------------------------------------------------

  lemma {:induction false} SumTotalsConcat(a: seq<Entry>, b: seq<Entry>)
    ensures SumTotals(a + b) == SumTotals(a) + SumTotals(b)
  {
    if b != [] {
      assert (a + b)[..|a + b| - 1] == a + b[..|b| - 1];
      SumTotalsConcat(a, b[..|b| - 1]);
    } else {
      assert a + b == a;
    }
  }

  /** Taking one entry out of a table takes its total out of the sum. */
  lemma SumTotalsRemove(before: seq<Entry>, x: Entry, after: seq<Entry>)
    ensures SumTotals(before + [x] + after) == SumTotals(before + after) + x.total
  {
    SumTotalsConcat(before + [x], after);
    SumTotalsConcat(before, [x]);
    SumTotalsConcat(before, after);
    assert [x][..0] == [];
  }

  lemma SumTotalsAt(t: seq<Entry>, j: nat)
    requires j < |t|
    ensures SumTotals(t) == SumTotals(t[..j] + t[j + 1..]) + t[j].total
  {
    SplitAt(t, j);
    SumTotalsRemove(t[..j], t[j], t[j + 1..]);
  }

  lemma {:induction false} SumTotalsPermutation(s: seq<Entry>, t: seq<Entry>)
    requires multiset(s) == multiset(t)
    ensures SumTotals(s) == SumTotals(t)
  {
    if s == [] {
      assert |t| == |multiset(t)| == 0;
    } else {
      var prefix, x := s[..|s| - 1], s[|s| - 1];
      MultisetLast(s);
      assert x in multiset(t);
      var j :| 0 <= j < |t| && t[j] == x;
      MultisetRemoveAt(t, j);
      SumTotalsPermutation(prefix, t[..j] + t[j + 1..]);
      SumTotalsAt(t, j);
    }
  }

  lemma MaxDatePermutation(s: seq<Entry>, t: seq<Entry>)
    requires |s| > 0 && multiset(s) == multiset(t)
    ensures |t| > 0 && MaxDate(s) == MaxDate(t)
  {
    assert |t| == |multiset(t)| == |multiset(s)| == |s|;
    MaxDateIsMaximum(s);
    MaxDateIsMaximum(t);
    var i :| 0 <= i < |s| && s[i].date == MaxDate(s);
    var j :| 0 <= j < |t| && t[j].date == MaxDate(t);
    assert s[i] in multiset(t) && t[j] in multiset(s);
  }

  lemma SessionKeysPermutation(p: seq<Entry>, q: seq<Entry>)
    requires multiset(p) == multiset(q)
    ensures SessionKeys(p) == SessionKeys(q)
  {
    forall r ensures r in p <==> r in q {
      assert r in p <==> r in multiset(p);
      assert r in q <==> r in multiset(q);
    }
  }

  lemma SessionRowsPermutation(p: seq<Entry>, q: seq<Entry>, k: string)
    requires multiset(p) == multiset(q)
    ensures multiset(SessionRows(p, k)) == multiset(SessionRows(q, k))
  {
    forall r ensures multiset(SessionRows(p, k))[r] == multiset(SessionRows(q, k))[r] {
      SessionRowsCount(p, k, r);
      SessionRowsCount(q, k, r);
    }
  }

  lemma ExpectedRecordPermutation(p: seq<Entry>, q: seq<Entry>, k: string)
    requires multiset(p) == multiset(q) && k in SessionKeys(p)
    ensures k in SessionKeys(q) && ExpectedRecord(p, k) == ExpectedRecord(q, k)
  {
    SessionKeysPermutation(p, q);
    SessionRowsPermutation(p, q, k);
    var sp, sq := SessionRows(p, k), SessionRows(q, k);
    assert |sp| == |multiset(sp)| == |multiset(sq)| == |sq|;
    SumTotalsPermutation(sp, sq);
    SessionRowsNonEmpty(p, k);
    MaxDatePermutation(sp, sq);
    MaxDatePermutation(p, q);
  }

  lemma {:induction false} DistinctMultiset<T>(s: seq<T>, x: T)
    requires Distinct(s)
    ensures multiset(s)[x] == if x in s then 1 else 0
  {
    if s != [] {
      var prefix := s[..|s| - 1];
      assert s == prefix + [s[|s| - 1]];
      DistinctMultiset(prefix, x);
    }
  }

  /** Reordering the input rows reorders the table and changes nothing else. */
  lemma RfmTablePermutation(p: seq<Entry>, q: seq<Entry>)
    requires multiset(p) == multiset(q)
    ensures multiset(RfmTable(p)) == multiset(RfmTable(q))
  {
    var tp, tq := RfmTable(p), RfmTable(q);
    RfmTableRecords(p);
    RfmTableRecords(q);
    RfmTableSessions(p);
    RfmTableSessions(q);
    forall rec: RfmRecord ensures rec in tp <==> rec in tq {
      if rec in tp {
        ExpectedRecordPermutation(p, q, rec.sessionId);
      }
      if rec in tq {
        ExpectedRecordPermutation(q, p, rec.sessionId);
      }
    }
    forall rec: RfmRecord ensures multiset(tp)[rec] == multiset(tq)[rec] {
      DistinctMultiset(tp, rec);
      DistinctMultiset(tq, rec);
    }
  }

  /** The recap of a table and of any reordering of its rows list the same records. */
  lemma RfmRecapPermutation(columns: set<string>, p: seq<Row>, q: seq<Row>)
    requires multiset(p) == multiset(q)
    ensures RfmRecap(columns, p).KeyError? == RfmRecap(columns, q).KeyError?
    ensures RfmRecap(columns, p).Ok? ==> multiset(RfmRecap(columns, p).value) == multiset(RfmRecap(columns, q).value)
  {
    KeyedPermutation(p, q);
    RfmTablePermutation(Keyed(p), Keyed(q));
  }
}
