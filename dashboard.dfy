/**
 * The dashboard script as a sequence of steps on a data frame: the recap of the
 * whole table (dashboard.py line 39), which adds the `session_id` column to that
 * table in place; the date-range selection (line 62); the recap of the selection
 * (line 65); and the three top-5 rankings (lines 76, 81, 86).
 */
module Dashboard {
  import opened Sessions
  import opened Recap
  import opened DateFilter
  import opened TopFive

  /**
   * A data frame: the names of its columns, its rows, and the `session_id`
   * column once the recap has added it. A row keeps its date, hour and total
   * whichever columns are named; a missing column only makes reading it fail.
   */
  class Frame {
    var columns: set<string>
    var rows: seq<Row>
    var sessionIds: seq<string>

    ghost predicate Valid()
      reads this
    {
      "session_id" in columns ==> |sessionIds| == |rows|
    }

    constructor (columns: set<string>, rows: seq<Row>, sessionIds: seq<string>)
      requires "session_id" in columns ==> |sessionIds| == |rows|
      ensures Valid()
      ensures this.columns == columns && this.rows == rows && this.sessionIds == sessionIds
    {
      this.columns := columns;
      this.rows := rows;
      this.sessionIds := sessionIds;
    }
  }

  /**
   * `create_rfm_recap(df)`, dashboard.py lines 10-27. The column checks come first
   * and leave the frame alone; on success the frame gains (or has overwritten)
   * its `session_id` column, and the group-by reads that column.
   */
  method CreateRfmRecap(df: Frame) returns (result: Result<seq<RfmRecord>>)
    requires df.Valid()
    modifies df
    ensures df.Valid()
    ensures result == RfmRecap(old(df.columns), old(df.rows))
    ensures df.rows == old(df.rows)
    ensures result.KeyError? ==> df.columns == old(df.columns) && df.sessionIds == old(df.sessionIds)
    ensures result.Ok? ==> df.columns == old(df.columns) + {"session_id"} && df.sessionIds == SessionColumn(df.rows)
  {
    if "date" !in df.columns || "hr" !in df.columns {
      return KeyError(DateOrHr);
    }
    if "total" !in df.columns {
      return KeyError(Total);
    }
    var rows := df.rows;
    var ids := SessionColumn(rows);
    df.columns := df.columns + {"session_id"};
    df.sessionIds := ids;
    // groupby('session_id') reads the new column next to `date` and `total`
    var entries := seq(|rows|, i requires 0 <= i < |rows| => Entry(ids[i], rows[i].date, rows[i].total));
    assert entries == Keyed(rows);
    result := Ok(RfmTable(entries));
  }

  /**
   * `df[(df['date'] >= start) & (df['date'] <= end)]`, dashboard.py line 62: a new
   * frame with the same columns, holding the rows dated within the range and
   * their `session_id` entries. The script reaches this line only once line 39
   * has found the `date` column.
   */
  method SelectDates(df: Frame, start: int, end: int) returns (f: Frame)
    requires df.Valid() && "date" in df.columns
    ensures fresh(f) && f.Valid()
    ensures f.columns == df.columns
    ensures f.rows == DateRange(df.rows, start, end)
    ensures f.sessionIds == if "session_id" in df.columns then Where(df.sessionIds, DateMask(df.rows, start, end)) else []
  {
    var mask := DateMask(df.rows, start, end);
    var ids := if "session_id" in df.columns then Where(df.sessionIds, mask) else [];
    WhereAt(df.rows, mask);
    if "session_id" in df.columns {
      WhereAt(df.sessionIds, mask);
    }
    f := new Frame(df.columns, Where(df.rows, mask), ids);
  }

  /** What the dashboard shows: the recap of the selected range and its three rankings. */
  datatype View = View(recap: seq<RfmRecord>, topRecency: seq<RfmRecord>, topFrequency: seq<RfmRecord>, topMonetary: seq<RfmRecord>)

  /**
   * dashboard.py lines 39-86 for a chosen range `[start, end]`. A missing column
   * stops the script at line 39 with the error of that call; otherwise the
   * loaded table has gained its `session_id` column and the view is the recap of
   * the rows in range with its rankings.
   */
  method Run(dfDay: Frame, start: int, end: int) returns (view: Result<View>)
    requires dfDay.Valid()
    modifies dfDay
    ensures dfDay.Valid() && dfDay.rows == old(dfDay.rows)
    ensures view.Ok? <==> {"date", "hr", "total"} <= old(dfDay.columns)
    ensures view.KeyError? ==> view.missing == RfmRecap(old(dfDay.columns), old(dfDay.rows)).missing
    ensures view.KeyError? ==> dfDay.columns == old(dfDay.columns) && dfDay.sessionIds == old(dfDay.sessionIds)
    ensures view.Ok? ==> dfDay.columns == old(dfDay.columns) + {"session_id"} && dfDay.sessionIds == SessionColumn(dfDay.rows)
    ensures view.Ok? ==> view.value.recap == RfmTable(Keyed(DateRange(dfDay.rows, start, end)))
    ensures view.Ok? ==> view.value.topRecency == Top(view.value.recap, ByRecency)
    ensures view.Ok? ==> view.value.topFrequency == Top(view.value.recap, ByFrequency)
    ensures view.Ok? ==> view.value.topMonetary == Top(view.value.recap, ByMonetary)
  {
    var full := CreateRfmRecap(dfDay);
    if full.KeyError? {
      return KeyError(full.missing);
    }
    var filtered := SelectDates(dfDay, start, end);
    var recap := CreateRfmRecap(filtered);
    assert recap.Ok?;
    var table := recap.value;
    view := Ok(View(table, Top(table, ByRecency), Top(table, ByFrequency), Top(table, ByMonetary)));
  }

  // ---------------------------------------------------------------------------
  // The recap of a date range against the recap of the whole table
  // ---------------------------------------------------------------------------

  /**
   * When every row of session `k` lies in the range, the selection keeps all of
   * that session's rows, in order.
   */
  lemma {:induction false} RangeSessionRows(rows: seq<Row>, start: int, end: int, k: string)
    requires forall r :: r in rows && SessionId(r) == k ==> start <= r.date <= end
    ensures SessionRows(Keyed(DateRange(rows, start, end)), k) == SessionRows(Keyed(rows), k)
  {
    if rows != [] {
      var prefix, last := rows[..|rows| - 1], rows[|rows| - 1];
      assert rows == prefix + [last];
      RangeSessionRows(prefix, start, end, k);
      DateRangeSnoc(prefix, last, start, end);
      KeyedConcat(prefix, [last]);
      assert Keyed([last]) == [EntryOf(last)];
      SessionRowsSnoc(Keyed(prefix), EntryOf(last), k);
      if start <= last.date <= end {
        var kept := DateRange(prefix, start, end);
        KeyedConcat(kept, [last]);
        SessionRowsSnoc(Keyed(kept), EntryOf(last), k);
      }
    }
  }

  /** A session of the range lies wholly in the range and is a session of the whole table. */
  lemma RangeSessionIsWhole(rows: seq<Row>, start: int, end: int, k: string)
    requires k in SessionKeys(Keyed(DateRange(rows, start, end)))
    ensures k in SessionKeys(Keyed(rows))
    ensures forall r :: r in rows && SessionId(r) == k ==> start <= r.date <= end
  {
    var range := DateRange(rows, start, end);
    DateRangeMembers(rows, start, end);
    var j :| 0 <= j < |range| && Keyed(range)[j].sessionId == k;
    var r0 := range[j];
    assert r0 in range;
    forall r | r in rows && SessionId(r) == k ensures start <= r.date <= end {
      SessionIdInjective(r, r0);
    }
    var i :| 0 <= i < |rows| && rows[i] == r0;
    assert Keyed(rows)[i].sessionId == k;
  }

  /** The whole table reaches at least as late a day as any range of it. */
  lemma RangeMaxDate(rows: seq<Row>, start: int, end: int)
    requires |DateRange(rows, start, end)| > 0
    ensures |rows| > 0 && MaxDate(Keyed(DateRange(rows, start, end))) <= MaxDate(Keyed(rows))
  {
    var range := DateRange(rows, start, end);
    DateRangeMembers(rows, start, end);
    MaxDateIsMaximum(Keyed(range));
    MaxDateIsMaximum(Keyed(rows));
    var m :| 0 <= m < |range| && Keyed(range)[m].date == MaxDate(Keyed(range));
    assert range[m] in range;
    var i :| 0 <= i < |rows| && rows[i] == range[m];
    assert Keyed(rows)[i].date == MaxDate(Keyed(range));
  }

  /**
   * The record of session `k` in the range's recap and in the whole table's
   * recap agree on frequency and monetary value; the recency in the range is
   * at most the one in the whole table.
   */
  lemma RangeRecord(rows: seq<Row>, start: int, end: int, k: string)
    requires k in SessionKeys(Keyed(DateRange(rows, start, end)))
    ensures k in SessionKeys(Keyed(rows))
    ensures var part, whole := ExpectedRecord(Keyed(DateRange(rows, start, end)), k), ExpectedRecord(Keyed(rows), k);
      part.frequency == whole.frequency && part.monetary == whole.monetary && part.recency <= whole.recency
  {
    RangeSessionIsWhole(rows, start, end, k);
    RangeSessionRows(rows, start, end, k);
    RangeMaxDate(rows, start, end);
  }

  /**
   * A session key carries its date, so a range keeps all rows of a session or
   * none: each record of the range's recap has a record of the same session in
   * the whole table's recap, with the same frequency and monetary value and at
   * least as large a recency.
   */
  lemma RangeKeepsWholeSessions(rows: seq<Row>, start: int, end: int)
    ensures var part, whole := RfmTable(Keyed(DateRange(rows, start, end))), RfmTable(Keyed(rows));
      forall rec :: rec in part ==>
        exists w :: w in whole && w.sessionId == rec.sessionId && w.frequency == rec.frequency
                    && w.monetary == rec.monetary && w.recency >= rec.recency
  {
    var range := DateRange(rows, start, end);
    var part, whole := RfmTable(Keyed(range)), RfmTable(Keyed(rows));
    RfmTableRecords(Keyed(range));
    RfmTableRecords(Keyed(rows));
    forall rec | rec in part
      ensures exists w :: w in whole && w.sessionId == rec.sessionId && w.frequency == rec.frequency
                          && w.monetary == rec.monetary && w.recency >= rec.recency
    {
      RangeRecord(rows, start, end, rec.sessionId);
      var w := ExpectedRecord(Keyed(rows), rec.sessionId);
      assert w in whole;
    }
  }

  /** Line 65 recomputes `session_id` on the selection: the same entries line 39 gave those rows. */
  lemma {:induction false} RangeSessionColumn(rows: seq<Row>, start: int, end: int)
    ensures SessionColumn(DateRange(rows, start, end)) == Where(SessionColumn(rows), DateMask(rows, start, end))
  {
    if rows != [] {
      var prefix, last := rows[..|rows| - 1], rows[|rows| - 1];
      RangeSessionColumn(prefix, start, end);
      assert DateMask(rows, start, end)[..|rows| - 1] == DateMask(prefix, start, end);
      assert SessionColumn(rows)[..|rows| - 1] == SessionColumn(prefix);
      var kept := DateRange(prefix, start, end);
      if start <= last.date <= end {
        assert DateRange(rows, start, end) == kept + [last];
        assert SessionColumn(kept + [last]) == SessionColumn(kept) + [SessionId(last)];
      } else {
        assert DateRange(rows, start, end) == kept;
      }
    }
  }
}
