/**
 * The date-range selection of dashboard.py line 62: a boolean mask
 * `(date >= start) & (date <= end)` computed per row, then `df[mask]`, which keeps
 * the rows whose mask entry is true, in their original order.
 */
module DateFilter {
  import opened Sessions

  /** Boolean-mask indexing `xs[mask]`. */
  function Where<T>(xs: seq<T>, mask: seq<bool>): seq<T>
    requires |mask| == |xs|
  {
    if xs == [] then []
    else
      var rest := Where(xs[..|xs| - 1], mask[..|mask| - 1]);
      if mask[|mask| - 1] then rest + [xs[|xs| - 1]] else rest
  }

  /** The positions where the mask is true, in increasing order. */
  function KeptIndices(mask: seq<bool>): (idx: seq<nat>)
    ensures forall j :: 0 <= j < |idx| ==> idx[j] < |mask| && mask[idx[j]]
    ensures forall j, j' :: 0 <= j < j' < |idx| ==> idx[j] < idx[j']
    ensures forall i :: 0 <= i < |mask| && mask[i] ==> i in idx
  {
    if mask == [] then []
    else
      var rest := KeptIndices(mask[..|mask| - 1]);
      if mask[|mask| - 1] then rest + [|mask| - 1] else rest
  }

  /** Indexing by a mask picks out exactly the elements at the kept positions. */
  lemma {:induction false} WhereAt<T>(xs: seq<T>, mask: seq<bool>)
    requires |mask| == |xs|
    ensures |Where(xs, mask)| == |KeptIndices(mask)|
    ensures forall j :: 0 <= j < |KeptIndices(mask)| ==> Where(xs, mask)[j] == xs[KeptIndices(mask)[j]]
  {
    if xs != [] {
      WhereAt(xs[..|xs| - 1], mask[..|mask| - 1]);
    }
  }

  /** `(df['date'] >= start) & (df['date'] <= end)`. */
  function DateMask(rows: seq<Row>, start: int, end: int): (mask: seq<bool>)
    ensures |mask| == |rows|
  {
    seq(|rows|, i requires 0 <= i < |rows| => start <= rows[i].date && rows[i].date <= end)
  }

  /** The rows of the selected date range, both ends included. */
  function DateRange(rows: seq<Row>, start: int, end: int): seq<Row> {
    Where(rows, DateMask(rows, start, end))
  }

  /** Selecting from a table with one more row: the row is appended exactly when its date is in range. */
  lemma DateRangeSnoc(prefix: seq<Row>, last: Row, start: int, end: int)
    ensures DateRange(prefix + [last], start, end)
            == if start <= last.date <= end then DateRange(prefix, start, end) + [last] else DateRange(prefix, start, end)
  {
    var rows := prefix + [last];
    assert rows[..|rows| - 1] == prefix;
    assert DateMask(rows, start, end)[..|rows| - 1] == DateMask(prefix, start, end);
  }

  /**
   * The range keeps the rows at the positions `idx` and no others: `idx` is
   * increasing (relative order is kept), a position is in `idx` exactly when its
   * date lies in `[start, end]`, and every kept row is the input row unchanged.
   */
  lemma DateRangeSelects(rows: seq<Row>, start: int, end: int)
    ensures var idx, kept := KeptIndices(DateMask(rows, start, end)), DateRange(rows, start, end);
      && |kept| == |idx|
      && (forall j, j' :: 0 <= j < j' < |idx| ==> idx[j] < idx[j'])
      && (forall i :: 0 <= i < |rows| ==> (i in idx <==> start <= rows[i].date <= end))
      && (forall j :: 0 <= j < |idx| ==> idx[j] < |rows| && kept[j] == rows[idx[j]])
  {
    WhereAt(rows, DateMask(rows, start, end));
  }

  /** A row is kept exactly when it is an input row dated within the range. */
  lemma DateRangeMembers(rows: seq<Row>, start: int, end: int)
    ensures forall r :: r in DateRange(rows, start, end) <==> r in rows && start <= r.date <= end
  {
    var idx, kept := KeptIndices(DateMask(rows, start, end)), DateRange(rows, start, end);
    DateRangeSelects(rows, start, end);
    forall r | r in kept ensures r in rows && start <= r.date <= end {
      var j :| 0 <= j < |kept| && kept[j] == r;
      assert idx[j] in idx;
    }
    forall r | r in rows && start <= r.date <= end ensures r in kept {
      var i :| 0 <= i < |rows| && rows[i] == r;
      var j :| 0 <= j < |idx| && idx[j] == i;
    }
  }

  /** Selection never adds rows: the kept rows are a sub-multiset of the input. */
  lemma {:induction false} WhereSubMultiset<T>(xs: seq<T>, mask: seq<bool>)
    requires |mask| == |xs|
    ensures multiset(Where(xs, mask)) <= multiset(xs)
  {
    if xs != [] {
      var prefix := xs[..|xs| - 1];
      assert xs == prefix + [xs[|xs| - 1]];
      WhereSubMultiset(prefix, mask[..|mask| - 1]);
    }
  }
}
