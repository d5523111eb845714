/**
 * A worked example. Day 19723 is 2024-01-01 counted from 1970-01-01. Two rentals
 * at 9 o'clock on that day (totals 10 and 5) and one at 14 o'clock on the next
 * day (total 20) make two sessions. The reference day is 19725, so the first
 * session has recency 2 and the second recency 1.
 */
module Scenario {
  import opened Sessions
  import opened Recap
  import opened TopFive

  function SampleRows(): seq<Row> {
    [Row(19723, 9, 10), Row(19723, 9, 5), Row(19724, 14, 20)]
  }

  function SampleEntries(): seq<Entry> {
    [Entry("19723_9", 19723, 10), Entry("19723_9", 19723, 5), Entry("19724_14", 19724, 20)]
  }

  function SampleRecap(): seq<RfmRecord> {
    [RfmRecord("19723_9", 2, 2, 15), RfmRecord("19724_14", 1, 1, 20)]
  }

  /** The `session_id` of each sample row. */
  lemma SampleSessionIds()
    ensures SessionId(Row(19723, 9, 10)) == SessionId(Row(19723, 9, 5)) == "19723_9"
    ensures SessionId(Row(19724, 14, 20)) == "19724_14"
  {
    assert NatText(1) == "1" && NatText(19) == "19" && NatText(197) == "197" && NatText(1972) == "1972";
    assert IntText(19723) == "19723" && IntText(19724) == "19724";
    assert IntText(9) == "9" && IntText(14) == "14";
  }

  lemma SampleKeyed()
    ensures Keyed(SampleRows()) == SampleEntries()
  {
    SampleSessionIds();
    var k := Keyed(SampleRows());
    assert k[0] == SampleEntries()[0] && k[1] == SampleEntries()[1] && k[2] == SampleEntries()[2];
  }

  /** The running groups after the pass over the sample. */
  lemma SampleGroups()
    ensures GroupRows(SampleEntries())
            == Grouping(["19723_9", "19724_14"], map["19723_9" := Group(19723, 2, 15), "19724_14" := Group(19724, 1, 20)])
  {
    var a, b := "19723_9", "19724_14";
    var entries := SampleEntries();
    assert entries[..2][..1] == [entries[0]] && entries[..2] == [entries[0], entries[1]];
    assert GroupRows([entries[0]]) == Grouping([a], map[a := Group(19723, 1, 10)]);
    assert GroupRows(entries[..2]) == Grouping([a], map[a := Group(19723, 2, 15)]);
    assert a != b by { assert a[6] != b[6]; }
  }

  lemma SampleTable()
    ensures RfmTable(SampleEntries()) == SampleRecap()
  {
    var a, b := "19723_9", "19724_14";
    var entries := SampleEntries();
    SampleGroups();
    assert entries[..2][..1] == [entries[0]] && entries[..2] == [entries[0], entries[1]];
    assert MaxDate(entries[..2]) == 19723;
    var groups := map[a := Group(19723, 2, 15), b := Group(19724, 1, 20)];
    assert [a, b][..1] == [a];
    assert Emit([a], groups, 19725) == [RfmRecord(a, 2, 2, 15)];
  }

  /** The recap of the sample table with all three columns present. */
  lemma SampleRecapResult()
    ensures RfmRecap({"date", "hr", "total"}, SampleRows()) == Ok(SampleRecap())
  {
    SampleKeyed();
    SampleTable();
  }

  /** Ranked by monetary value, the later session (20) comes before the earlier one (15). */
  lemma SampleTopMonetary()
    ensures Top(SampleRecap(), ByMonetary) == [SampleRecap()[1], SampleRecap()[0]]
  {
    var t := SampleRecap();
    assert t[1..] == [t[1]];
    assert SortBy([t[1]], ByMonetary) == [t[1]];
  }
}
