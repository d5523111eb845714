# Bike-rental RFM dashboard, modelled in Dafny

`dashboard.py` is a Streamlit dashboard over a table of bike rentals. Each row
has a date, an hour of day (`hr`) and a rental total. The script works in four steps:

1. It builds an RFM recap of the whole table (`create_rfm_recap`). This adds a
   `session_id` column, `str(date) + "_" + str(hr)`, to the caller's table in place.
2. It keeps the rows whose date lies in a chosen range, both ends included.
3. It builds the recap again on those rows.
4. It shows three top-5 rankings of the recap: by recency ascending, and by
   frequency and by monetary value descending.

The recap has one record per session:
- **recency** is the days from the reference day (the latest date plus one day)
  back to the session's latest date;
- **frequency** is the session's row count;
- **monetary** is the sum of the session's totals.

Modules, one file each:

- `Sessions` (`sessions.dfy`): the row type, Python's `str` of an integer, and
  the session key. The key is proved injective: two rows share a key exactly
  when they agree on date and hour.
- `Recap` (`recap.dfy`): the column checks and their `KeyError`s, and the
  group-by as one left-to-right pass. A reference definition describes each
  session on its own (its rows, count, sum, latest date). Lemmas prove the two
  agree. They also cover:
  - the table's key set;
  - the totals;
  - recency bounds;
  - independence from row order.
- `DateFilter` (`date_filter.dfy`): boolean-mask indexing `df[mask]` and the
  inclusive date mask.
- `TopFive` (`top_five.dfy`): sorting by one metric in its direction, then
  `head(5)`.
- `Dashboard` (`dashboard.dfy`): a `Frame` class whose `session_id` column the
  recap updates in place, and the selection that copies a frame. `Run` is the
  script's path from line 39 to line 86. Lemmas relate the recap of a date range
  to the recap of the whole table.
- `Scenario` (`scenario.dfy`): a worked three-row example.
- `Sequences` (`sequences.dfy`): facts about splitting sequences, used by the
  permutation proofs.

Dates are day numbers (`int`), hours and totals are `int`s.

## Model

| member | source | states |
|---|---|---|
| Sessions.NatText | dashboard.py:18 | the decimal text of a natural number is non-empty and all digits; it is one character exactly when the number is below 10 |
| Sessions.NatTextInjective | dashboard.py:18 | two natural numbers have the same decimal text exactly when they are equal |
| Sessions.IntTextHasNoSeparator | dashboard.py:18 | `str` of an integer never contains `_`, so a session key splits uniquely at its separator |
| Sessions.IntTextInjective | dashboard.py:18 | two integers have the same `str` exactly when they are equal, negative numbers included |
| Sessions.SessionIdInjective | dashboard.py:18 | two rows get the same `session_id` if and only if they agree on both `date` and `hr` |
| Sessions.SessionColumn | dashboard.py:18 | the derived column has one entry per row |
| Sessions.SessionColumnShared | dashboard.py:18 | entries `i` and `j` of the derived column are equal exactly when rows `i` and `j` share date and hour |
| Recap.Keyed | dashboard.py:18-21 | the table as the group-by reads it has as many entries as the input has rows |
| Recap.KeyedSessions | dashboard.py:18-21 | the key of each entry is that row's `session_id`, and two entries share a key exactly when their rows share date and hour |
| Recap.KeyedPermutation | dashboard.py:18-21 | reordering the rows only reorders the keyed entries |
| Recap.MaxDateIsMaximum | dashboard.py:20 | `df['date'].max()` is the date of some row and no row is later |
| Recap.SessionRows | dashboard.py:21 | the rows of a session are input rows carrying that key |
| Recap.SessionRowsCount | dashboard.py:21 | a session's rows hold each input row of that key exactly as often as the input does, and no row of another key |
| Recap.SessionRowsNonEmpty | dashboard.py:21 | a session has at least one row exactly when its key occurs in the input |
| Recap.RfmRecap | dashboard.py:10-27 | fails with `KeyError` exactly when one of `date`, `hr`, `total` is missing; the date/hour error exactly when `date` or `hr` is missing and it takes precedence; otherwise yields the recap of the keyed rows |
| Recap.GroupRowsKeys | dashboard.py:21 | the pass records each session key of the input once and no other key |
| Recap.GroupRowsGroup | dashboard.py:21-24 | the running group of each key holds that session's latest date, row count and sum of totals |
| Recap.GroupRowsTotals | dashboard.py:23-24 | the group counts add up to the row count and the group sums to the sum of all totals |
| Recap.EmitAt | dashboard.py:21-25 | `reset_index` yields one record per listed key, in that order, with the key's aggregates |
| Recap.RfmTableSessions | dashboard.py:21-25 | no session key is repeated in the table, every key of the input has a record, and the table has as many records as the input has distinct keys |
| Recap.RfmTableAt | dashboard.py:21-25 | each record of the table is the expected record of an input session |
| Recap.RfmTableRecords | dashboard.py:20-25 | a record is in the table if and only if it is the expected record of an input session, with recency = reference day minus the session's latest date, frequency = its row count and monetary = its sum of totals |
| Recap.RfmTableTotals | dashboard.py:23-24 | frequencies add up to the number of input rows and monetary values to the sum of all totals |
| Recap.ExpectedRecency | dashboard.py:20-23 | a session's frequency and recency are at least 1; recency is 1 exactly when the session has a row on the latest date |
| Recap.RfmTableRecency | dashboard.py:20-23 | on a non-empty table every record has frequency and recency at least 1; recency is 1 exactly for the sessions that reach the latest date; some record has recency 1 |
| Recap.SumTotalsPermutation | dashboard.py:24 | the sum of totals does not depend on row order |
| Recap.MaxDatePermutation | dashboard.py:20 | the latest date does not depend on row order |
| Recap.RfmTablePermutation | dashboard.py:20-25 | the recaps of two orderings of the same rows hold the same records |
| Recap.RfmRecapPermutation | dashboard.py:10-27 | reordering the rows changes neither whether the recap fails nor which records it holds |
| DateFilter.KeptIndices | dashboard.py:62 | the positions a mask keeps are true positions, increasing, and include every true position |
| DateFilter.WhereAt | dashboard.py:62 | `xs[mask]` lists exactly the elements at the kept positions, in order |
| DateFilter.DateMask | dashboard.py:62 | the mask has one entry per row |
| DateFilter.DateRangeSnoc | dashboard.py:62 | with one more row, the selection gains that row at its end exactly when the row is dated within the range |
| DateFilter.DateRangeSelects | dashboard.py:62 | the selection keeps row `i` if and only if `start <= date <= end`, keeps relative order, and returns the kept rows unchanged |
| DateFilter.DateRangeMembers | dashboard.py:62 | a row is in the selection exactly when it is an input row dated within the range, both ends included |
| DateFilter.WhereSubMultiset | dashboard.py:62 | a selection never holds a row more often than the input |
| TopFive.RanksAtLeastMeaning | dashboard.py:76-86 | recency ranks ascending; frequency and monetary value rank descending |
| TopFive.Insert | dashboard.py:76-86 | inserting into a ranked sequence adds exactly that record and keeps it ranked |
| TopFive.SortBy | dashboard.py:76-86 | `sort_values` yields a permutation of the table ranked by the metric |
| TopFive.RankedCons | dashboard.py:76-86 | a record that ranks at least as high as all of a ranked sequence may go in front of it |
| TopFive.RankedSplit | dashboard.py:76-86 | in a ranked sequence no later record ranks strictly better than an earlier one |
| TopFive.TopShape | dashboard.py:76-86 | each top-5 list has min(5, number of records) records, listed best first |
| TopFive.TopFromTable | dashboard.py:76-86 | every record of a top-5 list comes from the recap, no more often than it occurs there |
| TopFive.TopBest | dashboard.py:76-86 | no record left out of a top-5 list ranks strictly better than one in it |
| TopFive.RankedScoresAgree | dashboard.py:76-86 | two rankings of the same records by the same metric have the same metric value at every position, however they order ties |
| TopFive.TopScoresDetermined | dashboard.py:76-86 | the metric values a top-5 list shows are the first min(5, number of records) values of any ranking of the recap |
| Dashboard.Frame.constructor | dashboard.py:30-36 | a frame holds the given columns, rows and `session_id` entries |
| Dashboard.CreateRfmRecap | dashboard.py:10-27 | returns `RfmRecap` of the frame as it was; on an error leaves the frame unchanged; on success adds `session_id` to the columns and stores the derived column, rows unchanged |
| Dashboard.SelectDates | dashboard.py:62 | a fresh frame with the same columns, the rows dated within the range, and the matching `session_id` entries |
| Dashboard.Run | dashboard.py:39-86 | fails exactly when a required column is missing, with that call's error and the table untouched; otherwise the table has gained `session_id`, the recap is that of the rows in range and the three lists are its top-5 rankings |
| Dashboard.RangeSessionRows | dashboard.py:62-65 | when every row of a session is in range, the selection keeps all of that session's rows in order |
| Dashboard.RangeSessionIsWhole | dashboard.py:62 | since a `session_id` (line 18) carries its date, a session of the range is a session of the whole table of which every row lies in the range |
| Dashboard.RangeMaxDate | dashboard.py:62 | the whole table's latest date is no earlier than the range's |
| Dashboard.RangeRecord | dashboard.py:62-65 | a session's record in the range's recap has the same frequency and monetary value as in the whole table's recap and no larger recency |
| Dashboard.RangeKeepsWholeSessions | dashboard.py:39-65 | every record of the range's recap matches a record of the whole table's recap in key, frequency and monetary value, with at least as large a recency there |
| Dashboard.RangeSessionColumn | dashboard.py:62-65 | line 65 recomputes for the selected rows the same `session_id` entries line 39 gave them |
| Scenario.SampleSessionIds | dashboard.py:18 | rows dated day 19723 at 9 o'clock get `19723_9`, day 19724 at 14 o'clock gets `19724_14` |
| Scenario.SampleRecapResult | dashboard.py:10-27 | the sample recap is `19723_9` (recency 2, frequency 2, monetary 15) and `19724_14` (recency 1, frequency 1, monetary 20) |
| Scenario.SampleTopMonetary | dashboard.py:86 | ranked by monetary value, `19724_14` comes before `19723_9` |

## Left out

- CSV loading (dashboard.py:30) is file I/O. A loaded table is a `Frame` built from its columns and rows.
- Date parsing and dropping unparseable dates (dashboard.py:33-36) are library parsing. Dates are valid integer day numbers from the start.
- The Streamlit interface is left out: sidebar, logo, `date_input`, checkbox and `st.write` calls (dashboard.py:42-59 and 68-88). The range bounds are parameters of `Run`.
- The bar charts and their `'.0f'` annotations (dashboard.py:90 onwards) are rendering and floating-point formatting.
- Sessions.SessionId: `str` of a pandas date is the text `YYYY-MM-DD`; the model writes the decimal day number instead. Both forms are injective and contain no `_`, which is all that grouping depends on. Only the Scenario strings show the difference.
- Sessions.Row: `hr` and `total` are integers. Float totals and an `hr` column of mixed types are not modelled.
- Recap.RfmTable: pandas lists the groups sorted by key; the model lists them in order of first appearance. No contract states the order: the lemmas characterise the table as a set of records, and the rankings re-sort it anyway.
- Recap.RfmTable: on a table without rows the code has no guard. `df['date'].max()` is then NaT, but with no groups nothing reads it. The model yields an empty recap. An "empty input" error described for this system is not raised by the code, and the model follows the code.
- TopFive.SortBy: `sort_values` does not fix the order of records with equal keys. The model's insertion sort picks one order. No contract depends on which, and TopFive.TopScoresDetermined shows that the metric values displayed are the same under any order of ties; only which of the tied sessions is named may differ.
- Dashboard.Frame: only the columns the recap reads (`date`, `hr`, `total`, `session_id`) carry values. Other columns are named in `columns` but hold nothing.
- Dashboard.Run: the recap from line 39 is computed and then overwritten at line 65. The model keeps only its error and its side effect on the table.
