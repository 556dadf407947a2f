# Depot maintenance scheduler: a Dafny model of its scheduling core

This project models the scheduling rules of `AircraftScheduler` in
`Depo_Sch_AMARG_enhanced_v7.1.py` and proves properties about them:

- the fiscal calendar;
- the classification of historical depot records (REBASE, is_AMARG, chart visibility);
- detection of 546-day events in the MAF export, and their projection every 546 days up to the end of 2052;
- the flight-hour tiers and two-week spacing of SLEP events;
- the PMI projection engine, with its per-aircraft state, AMARG exclusion and PMI1/PMI2 alternation every 42 months;
- the `BUNO_FY_TASK` keys and their collision suffixes;
- the day deltas;
- the merge of the five event streams into one ledger sorted by BUNO, then START DATE.

Each pandas frame is a sequence of immutable records. A cell pandas may hold as NaN or NaT is an `Option`. Dates are civil dates with exact day arithmetic (`Calendar`).

Modules follow the program's stages:

| module | file | models |
|---|---|---|
| `Calendar` | calendar.dfy | dates, `Timedelta(days=n)`, `DateOffset(months=k)` |
| `Text` | text.dfy | `upper`, `in`, `strip`, `replace`, `str(int)` |
| `Fiscal` | fiscal.dfy | `calculate_fiscal_year`, `calculate_fiscal_quarter` |
| `Records` | records.dfy | configuration constants, input rows, the event record |
| `Classifier` | classifier.dfy | `process_depot_amarg_detection` |
| `Maf546` | maf546.dfy | `analyze_maf_546_events`, `generate_maf_546_projections` |
| `Slep` | slep.dfy | `analyze_bumblebee_slep_events` |
| `Pmi` | pmi.dfy | `find_last_pmi_task`, `get_next_pmi_task`, `get_tms_for_buno`, `get_most_recent_date`, `get_last_squadron`, `generate_future_events_enhanced`, step 6 |
| `Keys` | keys.dfy | `add_enhanced_buno_key` |
| `Ledger` | ledger.dfy | `calculate_enhanced_deltas`, steps 8 to 13 of `run_processing`, the rebase export |
| `PmiScenario`, `Maf546Scenario`, `KeysScenario`, `SlepScenario` | scenarios.dfy | worked examples on concrete records |

`Options` (options.dfy) and `Seqs` (seqs.dfy) are shared helpers.

Behaviour of the code worth knowing:

- **PMI toggle.** `get_next_pmi_task` (Depo_Sch_AMARG_enhanced_v7.1.py:808-815) calls `str.replace`. That replaces every occurrence of the digit, not only the first. So a task that holds both digits does not come back after two toggles (`Pmi.ToggleTwice`).
- **Key dedup per stream.** Keys are deduplicated within each stream, before the streams are concatenated (lines 1038-1048, then 1050 onwards). Keys can therefore repeat across streams. A suffixed key can also meet an existing key that already ends in that suffix (`Keys.KeysNotUniqueAcrossStreams`).
- **Fiscal backfill per column.** FY and QTR are filled from START DATE only when a stream's whole column is empty (lines 1032-1035). A single missing value is not filled (`Ledger.BackfillIsPerColumn`).
- **Suffix on the first member.** Every member of a colliding group gets a suffix, the first included (`_0`). The mask uses `keep=False` and the rank comes from `cumcount` (lines 846-854).
- **Delta source.** The first delta runs from FID to START DATE (lines 884-887).

## Model

| member | source | states |
|---|---|---|
| Calendar.AddDays | Depo_Sch_AMARG_enhanced_v7.1.py:458 | adding n days moves the day count forward by exactly n |
| Calendar.AddMonths | Depo_Sch_AMARG_enhanced_v7.1.py:765 | moving k months lands k months later on the month line, with the day clamped to the length of the month reached |
| Calendar.AddMonthsNotBefore | Depo_Sch_AMARG_enhanced_v7.1.py:755-767 | a month offset never moves a date backwards, and a positive one moves it strictly forward |
| Calendar.BeforeIffFewerDays | Depo_Sch_AMARG_enhanced_v7.1.py:662-665 | comparing dates field by field agrees with comparing day counts, so horizon tests can be read either way |
| Calendar.FromToDays | Depo_Sch_AMARG_enhanced_v7.1.py:456-459 | converting a date to its day count and back gives the same date, so the day arithmetic behind every finish date is exact |
| Text.UpperKeepsLetterFreeMatches | Depo_Sch_AMARG_enhanced_v7.1.py:420 | for a pattern without letters such as '546' or '1', the test on the upper-cased text holds exactly when the test on the text itself holds |
| Text.ContainsIffOccurs | Depo_Sch_AMARG_enhanced_v7.1.py:420 | the substring test holds exactly when the pattern occurs at some position |
| Text.Strip | Depo_Sch_AMARG_enhanced_v7.1.py:413-414 | the result is a slice of the cell with only white space around it, and it neither begins nor ends with white space |
| Text.ReplaceChar | Depo_Sch_AMARG_enhanced_v7.1.py:813-815 | every occurrence of the character is replaced and nothing else changes |
| Text.ParseNatToString | Depo_Sch_AMARG_enhanced_v7.1.py:853 | the decimal rendering of a sequence number reads back as that number |
| Text.NatToStringInjective | Depo_Sch_AMARG_enhanced_v7.1.py:851-853 | different sequence numbers render as different texts |
| Seqs.Distinct | Depo_Sch_AMARG_enhanced_v7.1.py:629-646 | the distinct values are exactly the values of the input, each appearing once |
| Seqs.DistinctFirstAppearance | Depo_Sch_AMARG_enhanced_v7.1.py:986 | the values keep the order in which they first occur in the input, as `unique()` lists them: a value listed before another occurs before every occurrence of the other |
| Fiscal.FiscalYear | Depo_Sch_AMARG_enhanced_v7.1.py:311-330 | a missing date has no fiscal year; a date's fiscal year is the one whose October-to-September span contains its month |
| Fiscal.FiscalQuarter | Depo_Sch_AMARG_enhanced_v7.1.py:332-360 | a missing date has no quarter; otherwise the quarter is 1 to 4, and it is the three-month slice of the fiscal year holding the date |
| Fiscal.FiscalYearRule | Depo_Sch_AMARG_enhanced_v7.1.py:324 | the fiscal year is the calendar year plus one exactly from October on, and the calendar year exactly before October |
| Fiscal.FiscalQuarterRule | Depo_Sch_AMARG_enhanced_v7.1.py:347-356 | quarter 1 exactly for October to December, 2 for January to March, 3 for April to June, 4 for July to September |
| Classifier.Classify | Depo_Sch_AMARG_enhanced_v7.1.py:362-394 | REBASE exactly when the upper-cased task contains REBASE, is_AMARG exactly when the upper-cased squadron contains AMARG, a missing cell sets neither; the row is visible, not a 546 event, and keeps its own columns |
| Classifier.ClassifyAll | Depo_Sch_AMARG_enhanced_v7.1.py:373-387 | one classified record per depot row, in order |
| Classifier.RebaseIgnoresCase | Depo_Sch_AMARG_enhanced_v7.1.py:375-377 | the REBASE flag does not depend on the letter case of the task |
| Maf546.FirstDateIn | Depo_Sch_AMARG_enhanced_v7.1.py:431-452 | no date exactly when every listed column is empty; otherwise the date comes from a column all of whose predecessors in the priority list are empty |
| Maf546.HistoricalEvent | Depo_Sch_AMARG_enhanced_v7.1.py:454-495 | the event is task 546DAY, finishes 21 days after its start, and has the fiscal year and quarter of its start |
| Maf546.Detect | Depo_Sch_AMARG_enhanced_v7.1.py:422-503 | a row gives an event exactly when it matches on WUC, work center and reason and has a usable date |
| Maf546.Analyze | Depo_Sch_AMARG_enhanced_v7.1.py:409-507 | the events are exactly those of the matching rows with a date, at most one per row; matching rows without a date are dropped |
| Maf546.AnalyzeOne | Depo_Sch_AMARG_enhanced_v7.1.py:422-497 | a single matching row with a date gives exactly its own event |
| Maf546.AnalyzeAppend | Depo_Sch_AMARG_enhanced_v7.1.py:409-507 | detection is row by row: two batches give the events of each, in order |
| Maf546.DetectedEventShape | Depo_Sch_AMARG_enhanced_v7.1.py:439-473 | every detected event lasts exactly 21 days and starts on the first usable date of a matching row |
| Maf546.CandidateBuno | Depo_Sch_AMARG_enhanced_v7.1.py:642-646 | a row names an aircraft exactly when it matches and has a BUNO |
| Maf546.CandidateBunos | Depo_Sch_AMARG_enhanced_v7.1.py:632-649 | the aircraft named are exactly those with a matching row, whether or not the row has a date |
| Maf546.Aircraft | Depo_Sch_AMARG_enhanced_v7.1.py:630-651 | the projection set holds exactly the aircraft with a matching row, each once |
| Maf546.ProjectedEvent | Depo_Sch_AMARG_enhanced_v7.1.py:671-687 | a projected event is task 546DAY_PROJ of its aircraft and finishes 21 days after its start |
| Maf546.ProjectionDates | Depo_Sch_AMARG_enhanced_v7.1.py:660-666 | every emitted date is strictly before 2052-12-31 |
| Maf546.ProjectFrom | Depo_Sch_AMARG_enhanced_v7.1.py:657-689 | one projected event per emitted date |
| Maf546.ProjectionDatesSteps | Depo_Sch_AMARG_enhanced_v7.1.py:660-666 | the i-th emitted date is the anchor plus 546·(i+1) days, and the loop stops exactly at the first step that reaches the horizon |
| Maf546.ProjectFromShape | Depo_Sch_AMARG_enhanced_v7.1.py:657-689 | the i-th projection of an aircraft starts 546·(i+1) days after the anchor and before the horizon, and lasts 21 days; the next step would not be before the horizon |
| Maf546.ProjectFromSpacing | Depo_Sch_AMARG_enhanced_v7.1.py:663 | consecutive projected starts of one aircraft are exactly 546 days apart |
| Maf546.ProjectForMembers | Depo_Sch_AMARG_enhanced_v7.1.py:657-689 | an event is projected exactly when it is in the projection of one of the aircraft |
| Maf546.ProjectedEventFrom | Depo_Sch_AMARG_enhanced_v7.1.py:660-689 | a projection of an aircraft carries it, starts a whole number of 546-day steps after the anchor and before the horizon, and lasts 21 days |
| Maf546.ProjectedEventShape | Depo_Sch_AMARG_enhanced_v7.1.py:630-689 | every projected event belongs to an aircraft with a matching MAF row, starts a whole number of 546-day steps after now and before the horizon, and lasts 21 days |
| Slep.TierFor | Depo_Sch_AMARG_enhanced_v7.1.py:552-569 | no tier exactly below 10000 hours; otherwise the tier is the highest whose threshold the hours reach |
| Slep.TierBoundaries | Depo_Sch_AMARG_enhanced_v7.1.py:77-82 | exactly 12000 hours is SLEP_2, exactly 16000 is MAX_AIRCRAFT_LIFE, 13500 is SLEP_2, and 9999.5 gives no event |
| Slep.SlepEvent | Depo_Sch_AMARG_enhanced_v7.1.py:573 | the event emitted with counter c starts 14·c days after 2020-07-01 |
| Slep.EventsFrom | Depo_Sch_AMARG_enhanced_v7.1.py:546-600 | at most one event per flight-hour row |
| Slep.QualifyingRows | Depo_Sch_AMARG_enhanced_v7.1.py:548-569 | only rows with a BUNO, hours and a tier are kept |
| Slep.QualifyingRowsMembers | Depo_Sch_AMARG_enhanced_v7.1.py:548-569 | a row is kept exactly when it is an input row with a BUNO, hours and a tier |
| Slep.EventsFromSchedule | Depo_Sch_AMARG_enhanced_v7.1.py:571-600 | the k-th event belongs to the k-th qualifying row and uses the counter advanced by k, so skipped rows do not advance it |
| Slep.ScheduleStep | Depo_Sch_AMARG_enhanced_v7.1.py:571-600 | a qualifying first row takes the current counter, and the rest of the loop starts one higher |
| Slep.QualifyingStep | Depo_Sch_AMARG_enhanced_v7.1.py:548-569 | a row joins the qualifying rows ahead of the rest exactly when it qualifies |
| Slep.SlepSchedule | Depo_Sch_AMARG_enhanced_v7.1.py:539-600 | the k-th SLEP event starts 14·k days after 2020-07-01, carries its row's BUNO and tier task, and lasts the tier's duration |
| Pmi.Toggle | Depo_Sch_AMARG_enhanced_v7.1.py:808-815 | toggling keeps the length of the task |
| Pmi.ToggleRule | Depo_Sch_AMARG_enhanced_v7.1.py:808-815 | with a '1' anywhere in the task every '1' becomes a '2', otherwise every '2' becomes a '1'; every other character stays |
| Pmi.ToggleTest | Depo_Sch_AMARG_enhanced_v7.1.py:810-812 | testing for '1' in the upper-cased task is testing for '1' in the task |
| Pmi.ToggleTwice | Depo_Sch_AMARG_enhanced_v7.1.py:808-815 | toggling twice gives back the task exactly when it does not hold both '1' and '2' |
| Pmi.ToggleSwapsDigit | Depo_Sch_AMARG_enhanced_v7.1.py:808-815 | a task with a '1' and no '2' becomes one with a '2' and no '1', and toggles back |
| Pmi.Interval | Depo_Sch_AMARG_enhanced_v7.1.py:759-762 | both branches of the interval choice give 42 months |
| Pmi.LatestIndex | Depo_Sch_AMARG_enhanced_v7.1.py:801-806 | picks a selected record that no selected record is more recent than, the first such in input order; none exactly when nothing is selected |
| Pmi.LastPmiTask | Depo_Sch_AMARG_enhanced_v7.1.py:799-806 | none exactly when no task mentions PMI in any case; otherwise the task of a PMI record no PMI record is more recent than |
| Pmi.LastTms | Depo_Sch_AMARG_enhanced_v7.1.py:700-710 | none exactly when no record has a TMS; otherwise the TMS of a record no TMS record is more recent than |
| Pmi.Latest | Depo_Sch_AMARG_enhanced_v7.1.py:825-826 | the later of two optional dates, and one of them |
| Pmi.MostRecentDate | Depo_Sch_AMARG_enhanced_v7.1.py:817-831 | none exactly when no record has a start or finish date; otherwise a start or finish date on record that no start or finish date exceeds |
| Pmi.FirstStartingOn | Depo_Sch_AMARG_enhanced_v7.1.py:835-836 | the first record, in input order, starting on the date; none exactly when there is none |
| Pmi.LastSquadron | Depo_Sch_AMARG_enhanced_v7.1.py:833-840 | none exactly when no record has a squadron; the squadron of the first record starting on the last date when that record has one, otherwise that of a squadron record no squadron record is more recent than |
| Pmi.Schedule | Depo_Sch_AMARG_enhanced_v7.1.py:748-792 | at most 100 passes emit visits, every visit before 2052-12-31 |
| Pmi.PmiEvent | Depo_Sch_AMARG_enhanced_v7.1.py:771-787 | a projected inspection finishes 21 days after its start, carries its aircraft, TMS and task, and the fiscal year and quarter of its start |
| Pmi.Generate | Depo_Sch_AMARG_enhanced_v7.1.py:748-792 | at most 100 events per aircraft |
| Pmi.EventsOf | Depo_Sch_AMARG_enhanced_v7.1.py:774-787 | one event per visit |
| Pmi.ScheduleHead | Depo_Sch_AMARG_enhanced_v7.1.py:755-792 | a non-empty schedule begins 42 months after the current date with the current task and continues from there with the task alternated |
| Pmi.ScheduleStepAt | Depo_Sch_AMARG_enhanced_v7.1.py:765-792 | each visit is 42 months after the one before, with the task alternated |
| Pmi.ScheduleSteps | Depo_Sch_AMARG_enhanced_v7.1.py:755-792 | the first visit is 42 months after the anchor with the given task; each later one is 42 months after the one before, with the task alternated |
| Pmi.ScheduleStarts | Depo_Sch_AMARG_enhanced_v7.1.py:755-768 | the schedule from an anchor is non-empty exactly when the date one interval later is before the end of 2052 |
| Pmi.ScheduledEventsSteps | Depo_Sch_AMARG_enhanced_v7.1.py:755-792 | under any alternation, the events start 42 months apart from the anchor, alternate tasks, stay before the horizon and last 21 days |
| Pmi.GenerateSteps | Depo_Sch_AMARG_enhanced_v7.1.py:748-792 | the generated inspections start 42 months after the anchor with the given task, then every 42 months with the task toggled; each lasts 21 days and starts before 2052-12-31 |
| Pmi.ScheduleEmptyAtHorizon | Depo_Sch_AMARG_enhanced_v7.1.py:755-769 | a pass below the cap that emits nothing means the next step would reach the horizon |
| Pmi.ScheduleStopsAtHorizon | Depo_Sch_AMARG_enhanced_v7.1.py:755-769 | the loop ends before the cap only when the step after the last visit would reach the horizon |
| Pmi.RecordsOf | Depo_Sch_AMARG_enhanced_v7.1.py:992 | the records of an aircraft are exactly the records carrying its BUNO, no more of them than there are rows |
| Pmi.RecordsOfAppend | Depo_Sch_AMARG_enhanced_v7.1.py:992 | the records of an aircraft over two stretches of rows are those of the first stretch, then those of the second, in ledger order |
| Pmi.Bunos | Depo_Sch_AMARG_enhanced_v7.1.py:986 | the aircraft listed are exactly the BUNOs present on the records; a record with a blank BUNO adds none, as its NaN selects no rows at line 992 |
| Pmi.FutureEventsForShape | Depo_Sch_AMARG_enhanced_v7.1.py:712-797 | projections exist exactly when the aircraft has a PMI record and a date, is not excluded as AMARG, and the date 42 months on is before the end of 2052; the first is on that date with the toggled last PMI task; at most 100, all for the aircraft |
| Pmi.FutureEventsOverSource | Depo_Sch_AMARG_enhanced_v7.1.py:986-994 | every projected inspection comes from the projection of one listed aircraft over its own records |
| Pmi.NotExcludedHasNoAmarg | Depo_Sch_AMARG_enhanced_v7.1.py:743-745 | an aircraft that is not excluded has no record flagged is_AMARG |
| Pmi.ProjectedAircraftNotAmarg | Depo_Sch_AMARG_enhanced_v7.1.py:739-745 | an inspection projected for an aircraft carries it, and none of its records is flagged is_AMARG |
| Pmi.NoAmargProjection | Depo_Sch_AMARG_enhanced_v7.1.py:739-745 | no projected inspection belongs to an aircraft with a record flagged is_AMARG |
| Pmi.AmargSquadronIsFlagged | Depo_Sch_AMARG_enhanced_v7.1.py:739-745 | on classified records, a squadron derived as AMARG comes from a record already flagged, so the second exclusion test covers the first |
| Keys.GroupRank | Depo_Sch_AMARG_enhanced_v7.1.py:850 | a row's position in its group is below the group's size |
| Keys.Resolved | Depo_Sch_AMARG_enhanced_v7.1.py:846-854 | the key keeps its base as a prefix, is unchanged when unique, and otherwise ends in `_` and the row's position in its group |
| Keys.DedupKeys | Depo_Sch_AMARG_enhanced_v7.1.py:846-854 | the row count is kept; each key keeps its base as a prefix; a unique key is unchanged; each member of a group of equal keys gets `_` and its 0-based position in the group |
| Keys.RankIncreases | Depo_Sch_AMARG_enhanced_v7.1.py:850 | an earlier member of a group has a smaller position in it |
| Keys.SuffixesDiffer | Depo_Sch_AMARG_enhanced_v7.1.py:851-853 | one base with two different positions appended gives two different keys |
| Keys.DedupSeparatesGroup | Depo_Sch_AMARG_enhanced_v7.1.py:846-854 | rows that shared a key before the pass have distinct keys after it |
| Keys.BaseKeys | Depo_Sch_AMARG_enhanced_v7.1.py:844 | one `BUNO_FY_TASK` key per row |
| Keys.AssignKeys | Depo_Sch_AMARG_enhanced_v7.1.py:842-865 | every row gets a key starting with its `BUNO_FY_TASK` base, and no other column changes; a row whose base is unique in the stream keeps the bare base; a row whose base repeats gets `_` plus the number of earlier rows with that base |
| Keys.AssignKeysSeparates | Depo_Sch_AMARG_enhanced_v7.1.py:844-854 | within one stream, rows with the same BUNO, FY and TASK get distinct keys |
| Keys.KeysNotUniqueAcrossStreams | Depo_Sch_AMARG_enhanced_v7.1.py:1039-1048 | two streams can carry the same key, and within one stream a suffixed key can meet an existing key with that suffix |
| Ledger.BackfillQuarter | Depo_Sch_AMARG_enhanced_v7.1.py:1032-1033 | QTR is derived from START DATE for every row when the stream has no quarter at all; otherwise the stream is unchanged |
| Ledger.BackfillYear | Depo_Sch_AMARG_enhanced_v7.1.py:1034-1035 | FY is derived from START DATE for every row when the stream has no fiscal year at all; otherwise the stream is unchanged |
| Ledger.BackfillEffect | Depo_Sch_AMARG_enhanced_v7.1.py:1030-1035 | backfill touches only FY and QTR; in a stream without them, a row gets both exactly when it has a start date |
| Ledger.BackfillIsPerColumn | Depo_Sch_AMARG_enhanced_v7.1.py:1032-1033 | one row with a quarter keeps a row without one from getting it |
| Ledger.DayDelta | Depo_Sch_AMARG_enhanced_v7.1.py:884-887 | the delta is present exactly when both dates are; a non-negative delta added to the first date gives the second; a negative delta's magnitude added to the second date gives the first; it is negative exactly when the second date comes first |
| Ledger.DayDeltaOfAddDays | Depo_Sch_AMARG_enhanced_v7.1.py:887 | a finish n days after the start gives a delta of n |
| Ledger.Deltas | Depo_Sch_AMARG_enhanced_v7.1.py:867-889 | every row gets both deltas, and the row count is kept |
| Ledger.WithDeltasSpan | Depo_Sch_AMARG_enhanced_v7.1.py:886-887 | a row lasting n days gets a start-to-finish delta of n, and nothing but the deltas changes |
| Ledger.InOrderTotal | Depo_Sch_AMARG_enhanced_v7.1.py:1086 | any two rows can be placed one before the other by BUNO, then START DATE |
| Ledger.InOrderTransitive | Depo_Sch_AMARG_enhanced_v7.1.py:1086 | the BUNO-then-START DATE order is transitive |
| Ledger.SortedPairwise | Depo_Sch_AMARG_enhanced_v7.1.py:1086 | in a sorted ledger every earlier row may precede every later one |
| Ledger.Insert | Depo_Sch_AMARG_enhanced_v7.1.py:1086 | inserting a row into a sorted ledger keeps it sorted and adds exactly that row |
| Ledger.Sort | Depo_Sch_AMARG_enhanced_v7.1.py:1086 | the result is ordered by BUNO, then START DATE, with missing values last, and is a permutation of the input |
| Ledger.Prepare | Depo_Sch_AMARG_enhanced_v7.1.py:1030-1048 | a prepared stream keeps its row count and every row has a key |
| Ledger.Assemble | Depo_Sch_AMARG_enhanced_v7.1.py:1050-1086 | the ledger is sorted and holds every prepared row of the five streams, with its deltas, exactly once |
| Ledger.KeyedAppend | Depo_Sch_AMARG_enhanced_v7.1.py:1056-1076 | concatenating keyed streams gives a keyed ledger |
| Ledger.KeyedPermutation | Depo_Sch_AMARG_enhanced_v7.1.py:1086 | reordering keyed rows keeps them keyed |
| Ledger.AssembledRowsHaveKeys | Depo_Sch_AMARG_enhanced_v7.1.py:1038-1086 | every row of the combined ledger carries a key |
| Ledger.AssembleKeepsHistorical | Depo_Sch_AMARG_enhanced_v7.1.py:1052-1086 | every prepared historical row is in the ledger with its deltas |
| Ledger.PreparedDepotRow | Depo_Sch_AMARG_enhanced_v7.1.py:1030-1048 | preparing the historical stream keeps each record's aircraft, dates, task and flags and gives it a key |
| Ledger.Run | Depo_Sch_AMARG_enhanced_v7.1.py:955-1086 | the ledger is ordered by BUNO, then START DATE, and has one row per depot row, projected inspection, detected 546-day event, projected 546-day event and SLEP event |
| Ledger.RunKeepsDepotRow | Depo_Sch_AMARG_enhanced_v7.1.py:983-1086 | every depot row reaches the ledger with its aircraft, dates, task, its REBASE and is_AMARG flags, and a key |
| Ledger.RebaseRows | Depo_Sch_AMARG_enhanced_v7.1.py:1110-1114 | the rebase export holds exactly the ledger rows flagged REBASE, no more of them than there are ledger rows |
| Ledger.RebaseRowsAppend | Depo_Sch_AMARG_enhanced_v7.1.py:1110-1114 | the rebase export of two stretches of the ledger is the export of the first, then of the second, in ledger order |
| PmiScenario.ToggleExample | Depo_Sch_AMARG_enhanced_v7.1.py:808-813 | PMI1 toggles to PMI2 |
| PmiScenario.PmiRowState | Depo_Sch_AMARG_enhanced_v7.1.py:799-840 | an aircraft with one PMI1 record on 2020-01-01 has last PMI task PMI1, most recent date 2020-01-01, and is not excluded |
| PmiScenario.FirstProjectionExample | Depo_Sch_AMARG_enhanced_v7.1.py:712-797 | that aircraft is next inspected as PMI2 from 2023-07-01 to 2023-07-22, in quarter 4 of fiscal year 2023 |
| Maf546Scenario.MafExampleCodes | Depo_Sch_AMARG_enhanced_v7.1.py:413-419 | a row with WUC 030000P and work center 20 passes the code tests |
| Maf546Scenario.MafExampleReason | Depo_Sch_AMARG_enhanced_v7.1.py:415-420 | the reason "546 DAY INSPECTION" passes the reason test |
| Maf546Scenario.MafExampleMatches | Depo_Sch_AMARG_enhanced_v7.1.py:413-422 | such a row matches all three parts |
| Maf546Scenario.MafExampleDate | Depo_Sch_AMARG_enhanced_v7.1.py:431-452 | with Received Date Time blank, the start is taken from Received Date |
| Maf546Scenario.DetectionExample | Depo_Sch_AMARG_enhanced_v7.1.py:409-497 | the row gives one 546DAY event from 2024-03-01 to 2024-03-22, in quarter 2 of fiscal year 2024 |
| KeysScenario.KeyExampleGroups | Depo_Sch_AMARG_enhanced_v7.1.py:846-850 | in the keys 1_2024_PMI1, 1_2024_PMI2, 1_2024_PMI1 the first and last form a group of two, at positions 0 and 1 |
| KeysScenario.KeyCollisionExample | Depo_Sch_AMARG_enhanced_v7.1.py:846-854 | those keys become 1_2024_PMI1_0, 1_2024_PMI2, 1_2024_PMI1_1 |
| SlepScenario.SlepExampleTail | Depo_Sch_AMARG_enhanced_v7.1.py:548-569 | of the last three example rows, those with 16000 and 13500 hours qualify |
| SlepScenario.SlepExampleQualifying | Depo_Sch_AMARG_enhanced_v7.1.py:548-569 | a row without a BUNO and a row below 10000 hours do not qualify |
| SlepScenario.SlepExample | Depo_Sch_AMARG_enhanced_v7.1.py:539-600 | the third qualifying row, with 13500 hours, gives SLEP_2 from 2020-07-29 for 90 days, because the skipped rows do not advance the counter |

## Left out

- Loading, validation, environment and version-folder setup, export, the summary report and all logging. These are file I/O and reporting; the model takes already typed rows and returns the ledger.
- Date parsing with `pd.to_datetime`. Each date cell is an `Option<Date>`: the parsed value, or `None` for a blank cell. The depot START DATE and FINISH DATE are taken as already parsed. Only lines 320, 341, 446 and 880 turn a cell that does not parse into NaT; the model's `None` stands for that NaT. The depot START DATE is parsed at line 962 without `errors='coerce'`, so a text cell there raises, and the handler at lines 1171-1177 ends the run with status 1. The depot FINISH DATE is read raw at lines 821-826, before its parse at line 880, so a text cell there makes the maximum at line 826 raise. The handler at line 794 catches that, and the aircraft gets no PMI projection. The model never sees such cells.
- The wall clock. `pd.Timestamp.now()` is the parameter `now` of `Maf546.ProjectAll` and `Ledger.Run`.
- Time of day. Dates are calendar days. `pd.to_datetime` at line 962 keeps any time of day in START DATE, and the code compares START DATE values with each other: the maximum at line 825, the equality at line 835, and the sorts at lines 708, 801, 839 and 1086. Two records on the same day at different times are ordered in the code but tie here, and the tie rules below then apply. A delta between two timestamps is rounded down to whole days by `.dt.days` in the code; here it is the difference of their calendar days. Comparisons against the horizon, midnight of 2052-12-31, give the same answer for a day and for any time on it.
- The pandas Timestamp range (years 1677 to 2262, ending at about 2262-04-11). Dates here are unbounded above, so arithmetic that overflows in the code succeeds here.
- Floating-point flight hours. Hours are exact `real` values, compared exactly against the thresholds.
- Letter case and white space outside ASCII. `Text.Upper` and `Text.Strip` work on ASCII letters and ASCII white space only.
- How pandas renders numbers in keys. A float column renders as, for example, "2024.0"; here every number renders as its integer digits, and a missing cell renders as "nan".
- Sort stability. `Ledger.Sort` orders by BUNO, then START DATE; how ties are broken is not modelled.
- Tie order in the per-aircraft state. Among records with equal start dates, `Pmi.LatestIndex` picks the first in input order, while the descending `sort_values` used by the scheduler does not promise an order.
- Python set iteration order. The aircraft of `historical_546_aircraft` (line 629) are projected in order of first appearance (`Seqs.DistinctFirstAppearance`); the set promises no order.
- Per-row exception handling and missing columns. No modelled operation raises on the modelled inputs, so every record is processed. The depot sheet is assumed to have an SQD column: without one, `get_last_squadron` raises `KeyError` at line 835 or 839, the handler at line 794 catches it, and the aircraft gets no PMI projection. A missing TMS column needs no assumption: `get_tms_for_buno` then returns `None` (lines 704-705), as the model does when every TMS cell is blank.
- The finish-date fallback in the 546-day detector (line 461). The start has already parsed at line 446, so the fallback is reached only when adding 21 days overflows the Timestamp range, that is for a start after about 2262-03-21. The Timestamp range is not modelled (see above), so the model always adds the 21 days.
- The BUNO_key values the generators set themselves (lines 495, 599, 688). Step 10 overwrites them for every non-empty stream.
- The empty-frame checks before concatenation and keying. Concatenating or keying an empty stream changes nothing.
- The column union of step 8. It is realised by the single `Event` record type: a column a stream lacks is `None`.
- Pmi.NoAmargProjection: states the is_AMARG exclusion only. The exclusion by derived squadron is stated by `Pmi.FutureEventsForShape` through `Pmi.IsExcluded`.
- Ledger.Run: states the order and the row count; which rows appear is stated by `Ledger.Assemble` and `Ledger.RunKeepsDepotRow`.
- Slep.SlepEvent: states only the start date; the task, BUNO and duration are stated by `Slep.SlepSchedule`.
