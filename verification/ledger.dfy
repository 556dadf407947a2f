/** Steps 8 to 13 of `run_processing`: the five streams are given fiscal
    attributes where a stream lacks them entirely, keyed stream by stream,
    concatenated in a fixed order, given their day deltas
    (`calculate_enhanced_deltas`) and sorted by BUNO, then START DATE. */
module Ledger {
  import opened Options
  import opened Calendar
  import opened Fiscal
  import opened Records
  import opened Seqs
  import opened Keys
  import Classifier
  import Maf546
  import Slep
  import Pmi

  // ---------------------------------------------------------------------------
  // Fiscal backfill (step 9)
  // ---------------------------------------------------------------------------

  /** The QTR column is filled from START DATE only when it is empty in every
      row of the stream; otherwise the stream is left as it is. */
  function BackfillQuarter(rows: seq<Event>): (r: seq<Event>)
    ensures |r| == |rows|
    ensures (forall i :: 0 <= i < |rows| ==> rows[i].qtr.None?) ==>
              forall i :: 0 <= i < |rows| ==> r[i] == rows[i].(qtr := FiscalQuarter(rows[i].start))
    ensures (exists i :: 0 <= i < |rows| && rows[i].qtr.Some?) ==> r == rows
  {
    if forall i :: 0 <= i < |rows| ==> rows[i].qtr.None? then
      seq(|rows|, i requires 0 <= i < |rows| => rows[i].(qtr := FiscalQuarter(rows[i].start)))
    else rows
  }

  /** The FY column, the same way. */
  function BackfillYear(rows: seq<Event>): (r: seq<Event>)
    ensures |r| == |rows|
    ensures (forall i :: 0 <= i < |rows| ==> rows[i].fy.None?) ==>
              forall i :: 0 <= i < |rows| ==> r[i] == rows[i].(fy := FiscalYear(rows[i].start))
    ensures (exists i :: 0 <= i < |rows| && rows[i].fy.Some?) ==> r == rows
  {
    if forall i :: 0 <= i < |rows| ==> rows[i].fy.None? then
      seq(|rows|, i requires 0 <= i < |rows| => rows[i].(fy := FiscalYear(rows[i].start)))
    else rows
  }

  /** Step 9 for one stream: QTR first, then FY. */
  function Backfill(rows: seq<Event>): seq<Event> {
    BackfillYear(BackfillQuarter(rows))
  }

  /** Backfill only touches the fiscal columns, and after it every row of a
      stream whose fiscal columns were empty has a fiscal year and quarter
      exactly when it has a start date. */
  lemma BackfillEffect(rows: seq<Event>)
    ensures var r := Backfill(rows);
      && |r| == |rows|
      && (forall i :: 0 <= i < |rows| ==> r[i] == rows[i].(fy := r[i].fy, qtr := r[i].qtr))
      && ((forall i :: 0 <= i < |rows| ==> rows[i].fy.None? && rows[i].qtr.None?) ==>
            forall i :: 0 <= i < |rows| ==>
              && (r[i].fy.Some? <==> rows[i].start.Some?)
              && (r[i].qtr.Some? <==> rows[i].start.Some?))
  {
    var q := BackfillQuarter(rows);
    assert forall i :: 0 <= i < |rows| ==> q[i].fy == rows[i].fy && q[i].start == rows[i].start;
  }

  /** The backfill is per column, not per record: one row with a quarter
      keeps a row without one from getting it. */
  lemma BackfillIsPerColumn(a: Event, b: Event)
    requires a.qtr.Some? && b.qtr.None? && b.start.Some?
    ensures BackfillQuarter([a, b])[1].qtr.None?
  {
    assert [a, b][0].qtr.Some?;
  }

  // ---------------------------------------------------------------------------
  // Deltas (step 12)
  // ---------------------------------------------------------------------------

  /** `(to - from).dt.days`: the whole days from one date to another, missing
      when either is. */
  function DayDelta(from: Option<Date>, to: Option<Date>): (r: Option<int>)
    ensures r.Some? <==> from.Some? && to.Some?
    ensures r.Some? && r.value >= 0 ==> AddDays(from.value, r.value) == to.value
    ensures r.Some? && r.value < 0 ==> AddDays(to.value, -r.value) == from.value
    ensures r.Some? ==> (r.value < 0 <==> Before(to.value, from.value))
  {
    if from.Some? && to.Some? then
      var n := ToDays(to.value) - ToDays(from.value);
      BeforeIffFewerDays(to.value, from.value);
      if n >= 0 then
        ToDaysInjective(AddDays(from.value, n), to.value);
        Some(n)
      else
        ToDaysInjective(AddDays(to.value, -n), from.value);
        Some(n)
    else None
  }

  /** Adding `n` days is a delta of `n` days. */
  lemma DayDeltaOfAddDays(d: Date, n: nat)
    ensures DayDelta(Some(d), Some(AddDays(d, n))) == Some(n)
  {
  }

  /** `FID_START_DATE_DELTA` and `START_FINISH_DATE_DELTA` of one row. */
  function WithDeltas(e: Event): Event {
    e.(fidStartDelta := DayDelta(e.fid, e.start), startFinishDelta := DayDelta(e.start, e.finish))
  }

  function Deltas(rows: seq<Event>): (r: seq<Event>)
    ensures |r| == |rows|
    ensures forall i :: 0 <= i < |rows| ==> r[i] == WithDeltas(rows[i])
  {
    seq(|rows|, i requires 0 <= i < |rows| => WithDeltas(rows[i]))
  }

  /** A row that lasts `n` days from its start gets a start-to-finish delta
      of `n`, and the other columns are untouched. */
  lemma WithDeltasSpan(e: Event, n: nat)
    requires e.start.Some? && e.finish == Some(AddDays(e.start.value, n))
    ensures WithDeltas(e).startFinishDelta == Some(n)
    ensures WithDeltas(e).(fidStartDelta := e.fidStartDelta, startFinishDelta := e.startFinishDelta) == e
  {
    DayDeltaOfAddDays(e.start.value, n);
  }

  // ---------------------------------------------------------------------------
  // Sorting (step 13)
  // ---------------------------------------------------------------------------

  /** Ascending with missing values last, as `sort_values` places NaN. */
  predicate BunoAhead(a: Option<int>, b: Option<int>) {
    a.Some? && (b.None? || a.value < b.value)
  }

  predicate StartNotAfter(a: Option<Date>, b: Option<Date>) {
    b.None? || (a.Some? && !Before(b.value, a.value))
  }

  /** `a` may come before `b` in the ledger ordered by BUNO, then START DATE. */
  predicate InOrder(a: Event, b: Event) {
    BunoAhead(a.buno, b.buno) || (a.buno == b.buno && StartNotAfter(a.start, b.start))
  }

  predicate Sorted(rows: seq<Event>) {
    forall i :: 0 <= i < |rows| - 1 ==> InOrder(rows[i], rows[i + 1])
  }

  /** Any two rows can be ordered one way or the other. */
  lemma InOrderTotal(a: Event, b: Event)
    ensures InOrder(a, b) || InOrder(b, a)
  {
    if a.start.Some? && b.start.Some? {
      BeforeTransitive(a.start.value, b.start.value, a.start.value);
    }
  }

  /** The ordering is transitive, so a sorted ledger is ordered pairwise. */
  lemma InOrderTransitive(a: Event, b: Event, c: Event)
    requires InOrder(a, b) && InOrder(b, c)
    ensures InOrder(a, c)
  {
    if a.start.Some? && b.start.Some? && c.start.Some? {
      BeforeTransitive(a.start.value, b.start.value, c.start.value);
    }
  }

  lemma {:induction false} SortedPairwise(rows: seq<Event>, i: nat, j: nat)
    requires Sorted(rows) && i < j < |rows|
    ensures InOrder(rows[i], rows[j])
    decreases j - i
  {
    if i + 1 < j {
      SortedPairwise(rows, i + 1, j);
      InOrderTransitive(rows[i], rows[i + 1], rows[j]);
    }
  }

  /** `x` placed in the sorted `s` before the first row it may precede. */
  function Insert(x: Event, s: seq<Event>): (r: seq<Event>)
    requires Sorted(s)
    ensures Sorted(r)
    ensures multiset(r) == multiset(s) + multiset{x}
    ensures |r| > 0 && (r[0] == x || (|s| > 0 && r[0] == s[0]))
  {
    if |s| == 0 then [x]
    else if InOrder(x, s[0]) then [x] + s
    else
      InOrderTotal(x, s[0]);
      var rest := Insert(x, s[1..]);
      assert s == [s[0]] + s[1..];
      [s[0]] + rest
  }

  /** Step 13: the rows ordered by BUNO, then START DATE. */
  function Sort(rows: seq<Event>): (r: seq<Event>)
    ensures Sorted(r)
    ensures multiset(r) == multiset(rows)
  {
    if |rows| == 0 then []
    else
      assert rows == [rows[0]] + rows[1..];
      Insert(rows[0], Sort(rows[1..]))
  }

  // ---------------------------------------------------------------------------
  // Assembly (steps 8 to 13)
  // ---------------------------------------------------------------------------

  /** Steps 9 and 10 for one stream. */
  function Prepare(rows: seq<Event>): (r: seq<Event>)
    ensures |r| == |rows|
    ensures forall i :: 0 <= i < |r| ==> r[i].key.Some?
  {
    AssignKeys(Backfill(rows))
  }

  /** The streams in the order step 11 concatenates them. */
  function Combined(hist: seq<Event>, future: seq<Event>, maf546: seq<Event>,
                    proj: seq<Event>, slep: seq<Event>): seq<Event> {
    Prepare(hist) + Prepare(future) + Prepare(maf546) + Prepare(proj) + Prepare(slep)
  }

  /** The combined ledger: every prepared row of every stream, with its
      deltas, exactly once, ordered by BUNO, then START DATE. */
  function Assemble(hist: seq<Event>, future: seq<Event>, maf546: seq<Event>,
                    proj: seq<Event>, slep: seq<Event>): (r: seq<Event>)
    ensures Sorted(r)
    ensures |r| == |hist| + |future| + |maf546| + |proj| + |slep|
    ensures multiset(r) == multiset(Deltas(Combined(hist, future, maf546, proj, slep)))
  {
    var all := Deltas(Combined(hist, future, maf546, proj, slep));
    var r := Sort(all);
    assert |r| == |all| by {
      assert |multiset(r)| == |multiset(all)|;
    }
    r
  }

  predicate AllKeyed(rows: seq<Event>) {
    forall i :: 0 <= i < |rows| ==> rows[i].key.Some?
  }

  lemma KeyedAppend(a: seq<Event>, b: seq<Event>)
    requires AllKeyed(a) && AllKeyed(b)
    ensures AllKeyed(a + b)
  {
    forall i | 0 <= i < |a + b|
      ensures (a + b)[i].key.Some?
    {
      if i < |a| {
        assert (a + b)[i] == a[i];
      } else {
        assert (a + b)[i] == b[i - |a|];
      }
    }
  }

  /** Rows that are a rearrangement of keyed rows are keyed. */
  lemma KeyedPermutation(a: seq<Event>, b: seq<Event>)
    requires AllKeyed(a) && multiset(a) == multiset(b)
    ensures AllKeyed(b)
  {
    forall i | 0 <= i < |b|
      ensures b[i].key.Some?
    {
      assert b[i] in multiset(a);
      var j :| 0 <= j < |a| && a[j] == b[i];
    }
  }

  /** Every row of the combined ledger carries a key. */
  lemma AssembledRowsHaveKeys(hist: seq<Event>, future: seq<Event>, maf546: seq<Event>,
                              proj: seq<Event>, slep: seq<Event>)
    ensures forall e :: e in Assemble(hist, future, maf546, proj, slep) ==> e.key.Some?
  {
    var a, b, c, d, e := Prepare(hist), Prepare(future), Prepare(maf546), Prepare(proj), Prepare(slep);
    KeyedAppend(a, b);
    KeyedAppend(a + b, c);
    KeyedAppend(a + b + c, d);
    KeyedAppend(a + b + c + d, e);
    var all := Deltas(a + b + c + d + e);
    assert AllKeyed(all);
    KeyedPermutation(all, Assemble(hist, future, maf546, proj, slep));
  }

  /** `run_processing` without loading and export: `now` stands for
      `pd.Timestamp.now()`. */
  function Run(depot: seq<DepotRow>, maf: seq<MafRow>, hours: seq<FlightHourRow>, now: Date): (r: seq<Event>)
    ensures Sorted(r)
    ensures |r| == |depot| + |Pmi.FutureEvents(Classifier.ClassifyAll(depot))| + |Maf546.Analyze(maf)|
                   + |Maf546.ProjectAll(maf, now)| + |Slep.Events(hours)|
  {
    var hist := Classifier.ClassifyAll(depot);
    Assemble(hist, Pmi.FutureEvents(hist), Maf546.Analyze(maf), Maf546.ProjectAll(maf, now), Slep.Events(hours))
  }

  /** Every prepared historical row is in the combined ledger, with its
      deltas. */
  lemma AssembleKeepsHistorical(hist: seq<Event>, future: seq<Event>, maf546: seq<Event>,
                                proj: seq<Event>, slep: seq<Event>, i: nat)
    requires i < |hist|
    ensures WithDeltas(Prepare(hist)[i]) in Assemble(hist, future, maf546, proj, slep)
  {
    var c := Combined(hist, future, maf546, proj, slep);
    assert c[i] == Prepare(hist)[i];
    assert Deltas(c)[i] in multiset(Assemble(hist, future, maf546, proj, slep));
  }

  /** Preparing the historical stream keeps each record's aircraft, dates,
      task and flags, and gives it a key. */
  lemma PreparedDepotRow(depot: seq<DepotRow>, i: nat)
    requires i < |depot|
    ensures var e := Prepare(Classifier.ClassifyAll(depot))[i];
      && e.source == H60ImpReport && e.buno == depot[i].buno
      && e.start == depot[i].start && e.finish == depot[i].finish && e.task == depot[i].task
      && e.rebase == Classifier.IsRebaseTask(depot[i].task)
      && e.amarg == Classifier.IsAmargSquadron(depot[i].sqd)
      && e.key.Some?
  {
    BackfillEffect(Classifier.ClassifyAll(depot));
  }

  /** Every depot row reaches the ledger: some ledger row is its historical
      record, with the same aircraft, dates and task, the REBASE and is_AMARG
      flags of its text, and a key. */
  lemma RunKeepsDepotRow(depot: seq<DepotRow>, maf: seq<MafRow>, hours: seq<FlightHourRow>, now: Date, i: nat)
    requires i < |depot|
    ensures exists e :: (
      && e in Run(depot, maf, hours, now)
      && e.source == H60ImpReport && e.buno == depot[i].buno
      && e.start == depot[i].start && e.finish == depot[i].finish && e.task == depot[i].task
      && e.rebase == Classifier.IsRebaseTask(depot[i].task)
      && e.amarg == Classifier.IsAmargSquadron(depot[i].sqd)
      && e.key.Some?)
  {
    var hist := Classifier.ClassifyAll(depot);
    PreparedDepotRow(depot, i);
    AssembleKeepsHistorical(hist, Pmi.FutureEvents(hist), Maf546.Analyze(maf),
                            Maf546.ProjectAll(maf, now), Slep.Events(hours), i);
  }

  /** The rebase export: the ledger rows flagged REBASE, in ledger order. */
  function RebaseRows(ledger: seq<Event>): (r: seq<Event>)
    ensures |r| <= |ledger|
    ensures forall e :: e in r <==> e in ledger && e.rebase
  {
    Filter(ledger, (e: Event) => e.rebase)
  }

  /** The export is taken row by row: two stretches of the ledger export
      their own rebase rows, one after the other. */
  lemma RebaseRowsAppend(a: seq<Event>, b: seq<Event>)
    ensures RebaseRows(a + b) == RebaseRows(a) + RebaseRows(b)
  {
    FilterAppend(a, b, (e: Event) => e.rebase);
  }
}
