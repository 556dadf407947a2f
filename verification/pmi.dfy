/** The PMI projection engine (`generate_future_events_enhanced` and its
    helpers): per-aircraft state is derived from the classified historical
    records, AMARG aircraft are skipped, and the inspection alternates
    between its two variants every 42 months until the horizon or the
    iteration cap. */
module Pmi {
  import opened Options
  import opened Calendar
  import opened Text
  import opened Fiscal
  import opened Records
  import opened Classifier
  import opened Seqs

  // ---------------------------------------------------------------------------
  // Task alternation
  // ---------------------------------------------------------------------------

  /** `get_next_pmi_task`: when the task contains a '1' every '1' becomes a
      '2', otherwise every '2' becomes a '1'. */
  function Toggle(task: string): (r: string)
    ensures |r| == |task|
  {
    if Contains(Upper(task), "1") then ReplaceChar(task, '1', '2') else ReplaceChar(task, '2', '1')
  }

  /** The test on the upper-cased task is the plain test for the digit. */
  lemma ToggleTest(task: string)
    ensures Contains(Upper(task), "1") <==> '1' in task
  {
    UpperKeepsLetterFreeMatches(task, "1");
    ContainsChar(task, '1');
  }

  /** The toggle character by character: with a '1' anywhere in the task
      every '1' becomes a '2', otherwise every '2' becomes a '1'; all other
      characters stay. */
  lemma ToggleRule(task: string)
    ensures '1' in task ==> forall i :: 0 <= i < |task| ==>
              Toggle(task)[i] == (if task[i] == '1' then '2' else task[i])
    ensures '1' !in task ==> forall i :: 0 <= i < |task| ==>
              Toggle(task)[i] == (if task[i] == '2' then '1' else task[i])
  {
    ToggleTest(task);
  }

  /** Toggling twice restores the task exactly when it does not contain both
      digits; a task with both has every '2' turned into a '1'. */
  lemma ToggleTwice(task: string)
    ensures Toggle(Toggle(task)) == task <==> !('1' in task && '2' in task)
  {
    var u := Toggle(task);
    ToggleTest(task);
    ToggleTest(u);
    if '1' in task {
      assert '1' !in u;
      assert forall i :: 0 <= i < |u| ==> (u[i] == '2' <==> task[i] == '1' || task[i] == '2');
      if '2' in task {
        var i :| 0 <= i < |task| && task[i] == '2';
        assert Toggle(u)[i] == '1';
      } else {
        assert Toggle(u) == task;
      }
    } else if '2' in task {
      assert '1' in u by {
        var i :| 0 <= i < |task| && task[i] == '2';
        assert u[i] == '1';
      }
      assert Toggle(u) == task;
    } else {
      assert u == task;
      assert Toggle(u) == task;
    }
  }

  /** A task with a '1' and no '2' becomes one with a '2' and no '1'. */
  lemma ToggleSwapsDigit(task: string)
    requires '1' in task && '2' !in task
    ensures '2' in Toggle(task) && '1' !in Toggle(task)
    ensures Toggle(Toggle(task)) == task
  {
    ToggleTest(task);
    ToggleTwice(task);
    var i :| 0 <= i < |task| && task[i] == '1';
    assert Toggle(task)[i] == '2';
  }

  /** The interval chosen in the generation loop: the two branches agree. */
  function Interval(task: string): (months: nat)
    ensures months == PMI_INTERVAL_MONTHS
  {
    if '1' in task then PMI_1_2_INTERVAL else PMI_2_1_INTERVAL
  }

  // ---------------------------------------------------------------------------
  // Per-aircraft state
  // ---------------------------------------------------------------------------

  /** `a` sorts strictly ahead of `b` when sorting by start date descending
      with missing dates last. */
  predicate MoreRecent(a: Option<Date>, b: Option<Date>) {
    a.Some? && (b.None? || Before(b.value, a.value))
  }

  /** The most recent selected record: the first in input order among the
      selected records with the latest start date (missing dates count as
      the oldest). */
  function LatestIndex(rows: seq<Event>, sel: Event -> bool): (r: Option<nat>)
    ensures r.None? <==> forall i :: 0 <= i < |rows| ==> !sel(rows[i])
    ensures r.Some? ==> r.value < |rows| && sel(rows[r.value])
    ensures r.Some? ==> forall i :: 0 <= i < |rows| && sel(rows[i]) ==>
              !MoreRecent(rows[i].start, rows[r.value].start)
    ensures r.Some? ==> forall i :: 0 <= i < r.value && sel(rows[i]) ==>
              MoreRecent(rows[r.value].start, rows[i].start)
  {
    if |rows| == 0 then None
    else
      var n := |rows| - 1;
      var prev := LatestIndex(rows[..n], sel);
      assert forall i :: 0 <= i < n ==> rows[..n][i] == rows[i];
      if sel(rows[n]) && (prev.None? || MoreRecent(rows[n].start, rows[prev.value].start)) then
        Some(n)
      else prev
  }

  predicate IsPmiRecord(e: Event) {
    e.task.Some? && Contains(Upper(e.task.value), "PMI")
  }

  /** `find_last_pmi_task`: the task of the most recent record whose task
      mentions PMI in any letter case. */
  function LastPmiTask(rows: seq<Event>): (r: Option<string>)
    ensures r.None? <==> forall i :: 0 <= i < |rows| ==> !IsPmiRecord(rows[i])
    ensures r.Some? ==> exists k :: (
              && 0 <= k < |rows| && IsPmiRecord(rows[k]) && rows[k].task == r
              && forall i :: 0 <= i < |rows| && IsPmiRecord(rows[i]) ==>
                   !MoreRecent(rows[i].start, rows[k].start))
  {
    match LatestIndex(rows, IsPmiRecord)
    case None => None
    case Some(k) => rows[k].task
  }

  /** `get_tms_for_buno`: the type/model/series of the most recent record
      that has one. */
  function LastTms(rows: seq<Event>): (r: Option<string>)
    ensures r.None? <==> forall i :: 0 <= i < |rows| ==> rows[i].tms.None?
    ensures r.Some? ==> exists k :: (
              && 0 <= k < |rows| && rows[k].tms == r
              && forall i :: 0 <= i < |rows| && rows[i].tms.Some? ==>
                   !MoreRecent(rows[i].start, rows[k].start))
  {
    match LatestIndex(rows, (e: Event) => e.tms.Some?)
    case None => None
    case Some(k) => rows[k].tms
  }

  /** The later of two optional dates. */
  function Latest(a: Option<Date>, b: Option<Date>): (r: Option<Date>)
    ensures r == a || r == b
    ensures !MoreRecent(a, r) && !MoreRecent(b, r)
  {
    if MoreRecent(b, a) then b else a
  }

  /** `get_most_recent_date`: the latest start or finish date on record. */
  function MostRecentDate(rows: seq<Event>): (r: Option<Date>)
    ensures r.None? <==> forall i :: 0 <= i < |rows| ==> rows[i].start.None? && rows[i].finish.None?
    ensures r.Some? ==> exists k :: 0 <= k < |rows| && (rows[k].start == r || rows[k].finish == r)
    ensures forall i :: 0 <= i < |rows| ==>
              !MoreRecent(rows[i].start, r) && !MoreRecent(rows[i].finish, r)
  {
    if |rows| == 0 then None
    else
      var n := |rows| - 1;
      var prev := MostRecentDate(rows[..n]);
      assert forall i :: 0 <= i < n ==> rows[..n][i] == rows[i];
      var r := Latest(prev, Latest(rows[n].start, rows[n].finish));
      assert forall i :: 0 <= i < n ==> !MoreRecent(rows[i].start, r) && !MoreRecent(rows[i].finish, r) by {
        forall i | 0 <= i < n
          ensures !MoreRecent(rows[i].start, r) && !MoreRecent(rows[i].finish, r)
        {
          assert !MoreRecent(rows[i].start, prev) && !MoreRecent(rows[i].finish, prev);
          if r.Some? && prev.Some? {
            BeforeIffFewerDays(prev.value, r.value);
            if rows[i].start.Some? {
              BeforeIffFewerDays(r.value, rows[i].start.value);
              BeforeIffFewerDays(prev.value, rows[i].start.value);
            }
            if rows[i].finish.Some? {
              BeforeIffFewerDays(r.value, rows[i].finish.value);
              BeforeIffFewerDays(prev.value, rows[i].finish.value);
            }
          }
        }
      }
      r
  }

  /** The first record, in input order, that starts on `d`. */
  function FirstStartingOn(rows: seq<Event>, d: Date): (r: Option<nat>)
    ensures r.None? <==> forall i :: 0 <= i < |rows| ==> rows[i].start != Some(d)
    ensures r.Some? ==> (
              && r.value < |rows| && rows[r.value].start == Some(d)
              && forall i :: 0 <= i < r.value ==> rows[i].start != Some(d))
  {
    if |rows| == 0 then None
    else if rows[0].start == Some(d) then Some(0)
    else
      match FirstStartingOn(rows[1..], d)
      case None => None
      case Some(k) => Some(k + 1)
  }

  /** `get_last_squadron`: the squadron of the first record starting on
      `lastDate` when it has one, otherwise that of the most recent record
      that has one. */
  function LastSquadron(rows: seq<Event>, lastDate: Date): (r: Option<string>)
    ensures r.None? <==> forall i :: 0 <= i < |rows| ==> rows[i].sqd.None?
    ensures var first := FirstStartingOn(rows, lastDate);
      first.Some? && rows[first.value].sqd.Some? ==> r == rows[first.value].sqd
    ensures var first := FirstStartingOn(rows, lastDate);
      !(first.Some? && rows[first.value].sqd.Some?) && r.Some? ==>
        exists k :: (
          && 0 <= k < |rows| && rows[k].sqd == r
          && forall i :: 0 <= i < |rows| && rows[i].sqd.Some? ==>
               !MoreRecent(rows[i].start, rows[k].start))
  {
    var first := FirstStartingOn(rows, lastDate);
    if first.Some? && rows[first.value].sqd.Some? then rows[first.value].sqd
    else
      match LatestIndex(rows, (e: Event) => e.sqd.Some?)
      case None => None
      case Some(k) => rows[k].sqd
  }

  /** Projection is skipped when the derived squadron is AMARG or any record
      of the aircraft is flagged is_AMARG. */
  predicate IsExcluded(rows: seq<Event>, sqd: Option<string>) {
    (sqd.Some? && Contains(Upper(sqd.value), "AMARG"))
    || exists i :: 0 <= i < |rows| && rows[i].amarg
  }

  // ---------------------------------------------------------------------------
  // Generation
  // ---------------------------------------------------------------------------

  /** One pass of the generation loop that emits an inspection: its start
      date and its task. */
  datatype Visit = Visit(start: Date, task: string)

  /** The generation loop from `current`, with `task` next and `iteration`
      passes already made: each pass moves 42 months on, stops at the
      horizon, emits the visit and passes the task through `alternate`
      (`Toggle` in the engine; the loop's properties hold for any
      alternation). */
  function Schedule(current: Date, task: string, iteration: nat, alternate: string -> string): (r: seq<Visit>)
    requires iteration <= MAX_PMI_ITERATIONS
    ensures |r| <= MAX_PMI_ITERATIONS - iteration
    ensures forall i :: 0 <= i < |r| ==> Before(r[i].start, ProjectionEnd)
    decreases MAX_PMI_ITERATIONS - iteration
  {
    if !(Before(current, ProjectionEnd) && iteration < MAX_PMI_ITERATIONS) then []
    else
      var next := AddMonths(current, Interval(task));
      if !Before(next, ProjectionEnd) then []
      else [Visit(next, task)] + Schedule(next, alternate(task), iteration + 1, alternate)
  }

  /** The projected inspection starting on `d`. */
  function PmiEvent(buno: int, tms: Option<string>, d: Date, task: string): (e: Event)
    ensures e.start == Some(d) && e.finish == Some(AddDays(d, DAY_546_OFFSET))
    ensures e.task == Some(task) && e.buno == Some(buno) && e.tms == tms
    ensures e.fy == FiscalYear(Some(d)) && e.qtr == FiscalQuarter(Some(d))
    ensures e.source == DepotProjection && !e.amarg && e.visible
  {
    Event(Some(buno), Some(d), Some(AddDays(d, DAY_546_OFFSET)), Some(task), None, tms, None,
          DepotProjection, FiscalYear(Some(d)), FiscalQuarter(Some(d)),
          false, false, false, true, NoDetail, None, None, None)
  }

  /** The events the engine appends from `current` on, one per visit of the
      schedule, the task toggling after each. */
  function Generate(buno: int, tms: Option<string>, current: Date, task: string): (r: seq<Event>)
    ensures |r| <= MAX_PMI_ITERATIONS
  {
    EventsOf(buno, tms, Schedule(current, task, 0, Toggle))
  }

  /** One inspection event per visit. */
  function EventsOf(buno: int, tms: Option<string>, visits: seq<Visit>): (r: seq<Event>)
    ensures |r| == |visits|
  {
    seq(|visits|, i requires 0 <= i < |visits| => PmiEvent(buno, tms, visits[i].start, visits[i].task))
  }

  /** A non-empty schedule starts with the visit 42 months after `current`,
      carrying `task`, and continues with the schedule from there with the
      task alternated. */
  lemma ScheduleHead(current: Date, task: string, iteration: nat, alternate: string -> string)
    requires iteration <= MAX_PMI_ITERATIONS
    ensures var r := Schedule(current, task, iteration, alternate);
      var next := AddMonths(current, PMI_INTERVAL_MONTHS);
      |r| > 0 ==>
        && iteration < MAX_PMI_ITERATIONS
        && r == [Visit(next, task)] + Schedule(next, alternate(task), iteration + 1, alternate)
  {
    assert Interval(task) == PMI_INTERVAL_MONTHS;
  }

  /** Consecutive visits of a schedule are 42 months apart and carry
      alternated tasks. */
  lemma {:induction false} ScheduleStepAt(current: Date, task: string, iteration: nat, alternate: string -> string, i: nat)
    requires iteration <= MAX_PMI_ITERATIONS
    requires i + 1 < |Schedule(current, task, iteration, alternate)|
    ensures var r := Schedule(current, task, iteration, alternate);
      r[i + 1] == Visit(AddMonths(r[i].start, PMI_INTERVAL_MONTHS), alternate(r[i].task))
    decreases i
  {
    var next := AddMonths(current, PMI_INTERVAL_MONTHS);
    ScheduleHead(current, task, iteration, alternate);
    if i == 0 {
      ScheduleHead(next, alternate(task), iteration + 1, alternate);
    } else {
      ScheduleStepAt(next, alternate(task), iteration + 1, alternate, i - 1);
    }
  }

  /** The scheduled starts are 42 months apart, beginning 42 months after
      `current`, and the tasks alternate, beginning with `task`. */
  lemma ScheduleSteps(current: Date, task: string, iteration: nat, alternate: string -> string)
    requires iteration <= MAX_PMI_ITERATIONS
    ensures var r := Schedule(current, task, iteration, alternate);
      && (|r| > 0 ==> r[0] == Visit(AddMonths(current, PMI_INTERVAL_MONTHS), task))
      && (forall i :: 0 <= i < |r| - 1 ==>
            r[i + 1] == Visit(AddMonths(r[i].start, PMI_INTERVAL_MONTHS), alternate(r[i].task)))
  {
    ScheduleHead(current, task, iteration, alternate);
    forall i | 0 <= i < |Schedule(current, task, iteration, alternate)| - 1 {
      ScheduleStepAt(current, task, iteration, alternate, i);
    }
  }

  /** The events of a schedule under any alternation, step by step. */
  lemma ScheduledEventsSteps(buno: int, tms: Option<string>, current: Date, task: string, alternate: string -> string)
    ensures var r := EventsOf(buno, tms, Schedule(current, task, 0, alternate));
      && (|r| > 0 ==> r[0].start == Some(AddMonths(current, PMI_INTERVAL_MONTHS)) && r[0].task == Some(task))
      && (forall i :: 0 <= i < |r| ==>
            && r[i].buno == Some(buno) && r[i].tms == tms && r[i].start.Some? && r[i].task.Some?
            && Before(r[i].start.value, ProjectionEnd)
            && r[i].finish == Some(AddDays(r[i].start.value, DAY_546_OFFSET)))
      && (forall i :: 0 <= i < |r| - 1 ==>
            && r[i + 1].start == Some(AddMonths(r[i].start.value, PMI_INTERVAL_MONTHS))
            && r[i + 1].task == Some(alternate(r[i].task.value)))
  {
    ScheduleSteps(current, task, 0, alternate);
  }

  /** The generated inspections: the first 42 months after `current` with
      `task`, each later one 42 months after the one before with the task
      toggled, every one finishing 21 days after it starts and starting
      before the horizon. */
  lemma GenerateSteps(buno: int, tms: Option<string>, current: Date, task: string)
    ensures var r := Generate(buno, tms, current, task);
      && (|r| > 0 ==> r[0].start == Some(AddMonths(current, PMI_INTERVAL_MONTHS)) && r[0].task == Some(task))
      && (forall i :: 0 <= i < |r| ==>
            && r[i].buno == Some(buno) && r[i].tms == tms && r[i].start.Some? && r[i].task.Some?
            && Before(r[i].start.value, ProjectionEnd)
            && r[i].finish == Some(AddDays(r[i].start.value, DAY_546_OFFSET)))
      && (forall i :: 0 <= i < |r| - 1 ==>
            && r[i + 1].start == Some(AddMonths(r[i].start.value, PMI_INTERVAL_MONTHS))
            && r[i + 1].task == Some(Toggle(r[i].task.value)))
  {
    ScheduledEventsSteps(buno, tms, current, task, Toggle);
  }

  /** The start of the last visit, or `current` when there is none. */
  function LastStart(current: Date, r: seq<Visit>): Date {
    if |r| > 0 then r[|r| - 1].start else current
  }

  /** When a pass below the cap emits nothing, the step from `current` would
      reach the horizon. */
  lemma ScheduleEmptyAtHorizon(current: Date, task: string, iteration: nat, alternate: string -> string)
    requires iteration < MAX_PMI_ITERATIONS
    requires Schedule(current, task, iteration, alternate) == []
    ensures !Before(AddMonths(current, PMI_INTERVAL_MONTHS), ProjectionEnd)
  {
    var next := AddMonths(current, PMI_INTERVAL_MONTHS);
    if !Before(current, ProjectionEnd) {
      AddMonthsNotBefore(current, PMI_INTERVAL_MONTHS);
      BeforeTransitive(ProjectionEnd, current, next);
    } else {
      assert Interval(task) == PMI_INTERVAL_MONTHS;
    }
  }

  /** A non-empty schedule is one visit longer than the schedule from its
      first visit, and ends where that one ends. */
  lemma ScheduleLastStep(current: Date, task: string, iteration: nat, alternate: string -> string)
    requires iteration <= MAX_PMI_ITERATIONS
    ensures var r := Schedule(current, task, iteration, alternate);
      var next := AddMonths(current, PMI_INTERVAL_MONTHS);
      |r| > 0 ==>
        && iteration < MAX_PMI_ITERATIONS
        && |r| == 1 + |Schedule(next, alternate(task), iteration + 1, alternate)|
        && LastStart(current, r) == LastStart(next, Schedule(next, alternate(task), iteration + 1, alternate))
  {
    var r := Schedule(current, task, iteration, alternate);
    ScheduleHead(current, task, iteration, alternate);
    if |r| > 0 {
      var next := AddMonths(current, PMI_INTERVAL_MONTHS);
      var rest := Schedule(next, alternate(task), iteration + 1, alternate);
      if |rest| > 0 {
        assert r[|r| - 1] == rest[|rest| - 1];
      }
    }
  }

  /** The loop stops before the iteration cap only when the step after the
      last visit would reach the horizon. */
  lemma ScheduleStopsAtHorizon(current: Date, task: string, iteration: nat, alternate: string -> string)
    requires iteration <= MAX_PMI_ITERATIONS
    ensures var r := Schedule(current, task, iteration, alternate);
      |r| < MAX_PMI_ITERATIONS - iteration ==>
        !Before(AddMonths(LastStart(current, r), PMI_INTERVAL_MONTHS), ProjectionEnd)
  {
    StopsAtHorizon(current, task, iteration, alternate, Schedule(current, task, iteration, alternate));
  }

  /** The induction behind `ScheduleStopsAtHorizon`, over the schedule `r`
      from `current`. */
  lemma {:induction false} StopsAtHorizon(current: Date, task: string, iteration: nat, alternate: string -> string, r: seq<Visit>)
    requires iteration <= MAX_PMI_ITERATIONS && r == Schedule(current, task, iteration, alternate)
    ensures |r| < MAX_PMI_ITERATIONS - iteration ==>
      !Before(AddMonths(LastStart(current, r), PMI_INTERVAL_MONTHS), ProjectionEnd)
    decreases MAX_PMI_ITERATIONS - iteration
  {
    if |r| == 0 {
      if iteration < MAX_PMI_ITERATIONS {
        ScheduleEmptyAtHorizon(current, task, iteration, alternate);
      }
    } else {
      var next := AddMonths(current, PMI_INTERVAL_MONTHS);
      var rest := Schedule(next, alternate(task), iteration + 1, alternate);
      ScheduleLastStep(current, task, iteration, alternate);
      StopsAtHorizon(next, alternate(task), iteration + 1, alternate, rest);
    }
  }

  /** `generate_future_events_enhanced` for one aircraft and its records. */
  function FutureEventsFor(buno: int, rows: seq<Event>): seq<Event> {
    match LastPmiTask(rows)
    case None => []
    case Some(lastPmi) =>
      match MostRecentDate(rows)
      case None => []
      case Some(lastDate) =>
        if IsExcluded(rows, LastSquadron(rows, lastDate)) then []
        else Generate(buno, LastTms(rows), lastDate, Toggle(lastPmi))
  }

  /** `buno_df`: the records of one aircraft. */
  function RecordsOf(rows: seq<Event>, buno: int): (r: seq<Event>)
    ensures |r| <= |rows|
    ensures forall e :: e in r <==> e in rows && e.buno == Some(buno)
  {
    if |rows| == 0 then []
    else
      assert forall e :: e in rows <==> e == rows[0] || e in rows[1..];
      (if rows[0].buno == Some(buno) then [rows[0]] else []) + RecordsOf(rows[1..], buno)
  }

  /** The grouping keeps ledger order: the records of one aircraft in two
      stretches of rows are those of the first stretch, then the second. */
  lemma {:induction false} RecordsOfAppend(a: seq<Event>, b: seq<Event>, buno: int)
    ensures RecordsOf(a + b, buno) == RecordsOf(a, buno) + RecordsOf(b, buno)
    decreases |a|
  {
    if |a| == 0 {
      assert a + b == b;
    } else {
      assert (a + b)[1..] == a[1..] + b;
      RecordsOfAppend(a[1..], b, buno);
    }
  }

  /** The aircraft ids of the records, in order. */
  function Bunos(rows: seq<Event>): (r: seq<int>)
    ensures forall b :: b in r <==> exists e :: e in rows && e.buno == Some(b)
  {
    if |rows| == 0 then []
    else
      assert forall e :: e in rows <==> e == rows[0] || e in rows[1..];
      (if rows[0].buno.Some? then [rows[0].buno.value] else []) + Bunos(rows[1..])
  }

  function FutureEventsOver(rows: seq<Event>, bunos: seq<int>): seq<Event> {
    if |bunos| == 0 then []
    else FutureEventsFor(bunos[0], RecordsOf(rows, bunos[0])) + FutureEventsOver(rows, bunos[1..])
  }

  /** Step 6 of `run_processing`: the projections of every aircraft of the
      historical records, aircraft by aircraft in order of first appearance. */
  function FutureEvents(rows: seq<Event>): seq<Event> {
    FutureEventsOver(rows, Distinct(Bunos(rows)))
  }

  // ---------------------------------------------------------------------------
  // Properties
  // ---------------------------------------------------------------------------

  /** The schedule from `current` is non-empty exactly when the first
      inspection after it still falls before the projection end. */
  lemma ScheduleStarts(current: Date, task: string, alternate: string -> string)
    ensures |Schedule(current, task, 0, alternate)| > 0
        <==> Before(AddMonths(current, Interval(task)), ProjectionEnd)
  {
    AddMonthsNotBefore(current, Interval(task));
    BeforeTransitive(current, AddMonths(current, Interval(task)), ProjectionEnd);
  }

  /** An aircraft gets projections exactly when it has a PMI record, a known
      date, is not AMARG and the date 42 months on is still before the
      projection end; the first one is on that date with the toggled last
      PMI task, and there are at most 100. */
  lemma FutureEventsForShape(buno: int, rows: seq<Event>)
    ensures var r := FutureEventsFor(buno, rows);
      && |r| <= MAX_PMI_ITERATIONS
      && (|r| > 0 ==>
            && LastPmiTask(rows).Some?
            && MostRecentDate(rows).Some?
            && !IsExcluded(rows, LastSquadron(rows, MostRecentDate(rows).value))
            && Before(AddMonths(MostRecentDate(rows).value, PMI_INTERVAL_MONTHS), ProjectionEnd)
            && r[0].start == Some(AddMonths(MostRecentDate(rows).value, PMI_INTERVAL_MONTHS))
            && r[0].task == Some(Toggle(LastPmiTask(rows).value)))
      && (forall i :: 0 <= i < |r| ==> r[i].buno == Some(buno))
    ensures var r := FutureEventsFor(buno, rows);
      (&& LastPmiTask(rows).Some?
       && MostRecentDate(rows).Some?
       && !IsExcluded(rows, LastSquadron(rows, MostRecentDate(rows).value))
       && Before(AddMonths(MostRecentDate(rows).value, PMI_INTERVAL_MONTHS), ProjectionEnd))
      ==> |r| > 0
  {
    match LastPmiTask(rows)
    case None =>
    case Some(lastPmi) =>
      match MostRecentDate(rows)
      case None =>
      case Some(lastDate) =>
        if !IsExcluded(rows, LastSquadron(rows, lastDate)) {
          assert FutureEventsFor(buno, rows) == Generate(buno, LastTms(rows), lastDate, Toggle(lastPmi));
          ScheduleSteps(lastDate, Toggle(lastPmi), 0, Toggle);
          ScheduleStarts(lastDate, Toggle(lastPmi), Toggle);
        }
  }

  /** Every event of the whole projection comes from the projection of one
      of the listed aircraft over its own records. */
  lemma {:induction false} FutureEventsOverSource(rows: seq<Event>, bunos: seq<int>, e: Event)
    requires e in FutureEventsOver(rows, bunos)
    ensures exists k :: 0 <= k < |bunos| && e in FutureEventsFor(bunos[k], RecordsOf(rows, bunos[k]))
  {
    if e !in FutureEventsFor(bunos[0], RecordsOf(rows, bunos[0])) {
      FutureEventsOverSource(rows, bunos[1..], e);
      var k :| 0 <= k < |bunos[1..]| && e in FutureEventsFor(bunos[1..][k], RecordsOf(rows, bunos[1..][k]));
      assert bunos[1..][k] == bunos[k + 1];
    }
  }

  /** An aircraft that is not excluded has no record flagged is_AMARG. */
  lemma NotExcludedHasNoAmarg(rows: seq<Event>, sqd: Option<string>)
    requires !IsExcluded(rows, sqd)
    ensures forall x :: x in rows ==> !x.amarg
  {
    forall x | x in rows
      ensures !x.amarg
    {
      var i :| 0 <= i < |rows| && rows[i] == x;
    }
  }

  /** No projected inspection belongs to an aircraft that has an is_AMARG
      record or whose derived squadron is AMARG. */
  lemma NoAmargProjection(rows: seq<Event>, bunos: seq<int>, e: Event)
    requires e in FutureEventsOver(rows, bunos)
    ensures e.buno.Some? && e.buno.value in bunos
    ensures forall x :: x in rows && x.buno == e.buno ==> !x.amarg
  {
    FutureEventsOverSource(rows, bunos, e);
    var k :| 0 <= k < |bunos| && e in FutureEventsFor(bunos[k], RecordsOf(rows, bunos[k]));
    ProjectedAircraftNotAmarg(bunos[k], RecordsOf(rows, bunos[k]), e);
  }

  /** An event projected for aircraft `buno` from its records carries that
      aircraft and no record of it is flagged is_AMARG. */
  lemma ProjectedAircraftNotAmarg(buno: int, own: seq<Event>, e: Event)
    requires e in FutureEventsFor(buno, own)
    ensures e.buno == Some(buno)
    ensures forall x :: x in own ==> !x.amarg
  {
    var r := FutureEventsFor(buno, own);
    FutureEventsForShape(buno, own);
    var i :| 0 <= i < |r| && r[i] == e;
    NotExcludedHasNoAmarg(own, LastSquadron(own, MostRecentDate(own).value));
  }

  /** With classified records, a squadron derived as AMARG always comes from
      a record already flagged is_AMARG: the second exclusion test covers
      the first. */
  lemma AmargSquadronIsFlagged(rows: seq<Event>, lastDate: Date)
    requires forall i :: 0 <= i < |rows| ==> (rows[i].amarg <==> IsAmargSquadron(rows[i].sqd))
    requires LastSquadron(rows, lastDate).Some?
    requires Contains(Upper(LastSquadron(rows, lastDate).value), "AMARG")
    ensures exists i :: 0 <= i < |rows| && rows[i].amarg
  {
    var k :| 0 <= k < |rows| && rows[k].sqd == LastSquadron(rows, lastDate);
    assert rows[k].amarg;
  }
}
