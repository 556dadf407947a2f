/** The 546-day events: detection of historical ones in the MAF export
    (`analyze_maf_546_events`) and projection of future ones for every
    aircraft that has one (`generate_maf_546_projections`). */
module Maf546 {
  import opened Options
  import opened Calendar
  import opened Text
  import opened Fiscal
  import opened Records
  import opened Seqs

  /** The three-part match: work unit code, work center (zero-padded or not)
      and a reason text mentioning 546. */
  predicate IsCandidate(row: MafRow) {
    && Strip(row.wuc) == "030000P"
    && (Strip(row.workCenter) == "020" || Strip(row.workCenter) == "20")
    && Contains(Upper(row.reason), "546")
  }

  /** The date columns in the order they are tried. */
  const DatePriority: seq<DateField> :=
    [ReceivedDateTime, ReceivedDate, InWorkDate, CompDateTime, CompDate]

  /** The parsed value of one date column (None when blank or unparseable). */
  function DateIn(row: MafRow, f: DateField): Option<Date> {
    match f
    case ReceivedDateTime => row.receivedDateTime
    case ReceivedDate => row.receivedDate
    case InWorkDate => row.inWorkDate
    case CompDateTime => row.compDateTime
    case CompDate => row.compDate
  }

  /** The first column of `fields` that holds a date, with that date. */
  function FirstDateIn(row: MafRow, fields: seq<DateField>): (r: Option<(Date, DateField)>)
    ensures r.None? <==> forall k :: 0 <= k < |fields| ==> DateIn(row, fields[k]).None?
    ensures r.Some? ==> exists k :: 0 <= k < |fields| && fields[k] == r.value.1
                         && DateIn(row, fields[k]) == Some(r.value.0)
                         && forall j :: 0 <= j < k ==> DateIn(row, fields[j]).None?
  {
    if |fields| == 0 then None
    else match DateIn(row, fields[0])
      case Some(d) => Some((d, fields[0]))
      case None =>
        var rest := FirstDateIn(row, fields[1..]);
        if rest.Some? then
          var k :| 0 <= k < |fields[1..]| && fields[1..][k] == rest.value.1
                   && DateIn(row, fields[1..][k]) == Some(rest.value.0)
                   && forall j :: 0 <= j < k ==> DateIn(row, fields[1..][j]).None?;
          assert fields[k + 1] == rest.value.1;
          rest
        else rest
  }

  /** The start date of a 546-day event and the column it came from. */
  function StartDate(row: MafRow): Option<(Date, DateField)> {
    FirstDateIn(row, DatePriority)
  }

  /** The event recorded for a matching row whose start date is `d`, read
      from column `f`. */
  function HistoricalEvent(row: MafRow, d: Date, f: DateField): (e: Event)
    ensures e.start == Some(d) && e.finish == Some(AddDays(d, DAY_546_OFFSET))
    ensures e.task == Some("546DAY") && e.event546 && !e.amarg && e.visible
    ensures e.buno == row.buno && e.source == MafAnalysis
    ensures e.fy == FiscalYear(Some(d)) && e.qtr == FiscalQuarter(Some(d))
  {
    Event(row.buno, Some(d), Some(AddDays(d, DAY_546_OFFSET)), Some("546DAY"), None, None, None,
          MafAnalysis, FiscalYear(Some(d)), FiscalQuarter(Some(d)),
          Contains(Upper(row.reason), "REBASE"), true, false, true,
          MafDetail(Strip(row.wuc), Strip(row.workCenter), row.reason, row.jcn, row.mcn, f),
          None, None, None)
  }

  /** A row yields a historical event when it matches and has a usable date. */
  predicate Yields(row: MafRow) {
    IsCandidate(row) && StartDate(row).Some?
  }

  function EventFor(row: MafRow): Event
    requires Yields(row)
  {
    HistoricalEvent(row, StartDate(row).value.0, StartDate(row).value.1)
  }

  /** The event a row contributes to the analysis, if any. */
  function Detect(row: MafRow): (r: Option<Event>)
    ensures r.Some? <==> Yields(row)
    ensures r.Some? ==> r.value == EventFor(row)
  {
    if Yields(row) then Some(EventFor(row)) else None
  }

  /** `analyze_maf_546_events`: one event per matching row that has a date,
      in row order; matching rows without any date are dropped. */
  function Analyze(rows: seq<MafRow>): (r: seq<Event>)
    ensures |r| <= |rows|
    ensures forall e :: e in r <==> exists i :: 0 <= i < |rows| && Yields(rows[i]) && e == EventFor(rows[i])
  {
    FilterMap(rows, Detect)
  }

  /** A single row that yields an event is analysed into exactly that event. */
  lemma AnalyzeOne(row: MafRow)
    requires Yields(row)
    ensures Analyze([row]) == [EventFor(row)]
  {
    assert [row][1..] == [];
  }

  /** Detection is row by row: the events of two batches are the events of
      each, in order. */
  lemma AnalyzeAppend(a: seq<MafRow>, b: seq<MafRow>)
    ensures Analyze(a + b) == Analyze(a) + Analyze(b)
  {
    FilterMapAppend(a, b, Detect);
  }

  /** Every detected event finishes exactly 21 days after it starts, and its
      start is the first usable date of its row in priority order. */
  lemma DetectedEventShape(rows: seq<MafRow>, e: Event)
    requires e in Analyze(rows)
    ensures e.start.Some? && e.finish.Some?
    ensures ToDays(e.finish.value) == ToDays(e.start.value) + 21
    ensures exists i :: 0 <= i < |rows| && IsCandidate(rows[i]) && StartDate(rows[i]).Some?
                         && StartDate(rows[i]).value.0 == e.start.value
  {
  }

  // ---------------------------------------------------------------------------
  // Projections
  // ---------------------------------------------------------------------------

  /** `row` matches and belongs to aircraft `b`. */
  predicate MatchesAircraft(row: MafRow, b: int) {
    IsCandidate(row) && row.buno == Some(b)
  }

  /** The aircraft a row puts in the projection set, if any. */
  function CandidateBuno(row: MafRow): (r: Option<int>)
    ensures r.Some? <==> IsCandidate(row) && row.buno.Some?
    ensures r.Some? ==> r == row.buno
  {
    if IsCandidate(row) && row.buno.Some? then row.buno else None
  }

  /** The bunos of matching rows, whether or not the row has a usable date. */
  function CandidateBunos(rows: seq<MafRow>): (r: seq<int>)
    ensures forall b :: b in r <==> exists i :: 0 <= i < |rows| && MatchesAircraft(rows[i], b)
  {
    FilterMap(rows, CandidateBuno)
  }

  /** `historical_546_aircraft`: every aircraft with a matching row, once. */
  function Aircraft(rows: seq<MafRow>): (r: seq<int>)
    ensures forall b :: b in r <==> exists i :: 0 <= i < |rows| && MatchesAircraft(rows[i], b)
    ensures forall i, j :: 0 <= i < j < |r| ==> r[i] != r[j]
  {
    Distinct(CandidateBunos(rows))
  }

  /** The projected event starting on `d`. */
  function ProjectedEvent(buno: int, d: Date): (e: Event)
    ensures e.start == Some(d) && e.finish == Some(AddDays(d, DAY_546_OFFSET))
    ensures e.task == Some("546DAY_PROJ") && e.buno == Some(buno) && e.source == MafProjection
  {
    Event(Some(buno), Some(d), Some(AddDays(d, DAY_546_OFFSET)), Some("546DAY_PROJ"), None, None, None,
          MafProjection, FiscalYear(Some(d)), FiscalQuarter(Some(d)),
          false, true, false, true, NoDetail, None, None, None)
  }

  /** The projection loop from `current`: step 546 days at a time and stop at
      the first step that reaches the horizon; the dates it emits. */
  function ProjectionDates(current: Date): (r: seq<Date>)
    ensures forall i :: 0 <= i < |r| ==> Before(r[i], ProjectionEnd)
    decreases ToDays(ProjectionEnd) - ToDays(current)
  {
    if !Before(current, ProjectionEnd) then []
    else
      var next := AddDays(current, DAY_546_INTERVAL);
      if !Before(next, ProjectionEnd) then []
      else
        BeforeIffFewerDays(current, ProjectionEnd);
        BeforeIffFewerDays(next, ProjectionEnd);
        [next] + ProjectionDates(next)
  }

  /** The date of the `k`-th (0-based) step of the projection loop. */
  function ProjectionStep(current: Date, k: nat): Date {
    AddDays(current, DAY_546_INTERVAL * (k + 1))
  }

  /** The projected events of aircraft `buno` from `current` on. */
  function ProjectFrom(buno: int, current: Date): (r: seq<Event>)
    ensures |r| == |ProjectionDates(current)|
  {
    var dates := ProjectionDates(current);
    seq(|dates|, i requires 0 <= i < |dates| => ProjectedEvent(buno, dates[i]))
  }

  /** The projection loop emits the dates `current + 546 * k` days for
      k = 1, 2, ... and stops exactly at the first one on or after the
      horizon. */
  lemma {:induction false} ProjectionDatesSteps(current: Date)
    ensures var r := ProjectionDates(current);
      && (forall i :: 0 <= i < |r| ==> r[i] == AddDays(current, DAY_546_INTERVAL * (i + 1)))
      && !Before(AddDays(current, DAY_546_INTERVAL * (|r| + 1)), ProjectionEnd)
    decreases ToDays(ProjectionEnd) - ToDays(current)
  {
    var r := ProjectionDates(current);
    var next := AddDays(current, DAY_546_INTERVAL);
    if !Before(current, ProjectionEnd) {
      AddDaysAfter(current, DAY_546_INTERVAL);
      BeforeTransitive(ProjectionEnd, current, next);
    } else if Before(next, ProjectionEnd) {
      BeforeIffFewerDays(current, ProjectionEnd);
      BeforeIffFewerDays(next, ProjectionEnd);
      var rest := ProjectionDates(next);
      ProjectionDatesSteps(next);
      forall i | 0 <= i < |r|
        ensures r[i] == AddDays(current, DAY_546_INTERVAL * (i + 1))
      {
        if i > 0 {
          assert r[i] == rest[i - 1];
          AddDaysAdditive(current, DAY_546_INTERVAL, DAY_546_INTERVAL * i);
        }
      }
      AddDaysAdditive(current, DAY_546_INTERVAL, DAY_546_INTERVAL * (|rest| + 1));
    }
  }

  /** Every projected event of an aircraft carries it, starts `546 * (i + 1)`
      days after the anchor, finishes 21 days after its start, and starts
      strictly before the horizon; the step after the last one would not. */
  lemma ProjectFromShape(buno: int, current: Date)
    ensures var r := ProjectFrom(buno, current);
      && (forall i :: 0 <= i < |r| ==>
            && r[i].buno == Some(buno) && r[i].task == Some("546DAY_PROJ")
            && r[i].start == Some(AddDays(current, DAY_546_INTERVAL * (i + 1)))
            && r[i].finish == Some(AddDays(r[i].start.value, DAY_546_OFFSET))
            && Before(r[i].start.value, ProjectionEnd))
      && !Before(AddDays(current, DAY_546_INTERVAL * (|r| + 1)), ProjectionEnd)
  {
    ProjectionDatesSteps(current);
  }

  /** Consecutive projected starts of one aircraft are 546 days apart. */
  lemma ProjectFromSpacing(buno: int, current: Date, i: nat)
    requires i + 1 < |ProjectFrom(buno, current)|
    ensures var r := ProjectFrom(buno, current);
      r[i + 1].start == Some(AddDays(r[i].start.value, DAY_546_INTERVAL))
  {
    ProjectFromShape(buno, current);
    AddDaysAdditive(current, DAY_546_INTERVAL * (i + 1), DAY_546_INTERVAL);
  }

  /** The projections of every 546-day aircraft, anchored at `now`. */
  function ProjectAll(rows: seq<MafRow>, now: Date): seq<Event> {
    ProjectFor(Aircraft(rows), now)
  }

  function ProjectFor(bunos: seq<int>, now: Date): seq<Event> {
    if |bunos| == 0 then [] else ProjectFrom(bunos[0], now) + ProjectFor(bunos[1..], now)
  }

  /** An event is projected exactly when it is in the projection of one of
      the aircraft. */
  lemma {:induction false} ProjectForMembers(bunos: seq<int>, now: Date, e: Event)
    ensures e in ProjectFor(bunos, now) <==> exists k :: 0 <= k < |bunos| && e in ProjectFrom(bunos[k], now)
  {
    if |bunos| > 0 {
      ProjectForMembers(bunos[1..], now, e);
      if exists k :: 0 <= k < |bunos| && e in ProjectFrom(bunos[k], now) {
        var k :| 0 <= k < |bunos| && e in ProjectFrom(bunos[k], now);
        if k > 0 {
          assert bunos[1..][k - 1] == bunos[k];
        }
      }
      if e in ProjectFor(bunos[1..], now) {
        var k :| 0 <= k < |bunos[1..]| && e in ProjectFrom(bunos[1..][k], now);
        assert bunos[1..][k] == bunos[k + 1];
      }
    }
  }

  /** A projected event of one aircraft, stated without its position. */
  lemma ProjectedEventFrom(buno: int, now: Date, e: Event)
    requires e in ProjectFrom(buno, now)
    ensures e.buno == Some(buno)
    ensures e.start.Some? && Before(e.start.value, ProjectionEnd)
    ensures exists k: nat :: e.start == Some(ProjectionStep(now, k))
    ensures e.finish == Some(AddDays(e.start.value, DAY_546_OFFSET))
  {
    var r := ProjectFrom(buno, now);
    ProjectFromShape(buno, now);
    var i :| 0 <= i < |r| && r[i] == e;
    assert e.start == Some(ProjectionStep(now, i));
  }

  /** Every projected 546-day event belongs to an aircraft with a matching
      row, starts a whole number of 546-day steps after `now` and before the
      horizon, and lasts 21 days. */
  lemma ProjectedEventShape(rows: seq<MafRow>, now: Date, e: Event)
    requires e in ProjectAll(rows, now)
    ensures e.buno.Some? && exists i :: 0 <= i < |rows| && MatchesAircraft(rows[i], e.buno.value)
    ensures e.start.Some? && Before(e.start.value, ProjectionEnd)
    ensures exists k: nat :: e.start == Some(ProjectionStep(now, k))
    ensures e.finish == Some(AddDays(e.start.value, DAY_546_OFFSET))
  {
    var bunos := Aircraft(rows);
    ProjectForMembers(bunos, now, e);
    var k :| 0 <= k < |bunos| && e in ProjectFrom(bunos[k], now);
    ProjectedEventFrom(bunos[k], now, e);
    assert bunos[k] in bunos;
  }
}
