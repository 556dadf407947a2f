/** `analyze_bumblebee_slep_events`: one service-life-extension event per
    aircraft row whose predicted flight hours reach a tier, scheduled from
    2020-07-01 two weeks apart in row order. The spacing counter of the
    source is threaded through the generator as an explicit argument. */
module Slep {
  import opened Options
  import opened Calendar
  import opened Fiscal
  import opened Records

  datatype Tier = MaxAircraftLife | Slep3 | Slep2 | Slep1

  /** `SLEP_THRESHOLDS`: flight hours from which a tier applies. */
  function Threshold(t: Tier): real {
    match t
    case MaxAircraftLife => 16000.0
    case Slep3 => 14000.0
    case Slep2 => 12000.0
    case Slep1 => 10000.0
  }

  function TaskName(t: Tier): string {
    match t
    case MaxAircraftLife => "MAX_AIRCRAFT_LIFE"
    case Slep3 => "SLEP_3"
    case Slep2 => "SLEP_2"
    case Slep1 => "SLEP_1"
  }

  /** Days from start to finish of an event of the tier. */
  function Duration(t: Tier): nat {
    if t == MaxAircraftLife then 180 else 90
  }

  /** The tier for `hours`, testing thresholds from the highest down: the
      highest tier whose threshold is reached, none below the lowest. */
  function TierFor(hours: real): (r: Option<Tier>)
    ensures r.None? <==> hours < Threshold(Slep1)
    ensures r.Some? ==> Threshold(r.value) <= hours
    ensures r.Some? ==> forall t :: Threshold(t) > Threshold(r.value) ==> hours < Threshold(t)
  {
    if hours >= Threshold(MaxAircraftLife) then Some(MaxAircraftLife)
    else if hours >= Threshold(Slep3) then Some(Slep3)
    else if hours >= Threshold(Slep2) then Some(Slep2)
    else if hours >= Threshold(Slep1) then Some(Slep1)
    else None
  }

  /** The boundary cases: a threshold value belongs to its own tier. */
  lemma TierBoundaries()
    ensures TierFor(12000.0) == Some(Slep2)
    ensures TierFor(16000.0) == Some(MaxAircraftLife)
    ensures TierFor(13500.0) == Some(Slep2)
    ensures TierFor(9999.5) == None
  {
  }

  /** `base_slep_date`. */
  const SlepBase: Date := Ymd(2020, 7, 1)

  /** A row produces an event when it has a buno, has flight hours and
      reaches a tier; only such rows advance the counter. */
  predicate Qualifies(row: FlightHourRow) {
    row.buno.Some? && row.flightHours.Some? && TierFor(row.flightHours.value).Some?
  }

  /** The event of a qualifying row emitted when the counter is `counter`:
      `pd.Timedelta(weeks=counter * 2)` after the base date. */
  function SlepEvent(row: FlightHourRow, counter: nat): (e: Event)
    requires Qualifies(row)
    ensures e.start == Some(AddDays(SlepBase, 14 * counter))
  {
    var tier := TierFor(row.flightHours.value).value;
    var start := AddDays(SlepBase, 14 * counter);
    Event(row.buno, Some(start), Some(AddDays(start, Duration(tier))), Some(TaskName(tier)),
          None, None, None, BumbleBee, FiscalYear(Some(start)), FiscalQuarter(Some(start)),
          false, false, false, true, SlepDetail(row.flightHours.value), None, None, None)
  }

  /** The generator loop with its counter at `counter`. */
  function EventsFrom(rows: seq<FlightHourRow>, counter: nat): (r: seq<Event>)
    ensures |r| <= |rows|
  {
    if |rows| == 0 then []
    else if Qualifies(rows[0]) then [SlepEvent(rows[0], counter)] + EventsFrom(rows[1..], counter + 1)
    else EventsFrom(rows[1..], counter)
  }

  /** The SLEP stream: the loop started with the counter at 0. */
  function Events(rows: seq<FlightHourRow>): seq<Event> {
    EventsFrom(rows, 0)
  }

  /** The qualifying rows, in input order. */
  function QualifyingRows(rows: seq<FlightHourRow>): (r: seq<FlightHourRow>)
    ensures |r| <= |rows|
    ensures forall i :: 0 <= i < |r| ==> Qualifies(r[i])
  {
    if |rows| == 0 then []
    else (if Qualifies(rows[0]) then [rows[0]] else []) + QualifyingRows(rows[1..])
  }

  /** The qualifying rows are exactly the rows that qualify. */
  lemma {:induction false} QualifyingRowsMembers(rows: seq<FlightHourRow>)
    ensures forall row :: row in QualifyingRows(rows) <==> row in rows && Qualifies(row)
  {
    if |rows| > 0 {
      QualifyingRowsMembers(rows[1..]);
      assert forall row :: row in rows <==> row == rows[0] || row in rows[1..];
    }
  }

  /** The k-th emitted event belongs to the k-th qualifying row and is
      scheduled with the counter advanced by k. */
  lemma {:induction false} EventsFromSchedule(rows: seq<FlightHourRow>, counter: nat)
    ensures |EventsFrom(rows, counter)| == |QualifyingRows(rows)|
    ensures forall k :: 0 <= k < |QualifyingRows(rows)| ==>
      EventsFrom(rows, counter)[k] == SlepEvent(QualifyingRows(rows)[k], counter + k)
  {
    if |rows| > 0 {
      if Qualifies(rows[0]) {
        EventsFromSchedule(rows[1..], counter + 1);
        ScheduleStep(rows, counter);
      } else {
        EventsFromSchedule(rows[1..], counter);
        assert QualifyingRows(rows) == QualifyingRows(rows[1..]);
      }
    }
  }

  /** The inductive step of `EventsFromSchedule` for a qualifying first row. */
  lemma ScheduleStep(rows: seq<FlightHourRow>, counter: nat)
    requires |rows| > 0 && Qualifies(rows[0])
    requires |EventsFrom(rows[1..], counter + 1)| == |QualifyingRows(rows[1..])|
    requires forall k :: 0 <= k < |QualifyingRows(rows[1..])| ==>
      EventsFrom(rows[1..], counter + 1)[k] == SlepEvent(QualifyingRows(rows[1..])[k], counter + 1 + k)
    ensures |EventsFrom(rows, counter)| == |QualifyingRows(rows)|
    ensures forall k :: 0 <= k < |QualifyingRows(rows)| ==>
      EventsFrom(rows, counter)[k] == SlepEvent(QualifyingRows(rows)[k], counter + k)
  {
    var q := QualifyingRows(rows);
    var qs := QualifyingRows(rows[1..]);
    var r := EventsFrom(rows, counter);
    var rs := EventsFrom(rows[1..], counter + 1);
    assert q == [rows[0]] + qs;
    assert r == [SlepEvent(rows[0], counter)] + rs;
    forall k | 0 <= k < |q|
      ensures r[k] == SlepEvent(q[k], counter + k)
    {
      if k > 0 {
        assert r[k] == rs[k - 1];
        assert q[k] == qs[k - 1];
      }
    }
  }

  /** The k-th SLEP event (0-based) starts 14 * k days after 2020-07-01 and
      lasts the duration of its tier. */
  lemma SlepSchedule(rows: seq<FlightHourRow>, k: nat)
    requires k < |Events(rows)|
    ensures |QualifyingRows(rows)| == |Events(rows)|
    ensures Events(rows)[k].start == Some(AddDays(SlepBase, 14 * k))
    ensures var row := QualifyingRows(rows)[k];
      && Events(rows)[k].buno == row.buno
      && Events(rows)[k].task == Some(TaskName(TierFor(row.flightHours.value).value))
      && Events(rows)[k].finish
         == Some(AddDays(Events(rows)[k].start.value, Duration(TierFor(row.flightHours.value).value)))
  {
    EventsFromSchedule(rows, 0);
  }

  /** One step of `QualifyingRows` at position `i`, with the rest known. */
  lemma QualifyingStep(rows: seq<FlightHourRow>, i: nat, rest: seq<FlightHourRow>)
    requires i < |rows| && QualifyingRows(rows[i + 1..]) == rest
    ensures Qualifies(rows[i]) ==> QualifyingRows(rows[i..]) == [rows[i]] + rest
    ensures !Qualifies(rows[i]) ==> QualifyingRows(rows[i..]) == rest
  {
    assert rows[i..][1..] == rows[i + 1..];
  }
}
