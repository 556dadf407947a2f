/** Worked examples of the scheduler's rules on concrete records, one
    module per stage so that each sees only the definitions it is about. */

/** A PMI projection from one depot record. */
module PmiScenario {
  import opened Options
  import opened Calendar
  import opened Text
  import opened Records
  import opened Classifier
  import opened Pmi

  /** A depot record of aircraft 1: PMI1 on 2020-01-01. */
  const PmiRow: DepotRow := DepotRow(Some(1), Some(Ymd(2020, 1, 1)), None, Some("PMI1"), None, None, None, None, None)

  lemma ToggleExample()
    ensures Toggle("PMI1") == "PMI2"
  {
    assert Contains("PMI1", "1") by {
      assert "PMI1"[1..][1..][1..][..1] == "1";
    }
  }

  /** The state derived from that record. */
  lemma PmiRowState()
    ensures LastPmiTask([Classify(PmiRow)]) == Some("PMI1")
    ensures MostRecentDate([Classify(PmiRow)]) == Some(Ymd(2020, 1, 1))
    ensures !IsExcluded([Classify(PmiRow)], LastSquadron([Classify(PmiRow)], Ymd(2020, 1, 1)))
  {
    assert Upper("PMI1") == "PMI1";
    assert Contains("PMI1", "PMI");
  }

  /** An aircraft whose only record is PMI1 on 2020-01-01 is next inspected
      as PMI2 from 2023-07-01 to 2023-07-22, in quarter 4 of fiscal year
      2023. */
  lemma FirstProjectionExample()
    ensures var r := FutureEventsFor(1, [Classify(PmiRow)]);
      && |r| > 0
      && r[0].task == Some("PMI2")
      && r[0].start == Some(Ymd(2023, 7, 1))
      && r[0].finish == Some(Ymd(2023, 7, 22))
      && r[0].fy == Some(2023) && r[0].qtr == Some(4)
  {
    var rows := [Classify(PmiRow)];
    PmiRowState();
    ToggleExample();
    var start: Date := Ymd(2023, 7, 1);
    assert AddMonths(Ymd(2020, 1, 1), 42) == start;
    AddDaysWithinMonth(start, 21);
    var r := FutureEventsFor(1, rows);
    FutureEventsForShape(1, rows);
    assert |r| > 0;
  }
}

/** A 546-day event detected in one MAF row. */
module Maf546Scenario {
  import opened Options
  import opened Calendar
  import opened Text
  import opened Records
  import opened Maf546

  /** A MAF row of aircraft 1 with the 546-day work unit code, work center
      20, the reason "546 DAY INSPECTION" and a Received Date of 2024-03-01
      as its first date. */
  predicate IsMafExample(row: MafRow) {
    && row.buno == Some(1)
    && row.wuc == "030000P" && row.workCenter == "20" && row.reason == "546 DAY INSPECTION"
    && row.receivedDateTime.None? && row.receivedDate == Some(Ymd(2024, 3, 1))
  }

  lemma MafExampleCodes(row: MafRow)
    requires IsMafExample(row)
    ensures Strip(row.wuc) == "030000P" && Strip(row.workCenter) == "20"
  {
    StripTrimmed(row.wuc);
    StripTrimmed(row.workCenter);
  }

  lemma MafExampleReason(row: MafRow)
    requires IsMafExample(row)
    ensures Contains(Upper(row.reason), "546")
  {
    assert OccursAt(row.reason, "546", 0) by {
      assert row.reason[..3] == "546";
    }
    ContainsIffOccurs(row.reason, "546");
    UpperKeepsLetterFreeMatches(row.reason, "546");
  }

  lemma MafExampleMatches(row: MafRow)
    requires IsMafExample(row)
    ensures IsCandidate(row)
  {
    MafExampleCodes(row);
    MafExampleReason(row);
  }

  lemma MafExampleDate(row: MafRow)
    requires IsMafExample(row)
    ensures StartDate(row) == Some((Ymd(2024, 3, 1), ReceivedDate))
  {
    assert DatePriority[1..] == [ReceivedDate, InWorkDate, CompDateTime, CompDate];
    assert FirstDateIn(row, DatePriority[1..]) == Some((Ymd(2024, 3, 1), ReceivedDate));
  }

  /** The row gives an event from 2024-03-01 to 2024-03-22 in quarter 2 of
      fiscal year 2024. */
  lemma DetectionExample(row: MafRow)
    requires IsMafExample(row)
    ensures var r := Analyze([row]);
      && |r| == 1
      && r[0].start == Some(Ymd(2024, 3, 1))
      && r[0].finish == Some(Ymd(2024, 3, 22))
      && r[0].task == Some("546DAY")
      && r[0].fy == Some(2024) && r[0].qtr == Some(2)
  {
    MafExampleMatches(row);
    MafExampleDate(row);
    var d: Date := Ymd(2024, 3, 1);
    AddDaysWithinMonth(d, 21);
    AnalyzeOne(row);
  }
}

/** The key collision pass on one stream. */
module KeysScenario {
  import opened Text
  import opened Keys

  /** Three base keys of one stream, the first and the last equal. */
  predicate IsKeyExample(keys: seq<string>) {
    keys == ["1_2024_PMI1", "1_2024_PMI2", "1_2024_PMI1"]
  }

  lemma KeyExampleGroups(keys: seq<string>)
    requires IsKeyExample(keys)
    ensures GroupSize(keys, 0) == 2 && GroupSize(keys, 1) == 1 && GroupSize(keys, 2) == 2
    ensures GroupRank(keys, 0) == 0 && GroupRank(keys, 2) == 1
  {
    assert keys[0] != keys[1] by {
      assert keys[0][10] != keys[1][10];
    }
    assert keys[..2] == [keys[0], keys[1]];
  }

  /** Two rows of one stream with key 1_2024_PMI1 become 1_2024_PMI1_0 and
      1_2024_PMI1_1; the row with another key keeps it unsuffixed. */
  lemma KeyCollisionExample(keys: seq<string>)
    requires IsKeyExample(keys)
    ensures DedupKeys(keys) == ["1_2024_PMI1_0", "1_2024_PMI2", "1_2024_PMI1_1"]
  {
    var r := DedupKeys(keys);
    KeyExampleGroups(keys);
    assert NatToString(0) == "0" && NatToString(1) == "1";
    assert r[0] == keys[0] + "_" + NatToString(0) == "1_2024_PMI1_0";
    assert r[1] == keys[1];
    assert r[2] == keys[2] + "_" + NatToString(1) == "1_2024_PMI1_1";
  }
}

/** The SLEP spacing over a few flight-hour rows. */
module SlepScenario {
  import opened Options
  import opened Calendar
  import opened Records
  import opened Slep

  /** Flight-hour rows: one without a buno and one below the lowest tier
      between three qualifying ones. */
  predicate IsSlepExample(rows: seq<FlightHourRow>) {
    && |rows| == 5
    && rows[0] == FlightHourRow(Some(1), Some(10000.0))
    && rows[1] == FlightHourRow(None, Some(15000.0))
    && rows[2] == FlightHourRow(Some(4), Some(16000.0))
    && rows[3] == FlightHourRow(Some(2), Some(9000.0))
    && rows[4] == FlightHourRow(Some(5), Some(13500.0))
  }

  lemma SlepExampleTail(rows: seq<FlightHourRow>)
    requires IsSlepExample(rows)
    ensures QualifyingRows(rows[2..]) == [rows[2], rows[4]]
  {
    QualifyingStep(rows, 4, []);
    QualifyingStep(rows, 3, [rows[4]]);
    QualifyingStep(rows, 2, [rows[4]]);
  }

  lemma SlepExampleQualifying(rows: seq<FlightHourRow>)
    requires IsSlepExample(rows)
    ensures QualifyingRows(rows) == [rows[0], rows[2], rows[4]]
  {
    SlepExampleTail(rows);
    QualifyingStep(rows, 1, [rows[2], rows[4]]);
    QualifyingStep(rows, 0, [rows[2], rows[4]]);
    assert rows[0..] == rows;
  }

  /** Rows without a buno or below the lowest tier do not advance the
      counter, so 13500 hours on the third qualifying row gives SLEP_2 from
      2020-07-29 (28 days after the base date) for 90 days. */
  lemma SlepExample(rows: seq<FlightHourRow>)
    requires IsSlepExample(rows)
    ensures var r := Events(rows);
      && |r| == 3
      && r[2].buno == Some(5)
      && r[2].task == Some("SLEP_2")
      && r[2].start == Some(Ymd(2020, 7, 29))
      && r[2].finish == Some(AddDays(Ymd(2020, 7, 29), 90))
  {
    SlepExampleQualifying(rows);
    EventsFromSchedule(rows, 0);
    SlepSchedule(rows, 2);
    assert QualifyingRows(rows)[2] == rows[4];
    TierBoundaries();
    AddDaysWithinMonth(SlepBase, 28);
  }
}
