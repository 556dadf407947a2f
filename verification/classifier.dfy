/** `process_depot_amarg_detection`: tags each historical depot row with the
    REBASE flag (task text), the is_AMARG flag (squadron text) and chart
    visibility. A missing cell is rendered the way `str()` renders NaN,
    "nan", which contains neither keyword. */
module Classifier {
  import opened Options
  import opened Text
  import opened Records

  /** `str(value).upper()` of a cell that may be NaN. */
  function CellText(cell: Option<string>): string {
    Upper(cell.GetOr("nan"))
  }

  predicate IsRebaseTask(task: Option<string>) {
    Contains(CellText(task), "REBASE")
  }

  predicate IsAmargSquadron(sqd: Option<string>) {
    Contains(CellText(sqd), "AMARG")
  }

  /** The historical record for one depot row. */
  function Classify(row: DepotRow): (e: Event)
    ensures e.rebase <==> row.task.Some? && Contains(Upper(row.task.value), "REBASE")
    ensures e.amarg <==> row.sqd.Some? && Contains(Upper(row.sqd.value), "AMARG")
    ensures e.visible && !e.event546 && e.source == H60ImpReport
    ensures e.buno == row.buno && e.start == row.start && e.finish == row.finish
    ensures e.task == row.task && e.sqd == row.sqd && e.tms == row.tms && e.fid == row.fid
    ensures e.fy == row.fy && e.qtr == row.qtr && e.key.None?
  {
    assert !Contains("NAN", "REBASE") && !Contains("NAN", "AMARG");
    Event(row.buno, row.start, row.finish, row.task, row.sqd, row.tms, row.fid,
          H60ImpReport, row.fy, row.qtr,
          IsRebaseTask(row.task), false, IsAmargSquadron(row.sqd), true,
          NoDetail, None, None, None)
  }

  /** The whole depot sheet, row by row. */
  function ClassifyAll(rows: seq<DepotRow>): (r: seq<Event>)
    ensures |r| == |rows|
    ensures forall i :: 0 <= i < |rows| ==> r[i] == Classify(rows[i])
  {
    seq(|rows|, i requires 0 <= i < |rows| => Classify(rows[i]))
  }

  /** Flagging ignores letter case: upper-casing the task first changes nothing. */
  lemma RebaseIgnoresCase(task: string)
    ensures IsRebaseTask(Some(Upper(task))) <==> IsRebaseTask(Some(task))
  {
    assert Upper(Upper(task)) == Upper(task);
  }
}
