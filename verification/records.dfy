/** The scheduler's configuration constants and the records that flow
    between its stages. Every stage produces `Event`s, one type for all five
    streams, so the union of columns taken before the streams are combined
    is the `Event` type itself: a column a stream does not fill is `None`. */
module Records {
  import opened Options
  import opened Calendar

  // Configuration constants of the scheduler.
  const PROJECTION_END_YEAR: int := 2052
  /** `datetime(PROJECTION_END_YEAR, 12, 31)`: projections stay strictly before it. */
  const ProjectionEnd: Date := Ymd(PROJECTION_END_YEAR, 12, 31)
  const PMI_INTERVAL_MONTHS: nat := 42
  const PMI_1_2_INTERVAL: nat := 42
  const PMI_2_1_INTERVAL: nat := 42
  const DAY_546_OFFSET: nat := 21
  const DAY_546_INTERVAL: nat := 546
  /** Safety cap on the iterations of one aircraft's PMI projection. */
  const MAX_PMI_ITERATIONS: nat := 100

  /** The `data_source` column. */
  datatype Source = H60ImpReport | DepotProjection | MafAnalysis | MafProjection | BumbleBee

  /** The MAF date columns, in the order the 546-day detector tries them. */
  datatype DateField = ReceivedDateTime | ReceivedDate | InWorkDate | CompDateTime | CompDate

  /** Columns only one stream carries, passed through unchanged. */
  datatype Detail =
    | NoDetail
    | MafDetail(wuc: string, workCenter: string, reason: string, jcn: string, mcn: string,
                dateSource: DateField)
    | SlepDetail(flightHours: real)

  /** One row of the depot schedule sheet (historical record). */
  datatype DepotRow = DepotRow(
    buno: Option<int>,
    start: Option<Date>,
    finish: Option<Date>,
    task: Option<string>,
    sqd: Option<string>,
    tms: Option<string>,
    fid: Option<Date>,
    fy: Option<int>,
    qtr: Option<int>)

  /** One row of the MAF export; text columns that are absent read as "". */
  datatype MafRow = MafRow(
    buno: Option<int>,
    wuc: string,
    workCenter: string,
    reason: string,
    jcn: string,
    mcn: string,
    receivedDateTime: Option<Date>,
    receivedDate: Option<Date>,
    inWorkDate: Option<Date>,
    compDateTime: Option<Date>,
    compDate: Option<Date>)

  /** One row of the flight-hour predictions. */
  datatype FlightHourRow = FlightHourRow(buno: Option<int>, flightHours: Option<real>)

  /** One row of any stream and of the combined ledger. */
  datatype Event = Event(
    buno: Option<int>,
    start: Option<Date>,
    finish: Option<Date>,
    task: Option<string>,
    sqd: Option<string>,
    tms: Option<string>,
    fid: Option<Date>,
    source: Source,
    fy: Option<int>,
    qtr: Option<int>,
    rebase: bool,
    event546: bool,
    amarg: bool,
    visible: bool,
    detail: Detail,
    key: Option<string>,
    fidStartDelta: Option<int>,
    startFinishDelta: Option<int>)
}
