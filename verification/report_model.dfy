/** The trip report both document generators render (internal/model/report.go): a report mode, the
    organization the report is about, and the trips grouped by counterparty. */
module ReportModel {
  import opened Wrappers
  import opened Domain

  /** `model.ReportMode`, a string type: the generators compare it with the two named constants and
      treat any other text as an unknown mode. */
  datatype ReportMode = ReportMode(text: string)

  const ContractorMode: ReportMode := ReportMode("CONTRACTOR")
  const LandfillMode: ReportMode := ReportMode("LANDFILL")

  /** One trip of a report. The first thirteen fields are the ones `model.TripDetail` declares; the
      last three are the fields the pdf generator reads under the names `EventTime`, `Plate` and
      `SnowVolumeM3`, which the declared record does not have. Pointer fields become options. */
  datatype TripDetail = TripDetail(
    id: Uuid,
    entryAt: Instant,
    exitAt: Option<Instant>,
    status: string,
    polygonId: Option<Uuid>,
    polygonName: Option<string>,
    contractorId: Option<Uuid>,
    contractorName: Option<string>,
    vehiclePlateNumber: Option<string>,
    detectedPlateNumber: Option<string>,
    detectedVolumeEntry: Option<real>,
    detectedVolumeExit: Option<real>,
    totalVolumeM3: Option<real>,
    eventTime: Instant,
    plate: Option<string>,
    snowVolumeM3: Option<real>)

  /** The trips of one counterparty. */
  datatype TripGroup = TripGroup(id: Uuid, name: string, tripCount: int, trips: seq<TripDetail>)

  datatype ActReport = ActReport(
    mode: ReportMode,
    target: Organization,
    periodStart: Instant,
    periodEnd: Instant,
    totalTrips: int,
    groups: seq<TripGroup>)

  /** Dereferencing an optional string the way both generators do (`formatString`, `strPtr`):
      a missing value reads as the empty string. */
  function OrEmpty(v: Option<string>): (r: string)
    ensures v.Some? ==> r == v.value
    ensures v.None? ==> r == ""
  {
    v.GetOr("")
  }
}
