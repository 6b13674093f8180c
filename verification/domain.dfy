/** The entities the act engine reads and writes, built from the fields the service and the
    repository actually use (internal/service/act_service.go, internal/repository/act_repository.go),
    and the service's error values (internal/service/errors.go). */
module Domain {
  import opened Wrappers

  /** A UUID, represented by its canonical text form (`uuid.UUID.String()`). */
  datatype Uuid = Uuid(text: string)

  /** `uuid.Nil`. */
  const NilUuid: Uuid := Uuid("00000000-0000-0000-0000-000000000000")

  /** A point in time: nanoseconds since Go's zero time (`time.Time{}`), so the zero time is 0. */
  type Instant = int

  const NanosPerDay: int := 86_400_000_000_000

  /** `time.Time.IsZero`. */
  predicate IsZero(t: Instant) {
    t == 0
  }

  /** Calendar day number of an instant (day 0 holds the zero time). */
  function Day(t: Instant): int {
    t / NanosPerDay
  }

  /** `dateOnly`: midnight of the instant's day; the zero time stays the zero time. */
  function DateOnly(t: Instant): (d: Instant)
    ensures d <= t < d + NanosPerDay
    ensures d == Day(t) * NanosPerDay
    ensures IsZero(t) ==> IsZero(d)
  {
    t - t % NanosPerDay
  }

  /** Comparing two truncated instants compares their days. */
  lemma DateOnlyOrder(a: Instant, b: Instant)
    ensures DateOnly(a) < DateOnly(b) <==> Day(a) < Day(b)
  {
  }

  // ---------------------------------------------------------------------------
  // Principals
  // ---------------------------------------------------------------------------

  /** The caller's role, as answered by the principal's `IsAkimat`/`IsKgu`/... checks. */
  datatype Role = Akimat | Kgu | Contractor | Landfill | Driver | OtherRole(name: string)

  /** The authenticated caller. */
  datatype Principal = Principal(orgId: Uuid, userId: Uuid, role: Role) {
    predicate IsAkimat() { role.Akimat? }
    predicate IsKgu() { role.Kgu? }
    predicate IsContractor() { role.Contractor? }
    predicate IsLandfill() { role.Landfill? }
    predicate IsDriver() { role.Driver? }
  }

  // ---------------------------------------------------------------------------
  // Organizations and contracts
  // ---------------------------------------------------------------------------

  datatype Organization = Organization(
    id: Uuid,
    name: string,
    orgType: string,
    bin: string,
    headFullName: string,
    address: string,
    phone: string)

  /** An organization with every column empty (what a row without a joined organization scans into). */
  function BlankOrganization(id: Uuid): Organization {
    Organization(id, "", "", "", "", "", "")
  }

  /** A row of the `contracts` table. */
  datatype ContractRow = ContractRow(
    contractorId: Option<Uuid>,
    landfillId: Option<Uuid>,
    contractType: string,
    createdByOrg: Uuid,
    name: string,
    pricePerM3: real,
    budgetTotal: real,
    startAt: Instant,
    endAt: Instant)

  /** The contract as the repository hands it to the service. */
  datatype Contract = Contract(
    id: Uuid,
    contractorId: Uuid,
    landfillId: Option<Uuid>,
    contractType: string,
    customerOrgId: Uuid,
    name: string,
    pricePerM3: real,
    budgetTotal: real,
    startAt: Instant,
    endAt: Instant,
    contractor: Organization,
    customer: Organization)

  /** The contract type whose acts need the landfill's approval and whose trips are found by polygon. */
  const LandfillService: string := "LANDFILL_SERVICE"

  // ---------------------------------------------------------------------------
  // Trips and acts
  // ---------------------------------------------------------------------------

  /** A row of the `trips` table, with the contract of its ticket (absent when it has none). */
  datatype TripRow = TripRow(
    id: Uuid,
    ticketContractId: Option<Uuid>,
    polygonId: Option<Uuid>,
    entryAt: Instant,
    status: string,
    volumeEntry: Option<real>,
    volumeExit: Option<real>)

  /** A trip eligible for billing. */
  datatype TripForAct = TripForAct(id: Uuid, volume: real, entryAt: Instant)

  datatype ActStatus = Generated | PendingApproval | Approved | Rejected

  /** A row of the `act` table. */
  datatype Act = Act(
    id: Uuid,
    contractId: Uuid,
    contractorId: Option<Uuid>,
    landfillId: Option<Uuid>,
    actNumber: string,
    actDate: Instant,
    periodStart: Instant,
    periodEnd: Instant,
    totalVolumeM3: real,
    pricePerM3: real,
    amountWoVat: real,
    vatRate: real,
    vatAmount: real,
    amountWithVat: real,
    status: ActStatus,
    rejectionReason: Option<string>,
    approvedByOrgId: Option<Uuid>,
    approvedByUserId: Option<Uuid>,
    approvedAt: Option<Instant>,
    createdByOrgId: Uuid,
    createdByUserId: Uuid,
    createdAt: Instant)

  /** Everything the act document renderer receives. */
  datatype ActDocument = ActDocument(
    act: Act,
    contract: Contract,
    workDescription: string,
    paidBefore: real,
    budgetExceeded: bool)

  // ---------------------------------------------------------------------------
  // Errors
  // ---------------------------------------------------------------------------

  /** The service's sentinel errors. */
  datatype Kind = NotFound | PermissionDenied | InvalidInput | NoTrips

  /** An error value as it travels through the code: a sentinel, the ORM's "record not found",
      a violated unique constraint, an opaque renderer failure, or any of these wrapped with
      `fmt.Errorf("%w: detail", cause)`. */
  datatype Error =
    | Sentinel(kind: Kind)
    | RecordNotFound
    | UniqueViolation(constraint: string)
    | RenderFailure(message: string)
    | Wrapped(cause: Error, detail: string)

  /** `errors.Is(e, sentinel)`: follows the `%w` chain down to its root. */
  predicate Is(e: Error, k: Kind) {
    match e
    case Sentinel(k') => k' == k
    case Wrapped(cause, _) => Is(cause, k)
    case _ => false
  }

  /** `e.Error()`. */
  function Message(e: Error): string {
    match e
    case Sentinel(NotFound) => "not found"
    case Sentinel(PermissionDenied) => "permission denied"
    case Sentinel(InvalidInput) => "invalid input"
    case Sentinel(NoTrips) => "no trips for selected period"
    case RecordNotFound => "record not found"
    case UniqueViolation(c) => "duplicate key value violates unique constraint \"" + c + "\""
    case RenderFailure(m) => m
    case Wrapped(cause, detail) => Message(cause) + ": " + detail
  }

  /** `fmt.Errorf("%w: <detail>", ErrInvalidInput)`. */
  function InvalidInputError(detail: string): (e: Error)
    ensures Is(e, InvalidInput) && !Is(e, PermissionDenied) && !Is(e, NotFound)
    ensures Message(e) == "invalid input: " + detail
  {
    Wrapped(Sentinel(InvalidInput), detail)
  }
}
