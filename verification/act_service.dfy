/** The act service (internal/service/act_service.go): generating a priced act for a contract and
    a period, approving and rejecting landfill acts, reading acts under the access matrix, and the
    helpers that number, round and name them. Every operation takes the ledger and returns the
    ledger it leaves behind; the clock, the fresh act id and the PDF renderer are parameters. */
module ActService {
  import opened Wrappers
  import opened Text
  import TrimSlices
  import opened Domain
  import opened ActRepository
  import Config

  /** The service's configuration, fixed at construction. */
  datatype Settings = Settings(
    vatRate: real,
    validStatuses: seq<string>,
    numberPrefix: string,
    workDescription: string)

  /** `GenerateActInput`. */
  datatype GenerateInput = GenerateInput(
    contractId: Uuid,
    periodStart: Instant,
    periodEnd: Instant,
    principal: Principal)

  /** A reading of `s.now()`, together with its `20060102` rendering. */
  datatype Clock = Clock(now: Instant, dateStamp: string)

  /** The values the database assigns to a new act row: its id and `created_at`. */
  datatype Assigned = Assigned(actId: Uuid, createdAt: Instant)

  /** `GenerateActResult`, with the document that was rendered. */
  datatype GeneratedAct = GeneratedAct(fileName: string, content: seq<bv8>, act: Act, document: ActDocument)

  /** `NewActService`: the configured trip statuses are upper-cased, the rest is copied. */
  function NewSettings(acts: Config.ActsConfig): (s: Settings)
    ensures |s.validStatuses| == |acts.validStatuses|
    ensures forall i :: 0 <= i < |s.validStatuses| ==> s.validStatuses[i] == Upper(acts.validStatuses[i])
    ensures s.vatRate == acts.vatRate && s.numberPrefix == acts.numberPrefix
    ensures s.workDescription == acts.workDescription
  {
    var statuses := seq(|acts.validStatuses|, i requires 0 <= i < |acts.validStatuses| =>
                          Upper(acts.validStatuses[i]));
    Settings(acts.vatRate, statuses, acts.numberPrefix, acts.workDescription)
  }

  /** Upper-casing twice is upper-casing once, so building the settings from already upper-case
      statuses keeps them as they are. */
  lemma NewSettingsKeepsUpperCase(acts: Config.ActsConfig)
    requires forall i :: 0 <= i < |acts.validStatuses| ==> Upper(acts.validStatuses[i]) == acts.validStatuses[i]
    ensures NewSettings(acts).validStatuses == acts.validStatuses
  {
  }

  // ---------------------------------------------------------------------------
  // Rounding
  // ---------------------------------------------------------------------------

  /** `round(value, 3)` and `round(value, 2)` scale by 10^3 and 10^2. */
  const VolumeScale: real := 1000.0
  const MoneyScale: real := 100.0

  /** `math.Round`: the nearest integer, halves rounded away from zero. */
  function RoundHalfAway(x: real): (n: int)
    ensures x >= 0.0 ==> x - 0.5 < n as real <= x + 0.5
    ensures x < 0.0 ==> x - 0.5 <= n as real < x + 0.5
  {
    if x >= 0.0 then (x + 0.5).Floor else -((-x + 0.5).Floor)
  }

  /** `round(value, precision)` with `scale` = 10^precision: scaled back up, the result is the
      whole number nearest to the scaled value, so it lies within half a unit of the last place. */
  function Round(v: real, scale: real): (r: real)
    requires scale > 0.0
    ensures r * scale == RoundHalfAway(v * scale) as real
    ensures v * scale - 0.5 <= r * scale <= v * scale + 0.5
    ensures v >= 0.0 ==> r >= 0.0
  {
    var n := RoundHalfAway(v * scale);
    ScaleBack(n as real, scale);
    n as real / scale
  }

  /** Dividing by a positive factor and multiplying back is the identity and keeps the sign. */
  lemma ScaleBack(n: real, f: real)
    requires f > 0.0
    ensures (n / f) * f == n
    ensures n / f > 0.0 <==> n > 0.0
    ensures n / f >= 0.0 <==> n >= 0.0
  {
  }

  /** A value rounds to something positive exactly when it is at least half a unit of the last place. */
  lemma RoundPositive(v: real, scale: real)
    requires scale > 0.0
    ensures Round(v, scale) > 0.0 <==> v * scale >= 0.5
  {
    var n := RoundHalfAway(v * scale);
    ScaleBack(n as real, scale);
    assert Round(v, scale) == n as real / scale;
    assert n > 0 <==> v * scale >= 0.5;
  }

  /** The total volume of an act rounds to zero (and the act is refused) below 0.0005 m3. */
  lemma VolumeRoundsPositive(v: real)
    ensures Round(v, VolumeScale) > 0.0 <==> v >= 0.0005
  {
    RoundPositive(v, VolumeScale);
  }

  lemma NonnegativeProduct(a: real, b: real)
    ensures a >= 0.0 && b >= 0.0 ==> a * b >= 0.0 && a * b / 100.0 >= 0.0
  {
  }

  // ---------------------------------------------------------------------------
  // Act number and file name
  // ---------------------------------------------------------------------------

  /** The part of the act number taken from the contract id: its first eight characters, upper-cased. */
  function ContractTag(contractId: Uuid): (h: string)
    ensures |h| == (if |contractId.text| > 8 then 8 else |contractId.text|)
    ensures forall i :: 0 <= i < |h| ==> h[i] == UpperRune(contractId.text[i])
  {
    var upper := Upper(contractId.text);
    if |upper| > 8 then upper[..8] else upper
  }

  /** `buildActNumber`: `<prefix>-<tag>-<YYYYMMDD>`. */
  function BuildActNumber(prefix: string, contractId: Uuid, dateStamp: string): (r: string)
    ensures |r| == |prefix| + |ContractTag(contractId)| + |dateStamp| + 2
    ensures r[..|prefix| + 1] == prefix + "-"
    ensures r[|prefix| + 1..|prefix| + 1 + |ContractTag(contractId)|] == ContractTag(contractId)
    ensures r[|r| - |dateStamp| - 1..] == "-" + dateStamp
  {
    prefix + "-" + ContractTag(contractId) + "-" + dateStamp
  }

  /** Two contracts whose ids agree, up to case, on their first eight characters get the same act
      number on the same day: the number does not identify the contract. */
  lemma ActNumberIgnoresIdTail(prefix: string, a: Uuid, b: Uuid, dateStamp: string)
    requires |a.text| >= 8 && |b.text| >= 8
    requires forall i :: 0 <= i < 8 ==> UpperRune(a.text[i]) == UpperRune(b.text[i])
    ensures BuildActNumber(prefix, a, dateStamp) == BuildActNumber(prefix, b, dateStamp)
  {
    assert ContractTag(a) == ContractTag(b);
  }

  /** With the prefix fixed, an act number determines the contract tag and the day stamp. */
  lemma ActNumberDeterminesTagAndDay(prefix: string, a: Uuid, b: Uuid, stampA: string, stampB: string)
    requires |a.text| >= 8 && |b.text| >= 8
    requires BuildActNumber(prefix, a, stampA) == BuildActNumber(prefix, b, stampB)
    ensures ContractTag(a) == ContractTag(b) && stampA == stampB
  {
    var n := BuildActNumber(prefix, a, stampA);
    assert |stampA| == |stampB|;
    assert stampA == n[|n| - |stampA|..];
    assert stampB == n[|n| - |stampB|..];
  }

  /** The runes `sanitizeFileName` keeps as they are. */
  predicate FileNameRune(c: char) {
    ('a' <= c <= 'z') || ('A' <= c <= 'Z') || ('0' <= c <= '9') || c == '-' || c == '_'
  }

  predicate IsDash(c: char) {
    c == '-'
  }

  function SafeRune(c: char): char {
    if FileNameRune(c) then c else '-'
  }

  /** The first step of `sanitizeFileName`: every rune outside the kept set becomes `-`. */
  function MapUnsafeRunes(s: string): (m: string)
    ensures |m| == |s|
    ensures forall k :: 0 <= k < |s| ==> m[k] == SafeRune(s[k])
    ensures forall c :: c in m ==> FileNameRune(c)
    ensures (forall k :: 0 <= k < |s| ==> FileNameRune(s[k])) ==> m == s
  {
    if |s| == 0 then [] else [SafeRune(s[0])] + MapUnsafeRunes(s[1..])
  }

  /** `sanitizeFileName`: every other rune becomes `-`, then dashes are trimmed from both ends. */
  function SanitizeFileName(s: string): (r: string)
    ensures |r| <= |s|
    ensures forall c :: c in r ==> FileNameRune(c)
    ensures |r| > 0 ==> r[0] != '-' && r[|r| - 1] != '-'
    ensures ((forall k :: 0 <= k < |s| ==> FileNameRune(s[k])) && (|s| == 0 || (s[0] != '-' && s[|s| - 1] != '-')))
              ==> r == s
  {
    Trim(MapUnsafeRunes(s), IsDash)
  }


  /** The sanitized name is the image under `SafeRune` of a contiguous run `s[i..i + |r|]` of the
      input, and every rune on either side of that run maps to `-`. With the ends of `r` not being
      `-`, this pins the result down completely. */
  lemma SanitizeFileNameIsSlice(s: string) returns (i: nat)
    ensures var r := SanitizeFileName(s);
            && i + |r| <= |s|
            && (forall k :: 0 <= k < |r| ==> r[k] == SafeRune(s[i + k]))
            && (forall k :: 0 <= k < i ==> SafeRune(s[k]) == '-')
            && (forall k :: i + |r| <= k < |s| ==> SafeRune(s[k]) == '-')
  {
    i := TrimSlices.TrimMappedIsSlice(s, MapUnsafeRunes(s), SafeRune, IsDash);
  }

  /** Sanitizing a sanitized name changes nothing. */
  lemma SanitizeFileNameIdempotent(s: string)
    ensures SanitizeFileName(SanitizeFileName(s)) == SanitizeFileName(s)
  {
    var r := SanitizeFileName(s);
    assert forall k :: 0 <= k < |r| ==> r[k] in r;
  }

  /** The three parts of a concatenation can be sliced back out of it. */
  lemma SliceWrapped(a: string, m: string, b: string)
    ensures var w := a + m + b;
            |w| == |a| + |m| + |b| && w[..|a|] == a && w[|w| - |b|..] == b && w[|a|..|w| - |b|] == m
  {
    var w := a + m + b;
    assert w[..|a|] == a;
    assert w[|w| - |b|..] == b;
    assert w[|a|..|w| - |b|] == m;
  }

  /** `fmt.Sprintf("act-%s.pdf", sanitizeFileName(number))`. */
  function FileName(actNumber: string): (name: string)
    ensures |name| == |SanitizeFileName(actNumber)| + 8
    ensures name[..4] == "act-" && name[|name| - 4..] == ".pdf"
    ensures name[4..|name| - 4] == SanitizeFileName(actNumber)
  {
    var m := SanitizeFileName(actNumber);
    SliceWrapped("act-", m, ".pdf");
    "act-" + m + ".pdf"
  }

  // ---------------------------------------------------------------------------
  // Generating an act
  // ---------------------------------------------------------------------------

  /** The roles allowed to generate acts. */
  predicate MayGenerate(p: Principal) {
    !p.IsDriver() && (p.IsAkimat() || p.IsKgu() || p.IsContractor() || p.IsLandfill())
  }

  /** The checks `GenerateActPDF` makes before touching the store, in their order. */
  function CheckRequest(input: GenerateInput): (r: Option<Error>)
    ensures !MayGenerate(input.principal) ==> r == Some(Sentinel(PermissionDenied))
    ensures MayGenerate(input.principal) && r.Some? ==> Is(r.value, InvalidInput) && !Is(r.value, PermissionDenied)
    ensures r.None? <==> MayGenerate(input.principal) && !IsZero(input.periodStart)
                         && !IsZero(input.periodEnd) && input.periodStart <= input.periodEnd
  {
    var p := input.principal;
    if p.IsDriver() then Some(Sentinel(PermissionDenied))
    else if !(p.IsAkimat() || p.IsKgu() || p.IsContractor() || p.IsLandfill()) then Some(Sentinel(PermissionDenied))
    else if IsZero(input.periodStart) || IsZero(input.periodEnd) then
      Some(InvalidInputError("period dates are required"))
    else if input.periodStart > input.periodEnd then
      Some(InvalidInputError("period_start must be before or equal to period_end"))
    else None
  }

  /** True when the (truncated) period lies within the contract's days. */
  predicate WithinContract(c: Contract, periodStart: Instant, periodEnd: Instant) {
    Day(c.startAt) <= Day(periodStart) && Day(periodEnd) <= Day(c.endAt)
  }

  /** The checks against the loaded contract: a contractor may only bill its own contracts, and
      the period must lie within the contract's days. */
  function CheckContract(p: Principal, c: Contract, periodStart: Instant, periodEnd: Instant): (r: Option<Error>)
    ensures p.IsContractor() && p.orgId != c.contractorId ==> r == Some(Sentinel(PermissionDenied))
    ensures !(p.IsContractor() && p.orgId != c.contractorId) && r.Some? ==> Is(r.value, InvalidInput)
    ensures r.None? <==> !(p.IsContractor() && p.orgId != c.contractorId) && WithinContract(c, periodStart, periodEnd)
  {
    var contractStart := DateOnly(c.startAt);
    var contractEnd := DateOnly(c.endAt);
    DateOnlyOrder(periodStart, c.startAt);
    DateOnlyOrder(c.endAt, periodEnd);
    if p.IsContractor() && p.orgId != c.contractorId then Some(Sentinel(PermissionDenied))
    else if DateOnly(periodStart) < contractStart then
      Some(InvalidInputError("period_start is before contract start date"))
    else if DateOnly(periodEnd) > contractEnd then
      Some(InvalidInputError("period_end is after contract end date"))
    else None
  }

  /** The trips an act for `c` would bill in `[from, to)`: found by polygon for landfill-service
      contracts (which must have polygons), by ticket contract otherwise. Either way only
      unclaimed trips entered inside the window come back. */
  function SelectTrips(l: Ledger, s: Settings, c: Contract, from: Instant, to: Instant): (r: Result<seq<TripForAct>, Error>)
    ensures c.contractType == LandfillService && |GetContractPolygonIds(l, c.id)| == 0 ==>
              r == Err(InvalidInputError("contract has no polygons"))
    ensures r.Err? ==> c.contractType == LandfillService && Is(r.error, InvalidInput)
    ensures r.Ok? ==> SortedByEntry(r.value)
    ensures r.Ok? ==> forall t :: t in r.value ==> t.id !in l.claims && from <= t.entryAt < to
    ensures c.contractType != LandfillService ==>
              r == Ok(ListTripsForPeriod(l, c.id, from, to, s.validStatuses))
    ensures c.contractType == LandfillService && |GetContractPolygonIds(l, c.id)| > 0 ==>
              r == Ok(ListTripsForLandfillContract(l, c.id, GetContractPolygonIds(l, c.id), from, to, s.validStatuses))
  {
    if c.contractType == LandfillService then
      var polygonIds := GetContractPolygonIds(l, c.id);
      if |polygonIds| == 0 then Err(InvalidInputError("contract has no polygons"))
      else
        var trips := ListTripsForLandfillContract(l, c.id, polygonIds, from, to, s.validStatuses);
        assert forall t :: t in trips ==> t.id !in l.claims && from <= t.entryAt < to by {
          forall t | t in trips ensures t.id !in l.claims && from <= t.entryAt < to {
            var row :| row in l.trips && LandfillTripEligible(l.claims, row, polygonIds, from, to, s.validStatuses)
                       && t == LandfillTrip(row);
          }
        }
        Ok(trips)
    else
      var trips := ListTripsForPeriod(l, c.id, from, to, s.validStatuses);
      assert forall t :: t in trips ==> t.id !in l.claims && from <= t.entryAt < to by {
        forall t | t in trips ensures t.id !in l.claims && from <= t.entryAt < to {
          var row :| row in l.trips && ContractTripEligible(l.claims, row, c.id, from, to, s.validStatuses)
                     && t == ContractTrip(row);
        }
      }
      Ok(trips)
  }

  /** The summed volume of the trips, in list order. */
  function TotalVolume(trips: seq<TripForAct>): (total: real)
    ensures (forall i :: 0 <= i < |trips| ==> trips[i].volume >= 0.0) ==> total >= 0.0
    ensures |trips| == 0 ==> total == 0.0
  {
    if |trips| == 0 then 0.0 else TotalVolume(trips[..|trips| - 1]) + trips[|trips| - 1].volume
  }

  /** The ids of the trips, in list order. */
  function TripIds(trips: seq<TripForAct>): (ids: seq<Uuid>)
    ensures |ids| == |trips| && forall i :: 0 <= i < |trips| ==> ids[i] == trips[i].id
  {
    seq(|trips|, i requires 0 <= i < |trips| => trips[i].id)
  }

  /** The accumulation loop of `GenerateActPDF`: the volume total and the trip ids in one pass. */
  method SumTrips(trips: seq<TripForAct>) returns (total: real, ids: seq<Uuid>)
    ensures total == TotalVolume(trips)
    ensures ids == TripIds(trips)
  {
    total := 0.0;
    ids := [];
    var i := 0;
    while i < |trips|
      invariant 0 <= i <= |trips|
      invariant total == TotalVolume(trips[..i])
      invariant ids == TripIds(trips[..i])
    {
      assert trips[..i + 1][..i] == trips[..i];
      total := total + trips[i].volume;
      ids := ids + [trips[i].id];
      i := i + 1;
    }
    assert trips[..i] == trips;
  }

  /** The act's money: amount without VAT, VAT and the total, each rounded to two places. */
  datatype Amounts = Amounts(amountWoVat: real, vatAmount: real, amountWithVat: real)

  function ComputeAmounts(totalVolume: real, price: real, vatRate: real): (a: Amounts)
    ensures a.amountWithVat == a.amountWoVat + a.vatAmount
    ensures totalVolume >= 0.0 && price >= 0.0 && vatRate >= 0.0 ==>
              0.0 <= a.amountWoVat && 0.0 <= a.vatAmount && 0.0 <= a.amountWithVat
  {
    var amountWoVat := Round(totalVolume * price, MoneyScale);
    var vatAmount := Round(amountWoVat * vatRate / 100.0, MoneyScale);
    NonnegativeProduct(totalVolume, price);
    NonnegativeProduct(amountWoVat, vatRate);
    RoundWholeSum(amountWoVat, vatAmount, MoneyScale);
    Amounts(amountWoVat, vatAmount, Round(amountWoVat + vatAmount, MoneyScale))
  }

  /** Rounding a whole number changes nothing. */
  lemma RoundHalfAwayWhole(k: int)
    ensures RoundHalfAway(k as real) == k
  {
  }

  /** Two values already rounded to a place add up to a value that rounding leaves alone: the
      final rounding of the VAT-inclusive total is exact. */
  lemma RoundWholeSum(x: real, y: real, scale: real)
    requires scale > 0.0
    requires (x * scale).Floor as real == x * scale && (y * scale).Floor as real == y * scale
    ensures Round(x + y, scale) == x + y
  {
    var k := (x * scale).Floor + (y * scale).Floor;
    assert (x + y) * scale == k as real;
    RoundHalfAwayWhole(k);
    ScaleBack(k as real, scale);
  }

  /** The budget warning: the contract has a budget and this act would take the billed total past it. */
  predicate BudgetExceeded(budgetTotal: real, paidBefore: real, amountWoVat: real) {
    budgetTotal > 0.0 && paidBefore + amountWoVat > budgetTotal
  }

  /** Landfill-service acts wait for the landfill's approval; all others are final when generated. */
  function InitialStatus(contractType: string): (st: ActStatus)
    ensures st == PendingApproval <==> contractType == LandfillService
    ensures st == PendingApproval || st == Generated
  {
    if contractType == LandfillService then PendingApproval else Generated
  }

  /** The act row `GenerateActPDF` asks the repository to insert (id and `created_at` still unset). */
  function DraftAct(s: Settings, input: GenerateInput, c: Contract, clock: Clock, totalVolume: real): (a: Act)
    ensures a.contractId == c.id && a.landfillId == c.landfillId
    ensures a.contractorId == (if c.contractorId == NilUuid then None else Some(c.contractorId))
    ensures a.periodStart == DateOnly(input.periodStart) && a.periodEnd == DateOnly(input.periodEnd)
    ensures a.actDate == DateOnly(clock.now)
    ensures a.actNumber == BuildActNumber(s.numberPrefix, c.id, clock.dateStamp)
    ensures a.status == InitialStatus(c.contractType)
    ensures a.rejectionReason.None? && a.approvedByOrgId.None? && a.approvedByUserId.None? && a.approvedAt.None?
    ensures a.createdByOrgId == input.principal.orgId && a.createdByUserId == input.principal.userId
    ensures a.totalVolumeM3 == totalVolume && a.pricePerM3 == c.pricePerM3 && a.vatRate == s.vatRate
    ensures var amounts := ComputeAmounts(totalVolume, c.pricePerM3, s.vatRate);
            && a.amountWoVat == amounts.amountWoVat
            && a.vatAmount == amounts.vatAmount
            && a.amountWithVat == amounts.amountWithVat
  {
    var amounts := ComputeAmounts(totalVolume, c.pricePerM3, s.vatRate);
    Act(
      id := NilUuid,
      contractId := c.id,
      contractorId := if c.contractorId == NilUuid then None else Some(c.contractorId),
      landfillId := c.landfillId,
      actNumber := BuildActNumber(s.numberPrefix, c.id, clock.dateStamp),
      actDate := DateOnly(clock.now),
      periodStart := DateOnly(input.periodStart),
      periodEnd := DateOnly(input.periodEnd),
      totalVolumeM3 := totalVolume,
      pricePerM3 := c.pricePerM3,
      amountWoVat := amounts.amountWoVat,
      vatRate := s.vatRate,
      vatAmount := amounts.vatAmount,
      amountWithVat := amounts.amountWithVat,
      status := InitialStatus(c.contractType),
      rejectionReason := None,
      approvedByOrgId := None,
      approvedByUserId := None,
      approvedAt := None,
      createdByOrgId := input.principal.orgId,
      createdByUserId := input.principal.userId,
      createdAt := 0)
  }

  /** `l2` is `l` with one more act `a` stored at the end, under a fresh id and a fresh number,
      together with claims on previously unclaimed trips for it; nothing else differs. */
  predicate AppendsAct(l: Ledger, l2: Ledger, a: Act) {
    && l2.acts == l.acts + [a]
    && a.id !in ActIds(l.acts) && a.actNumber !in ActNumbers(l.acts)
    && l.claims.Keys <= l2.claims.Keys
    && (forall t :: t in l.claims ==> l2.claims[t] == l.claims[t])
    && (forall t :: t in l2.claims && t !in l.claims ==> l2.claims[t] == a.id)
    && l2.trips == l.trips && l2.contracts == l.contracts
    && l2.organizations == l.organizations && l2.contractPolygons == l.contractPolygons
  }

  /** The half-open window of entry times an act covers: from the first day's midnight to the
      midnight after the last day. */
  function WindowEnd(input: GenerateInput): Instant {
    DateOnly(input.periodEnd) + NanosPerDay
  }

  /** What `GenerateActPDF` settles before writing anything: the contract, the trips to bill and
      their rounded total volume. */
  datatype Plan = Plan(contract: Contract, trips: seq<TripForAct>, totalVolume: real)

  /** The checks of `GenerateActPDF` up to and including the contract, in their order: role,
      period dates, contract lookup, contractor ownership, contract dates. */
  function CheckedContract(l: Ledger, input: GenerateInput): (r: Result<Contract, Error>)
    ensures !MayGenerate(input.principal) ==> r == Err(Sentinel(PermissionDenied))
    ensures CheckRequest(input).Some? ==> r == Err(CheckRequest(input).value)
    ensures CheckRequest(input).None? && GetContract(l, input.contractId).Err? ==> r == Err(Sentinel(NotFound))
    ensures CheckRequest(input).None? && GetContract(l, input.contractId).Ok? ==>
              var c := GetContract(l, input.contractId).value;
              var check := CheckContract(input.principal, c, DateOnly(input.periodStart), DateOnly(input.periodEnd));
              && (input.principal.IsContractor() && input.principal.orgId != c.contractorId ==>
                    r == Err(Sentinel(PermissionDenied)))
              && (check.Some? ==> r == Err(check.value))
              && (check.None? ==> r == Ok(c))
    ensures r.Ok? ==>
              && MayGenerate(input.principal)
              && GetContract(l, input.contractId) == Ok(r.value)
              && WithinContract(r.value, DateOnly(input.periodStart), DateOnly(input.periodEnd))
  {
    match CheckRequest(input)
    case Some(e) => Err(e)
    case None =>
      match GetContract(l, input.contractId)
      case Err(e) => Err(if e == RecordNotFound then Sentinel(NotFound) else e)
      case Ok(c) =>
        match CheckContract(input.principal, c, DateOnly(input.periodStart), DateOnly(input.periodEnd))
        case Some(e) => Err(e)
        case None => Ok(c)
  }

  /** The read-only half of `GenerateActPDF`: after the contract checks, the trips to bill (an
      error for a landfill-service contract without polygons) and their rounded volume, which
      must be positive. */
  function PlanAct(l: Ledger, s: Settings, input: GenerateInput): (r: Result<Plan, Error>)
    ensures CheckedContract(l, input).Err? ==> r == Err(CheckedContract(l, input).error)
    ensures CheckedContract(l, input).Ok? ==>
              var c := CheckedContract(l, input).value;
              var selection := SelectTrips(l, s, c, DateOnly(input.periodStart), WindowEnd(input));
              && (selection.Err? ==> r == Err(selection.error))
              && (selection.Ok? && Round(TotalVolume(selection.value), VolumeScale) <= 0.0 ==>
                    r == Err(Sentinel(NoTrips)))
              && (selection.Ok? && Round(TotalVolume(selection.value), VolumeScale) > 0.0 ==>
                    r == Ok(Plan(c, selection.value, Round(TotalVolume(selection.value), VolumeScale))))
    ensures r.Ok? ==>
              && CheckedContract(l, input) == Ok(r.value.contract)
              && r.value.totalVolume > 0.0
              && (forall t :: t in r.value.trips ==>
                    t.id !in l.claims && DateOnly(input.periodStart) <= t.entryAt < WindowEnd(input))
  {
    match CheckedContract(l, input)
    case Err(e) => Err(e)
    case Ok(c) =>
      match SelectTrips(l, s, c, DateOnly(input.periodStart), WindowEnd(input))
      case Err(e) => Err(e)
      case Ok(trips) =>
        var totalVolume := Round(TotalVolume(trips), VolumeScale);
        if totalVolume <= 0.0 then Err(Sentinel(NoTrips))
        else Ok(Plan(c, trips, totalVolume))
  }

  /** `GenerateActPDF`. Every failure before the insert leaves the ledger untouched; the insert
      commits exactly when the act id, the act number and every planned trip are still free, and
      then stores one act claiming exactly the planned trips. A renderer failure is reported, but
      the act and its claims stay stored. */
  function GenerateActPdf(l: Ledger, s: Settings, input: GenerateInput, clock: Clock, stored: Assigned,
                          render: ActDocument -> Result<seq<bv8>, Error>): (r: Step<GeneratedAct>)
    ensures PlanAct(l, s, input).Err? ==> r == Step(l, Err(PlanAct(l, s, input).error))
    ensures r.ledger != l ==>
              && |r.ledger.acts| == |l.acts| + 1 && r.ledger.acts[..|l.acts|] == l.acts
              && AppendsAct(l, r.ledger, r.ledger.acts[|l.acts|])
    ensures PlanAct(l, s, input).Ok? ==>
              var plan := PlanAct(l, s, input).value;
              var number := BuildActNumber(s.numberPrefix, input.contractId, clock.dateStamp);
              && (r.ledger != l <==> stored.actId !in ActIds(l.acts) && number !in ActNumbers(l.acts)
                                     && ClaimsFree(l.claims, TripIds(plan.trips)))
              && (r.ledger != l ==> r.ledger.claims == AddClaims(l.claims, TripIds(plan.trips), stored.actId))
              && (stored.actId in ActIds(l.acts) ==> r == Step(l, Err(UniqueViolation(ActPrimaryKey))))
              && (stored.actId !in ActIds(l.acts) && number in ActNumbers(l.acts) ==>
                    r == Step(l, Err(UniqueViolation(ActNumberIndex))))
              && (stored.actId !in ActIds(l.acts) && number !in ActNumbers(l.acts) && !ClaimsFree(l.claims, TripIds(plan.trips)) ==>
                    r == Step(l, Err(UniqueViolation(ActTripIndex))))
    ensures r.result.Ok? ==>
              var plan := PlanAct(l, s, input).value;
              var g := r.result.value;
              var a := g.act;
              && PlanAct(l, s, input).Ok?
              && r.ledger != l && r.ledger.acts == l.acts + [a]
              && a.id == stored.actId && a.createdAt == stored.createdAt
              && a == DraftAct(s, input, plan.contract, clock, plan.totalVolume).(id := stored.actId, createdAt := stored.createdAt)
              && a.contractId == input.contractId
              && a.totalVolumeM3 == plan.totalVolume
              && a.actNumber == BuildActNumber(s.numberPrefix, input.contractId, clock.dateStamp)
              && a.status == InitialStatus(plan.contract.contractType)
              && g.fileName == FileName(a.actNumber)
              && g.document.act == a && g.document.contract == plan.contract
              && g.document.workDescription == s.workDescription
              && g.document.paidBefore == SumActs(l, input.contractId)
              && (g.document.budgetExceeded <==>
                    BudgetExceeded(plan.contract.budgetTotal, g.document.paidBefore, a.amountWoVat))
              && render(g.document) == Ok(g.content)
  {
    match PlanAct(l, s, input)
    case Err(e) => Step(l, Err(e))
    case Ok(plan) =>
      var c := plan.contract;
      var act := DraftAct(s, input, c, clock, plan.totalVolume);
      var paidBefore := SumActs(l, c.id);
      var budgetExceeded := BudgetExceeded(c.budgetTotal, paidBefore, act.amountWoVat);
      var created := CreateAct(l, act, TripIds(plan.trips), stored.actId, stored.createdAt);
      match created.result
      case Err(e) => Step(l, Err(e))
      case Ok(saved) =>
        var doc := ActDocument(saved, c, s.workDescription, paidBefore, budgetExceeded);
        match render(doc)
        case Err(e) => Step(created.ledger, Err(e))
        case Ok(content) => Step(created.ledger, Ok(GeneratedAct(FileName(saved.actNumber), content, saved, doc)))
  }

  // ---------------------------------------------------------------------------
  // Approval, rejection and reading
  // ---------------------------------------------------------------------------

  /** `GetActByID` as the service sees it: the ORM's "record not found" becomes `ErrNotFound`. */
  function LoadAct(l: Ledger, actId: Uuid): (r: Result<Act, Error>)
    ensures r.Err? <==> actId == NilUuid || actId !in ActIds(l.acts)
    ensures r.Err? ==> r.error == Sentinel(NotFound)
    ensures r.Ok? ==> r.value == GetActByID(l, actId).value
  {
    match GetActByID(l, actId)
    case Err(e) => Err(if e == RecordNotFound then Sentinel(NotFound) else e)
    case Ok(a) => Ok(a)
  }

  /** True when the act belongs to the landfill organization `orgId`. */
  predicate OwnedByLandfill(a: Act, orgId: Uuid) {
    a.landfillId == Some(orgId)
  }

  /** The checks `ApproveAct` and `RejectAct` share once the act is loaded: the caller's landfill
      must own it, and it must still be waiting for approval. */
  function CheckDecision(a: Act, p: Principal): (r: Option<Error>)
    ensures !OwnedByLandfill(a, p.orgId) ==> r == Some(Sentinel(PermissionDenied))
    ensures OwnedByLandfill(a, p.orgId) && a.status != PendingApproval ==>
              r.Some? && Is(r.value, InvalidInput) && !Is(r.value, PermissionDenied)
    ensures r.None? <==> OwnedByLandfill(a, p.orgId) && a.status == PendingApproval
  {
    if a.landfillId.None? || a.landfillId.value != p.orgId then Some(Sentinel(PermissionDenied))
    else if a.status != PendingApproval then Some(InvalidInputError("act is not pending approval"))
    else None
  }

  /** `ApproveAct`: a landfill approves one of its pending acts, recording who approved it and when.
      Any refusal leaves the ledger as it was. */
  function ApproveAct(l: Ledger, actId: Uuid, p: Principal, now: Instant): (r: Step<()>)
    ensures !p.IsLandfill() ==> r == Step(l, Err(Sentinel(PermissionDenied)))
    ensures p.IsLandfill() && LoadAct(l, actId).Err? ==> r == Step(l, Err(Sentinel(NotFound)))
    ensures p.IsLandfill() && LoadAct(l, actId).Ok? && !OwnedByLandfill(LoadAct(l, actId).value, p.orgId) ==>
              r == Step(l, Err(Sentinel(PermissionDenied)))
    ensures r.result.Err? ==> r.ledger == l
    ensures r.result.Ok? <==> p.IsLandfill() && LoadAct(l, actId).Ok?
                              && OwnedByLandfill(LoadAct(l, actId).value, p.orgId)
                              && LoadAct(l, actId).value.status == PendingApproval
    ensures r.result.Ok? ==>
              r.ledger == UpdateActStatus(l, actId, Approved, None, Some(p.orgId), Some(p.userId), Some(now))
  {
    if !p.IsLandfill() then Step(l, Err(Sentinel(PermissionDenied)))
    else match LoadAct(l, actId)
      case Err(e) => Step(l, Err(e))
      case Ok(a) =>
        match CheckDecision(a, p)
        case Some(e) => Step(l, Err(e))
        case None => Step(UpdateActStatus(l, actId, Approved, None, Some(p.orgId), Some(p.userId), Some(now)), Ok(()))
  }

  /** `RejectAct`: a landfill rejects one of its pending acts with a non-blank reason, stored
      trimmed; the approver columns are cleared. The blank-reason check comes before the lookup. */
  function RejectAct(l: Ledger, actId: Uuid, p: Principal, reason: string): (r: Step<()>)
    ensures !p.IsLandfill() ==> r == Step(l, Err(Sentinel(PermissionDenied)))
    ensures p.IsLandfill() && IsBlank(reason) ==>
              r.ledger == l && r.result.Err? && Is(r.result.error, InvalidInput)
    ensures p.IsLandfill() && !IsBlank(reason) && LoadAct(l, actId).Err? ==>
              r == Step(l, Err(Sentinel(NotFound)))
    ensures r.result.Err? ==> r.ledger == l
    ensures r.result.Ok? <==> p.IsLandfill() && !IsBlank(reason) && LoadAct(l, actId).Ok?
                              && OwnedByLandfill(LoadAct(l, actId).value, p.orgId)
                              && LoadAct(l, actId).value.status == PendingApproval
    ensures r.result.Ok? ==>
              r.ledger == UpdateActStatus(l, actId, Rejected, Some(TrimSpace(reason)), None, None, None)
              && TrimSpace(reason) != []
  {
    if !p.IsLandfill() then Step(l, Err(Sentinel(PermissionDenied)))
    else if TrimSpace(reason) == [] then Step(l, Err(InvalidInputError("rejection reason is required")))
    else match LoadAct(l, actId)
      case Err(e) => Step(l, Err(e))
      case Ok(a) =>
        match CheckDecision(a, p)
        case Some(e) => Step(l, Err(e))
        case None => Step(UpdateActStatus(l, actId, Rejected, Some(TrimSpace(reason)), None, None, None), Ok(()))
  }

  /** Who may read an act: its landfill, its contractor, and any akimat or KGU user. */
  predicate CanView(p: Principal, a: Act) {
    match p.role
    case Landfill => a.landfillId == Some(p.orgId)
    case Contractor => a.contractorId == Some(p.orgId)
    case Akimat => true
    case Kgu => true
    case _ => false
  }

  /** `GetAct`: the lookup comes first (an unknown act is `ErrNotFound` whoever asks), then the
      access matrix decides. */
  function GetAct(l: Ledger, actId: Uuid, p: Principal): (r: Result<Act, Error>)
    ensures LoadAct(l, actId).Err? ==> r == Err(Sentinel(NotFound))
    ensures LoadAct(l, actId).Ok? ==>
              (r.Ok? <==> CanView(p, LoadAct(l, actId).value))
              && (r.Err? ==> r.error == Sentinel(PermissionDenied))
    ensures r.Ok? ==> r.value in l.acts && r.value.id == actId
  {
    match LoadAct(l, actId)
    case Err(e) => Err(e)
    case Ok(a) =>
      if p.IsLandfill() then
        if a.landfillId.None? || a.landfillId.value != p.orgId then Err(Sentinel(PermissionDenied)) else Ok(a)
      else if p.IsContractor() then
        if a.contractorId.None? || a.contractorId.value != p.orgId then Err(Sentinel(PermissionDenied)) else Ok(a)
      else if !(p.IsAkimat() || p.IsKgu()) then Err(Sentinel(PermissionDenied))
      else Ok(a)
  }

  /** The service's `ListActsForLandfill`: only landfill users, and only their own organization's acts. */
  function ListLandfillActs(l: Ledger, p: Principal, status: Option<ActStatus>): (r: Result<seq<Act>, Error>)
    ensures !p.IsLandfill() ==> r == Err(Sentinel(PermissionDenied))
    ensures r.Ok? ==> forall a :: a in r.value ==> a in l.acts && OwnedByLandfill(a, p.orgId)
                                                   && (status.Some? ==> a.status == status.value)
    ensures p.IsLandfill() ==>
              r.Ok? && forall a :: (a in l.acts && OwnedByLandfill(a, p.orgId) && (status.None? || a.status == status.value))
                                   ==> a in r.value
  {
    if !p.IsLandfill() then Err(Sentinel(PermissionDenied))
    else Ok(ListActsForLandfill(l, p.orgId, status))
  }
}
