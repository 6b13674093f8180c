/** The act repository (internal/repository/act_repository.go) as operations on an abstract
    ledger: the trips, the acts, and the claim relation `act_trip` from trip to act, plus the
    read-only organizations, contracts and contract polygons the queries join against.
    The two unique indexes of internal/db/migrations.go (act number; one claim per trip) and
    the act primary key are the only constraints modelled. */
module ActRepository {
  import opened Wrappers
  import opened Domain
  import opened Seqs

  datatype Ledger = Ledger(
    organizations: map<Uuid, Organization>,
    contracts: map<Uuid, ContractRow>,
    contractPolygons: map<Uuid, seq<Uuid>>,
    trips: seq<TripRow>,
    acts: seq<Act>,
    claims: map<Uuid, Uuid>)

  /** The outcome of an operation that may change the ledger: the ledger afterwards and the result. */
  datatype Step<T> = Step(ledger: Ledger, result: Result<T, Error>)

  /** Constraint names reported by unique violations. */
  const ActPrimaryKey: string := "act_pkey"
  const ActNumberIndex: string := "uq_act_number"
  const ActTripIndex: string := "uq_act_trip_trip_id"

  function ActIds(acts: seq<Act>): set<Uuid> {
    set a | a in acts :: a.id
  }

  function ActNumbers(acts: seq<Act>): set<string> {
    set a | a in acts :: a.actNumber
  }

  /** The ledger invariant the database keys maintain: trip ids and act ids are primary keys,
      act numbers are unique, and every claim points at an existing act. */
  ghost predicate Valid(l: Ledger) {
    && (forall i, j :: 0 <= i < j < |l.trips| ==> l.trips[i].id != l.trips[j].id)
    && (forall i, j :: 0 <= i < j < |l.acts| ==> l.acts[i].id != l.acts[j].id)
    && (forall i, j :: 0 <= i < j < |l.acts| ==> l.acts[i].actNumber != l.acts[j].actNumber)
    && (forall t :: t in l.claims ==> l.claims[t] in ActIds(l.acts))
  }

  // ---------------------------------------------------------------------------
  // GetContract
  // ---------------------------------------------------------------------------

  /** The counterparty columns of the contract query: the contractor's organization when the
      contract names one that exists, otherwise the landfill's, otherwise empty columns. */
  function Counterparty(l: Ledger, row: ContractRow): (o: Organization)
    ensures row.contractorId.Some? && row.contractorId.value in l.organizations ==>
              o == l.organizations[row.contractorId.value]
    ensures (row.contractorId.None? || row.contractorId.value !in l.organizations)
              && row.landfillId.Some? && row.landfillId.value in l.organizations ==>
              o == l.organizations[row.landfillId.value]
    ensures (row.contractorId.None? || row.contractorId.value !in l.organizations)
              && (row.landfillId.None? || row.landfillId.value !in l.organizations) ==>
              o == BlankOrganization(NilUuid)
  {
    if row.contractorId.Some? && row.contractorId.value in l.organizations then
      l.organizations[row.contractorId.value]
    else if row.landfillId.Some? && row.landfillId.value in l.organizations then
      l.organizations[row.landfillId.value]
    else
      BlankOrganization(NilUuid)
  }

  /** `GetContract`: the contract with its counterparty and customer organizations. The query
      inner-joins the customer, so a contract whose customer organization is missing is not found,
      and a row scanned with the nil id is reported as `RecordNotFound`. */
  function GetContract(l: Ledger, id: Uuid): (r: Result<Contract, Error>)
    ensures r.Err? <==> id == NilUuid || id !in l.contracts
                        || l.contracts[id].createdByOrg !in l.organizations
    ensures r.Err? ==> r.error == RecordNotFound
    ensures r.Ok? ==> var row := l.contracts[id];
                      && r.value.id == id
                      && (row.contractorId.None? ==> r.value.contractorId == NilUuid)
                      && (row.contractorId.Some? ==> r.value.contractorId == row.contractorId.value)
                      && r.value.contractor.id == r.value.contractorId
                      && r.value.contractor == Counterparty(l, row).(id := r.value.contractorId)
                      && r.value.name == row.name
                      && r.value.landfillId == row.landfillId
                      && r.value.contractType == row.contractType
                      && r.value.pricePerM3 == row.pricePerM3
                      && r.value.budgetTotal == row.budgetTotal
                      && r.value.startAt == row.startAt && r.value.endAt == row.endAt
                      && r.value.customerOrgId == row.createdByOrg
                      && r.value.customer.id == row.createdByOrg
                      && r.value.customer == l.organizations[row.createdByOrg].(id := row.createdByOrg)
  {
    if id == NilUuid || id !in l.contracts || l.contracts[id].createdByOrg !in l.organizations then
      Err(RecordNotFound)
    else
      var row := l.contracts[id];
      var contractorId := row.contractorId.GetOr(NilUuid);
      Ok(Contract(
        id, contractorId, row.landfillId, row.contractType, row.createdByOrg, row.name,
        row.pricePerM3, row.budgetTotal, row.startAt, row.endAt,
        Counterparty(l, row).(id := contractorId),
        l.organizations[row.createdByOrg].(id := row.createdByOrg)))
  }

  /** `GetContractPolygonIDs`: the polygons linked to the contract (none when it has no links). */
  function GetContractPolygonIds(l: Ledger, contractId: Uuid): (r: seq<Uuid>)
    ensures contractId !in l.contractPolygons ==> r == []
  {
    if contractId in l.contractPolygons then l.contractPolygons[contractId] else []
  }

  // ---------------------------------------------------------------------------
  // Trip listings
  // ---------------------------------------------------------------------------

  /** The optional status whitelist: an empty list lets every status through. */
  predicate StatusAllowed(status: string, statuses: seq<string>) {
    |statuses| == 0 || status in statuses
  }

  /** `ListTripsForPeriod`'s WHERE clause: the ticket's contract, the half-open window
      `from <= entry_at < to`, no claim yet, and the status whitelist. */
  predicate ContractTripEligible(claims: map<Uuid, Uuid>, row: TripRow, contractId: Uuid,
                                 from: Instant, to: Instant, statuses: seq<string>) {
    && row.ticketContractId == Some(contractId)
    && from <= row.entryAt < to
    && row.id !in claims
    && StatusAllowed(row.status, statuses)
  }

  /** `ListTripsForLandfillContract`'s WHERE clause: the polygon is one of the given ones. */
  predicate LandfillTripEligible(claims: map<Uuid, Uuid>, row: TripRow, polygonIds: seq<Uuid>,
                                 from: Instant, to: Instant, statuses: seq<string>) {
    && row.polygonId.Some? && row.polygonId.value in polygonIds
    && from <= row.entryAt < to
    && row.id !in claims
    && StatusAllowed(row.status, statuses)
  }

  /** Contract trips are billed by their entry volume, a missing one counting 0. */
  function ContractTrip(row: TripRow): (t: TripForAct)
    ensures t.id == row.id && t.entryAt == row.entryAt
    ensures t.volume == (if row.volumeEntry.Some? then row.volumeEntry.value else 0.0)
  {
    TripForAct(row.id, row.volumeEntry.GetOr(0.0), row.entryAt)
  }

  /** Landfill trips are billed by entry minus exit volume, each missing one counting 0. */
  function LandfillTrip(row: TripRow): (t: TripForAct)
    ensures t.id == row.id && t.entryAt == row.entryAt
    ensures t.volume == (if row.volumeEntry.Some? then row.volumeEntry.value else 0.0)
                        - (if row.volumeExit.Some? then row.volumeExit.value else 0.0)
  {
    TripForAct(row.id, row.volumeEntry.GetOr(0.0) - row.volumeExit.GetOr(0.0), row.entryAt)
  }

  function SelectContractTrips(rows: seq<TripRow>, claims: map<Uuid, Uuid>, contractId: Uuid,
                               from: Instant, to: Instant, statuses: seq<string>): (r: seq<TripForAct>)
    ensures forall t :: t in r <==>
              exists row :: row in rows && ContractTripEligible(claims, row, contractId, from, to, statuses)
                             && t == ContractTrip(row)
  {
    if |rows| == 0 then []
    else
      var rest := SelectContractTrips(rows[1..], claims, contractId, from, to, statuses);
      assert forall row :: row in rows <==> row == rows[0] || row in rows[1..];
      if ContractTripEligible(claims, rows[0], contractId, from, to, statuses) then
        [ContractTrip(rows[0])] + rest
      else
        rest
  }

  function SelectLandfillTrips(rows: seq<TripRow>, claims: map<Uuid, Uuid>, polygonIds: seq<Uuid>,
                               from: Instant, to: Instant, statuses: seq<string>): (r: seq<TripForAct>)
    ensures forall t :: t in r <==>
              exists row :: row in rows && LandfillTripEligible(claims, row, polygonIds, from, to, statuses)
                             && t == LandfillTrip(row)
  {
    if |rows| == 0 then []
    else
      var rest := SelectLandfillTrips(rows[1..], claims, polygonIds, from, to, statuses);
      assert forall row :: row in rows <==> row == rows[0] || row in rows[1..];
      if LandfillTripEligible(claims, rows[0], polygonIds, from, to, statuses) then
        [LandfillTrip(rows[0])] + rest
      else
        rest
  }

  /** `ORDER BY entry_at ASC`. */
  predicate SortedByEntry(s: seq<TripForAct>) {
    forall i, j :: 0 <= i < j < |s| ==> s[i].entryAt <= s[j].entryAt
  }

  /** Putting an earliest trip in front of a sorted list keeps it sorted. */
  lemma PrependSorted(x: TripForAct, s: seq<TripForAct>)
    requires SortedByEntry(s)
    requires forall k :: 0 <= k < |s| ==> x.entryAt <= s[k].entryAt
    ensures SortedByEntry([x] + s)
  {
    var r := [x] + s;
    forall i, j | 0 <= i < j < |r| ensures r[i].entryAt <= r[j].entryAt {
      if i > 0 {
        assert r[i] == s[i - 1] && r[j] == s[j - 1];
      } else {
        assert r[j] == s[j - 1];
      }
    }
  }

  function InsertByEntry(t: TripForAct, s: seq<TripForAct>): (r: seq<TripForAct>)
    requires SortedByEntry(s)
    ensures SortedByEntry(r)
    ensures multiset(r) == multiset(s) + multiset{t}
  {
    if |s| == 0 then [t]
    else if t.entryAt <= s[0].entryAt then
      PrependSorted(t, s);
      [t] + s
    else
      var rest := InsertByEntry(t, s[1..]);
      assert s == [s[0]] + s[1..];
      assert forall k :: 0 <= k < |rest| ==> s[0].entryAt <= rest[k].entryAt by {
        forall k | 0 <= k < |rest| ensures s[0].entryAt <= rest[k].entryAt {
          assert rest[k] in multiset(rest);
          if rest[k] != t {
            assert rest[k] in multiset(s[1..]);
            var m :| 0 <= m < |s[1..]| && s[1..][m] == rest[k];
            assert s[m + 1] == rest[k];
          }
        }
      }
      PrependSorted(s[0], rest);
      [s[0]] + rest
  }

  /** Insertion sort by entry time; trips entered at the same instant keep their storage order. */
  function SortByEntry(s: seq<TripForAct>): (r: seq<TripForAct>)
    ensures SortedByEntry(r)
    ensures multiset(r) == multiset(s)
  {
    if |s| == 0 then []
    else
      assert s == [s[0]] + s[1..];
      InsertByEntry(s[0], SortByEntry(s[1..]))
  }

  /** `ListTripsForPeriod`: exactly the contract's unclaimed trips entered in `[from, to)` with an
      allowed status, ordered by entry time. */
  function ListTripsForPeriod(l: Ledger, contractId: Uuid, from: Instant, to: Instant,
                              statuses: seq<string>): (r: seq<TripForAct>)
    ensures SortedByEntry(r)
    ensures forall t :: t in r <==>
              exists row :: row in l.trips && ContractTripEligible(l.claims, row, contractId, from, to, statuses)
                             && t == ContractTrip(row)
  {
    var selected := SelectContractTrips(l.trips, l.claims, contractId, from, to, statuses);
    var r := SortByEntry(selected);
    assert forall t :: t in r <==> t in selected by {
      forall t ensures t in r <==> t in selected {
        assert t in r <==> t in multiset(r);
      }
    }
    r
  }

  /** `ListTripsForLandfillContract`: with no polygons, nothing (and no query); otherwise exactly the
      unclaimed trips at those polygons entered in `[from, to)` with an allowed status, ordered by
      entry time. The contract id takes no part in the selection. */
  function ListTripsForLandfillContract(l: Ledger, contractId: Uuid, polygonIds: seq<Uuid>,
                                        from: Instant, to: Instant, statuses: seq<string>): (r: seq<TripForAct>)
    ensures |polygonIds| == 0 ==> r == []
    ensures SortedByEntry(r)
    ensures forall t :: t in r <==>
              exists row :: row in l.trips && LandfillTripEligible(l.claims, row, polygonIds, from, to, statuses)
                             && t == LandfillTrip(row)
  {
    if |polygonIds| == 0 then []
    else
      var selected := SelectLandfillTrips(l.trips, l.claims, polygonIds, from, to, statuses);
      var r := SortByEntry(selected);
      assert forall t :: t in r <==> t in selected by {
        forall t ensures t in r <==> t in selected {
          assert t in r <==> t in multiset(r);
        }
      }
      r
  }

  /** No two stored trip rows share an id (the `trips` primary key; part of `Valid`). */
  predicate DistinctRowIds(rows: seq<TripRow>) {
    forall i, j :: 0 <= i < j < |rows| ==> rows[i].id != rows[j].id
  }

  /** No trip is listed twice. */
  predicate DistinctTripIds(s: seq<TripForAct>) {
    forall i, j :: 0 <= i < j < |s| ==> s[i].id != s[j].id
  }

  lemma PrependDistinct(x: TripForAct, s: seq<TripForAct>)
    requires DistinctTripIds(s)
    requires forall k :: 0 <= k < |s| ==> s[k].id != x.id
    ensures DistinctTripIds([x] + s)
  {
    var r := [x] + s;
    forall i, j | 0 <= i < j < |r| ensures r[i].id != r[j].id {
      assert r[j] == s[j - 1];
      if i > 0 {
        assert r[i] == s[i - 1];
      }
    }
  }

  /** A trip in the tail of `rows` carries the id of a row after the first. */
  lemma TailRowIds(rows: seq<TripRow>, row: TripRow)
    requires |rows| > 0 && DistinctRowIds(rows) && row in rows[1..]
    ensures row.id != rows[0].id
    ensures DistinctRowIds(rows[1..])
  {
    var m :| 0 <= m < |rows[1..]| && rows[1..][m] == row;
    assert rows[m + 1] == row;
  }

  /** Selecting from rows with distinct ids lists every trip once. */
  lemma {:induction false} SelectContractTripsDistinct(rows: seq<TripRow>, claims: map<Uuid, Uuid>, contractId: Uuid,
                                                       from: Instant, to: Instant, statuses: seq<string>)
    requires DistinctRowIds(rows)
    ensures DistinctTripIds(SelectContractTrips(rows, claims, contractId, from, to, statuses))
  {
    if |rows| > 0 {
      var rest := SelectContractTrips(rows[1..], claims, contractId, from, to, statuses);
      assert DistinctRowIds(rows[1..]) by {
        forall i, j | 0 <= i < j < |rows[1..]| ensures rows[1..][i].id != rows[1..][j].id {
          assert rows[1..][i] == rows[i + 1] && rows[1..][j] == rows[j + 1];
        }
      }
      SelectContractTripsDistinct(rows[1..], claims, contractId, from, to, statuses);
      if ContractTripEligible(claims, rows[0], contractId, from, to, statuses) {
        forall k | 0 <= k < |rest| ensures rest[k].id != ContractTrip(rows[0]).id {
          assert rest[k] in rest;
          var row :| row in rows[1..] && ContractTripEligible(claims, row, contractId, from, to, statuses)
                     && rest[k] == ContractTrip(row);
          TailRowIds(rows, row);
        }
        PrependDistinct(ContractTrip(rows[0]), rest);
      }
    }
  }

  /** Selecting from rows with distinct ids lists every trip once. */
  lemma {:induction false} SelectLandfillTripsDistinct(rows: seq<TripRow>, claims: map<Uuid, Uuid>, polygonIds: seq<Uuid>,
                                                       from: Instant, to: Instant, statuses: seq<string>)
    requires DistinctRowIds(rows)
    ensures DistinctTripIds(SelectLandfillTrips(rows, claims, polygonIds, from, to, statuses))
  {
    if |rows| > 0 {
      var rest := SelectLandfillTrips(rows[1..], claims, polygonIds, from, to, statuses);
      assert DistinctRowIds(rows[1..]) by {
        forall i, j | 0 <= i < j < |rows[1..]| ensures rows[1..][i].id != rows[1..][j].id {
          assert rows[1..][i] == rows[i + 1] && rows[1..][j] == rows[j + 1];
        }
      }
      SelectLandfillTripsDistinct(rows[1..], claims, polygonIds, from, to, statuses);
      if LandfillTripEligible(claims, rows[0], polygonIds, from, to, statuses) {
        forall k | 0 <= k < |rest| ensures rest[k].id != LandfillTrip(rows[0]).id {
          assert rest[k] in rest;
          var row :| row in rows[1..] && LandfillTripEligible(claims, row, polygonIds, from, to, statuses)
                     && rest[k] == LandfillTrip(row);
          TailRowIds(rows, row);
        }
        PrependDistinct(LandfillTrip(rows[0]), rest);
      }
    }
  }

  /** A member of `s[1..]` has an id other than `s[0]`'s when the ids of `s` are distinct. */
  lemma TailTripId(s: seq<TripForAct>, x: TripForAct)
    requires |s| > 0 && DistinctTripIds(s) && x in multiset(s[1..])
    ensures x.id != s[0].id
  {
    var m :| 0 <= m < |s[1..]| && s[1..][m] == x;
    assert s[m + 1] == x;
  }

  /** Inserting a trip whose id is new into a list without repeated ids repeats none. */
  lemma {:induction false} InsertKeepsDistinct(t: TripForAct, s: seq<TripForAct>)
    requires SortedByEntry(s) && DistinctTripIds(s)
    requires forall k :: 0 <= k < |s| ==> s[k].id != t.id
    ensures DistinctTripIds(InsertByEntry(t, s))
  {
    if |s| == 0 {
    } else if t.entryAt <= s[0].entryAt {
      PrependDistinct(t, s);
    } else {
      var rest := InsertByEntry(t, s[1..]);
      assert DistinctTripIds(s[1..]) by {
        forall i, j | 0 <= i < j < |s[1..]| ensures s[1..][i].id != s[1..][j].id {
          assert s[1..][i] == s[i + 1] && s[1..][j] == s[j + 1];
        }
      }
      InsertKeepsDistinct(t, s[1..]);
      forall k | 0 <= k < |rest| ensures rest[k].id != s[0].id {
        assert rest[k] in multiset(rest);
        if rest[k] != t {
          TailTripId(s, rest[k]);
        }
      }
      PrependDistinct(s[0], rest);
    }
  }

  /** Sorting keeps a list free of repeated ids. */
  lemma {:induction false} SortKeepsDistinct(s: seq<TripForAct>)
    requires DistinctTripIds(s)
    ensures DistinctTripIds(SortByEntry(s))
  {
    if |s| > 0 {
      var sorted := SortByEntry(s[1..]);
      assert DistinctTripIds(s[1..]) by {
        forall i, j | 0 <= i < j < |s[1..]| ensures s[1..][i].id != s[1..][j].id {
          assert s[1..][i] == s[i + 1] && s[1..][j] == s[j + 1];
        }
      }
      SortKeepsDistinct(s[1..]);
      forall k | 0 <= k < |sorted| ensures sorted[k].id != s[0].id {
        assert sorted[k] in multiset(sorted);
        TailTripId(s, sorted[k]);
      }
      InsertKeepsDistinct(s[0], sorted);
    }
  }

  /** With the trips table keyed by id, `ListTripsForPeriod` lists no trip twice. */
  lemma ListTripsForPeriodDistinct(l: Ledger, contractId: Uuid, from: Instant, to: Instant, statuses: seq<string>)
    requires DistinctRowIds(l.trips)
    ensures DistinctTripIds(ListTripsForPeriod(l, contractId, from, to, statuses))
  {
    SelectContractTripsDistinct(l.trips, l.claims, contractId, from, to, statuses);
    SortKeepsDistinct(SelectContractTrips(l.trips, l.claims, contractId, from, to, statuses));
  }

  /** With the trips table keyed by id, `ListTripsForLandfillContract` lists no trip twice. */
  lemma ListTripsForLandfillContractDistinct(l: Ledger, contractId: Uuid, polygonIds: seq<Uuid>,
                                             from: Instant, to: Instant, statuses: seq<string>)
    requires DistinctRowIds(l.trips)
    ensures DistinctTripIds(ListTripsForLandfillContract(l, contractId, polygonIds, from, to, statuses))
  {
    if |polygonIds| > 0 {
      SelectLandfillTripsDistinct(l.trips, l.claims, polygonIds, from, to, statuses);
      SortKeepsDistinct(SelectLandfillTrips(l.trips, l.claims, polygonIds, from, to, statuses));
    }
  }

  // ---------------------------------------------------------------------------
  // Acts
  // ---------------------------------------------------------------------------

  /** Sum of `amount_wo_vat` over the acts of one contract. */
  function AmountsOf(acts: seq<Act>, contractId: Uuid): real {
    if |acts| == 0 then 0.0
    else AmountsOf(acts[..|acts| - 1], contractId)
         + (if acts[|acts| - 1].contractId == contractId then acts[|acts| - 1].amountWoVat else 0.0)
  }

  /** `SumActs`: what the contract has been billed so far (0 when it has no acts). */
  function SumActs(l: Ledger, contractId: Uuid): (total: real)
    ensures (forall a :: a in l.acts ==> a.contractId != contractId) ==> total == 0.0
  {
    NoActsSumToZero(l.acts, contractId);
    AmountsOf(l.acts, contractId)
  }

  lemma {:induction false} NoActsSumToZero(acts: seq<Act>, contractId: Uuid)
    ensures (forall a :: a in acts ==> a.contractId != contractId) ==> AmountsOf(acts, contractId) == 0.0
  {
    if |acts| > 0 {
      NoActsSumToZero(acts[..|acts| - 1], contractId);
      assert forall a :: a in acts[..|acts| - 1] ==> a in acts;
    }
  }

  /** True when none of the trips is claimed yet and none appears twice: inserting their claim rows
      then respects the unique index on `act_trip.trip_id`. */
  predicate ClaimsFree(claims: map<Uuid, Uuid>, tripIds: seq<Uuid>) {
    && (forall i :: 0 <= i < |tripIds| ==> tripIds[i] !in claims)
    && (forall i, j :: 0 <= i < j < |tripIds| ==> tripIds[i] != tripIds[j])
  }

  /** The claim rows `(trip, act)` added for one act. */
  function AddClaims(claims: map<Uuid, Uuid>, tripIds: seq<Uuid>, actId: Uuid): (r: map<Uuid, Uuid>)
    ensures r.Keys == claims.Keys + set t | t in tripIds
    ensures forall t :: t in tripIds ==> r[t] == actId
    ensures forall t :: t in claims && t !in tripIds ==> r[t] == claims[t]
  {
    claims + map t | t in tripIds :: actId
  }

  /** `CreateAct`: one transaction inserting the act (the database assigns `newId` and `createdAt`)
      and one claim per trip. It commits entirely or not at all: a reused act id, a reused act
      number, or a trip already claimed (or listed twice) aborts it and leaves the ledger as it was. */
  function CreateAct(l: Ledger, act: Act, tripIds: seq<Uuid>, newId: Uuid, createdAt: Instant): (r: Step<Act>)
    ensures r.result.Err? ==> r.ledger == l
    ensures r.result.Ok? <==> newId !in ActIds(l.acts) && act.actNumber !in ActNumbers(l.acts)
                              && ClaimsFree(l.claims, tripIds)
    ensures newId in ActIds(l.acts) ==> r.result == Err(UniqueViolation(ActPrimaryKey))
    ensures newId !in ActIds(l.acts) && act.actNumber in ActNumbers(l.acts) ==>
              r.result == Err(UniqueViolation(ActNumberIndex))
    ensures r.result.Ok? ==>
              && r.result.value == act.(id := newId, createdAt := createdAt)
              && r.ledger.acts == l.acts + [r.result.value]
              && r.ledger.claims == AddClaims(l.claims, tripIds, newId)
              && r.ledger.trips == l.trips
              && r.ledger.contracts == l.contracts
              && r.ledger.organizations == l.organizations
              && r.ledger.contractPolygons == l.contractPolygons
  {
    var saved := act.(id := newId, createdAt := createdAt);
    if newId in ActIds(l.acts) then Step(l, Err(UniqueViolation(ActPrimaryKey)))
    else if act.actNumber in ActNumbers(l.acts) then Step(l, Err(UniqueViolation(ActNumberIndex)))
    else if !ClaimsFree(l.claims, tripIds) then Step(l, Err(UniqueViolation(ActTripIndex)))
    else Step(l.(acts := l.acts + [saved], claims := AddClaims(l.claims, tripIds, newId)), Ok(saved))
  }

  /** A committed `CreateAct` adds the new act's amount without VAT to its own contract's running
      total and leaves every other contract's total as it was. */
  lemma CreateActAddsToSum(l: Ledger, act: Act, tripIds: seq<Uuid>, newId: Uuid, createdAt: Instant, contractId: Uuid)
    requires CreateAct(l, act, tripIds, newId, createdAt).result.Ok?
    ensures SumActs(CreateAct(l, act, tripIds, newId, createdAt).ledger, contractId)
            == SumActs(l, contractId) + (if act.contractId == contractId then act.amountWoVat else 0.0)
  {
    var acts2 := CreateAct(l, act, tripIds, newId, createdAt).ledger.acts;
    assert acts2[..|acts2| - 1] == l.acts;
  }

  lemma ActIdsAppend(acts: seq<Act>, a: Act)
    ensures ActIds(acts + [a]) == ActIds(acts) + {a.id}
  {
    assert forall b :: b in acts + [a] <==> b in acts || b == a;
  }

  /** Appending an act under an unused id and an unused number, with new claims pointing only at
      it, keeps the key constraints. */
  lemma AppendKeepsKeys(l: Ledger, l2: Ledger, a: Act)
    requires Valid(l)
    requires l2.acts == l.acts + [a] && a.id !in ActIds(l.acts) && a.actNumber !in ActNumbers(l.acts)
    requires l2.trips == l.trips
    requires forall t :: t in l2.claims ==> l2.claims[t] == a.id || (t in l.claims && l2.claims[t] == l.claims[t])
    ensures Valid(l2)
  {
    forall i, j | 0 <= i < j < |l2.acts|
      ensures l2.acts[i].id != l2.acts[j].id && l2.acts[i].actNumber != l2.acts[j].actNumber
    {
      assert l2.acts[i] == l.acts[i];
      if j == |l.acts| {
        assert l.acts[i] in l.acts;
      } else {
        assert l2.acts[j] == l.acts[j];
      }
    }
    ActIdsAppend(l.acts, a);
  }

  /** A committed `CreateAct` keeps the ledger invariant. */
  lemma CreateActKeepsValid(l: Ledger, act: Act, tripIds: seq<Uuid>, newId: Uuid, createdAt: Instant)
    requires Valid(l)
    ensures Valid(CreateAct(l, act, tripIds, newId, createdAt).ledger)
  {
    var r := CreateAct(l, act, tripIds, newId, createdAt);
    if r.result.Ok? {
      AppendKeepsKeys(l, r.ledger, r.result.value);
    }
  }

  /** The index of the first act with the given id. */
  function FindAct(acts: seq<Act>, id: Uuid): (r: Option<nat>)
    ensures r.Some? ==> r.value < |acts| && acts[r.value].id == id
                        && forall j :: 0 <= j < r.value ==> acts[j].id != id
    ensures r.None? <==> forall j :: 0 <= j < |acts| ==> acts[j].id != id
  {
    if |acts| == 0 then None
    else if acts[0].id == id then Some(0)
    else match FindAct(acts[1..], id)
      case None => None
      case Some(i) => Some(i + 1)
  }

  /** `GetActByID`: the stored act with that id, or `RecordNotFound` when there is none (a row
      scanned with the nil id counts as none). */
  function GetActByID(l: Ledger, id: Uuid): (r: Result<Act, Error>)
    ensures r.Ok? ==> r.value in l.acts && r.value.id == id && id != NilUuid
    ensures r.Err? ==> r.error == RecordNotFound
    ensures r.Err? <==> id == NilUuid || id !in ActIds(l.acts)
  {
    match FindAct(l.acts, id)
    case None => Err(RecordNotFound)
    case Some(i) => if l.acts[i].id == NilUuid then Err(RecordNotFound) else Ok(l.acts[i])
  }

  /** The five columns `UpdateActStatus` writes. */
  function WithStatus(a: Act, status: ActStatus, reason: Option<string>, approverOrg: Option<Uuid>,
                      approverUser: Option<Uuid>, approvedAt: Option<Instant>): Act {
    a.(status := status, rejectionReason := reason, approvedByOrgId := approverOrg,
       approvedByUserId := approverUser, approvedAt := approvedAt)
  }

  /** `UpdateActStatus`: the act with that id gets the new status, rejection reason and approver
      organization/user/time; no other column, no other act and no other table changes. */
  function UpdateActStatus(l: Ledger, id: Uuid, status: ActStatus, reason: Option<string>,
                           approverOrg: Option<Uuid>, approverUser: Option<Uuid>,
                           approvedAt: Option<Instant>): (r: Ledger)
    ensures |r.acts| == |l.acts|
    ensures forall i :: 0 <= i < |l.acts| && l.acts[i].id != id ==> r.acts[i] == l.acts[i]
    ensures forall i :: 0 <= i < |l.acts| && l.acts[i].id == id ==>
              && r.acts[i].status == status && r.acts[i].rejectionReason == reason
              && r.acts[i].approvedByOrgId == approverOrg && r.acts[i].approvedByUserId == approverUser
              && r.acts[i].approvedAt == approvedAt
              && r.acts[i] == WithStatus(l.acts[i], status, reason, approverOrg, approverUser, approvedAt)
    ensures r.trips == l.trips && r.claims == l.claims && r.contracts == l.contracts
    ensures r.organizations == l.organizations && r.contractPolygons == l.contractPolygons
  {
    var acts := seq(|l.acts|, i requires 0 <= i < |l.acts| =>
      if l.acts[i].id == id then WithStatus(l.acts[i], status, reason, approverOrg, approverUser, approvedAt)
      else l.acts[i]);
    l.(acts := acts)
  }

  /** An act keeps everything but its five status columns through `UpdateActStatus`. */
  predicate SameExceptStatus(a: Act, b: Act) {
    b == WithStatus(a, b.status, b.rejectionReason, b.approvedByOrgId, b.approvedByUserId, b.approvedAt)
  }

  /** Changing only status columns keeps the key constraints. */
  lemma StatusChangeKeepsKeys(l: Ledger, r: Ledger)
    requires Valid(l)
    requires |r.acts| == |l.acts| && forall i :: 0 <= i < |l.acts| ==> SameExceptStatus(l.acts[i], r.acts[i])
    requires r.trips == l.trips && r.claims == l.claims
    ensures Valid(r)
  {
    forall i | 0 <= i < |l.acts| ensures r.acts[i].id == l.acts[i].id && r.acts[i].actNumber == l.acts[i].actNumber {
      assert SameExceptStatus(l.acts[i], r.acts[i]);
    }
    SameIdsSameActIds(l.acts, r.acts);
  }

  /** `UpdateActStatus` keeps the ledger invariant, every act's id, number and money figures, and
      every contract's billed sum. */
  lemma UpdateActStatusKeepsValid(l: Ledger, id: Uuid, status: ActStatus, reason: Option<string>,
                                  approverOrg: Option<Uuid>, approverUser: Option<Uuid>,
                                  approvedAt: Option<Instant>)
    requires Valid(l)
    ensures var r := UpdateActStatus(l, id, status, reason, approverOrg, approverUser, approvedAt);
            && Valid(r)
            && (forall i :: 0 <= i < |l.acts| ==> SameExceptStatus(l.acts[i], r.acts[i]))
            && (forall c :: SumActs(r, c) == SumActs(l, c))
  {
    var r := UpdateActStatus(l, id, status, reason, approverOrg, approverUser, approvedAt);
    forall i | 0 <= i < |l.acts| ensures SameExceptStatus(l.acts[i], r.acts[i]) {
      if l.acts[i].id != id {
        assert r.acts[i] == l.acts[i];
      }
    }
    StatusChangeKeepsKeys(l, r);
    forall c ensures SumActs(r, c) == SumActs(l, c) {
      AmountsUnchanged(l.acts, r.acts, c);
    }
  }

  lemma SameIdsSameActIds(a: seq<Act>, b: seq<Act>)
    requires |a| == |b|
    requires forall i :: 0 <= i < |a| ==> SameExceptStatus(a[i], b[i])
    ensures ActIds(a) == ActIds(b)
  {
    forall x | x in ActIds(a) ensures x in ActIds(b) {
      var act :| act in a && act.id == x;
      var i :| 0 <= i < |a| && a[i] == act;
      assert b[i].id == x;
    }
    forall x | x in ActIds(b) ensures x in ActIds(a) {
      var act :| act in b && act.id == x;
      var i :| 0 <= i < |b| && b[i] == act;
      assert a[i].id == x;
    }
  }

  lemma {:induction false} AmountsUnchanged(a: seq<Act>, b: seq<Act>, c: Uuid)
    requires |a| == |b|
    requires forall i :: 0 <= i < |a| ==> SameExceptStatus(a[i], b[i])
    ensures AmountsOf(a, c) == AmountsOf(b, c)
  {
    if |a| > 0 {
      AmountsUnchanged(a[..|a| - 1], b[..|b| - 1], c);
    }
  }

  /** `ListActsForLandfill`: the acts of that landfill, restricted to one status when one is given. */
  function ListActsForLandfill(l: Ledger, landfillId: Uuid, status: Option<ActStatus>): (r: seq<Act>)
    ensures forall a :: a in r <==>
              a in l.acts && a.landfillId == Some(landfillId) && (status.None? || a.status == status.value)
  {
    FilterActs(l.acts, landfillId, status)
  }

  function FilterActs(acts: seq<Act>, landfillId: Uuid, status: Option<ActStatus>): (r: seq<Act>)
    ensures forall a :: a in r <==>
              a in acts && a.landfillId == Some(landfillId) && (status.None? || a.status == status.value)
  {
    if |acts| == 0 then []
    else
      var rest := FilterActs(acts[1..], landfillId, status);
      assert forall a :: a in acts <==> a == acts[0] || a in acts[1..];
      if acts[0].landfillId == Some(landfillId) && (status.None? || acts[0].status == status.value) then
        [acts[0]] + rest
      else
        rest
  }

  /** Filtering keeps the ledger's order: the acts kept from a concatenation are those kept from the
      first part followed by those kept from the second. */
  lemma {:induction false} FilterActsAppend(a: seq<Act>, b: seq<Act>, landfillId: Uuid, status: Option<ActStatus>)
    ensures FilterActs(a + b, landfillId, status) == FilterActs(a, landfillId, status) + FilterActs(b, landfillId, status)
    decreases |a|
  {
    if |a| == 0 {
      assert a + b == b;
    } else {
      var x := a[0];
      var first := if x.landfillId == Some(landfillId) && (status.None? || x.status == status.value) then [x] else [];
      assert FilterActs(a + b, landfillId, status) == first + FilterActs(a[1..] + b, landfillId, status) by {
        TailOfConcat(a, b);
      }
      FilterActsAppend(a[1..], b, landfillId, status);
      Associative(first, FilterActs(a[1..], landfillId, status), FilterActs(b, landfillId, status));
    }
  }
}
