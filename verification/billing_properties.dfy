/** Properties of the act engine that span several operations: a trip is billed at most once and
    its claim never moves, stored acts keep their money figures, decided acts are final, and the
    same contract cannot be billed twice on one day. The operations are the ones of
    internal/service/act_service.go over the repository of internal/repository/act_repository.go. */
module BillingProperties {
  import opened Wrappers
  import opened Domain
  import opened ActRepository
  import opened ActService

  /** One call into the service that can change the ledger. */
  datatype Op =
    | Generate(settings: Settings, input: GenerateInput, clock: Clock, stored: Assigned,
               render: ActDocument -> Result<seq<bv8>, Error>)
    | Approve(approveId: Uuid, approver: Principal, now: Instant)
    | Reject(rejectId: Uuid, rejecter: Principal, reason: string)

  /** The ledger after one call, whether it succeeded or not. */
  function Apply(l: Ledger, op: Op): Ledger {
    match op
    case Generate(s, input, clock, stored, render) => GenerateActPdf(l, s, input, clock, stored, render).ledger
    case Approve(actId, p, now) => ApproveAct(l, actId, p, now).ledger
    case Reject(actId, p, reason) => RejectAct(l, actId, p, reason).ledger
  }

  /** The ledger after a sequence of calls. */
  function Run(l: Ledger, ops: seq<Op>): Ledger
    decreases |ops|
  {
    if |ops| == 0 then l else Run(Apply(l, ops[0]), ops[1..])
  }

  /** What a later ledger keeps of an earlier one: every stored act in its place with the same id,
      number, period and money (only the status columns may differ), every claim pointing at the
      same act, and the tables the service only reads. */
  ghost predicate Extends(l: Ledger, l2: Ledger) {
    && |l.acts| <= |l2.acts|
    && (forall i :: 0 <= i < |l.acts| ==> SameExceptStatus(l.acts[i], l2.acts[i]))
    && (forall t :: t in l.claims ==> t in l2.claims && l2.claims[t] == l.claims[t])
    && l2.trips == l.trips && l2.contracts == l.contracts
    && l2.organizations == l.organizations && l2.contractPolygons == l.contractPolygons
  }

  lemma ExtendsTransitive(l1: Ledger, l2: Ledger, l3: Ledger)
    requires Extends(l1, l2) && Extends(l2, l3)
    ensures Extends(l1, l3)
  {
    forall i | 0 <= i < |l1.acts| ensures SameExceptStatus(l1.acts[i], l3.acts[i]) {
      assert SameExceptStatus(l1.acts[i], l2.acts[i]);
      assert SameExceptStatus(l2.acts[i], l3.acts[i]);
    }
  }

  /** Appending a fresh act with claims on unclaimed trips keeps the ledger invariant. */
  lemma AppendKeepsValid(l: Ledger, l2: Ledger, a: Act)
    requires Valid(l) && AppendsAct(l, l2, a)
    ensures Valid(l2) && Extends(l, l2)
  {
    AppendKeepsKeys(l, l2, a);
    assert forall i :: 0 <= i < |l.acts| ==> l2.acts[i] == l.acts[i];
  }

  lemma GenerateExtends(l: Ledger, s: Settings, input: GenerateInput, clock: Clock, stored: Assigned,
                        render: ActDocument -> Result<seq<bv8>, Error>)
    requires Valid(l)
    ensures var l2 := GenerateActPdf(l, s, input, clock, stored, render).ledger;
            Valid(l2) && Extends(l, l2)
  {
    var r := GenerateActPdf(l, s, input, clock, stored, render);
    if r.ledger != l {
      AppendKeepsValid(l, r.ledger, r.ledger.acts[|l.acts|]);
    }
  }

  lemma ApproveExtends(l: Ledger, actId: Uuid, p: Principal, now: Instant)
    requires Valid(l)
    ensures Valid(ApproveAct(l, actId, p, now).ledger) && Extends(l, ApproveAct(l, actId, p, now).ledger)
  {
    UpdateActStatusKeepsValid(l, actId, Approved, None, Some(p.orgId), Some(p.userId), Some(now));
  }

  lemma RejectExtends(l: Ledger, actId: Uuid, p: Principal, reason: string)
    requires Valid(l)
    ensures Valid(RejectAct(l, actId, p, reason).ledger) && Extends(l, RejectAct(l, actId, p, reason).ledger)
  {
    UpdateActStatusKeepsValid(l, actId, Rejected, Some(Text.TrimSpace(reason)), None, None, None);
  }

  /** Every call keeps the ledger invariant and extends the ledger. */
  lemma ApplyExtends(l: Ledger, op: Op)
    requires Valid(l)
    ensures Valid(Apply(l, op)) && Extends(l, Apply(l, op))
  {
    match op
    case Generate(s, input, clock, stored, render) => GenerateExtends(l, s, input, clock, stored, render);
    case Approve(actId, p, now) => ApproveExtends(l, actId, p, now);
    case Reject(actId, p, reason) => RejectExtends(l, actId, p, reason);
  }

  /** Any sequence of calls keeps the ledger invariant and extends the ledger it started from. */
  lemma {:induction false} RunExtends(l: Ledger, ops: seq<Op>)
    requires Valid(l)
    ensures Valid(Run(l, ops)) && Extends(l, Run(l, ops))
    decreases |ops|
  {
    if |ops| > 0 {
      var next := Apply(l, ops[0]);
      ApplyExtends(l, ops[0]);
      RunExtends(next, ops[1..]);
      ExtendsTransitive(l, next, Run(next, ops[1..]));
    }
  }

  /** A trip is billed at most once: once claimed by an act, it stays claimed by that act through
      every later call. */
  lemma TripClaimIsPermanent(l: Ledger, ops: seq<Op>, t: Uuid)
    requires Valid(l) && t in l.claims
    ensures t in Run(l, ops).claims && Run(l, ops).claims[t] == l.claims[t]
  {
    RunExtends(l, ops);
  }

  /** A stored act's number, contract, period and money never change afterwards, so neither does
      what any contract has been billed through earlier acts. */
  lemma ActFiguresAreFrozen(l: Ledger, ops: seq<Op>, i: nat)
    requires Valid(l) && i < |l.acts|
    ensures i < |Run(l, ops).acts|
    ensures var a := Run(l, ops).acts[i];
            && a.id == l.acts[i].id && a.actNumber == l.acts[i].actNumber
            && a.contractId == l.acts[i].contractId
            && a.periodStart == l.acts[i].periodStart && a.periodEnd == l.acts[i].periodEnd
            && a.totalVolumeM3 == l.acts[i].totalVolumeM3 && a.amountWoVat == l.acts[i].amountWoVat
            && a.vatAmount == l.acts[i].vatAmount && a.amountWithVat == l.acts[i].amountWithVat
  {
    RunExtends(l, ops);
    assert SameExceptStatus(l.acts[i], Run(l, ops).acts[i]);
  }

  /** With unique act ids, the act `GetActByID` finds is the only one with that id. */
  lemma LoadedActIsUnique(l: Ledger, actId: Uuid, i: nat)
    requires Valid(l) && i < |l.acts| && l.acts[i].id == actId && LoadAct(l, actId).Ok?
    ensures l.acts[i] == LoadAct(l, actId).value
  {
    var a := LoadAct(l, actId).value;
    var k :| 0 <= k < |l.acts| && l.acts[k] == a;
    assert l.acts[k].id == l.acts[i].id;
  }

  /** Generation only appends, so every stored act stays as it was. */
  lemma GenerateKeepsActs(l: Ledger, s: Settings, input: GenerateInput, clock: Clock, stored: Assigned,
                          render: ActDocument -> Result<seq<bv8>, Error>, i: nat)
    requires i < |l.acts|
    ensures var l2 := GenerateActPdf(l, s, input, clock, stored, render).ledger;
            i < |l2.acts| && l2.acts[i] == l.acts[i]
  {
    var r := GenerateActPdf(l, s, input, clock, stored, render);
    if r.ledger != l {
      assert r.ledger.acts[i] == r.ledger.acts[..|l.acts|][i];
    }
  }

  /** Approval touches an act only while it waits for approval. */
  lemma ApproveKeepsSettledActs(l: Ledger, actId: Uuid, p: Principal, now: Instant, i: nat)
    requires Valid(l) && i < |l.acts| && l.acts[i].status != PendingApproval
    ensures var l2 := ApproveAct(l, actId, p, now).ledger;
            i < |l2.acts| && l2.acts[i] == l.acts[i]
  {
    if ApproveAct(l, actId, p, now).result.Ok? && l.acts[i].id == actId {
      LoadedActIsUnique(l, actId, i);
    }
  }

  /** Rejection touches an act only while it waits for approval. */
  lemma RejectKeepsSettledActs(l: Ledger, actId: Uuid, p: Principal, reason: string, i: nat)
    requires Valid(l) && i < |l.acts| && l.acts[i].status != PendingApproval
    ensures var l2 := RejectAct(l, actId, p, reason).ledger;
            i < |l2.acts| && l2.acts[i] == l.acts[i]
  {
    if RejectAct(l, actId, p, reason).result.Ok? && l.acts[i].id == actId {
      LoadedActIsUnique(l, actId, i);
    }
  }

  /** Only a pending act can change: approval and rejection touch an act only while it waits for
      approval, and generation only appends. */
  lemma ApplyKeepsSettledActs(l: Ledger, op: Op, i: nat)
    requires Valid(l) && i < |l.acts| && l.acts[i].status != PendingApproval
    ensures i < |Apply(l, op).acts| && Apply(l, op).acts[i] == l.acts[i]
  {
    match op
    case Generate(s, input, clock, stored, render) => GenerateKeepsActs(l, s, input, clock, stored, render, i);
    case Approve(actId, p, now) => ApproveKeepsSettledActs(l, actId, p, now, i);
    case Reject(actId, p, reason) => RejectKeepsSettledActs(l, actId, p, reason, i);
  }

  /** An act that is not waiting for approval (generated for a contractor, approved, or rejected)
      never changes again. */
  lemma {:induction false} SettledActsAreFinal(l: Ledger, ops: seq<Op>, i: nat)
    requires Valid(l) && i < |l.acts| && l.acts[i].status != PendingApproval
    ensures i < |Run(l, ops).acts| && Run(l, ops).acts[i] == l.acts[i]
    decreases |ops|
  {
    if |ops| > 0 {
      ApplyKeepsSettledActs(l, ops[0], i);
      ApplyExtends(l, ops[0]);
      SettledActsAreFinal(Apply(l, ops[0]), ops[1..], i);
    }
  }

  /** After `CreateAct` commits, none of its trips shows up in any later trip listing, whatever the
      contract, polygons, window or statuses asked for. */
  lemma ClaimedTripsAreNotListedAgain(l: Ledger, act: Act, tripIds: seq<Uuid>, newId: Uuid, createdAt: Instant,
                                      contractId: Uuid, polygonIds: seq<Uuid>, from: Instant, to: Instant,
                                      statuses: seq<string>)
    requires CreateAct(l, act, tripIds, newId, createdAt).result.Ok?
    ensures var l2 := CreateAct(l, act, tripIds, newId, createdAt).ledger;
            && (forall t :: t in ListTripsForPeriod(l2, contractId, from, to, statuses) ==> t.id !in tripIds)
            && (forall t :: t in ListTripsForLandfillContract(l2, contractId, polygonIds, from, to, statuses) ==>
                  t.id !in tripIds)
  {
    var l2 := CreateAct(l, act, tripIds, newId, createdAt).ledger;
    forall t | t in ListTripsForPeriod(l2, contractId, from, to, statuses) ensures t.id !in tripIds {
      var row :| row in l2.trips && ContractTripEligible(l2.claims, row, contractId, from, to, statuses)
                 && t == ContractTrip(row);
    }
    forall t | t in ListTripsForLandfillContract(l2, contractId, polygonIds, from, to, statuses)
      ensures t.id !in tripIds
    {
      var row :| row in l2.trips && LandfillTripEligible(l2.claims, row, polygonIds, from, to, statuses)
                 && t == LandfillTrip(row);
    }
  }

  /** An insert naming a trip that is already claimed is refused by the unique index on the
      claimed trip and changes nothing. */
  lemma OverlappingCreateFails(l: Ledger, act: Act, tripIds: seq<Uuid>, newId: Uuid, createdAt: Instant, k: nat)
    requires k < |tripIds| && tripIds[k] in l.claims
    requires newId !in ActIds(l.acts) && act.actNumber !in ActNumbers(l.acts)
    ensures CreateAct(l, act, tripIds, newId, createdAt) == Step(l, Err(UniqueViolation(ActTripIndex)))
  {
    assert !ClaimsFree(l.claims, tripIds);
  }

  /** A generation that stores its act raises the billed total of the act's contract by the act's
      amount without VAT and leaves every other contract's total alone; the next act of the same
      contract sees the raised total as `paidBefore`. */
  lemma GenerateAddsToBilledTotal(l: Ledger, s: Settings, input: GenerateInput, clock: Clock, stored: Assigned,
                                  render: ActDocument -> Result<seq<bv8>, Error>, contractId: Uuid)
    requires GenerateActPdf(l, s, input, clock, stored, render).ledger != l
    ensures var l2 := GenerateActPdf(l, s, input, clock, stored, render).ledger;
            var a := l2.acts[|l.acts|];
            SumActs(l2, contractId) == SumActs(l, contractId) + (if a.contractId == contractId then a.amountWoVat else 0.0)
  {
    var l2 := GenerateActPdf(l, s, input, clock, stored, render).ledger;
    assert l2.acts[..|l2.acts| - 1] == l.acts;
  }

  /** The act number depends only on the prefix, the contract and the day, so a contract that was
      billed today cannot be billed again today: the second call fails and stores nothing, and when
      it gets as far as the insert under a fresh id, the insert hits the unique act number. */
  lemma SameDayRegenerationFails(l: Ledger, s: Settings, input: GenerateInput, input2: GenerateInput,
                                 clock: Clock, clock2: Clock, stored: Assigned, stored2: Assigned,
                                 render: ActDocument -> Result<seq<bv8>, Error>,
                                 render2: ActDocument -> Result<seq<bv8>, Error>)
    requires GenerateActPdf(l, s, input, clock, stored, render).result.Ok?
    requires input2.contractId == input.contractId && clock2.dateStamp == clock.dateStamp
    ensures var l2 := GenerateActPdf(l, s, input, clock, stored, render).ledger;
            var r2 := GenerateActPdf(l2, s, input2, clock2, stored2, render2);
            && r2.result.Err?
            && r2.ledger == l2
            && (PlanAct(l2, s, input2).Ok? && stored2.actId !in ActIds(l2.acts) ==>
                  r2.result.error == UniqueViolation(ActNumberIndex))
  {
    var r := GenerateActPdf(l, s, input, clock, stored, render);
    var a := r.result.value.act;
    var l2 := r.ledger;
    assert a in l2.acts;
    assert a.actNumber in ActNumbers(l2.acts);
  }
}
