/** Contracts, the pilots under them and the payments for those, moving independently of
    one another through the tables of domain/state-machines.ts. */
module CaseLifecycle {
  import opened Transitions

  datatype ContractState = Draft | Negotiation | Approval | Signature | Effective | Rejected | Superseded

  datatype PilotState = Planned | Running | DeliverableSubmitted | Accepted | Revision | PilotRejected

  datatype PaymentState = Triggered | PaymentApproval | Processing | Paid | Reconciled | Hold | PaymentFailed | Refunded

  const CONTRACT_PARTIES := {OrgOwner, OrgApproverLegal, PlatformLegal, Individual, TeamOwner, TeamAdmin}

  const CONTRACT_TABLE: seq<Transition<ContractState>> := [
    Transition(Draft, Negotiation, CONTRACT_PARTIES, {ScopeDefined}, [OtherEffect]),
    Transition(Negotiation, Approval, CONTRACT_PARTIES, {TermsAgreed, IpAgreed}, [OtherEffect]),
    Transition(Approval, Signature, CONTRACT_PARTIES + {OrgApproverFinance, PlatformFinance},
               {LegalApproved, FinanceApproved}, [OtherEffect]),
    Transition(Signature, Effective, {PlatformLegal, Individual, TeamOwner, TeamAdmin},
      {ApprovedCurrentVersion}, [OtherEffect])
  ]

  const PILOT_TABLE: seq<Transition<PilotState>> := [
    Transition(Planned, Running, {OrgMember, TeamOwner, TeamAdmin}, {ContractEffective, PlanApproved}, [OtherEffect]),
    Transition(Running, DeliverableSubmitted, SOLVER_MANAGERS, {DeliverableValid}, [OtherEffect]),
    Transition(DeliverableSubmitted, Accepted, {OrgApproverTechnical}, {TechnicalEvidenceApproved}, [OtherEffect]),
    Transition(DeliverableSubmitted, Revision, {OrgApproverTechnical}, {ReasonRecorded, RevisionDeadline},
      [OtherEffect]),
    Transition(DeliverableSubmitted, PilotRejected, {OrgApproverTechnical}, {ReasonRecorded}, [OtherEffect])
  ]

  const PAYMENT_TABLE: seq<Transition<PaymentState>> := [
    Transition(Triggered, PaymentApproval, {OrgApproverTechnical}, {TechnicalAccepted}, [OtherEffect]),
    Transition(PaymentApproval, Processing, {OrgApproverFinance, PlatformFinance},
      {FinanceApproved, ContractEffective}, [OtherEffect]),
    Transition(Processing, Paid, {PlatformFinance}, {ProviderConfirmed}, [OtherEffect]),
    Transition(Paid, Reconciled, {PlatformFinance}, {LedgerMatched}, [OtherEffect]),
    Transition(PaymentApproval, Hold, {PlatformFinance, PlatformOps}, {ReasonRecorded}, [OtherEffect]),
    Transition(Processing, PaymentFailed, {PlatformFinance, PlatformOps}, {ProviderFailed}, [OtherEffect]),
    Transition(Paid, Refunded, {PlatformFinance, PlatformOps}, {RefundApproved}, [OtherEffect])
  ]

  datatype Pilot = Pilot(contract: nat, state: PilotState)

  datatype Payment = Payment(pilot: nat, state: PaymentState)

  datatype Portfolio = Portfolio(contracts: seq<ContractState>, pilots: seq<Pilot>, payments: seq<Payment>)

  datatype Event =
    | NewContract
    | NewPilot(contract: nat)
    | NewPayment(pilot: nat)
    | MoveContract(i: nat, contractTo: ContractState, role: Role, satisfied: set<Guard>)
    | MovePilot(i: nat, pilotTo: PilotState, role: Role, satisfied: set<Guard>)
    | MovePayment(i: nat, paymentTo: PaymentState, role: Role, satisfied: set<Guard>)

  /** Every reference leads somewhere. */
  ghost predicate Linked(p: Portfolio) {
    && (forall i :: 0 <= i < |p.pilots| ==> p.pilots[i].contract < |p.contracts|)
    && (forall i :: 0 <= i < |p.payments| ==> p.payments[i].pilot < |p.pilots|)
  }

  ghost predicate ContractIsEffective(p: Portfolio, pilot: nat) {
    pilot < |p.pilots| && p.pilots[pilot].contract < |p.contracts| && p.contracts[p.pilots[pilot].contract] == Effective
  }

  ghost predicate PilotIsAccepted(p: Portfolio, payment: nat) {
    payment < |p.payments| && p.payments[payment].pilot < |p.pilots| &&
    p.pilots[p.payments[payment].pilot].state == Accepted
  }

  /** A guard that names another record is only claimed when that record is in the state. */
  ghost predicate Honest(p: Portfolio, event: Event) {
    match event
    case MovePilot(i, _, _, satisfied) => ContractEffective in satisfied ==> ContractIsEffective(p, i)
    case MovePayment(i, _, _, satisfied) =>
      && (TechnicalAccepted in satisfied ==> PilotIsAccepted(p, i))
      && (ContractEffective in satisfied ==> i < |p.payments| && ContractIsEffective(p, p.payments[i].pilot))
    case _ => true
  }

  ghost predicate Enabled(p: Portfolio, event: Event) {
    Honest(p, event) &&
    match event
    case NewContract => true
    case NewPilot(contract) => contract < |p.contracts|
    case NewPayment(pilot) => pilot < |p.pilots|
    case MoveContract(i, to, role, satisfied) =>
      i < |p.contracts| && CanTransition(CONTRACT_TABLE, p.contracts[i], to, role, satisfied)
    case MovePilot(i, to, role, satisfied) =>
      i < |p.pilots| && CanTransition(PILOT_TABLE, p.pilots[i].state, to, role, satisfied)
    case MovePayment(i, to, role, satisfied) =>
      i < |p.payments| && CanTransition(PAYMENT_TABLE, p.payments[i].state, to, role, satisfied)
  }

  ghost function Step(p: Portfolio, event: Event): Portfolio
    requires Enabled(p, event)
  {
    match event
    case NewContract => p.(contracts := p.contracts + [Draft])
    case NewPilot(contract) => p.(pilots := p.pilots + [Pilot(contract, Planned)])
    case NewPayment(pilot) => p.(payments := p.payments + [Payment(pilot, Triggered)])
    case MoveContract(i, to, _, _) => p.(contracts := p.contracts[i := to])
    case MovePilot(i, to, _, _) => p.(pilots := p.pilots[i := p.pilots[i].(state := to)])
    case MovePayment(i, to, _, _) => p.(payments := p.payments[i := p.payments[i].(state := to)])
  }

  const EMPTY := Portfolio([], [], [])

  ghost predicate Possible(events: seq<Event>)
    decreases |events|, 0
  {
    events != [] ==>
      Possible(events[..|events| - 1]) && Enabled(After(events[..|events| - 1]), events[|events| - 1])
  }

  /** The portfolio that a run of events, in any interleaving, leads to. */
  ghost function After(events: seq<Event>): Portfolio
    requires Possible(events)
    decreases |events|, 1
  {
    if events == [] then EMPTY else Step(After(events[..|events| - 1]), events[|events| - 1])
  }

  // ----- What the tables allow -----

  lemma ContractMoves(from: ContractState, to: ContractState, role: Role, satisfied: set<Guard>)
    requires CanTransition(CONTRACT_TABLE, from, to, role, satisfied)
    ensures from != Effective
  {
  }

  lemma PilotMoves(from: PilotState, to: PilotState, role: Role, satisfied: set<Guard>)
    requires CanTransition(PILOT_TABLE, from, to, role, satisfied)
    ensures from != Accepted && to != Planned
    ensures from == Planned ==> ContractEffective in satisfied && to != Accepted
  {
  }

  lemma PaymentMoves(from: PaymentState, to: PaymentState, role: Role, satisfied: set<Guard>)
    requires CanTransition(PAYMENT_TABLE, from, to, role, satisfied)
    ensures to != Triggered
    ensures from == Triggered ==> TechnicalAccepted in satisfied && to == PaymentApproval
  {
  }

  // ----- Over every interleaving -----

  ghost predicate Inv(p: Portfolio) {
    && Linked(p)
    && (forall i :: 0 <= i < |p.pilots| && p.pilots[i].state != Planned ==> ContractIsEffective(p, i))
    && (forall i :: 0 <= i < |p.payments| && p.payments[i].state != Triggered ==> PilotIsAccepted(p, i))
  }

  lemma StepInv(p: Portfolio, event: Event)
    requires Inv(p) && Enabled(p, event)
    ensures Inv(Step(p, event))
  {
    match event
    case MoveContract(i, to, role, satisfied) => ContractMoves(p.contracts[i], to, role, satisfied);
    case MovePilot(i, to, role, satisfied) => PilotMoves(p.pilots[i].state, to, role, satisfied);
    case MovePayment(i, to, role, satisfied) => PaymentMoves(p.payments[i].state, to, role, satisfied);
    case _ =>
  }

  lemma {:induction false} RunInv(events: seq<Event>)
    requires Possible(events)
    ensures Inv(After(events))
  {
    if events != [] {
      var before := events[..|events| - 1];
      RunInv(before);
      StepInv(After(before), events[|events| - 1]);
    }
  }

  /** No money moves without an accepted pilot under an effective contract, whatever the
      order in which the three machines step. */
  lemma PaymentNeedsAcceptedPilot(events: seq<Event>, i: nat)
    requires Possible(events) && i < |After(events).payments| && After(events).payments[i].state != Triggered
    ensures PilotIsAccepted(After(events), i) && ContractIsEffective(After(events), After(events).payments[i].pilot)
  {
    RunInv(events);
    assert After(events).pilots[After(events).payments[i].pilot].state != Planned;
  }

  /** The contract guard of `processing` follows from the guards before it: in a run that
      got there, claiming it is always honest. */
  lemma ProcessingGuardIsImplied(events: seq<Event>, i: nat, role: Role, satisfied: set<Guard>)
    requires Possible(events) && i < |After(events).payments|
    requires After(events).payments[i].state == PaymentApproval
    requires Honest(After(events), MovePayment(i, Processing, role, satisfied))
    ensures Enabled(After(events), MovePayment(i, Processing, role, satisfied + {ContractEffective})) <==>
            role in {OrgApproverFinance, PlatformFinance} && FinanceApproved in satisfied
  {
    PaymentNeedsAcceptedPilot(events, i);
    assert PAYMENT_TABLE[1] == Transition(PaymentApproval, Processing, {OrgApproverFinance, PlatformFinance},
                                          {FinanceApproved, ContractEffective}, [OtherEffect]);
    if role in {OrgApproverFinance, PlatformFinance} && FinanceApproved in satisfied {
      assert Allows(PAYMENT_TABLE[1], PaymentApproval, Processing, role, satisfied + {ContractEffective});
    }
  }

  // ----- The order of events -----

  ghost predicate MadeEffective(events: seq<Event>, k: nat, contract: nat) {
    k < |events| && events[k].MoveContract? && events[k].i == contract && events[k].contractTo == Effective
  }

  ghost predicate MadeAccepted(events: seq<Event>, k: nat, pilot: nat) {
    k < |events| && events[k].MovePilot? && events[k].i == pilot && events[k].pilotTo == Accepted
  }

  ghost predicate SentForApproval(events: seq<Event>, k: nat, payment: nat) {
    k < |events| && events[k].MovePayment? && events[k].i == payment && events[k].paymentTo == PaymentApproval
  }

  lemma {:induction false} EffectiveSince(events: seq<Event>, contract: nat) returns (k: nat)
    requires Possible(events) && contract < |After(events).contracts| && After(events).contracts[contract] == Effective
    ensures MadeEffective(events, k, contract)
  {
    var before := events[..|events| - 1];
    var last := events[|events| - 1];
    if last.MoveContract? && last.i == contract {
      k := |events| - 1;
    } else {
      k := EffectiveSince(before, contract);
      assert before[k] == events[k];
    }
  }

  lemma {:induction false} AcceptedSince(events: seq<Event>, pilot: nat) returns (k: nat)
    requires Possible(events) && pilot < |After(events).pilots| && After(events).pilots[pilot].state == Accepted
    ensures MadeAccepted(events, k, pilot)
    ensures Possible(events[..k]) && pilot < |After(events[..k]).pilots|
    ensures After(events[..k]).pilots[pilot].state != Planned
    ensures After(events[..k]).pilots[pilot].contract == After(events).pilots[pilot].contract
  {
    var before := events[..|events| - 1];
    var last := events[|events| - 1];
    if last.MovePilot? && last.i == pilot {
      k := |events| - 1;
      PilotMoves(After(before).pilots[pilot].state, last.pilotTo, last.role, last.satisfied);
    } else {
      k := AcceptedSince(before, pilot);
      assert before[..k] == events[..k];
      assert before[k] == events[k];
    }
  }

  lemma {:induction false} ApprovedSince(events: seq<Event>, payment: nat) returns (k: nat)
    requires Possible(events) && payment < |After(events).payments| &&
             After(events).payments[payment].state != Triggered
    ensures SentForApproval(events, k, payment)
    ensures Possible(events[..k]) && PilotIsAccepted(After(events[..k]), payment)
    ensures After(events[..k]).payments[payment].pilot == After(events).payments[payment].pilot
  {
    var before := events[..|events| - 1];
    var last := events[|events| - 1];
    if last.MovePayment? && last.i == payment && After(before).payments[payment].state == Triggered {
      k := |events| - 1;
      PaymentMoves(Triggered, last.paymentTo, last.role, last.satisfied);
    } else {
      k := ApprovedSince(before, payment);
      assert before[..k] == events[..k];
      assert before[k] == events[k];
    }
  }

  /** Whenever a payment has left its first state, the run shows in this order: its contract
      taking effect, its pilot being accepted, the payment being sent for approval. */
  lemma PaymentHistory(events: seq<Event>, payment: nat) returns (i: nat, j: nat, k: nat)
    requires Possible(events) && payment < |After(events).payments| &&
             After(events).payments[payment].state != Triggered
    ensures i < j < k < |events|
    ensures var pilot := After(events).payments[payment].pilot;
            SentForApproval(events, k, payment) && MadeAccepted(events, j, pilot) &&
            pilot < |After(events).pilots| && MadeEffective(events, i, After(events).pilots[pilot].contract)
  {
    RunInv(events);
    var pilot := After(events).payments[payment].pilot;
    k := ApprovedSince(events, payment);
    var atApproval := events[..k];
    j := AcceptedSince(atApproval, pilot);
    var atAcceptance := atApproval[..j];
    RunInv(atAcceptance);
    i := EffectiveSince(atAcceptance, After(atAcceptance).pilots[pilot].contract);
    PilotKeepsContract(events, k, pilot);
    assert atAcceptance[i] == atApproval[i] == events[i];
    assert atApproval[j] == events[j];
  }

  lemma {:induction false} PilotKeepsContract(events: seq<Event>, k: nat, pilot: nat)
    requires Possible(events) && k <= |events| && Possible(events[..k]) && pilot < |After(events[..k]).pilots|
    ensures pilot < |After(events).pilots|
    ensures After(events).pilots[pilot].contract == After(events[..k]).pilots[pilot].contract
  {
    if k == |events| {
      assert events[..k] == events;
    } else {
      var before := events[..|events| - 1];
      assert before[..k] == events[..k];
      PilotKeepsContract(before, k, pilot);
    }
  }

  // ----- Who has answered for what -----

  /** Event k moved the contract to the state: someone of these roles, vouching for this. */
  ghost predicate ContractStep(events: seq<Event>, k: nat, i: nat, to: ContractState, roles: set<Role>,
      guards: set<Guard>)
  {
    k < |events| && events[k].MoveContract? && events[k].i == i && events[k].contractTo == to &&
    events[k].role in roles && guards <= events[k].satisfied
  }

  ghost predicate PilotStep(events: seq<Event>, k: nat, i: nat, to: PilotState, roles: set<Role>,
      guards: set<Guard>)
  {
    k < |events| && events[k].MovePilot? && events[k].i == i && events[k].pilotTo == to &&
    events[k].role in roles && guards <= events[k].satisfied
  }

  ghost predicate PaymentStep(events: seq<Event>, k: nat, i: nat, to: PaymentState, roles: set<Role>,
      guards: set<Guard>)
  {
    k < |events| && events[k].MovePayment? && events[k].i == i && events[k].paymentTo == to &&
    events[k].role in roles && guards <= events[k].satisfied
  }

  /** The last move of the contract, as its table allowed it. */
  lemma {:induction false} ContractMoved(events: seq<Event>, i: nat) returns (k: nat)
    requires Possible(events) && i < |After(events).contracts| && After(events).contracts[i] != Draft
    ensures k < |events| && Possible(events[..k]) && i < |After(events[..k]).contracts|
    ensures events[k].MoveContract? && events[k].i == i && events[k].contractTo == After(events).contracts[i]
    ensures CanTransition(CONTRACT_TABLE, After(events[..k]).contracts[i], events[k].contractTo, events[k].role,
                          events[k].satisfied)
  {
    var before, last := events[..|events| - 1], events[|events| - 1];
    if last.MoveContract? && last.i == i {
      k := |events| - 1;
    } else {
      k := ContractMoved(before, i);
      assert before[..k] == events[..k] && before[k] == events[k];
    }
  }

  /** The step that brought a contract where it is, and where it was before. */
  lemma ContractCame(events: seq<Event>, i: nat, state: ContractState) returns (k: nat)
    requires Possible(events) && i < |After(events).contracts| && After(events).contracts[i] == state != Draft
    ensures k < |events| && Possible(events[..k]) && i < |After(events[..k]).contracts|
    ensures var was := After(events[..k]).contracts[i];
            match state
            case Negotiation =>
              was == Draft && ContractStep(events, k, i, Negotiation,
                {OrgOwner, OrgApproverLegal, PlatformLegal, Individual, TeamOwner, TeamAdmin}, {ScopeDefined})
            case Approval =>
              was == Negotiation && ContractStep(events, k, i, Approval,
                {OrgOwner, OrgApproverLegal, PlatformLegal, Individual, TeamOwner, TeamAdmin}, {TermsAgreed, IpAgreed})
            case Signature =>
              was == Approval && ContractStep(events, k, i, Signature,
                {OrgOwner, OrgApproverLegal, PlatformLegal, Individual, TeamOwner, TeamAdmin, OrgApproverFinance,
                 PlatformFinance}, {LegalApproved, FinanceApproved})
            case Effective =>
              was == Signature && ContractStep(events, k, i, Effective,
                {PlatformLegal, Individual, TeamOwner, TeamAdmin}, {ApprovedCurrentVersion})
            case _ => false
  {
    k := ContractMoved(events, i);
    ContractRow(After(events[..k]).contracts[i], state, events[k].role, events[k].satisfied);
  }

  lemma ContractRow(from: ContractState, to: ContractState, role: Role, satisfied: set<Guard>)
    requires CanTransition(CONTRACT_TABLE, from, to, role, satisfied)
    ensures to == Negotiation || to == Approval || to == Signature || to == Effective
    ensures to == Negotiation ==> from == Draft && ScopeDefined in satisfied
    ensures to == Approval ==> from == Negotiation && TermsAgreed in satisfied && IpAgreed in satisfied
    ensures to == Signature ==> from == Approval && LegalApproved in satisfied && FinanceApproved in satisfied
    ensures to == Effective ==> from == Signature && ApprovedCurrentVersion in satisfied
    ensures to == Negotiation || to == Approval ==>
              role in {OrgOwner, OrgApproverLegal, PlatformLegal, Individual, TeamOwner, TeamAdmin}
    ensures to == Signature ==>
              role in {OrgOwner, OrgApproverLegal, PlatformLegal, Individual, TeamOwner, TeamAdmin,
                       OrgApproverFinance, PlatformFinance}
    ensures to == Effective ==> role in {PlatformLegal, Individual, TeamOwner, TeamAdmin}
  {
  }

  /** In every run: an effective contract has been scoped, agreed, approved by law and by
      finance, and signed in its current version, in this order. */
  lemma EffectiveWasApproved(events: seq<Event>, i: nat) returns (k1: nat, k2: nat, k3: nat, k4: nat)
    requires Possible(events) && i < |After(events).contracts| && After(events).contracts[i] == Effective
    ensures k1 < k2 < k3 < k4 < |events|
    ensures var parties := {OrgOwner, OrgApproverLegal, PlatformLegal, Individual, TeamOwner, TeamAdmin};
            ContractStep(events, k1, i, Negotiation, parties, {ScopeDefined}) &&
            ContractStep(events, k2, i, Approval, parties, {TermsAgreed, IpAgreed}) &&
            ContractStep(events, k3, i, Signature, parties + {OrgApproverFinance, PlatformFinance},
                         {LegalApproved, FinanceApproved}) &&
            ContractStep(events, k4, i, Effective, {PlatformLegal, Individual, TeamOwner, TeamAdmin},
                         {ApprovedCurrentVersion})
  {
    k4 := ContractCame(events, i, Effective);
    k3 := ContractCame(events[..k4], i, Signature);
    assert events[..k4][..k3] == events[..k3];
    k2 := ContractCame(events[..k3], i, Approval);
    assert events[..k3][..k2] == events[..k2];
    k1 := ContractCame(events[..k2], i, Negotiation);
  }

  lemma PilotRow(from: PilotState, to: PilotState, role: Role, satisfied: set<Guard>)
    requires CanTransition(PILOT_TABLE, from, to, role, satisfied)
    ensures to != Planned
    ensures to == Running ==> from == Planned && role in {OrgMember, TeamOwner, TeamAdmin} &&
                              ContractEffective in satisfied && PlanApproved in satisfied
    ensures to == DeliverableSubmitted ==> from == Running && role in {Individual, TeamOwner, TeamAdmin} &&
                                           DeliverableValid in satisfied
    ensures to == Accepted ==> from == DeliverableSubmitted && role == OrgApproverTechnical &&
                               TechnicalEvidenceApproved in satisfied
    ensures to == Revision ==> from == DeliverableSubmitted && role == OrgApproverTechnical &&
                               ReasonRecorded in satisfied && RevisionDeadline in satisfied
    ensures to == PilotRejected ==> from == DeliverableSubmitted && role == OrgApproverTechnical &&
                                    ReasonRecorded in satisfied
  {
  }

  /** The last move of the pilot, as its table allowed it. */
  lemma {:induction false} PilotMoved(events: seq<Event>, i: nat) returns (k: nat)
    requires Possible(events) && i < |After(events).pilots| && After(events).pilots[i].state != Planned
    ensures k < |events| && Possible(events[..k]) && i < |After(events[..k]).pilots|
    ensures events[k].MovePilot? && events[k].i == i && events[k].pilotTo == After(events).pilots[i].state
    ensures CanTransition(PILOT_TABLE, After(events[..k]).pilots[i].state, events[k].pilotTo, events[k].role,
                          events[k].satisfied)
  {
    var before, last := events[..|events| - 1], events[|events| - 1];
    if last.MovePilot? && last.i == i {
      k := |events| - 1;
    } else {
      k := PilotMoved(before, i);
      assert before[..k] == events[..k] && before[k] == events[k];
    }
  }

  lemma PilotCame(events: seq<Event>, i: nat, state: PilotState) returns (k: nat)
    requires Possible(events) && i < |After(events).pilots| && After(events).pilots[i].state == state != Planned
    ensures k < |events| && Possible(events[..k]) && i < |After(events[..k]).pilots|
    ensures var was := After(events[..k]).pilots[i].state;
            match state
            case Running =>
              was == Planned && PilotStep(events, k, i, Running, {OrgMember, TeamOwner, TeamAdmin},
                                          {ContractEffective, PlanApproved})
            case DeliverableSubmitted =>
              was == Running && PilotStep(events, k, i, DeliverableSubmitted, {Individual, TeamOwner, TeamAdmin},
                                          {DeliverableValid})
            case Accepted =>
              was == DeliverableSubmitted && PilotStep(events, k, i, Accepted, {OrgApproverTechnical},
                                                       {TechnicalEvidenceApproved})
            case Revision =>
              was == DeliverableSubmitted && PilotStep(events, k, i, Revision, {OrgApproverTechnical},
                                                       {ReasonRecorded, RevisionDeadline})
            case _ =>
              was == DeliverableSubmitted && PilotStep(events, k, i, PilotRejected, {OrgApproverTechnical},
                                                       {ReasonRecorded})
  {
    k := PilotMoved(events, i);
    PilotRow(After(events[..k]).pilots[i].state, state, events[k].role, events[k].satisfied);
  }

  /** In every run: an accepted pilot was started under an effective contract with an
      approved plan, delivered by the solver, and accepted on technical evidence. */
  lemma AcceptedWasDelivered(events: seq<Event>, i: nat) returns (k1: nat, k2: nat, k3: nat)
    requires Possible(events) && i < |After(events).pilots| && After(events).pilots[i].state == Accepted
    ensures k1 < k2 < k3 < |events|
    ensures PilotStep(events, k1, i, Running, {OrgMember, TeamOwner, TeamAdmin}, {ContractEffective, PlanApproved})
    ensures PilotStep(events, k2, i, DeliverableSubmitted, {Individual, TeamOwner, TeamAdmin}, {DeliverableValid})
    ensures PilotStep(events, k3, i, Accepted, {OrgApproverTechnical}, {TechnicalEvidenceApproved})
  {
    k3 := PilotCame(events, i, Accepted);
    k2 := PilotCame(events[..k3], i, DeliverableSubmitted);
    assert events[..k3][..k2] == events[..k2];
    k1 := PilotCame(events[..k2], i, Running);
  }

  lemma PaymentRow(from: PaymentState, to: PaymentState, role: Role, satisfied: set<Guard>)
    requires CanTransition(PAYMENT_TABLE, from, to, role, satisfied)
    ensures to != Triggered
    ensures to == PaymentApproval ==> from == Triggered && role == OrgApproverTechnical &&
                                      TechnicalAccepted in satisfied
    ensures to == Processing ==> from == PaymentApproval && role in {OrgApproverFinance, PlatformFinance} &&
                                 FinanceApproved in satisfied && ContractEffective in satisfied
    ensures to == Paid ==> from == Processing && role == PlatformFinance && ProviderConfirmed in satisfied
    ensures to == Reconciled ==> from == Paid && role == PlatformFinance && LedgerMatched in satisfied
    ensures to == Hold ==> from == PaymentApproval && role in {PlatformFinance, PlatformOps} &&
                           ReasonRecorded in satisfied
    ensures to == PaymentFailed ==> from == Processing && role in {PlatformFinance, PlatformOps} &&
                                    ProviderFailed in satisfied
    ensures to == Refunded ==> from == Paid && role in {PlatformFinance, PlatformOps} && RefundApproved in satisfied
  {
  }

  /** The last move of the payment, as its table allowed it. */
  lemma {:induction false} PaymentMoved(events: seq<Event>, i: nat) returns (k: nat)
    requires Possible(events) && i < |After(events).payments| && After(events).payments[i].state != Triggered
    ensures k < |events| && Possible(events[..k]) && i < |After(events[..k]).payments|
    ensures events[k].MovePayment? && events[k].i == i && events[k].paymentTo == After(events).payments[i].state
    ensures CanTransition(PAYMENT_TABLE, After(events[..k]).payments[i].state, events[k].paymentTo, events[k].role,
                          events[k].satisfied)
  {
    var before, last := events[..|events| - 1], events[|events| - 1];
    if last.MovePayment? && last.i == i {
      k := |events| - 1;
    } else {
      k := PaymentMoved(before, i);
      assert before[..k] == events[..k] && before[k] == events[k];
    }
  }

  lemma PaymentCame(events: seq<Event>, i: nat, state: PaymentState) returns (k: nat)
    requires Possible(events) && i < |After(events).payments| && After(events).payments[i].state == state != Triggered
    ensures k < |events| && Possible(events[..k]) && i < |After(events[..k]).payments|
    ensures var was := After(events[..k]).payments[i].state;
            match state
            case PaymentApproval =>
              was == Triggered && PaymentStep(events, k, i, PaymentApproval, {OrgApproverTechnical},
                                              {TechnicalAccepted})
            case Processing =>
              was == PaymentApproval && PaymentStep(events, k, i, Processing, {OrgApproverFinance, PlatformFinance},
                                                    {FinanceApproved, ContractEffective})
            case Paid =>
              was == Processing && PaymentStep(events, k, i, Paid, {PlatformFinance}, {ProviderConfirmed})
            case Reconciled =>
              was == Paid && PaymentStep(events, k, i, Reconciled, {PlatformFinance}, {LedgerMatched})
            case Hold =>
              was == PaymentApproval && PaymentStep(events, k, i, Hold, {PlatformFinance, PlatformOps},
                                                    {ReasonRecorded})
            case PaymentFailed =>
              was == Processing && PaymentStep(events, k, i, PaymentFailed, {PlatformFinance, PlatformOps},
                                               {ProviderFailed})
            case _ =>
              was == Paid && PaymentStep(events, k, i, Refunded, {PlatformFinance, PlatformOps}, {RefundApproved})
  {
    k := PaymentMoved(events, i);
    PaymentRow(After(events[..k]).payments[i].state, state, events[k].role, events[k].satisfied);
  }

  /** In every run: a payment that is paid was sent for approval on technical acceptance,
      approved by finance, and confirmed by the provider, in this order. */
  lemma PaidWasConfirmed(events: seq<Event>, i: nat) returns (k1: nat, k2: nat, k3: nat)
    requires Possible(events) && i < |After(events).payments|
    requires After(events).payments[i].state in {Paid, Reconciled, Refunded}
    ensures k1 < k2 < k3 < |events|
    ensures PaymentStep(events, k1, i, PaymentApproval, {OrgApproverTechnical}, {TechnicalAccepted})
    ensures PaymentStep(events, k2, i, Processing, {OrgApproverFinance, PlatformFinance},
                        {FinanceApproved, ContractEffective})
    ensures PaymentStep(events, k3, i, Paid, {PlatformFinance}, {ProviderConfirmed})
  {
    var upTo := events;
    if After(events).payments[i].state != Paid {
      var k := PaymentCame(events, i, After(events).payments[i].state);
      upTo := events[..k];
    }
    k3 := PaymentCame(upTo, i, Paid);
    assert upTo[..k3] == events[..k3];
    k2 := PaymentCame(events[..k3], i, Processing);
    assert events[..k3][..k2] == events[..k2];
    k1 := PaymentCame(events[..k2], i, PaymentApproval);
  }

  // ----- No step is skipped -----

  /** How many steps a state is from its machine's first. */
  function ContractRank(state: ContractState): nat {
    match state
    case Draft => 0
    case Negotiation => 1
    case Approval => 2
    case Signature => 3
    case Effective => 4
    case _ => 5
  }

  function PilotRank(state: PilotState): nat {
    match state
    case Planned => 0
    case Running => 1
    case DeliverableSubmitted => 2
    case _ => 3
  }

  function PaymentRank(state: PaymentState): nat {
    match state
    case Triggered => 0
    case PaymentApproval => 1
    case Processing => 2
    case Hold => 2
    case Paid => 3
    case PaymentFailed => 3
    case _ => 4
  }

  datatype Record = ContractRecord(i: nat) | PilotRecord(i: nat) | PaymentRecord(i: nat)

  predicate Moves(event: Event, r: Record) {
    match r
    case ContractRecord(i) => event.MoveContract? && event.i == i
    case PilotRecord(i) => event.MovePilot? && event.i == i
    case PaymentRecord(i) => event.MovePayment? && event.i == i
  }

  function MoveCount(events: seq<Event>, r: Record): nat {
    if events == [] then 0
    else MoveCount(events[..|events| - 1], r) + (if Moves(events[|events| - 1], r) then 1 else 0)
  }

  /** The rank of a record's state; a record that does not exist yet has none. */
  function RankOf(p: Portfolio, r: Record): nat {
    match r
    case ContractRecord(i) => if i < |p.contracts| then ContractRank(p.contracts[i]) else 0
    case PilotRecord(i) => if i < |p.pilots| then PilotRank(p.pilots[i].state) else 0
    case PaymentRecord(i) => if i < |p.payments| then PaymentRank(p.payments[i].state) else 0
  }

  lemma RowsRaiseRank()
    ensures forall i :: 0 <= i < |CONTRACT_TABLE| ==>
              ContractRank(CONTRACT_TABLE[i].to) == ContractRank(CONTRACT_TABLE[i].from) + 1
    ensures forall i :: 0 <= i < |PILOT_TABLE| ==> PilotRank(PILOT_TABLE[i].to) == PilotRank(PILOT_TABLE[i].from) + 1
    ensures forall i :: 0 <= i < |PAYMENT_TABLE| ==>
              PaymentRank(PAYMENT_TABLE[i].to) == PaymentRank(PAYMENT_TABLE[i].from) + 1
  {
  }

  lemma StepRaisesRank(p: Portfolio, event: Event, r: Record)
    requires Enabled(p, event)
    ensures RankOf(Step(p, event), r) == RankOf(p, r) + (if Moves(event, r) then 1 else 0)
  {
    RowsRaiseRank();
  }

  /** In every interleaving a record has moved exactly as often as its state is steps from
      the first: none is skipped, none taken twice. */
  lemma {:induction false} MovesMatchRank(events: seq<Event>, r: Record)
    requires Possible(events)
    ensures MoveCount(events, r) == RankOf(After(events), r)
  {
    if events != [] {
      var before := events[..|events| - 1];
      MovesMatchRank(before, r);
      StepRaisesRank(After(before), events[|events| - 1], r);
    }
  }
}
