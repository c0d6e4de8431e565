/** Team invitations and membership requests of domain/state-machines.ts, any number of
    them in any interleaving, and the side effects that their transitions order. */
module MembershipEffects {
  import opened Transitions

  datatype InvitationState = Sent | Viewed | InvitationAccepted | Declined | Revoked | InvitationExpired

  datatype RequestState = Requested | RequestAccepted | Rejected | Withdrawn | RequestExpired

  const INVITATION_TABLE: seq<Transition<InvitationState>> := [
    Transition(Sent, Viewed, {Individual}, {RecipientAuthorized, NotExpired}, [RecordViewedAt]),
    Transition(Sent, InvitationAccepted, {Individual}, {RecipientAuthorized, NotExpired},
      [CreateMembership, AddWorkspace]),
    Transition(Viewed, InvitationAccepted, {Individual}, {RecipientAuthorized, NotExpired},
      [CreateMembership, AddWorkspace]),
    Transition(Sent, Declined, {Individual}, {RecipientAuthorized, ReasonRecorded}, [CloseInvitation]),
    Transition(Viewed, Declined, {Individual}, {RecipientAuthorized, ReasonRecorded}, [CloseInvitation]),
    Transition(Sent, Revoked, TEAM_MANAGERS, {SenderAuthorized}, [RevokeAccessToken]),
    Transition(Viewed, Revoked, TEAM_MANAGERS, {SenderAuthorized}, [RevokeAccessToken]),
    Transition(Sent, InvitationExpired, {PlatformOps}, {DeadlinePassed}, [CloseInvitation]),
    Transition(Viewed, InvitationExpired, {PlatformOps}, {DeadlinePassed}, [CloseInvitation])
  ]

  const REQUEST_TABLE: seq<Transition<RequestState>> := [
    Transition(Requested, RequestAccepted, TEAM_MANAGERS, {ScopeApproved}, [CreateMembership, UpdateRoster]),
    Transition(Requested, Rejected, TEAM_MANAGERS, {DecisionConfirmed}, [CloseRequest]),
    Transition(Requested, Withdrawn, {Individual}, {RequesterAuthorized}, [CloseRequest]),
    Transition(Requested, RequestExpired, {PlatformOps}, {DeadlinePassed}, [CloseRequest])
  ]

  datatype Source = FromInvitation(invitation: nat) | FromRequest(request: nat)

  datatype Ordered = Ordered(source: Source, sideEffect: SideEffect)

  /** The records, and every side effect ordered so far with the record it came from. */
  datatype Desk = Desk(invitations: seq<InvitationState>, requests: seq<RequestState>, log: seq<Ordered>)

  datatype Event =
    | Invite
    | Ask
    | MoveInvitation(i: nat, rule: nat, role: Role, satisfied: set<Guard>)
    | MoveRequest(i: nat, rule: nat, role: Role, satisfied: set<Guard>)

  /** A move names the row of the table that allows it. */
  predicate Enabled(d: Desk, event: Event) {
    match event
    case MoveInvitation(i, rule, role, satisfied) =>
      i < |d.invitations| && rule < |INVITATION_TABLE| &&
      Allows(INVITATION_TABLE[rule], d.invitations[i], INVITATION_TABLE[rule].to, role, satisfied)
    case MoveRequest(i, rule, role, satisfied) =>
      i < |d.requests| && rule < |REQUEST_TABLE| &&
      Allows(REQUEST_TABLE[rule], d.requests[i], REQUEST_TABLE[rule].to, role, satisfied)
    case _ => true
  }

  function Orders(source: Source, sideEffects: seq<SideEffect>): seq<Ordered> {
    if sideEffects == [] then [] else [Ordered(source, sideEffects[0])] + Orders(source, sideEffects[1..])
  }

  function Step(d: Desk, event: Event): Desk
    requires Enabled(d, event)
  {
    match event
    case Invite => d.(invitations := d.invitations + [Sent])
    case Ask => d.(requests := d.requests + [Requested])
    case MoveInvitation(i, rule, _, _) =>
      var row := INVITATION_TABLE[rule];
      d.(invitations := d.invitations[i := row.to], log := d.log + Orders(FromInvitation(i), row.sideEffects))
    case MoveRequest(i, rule, _, _) =>
      var row := REQUEST_TABLE[rule];
      d.(requests := d.requests[i := row.to], log := d.log + Orders(FromRequest(i), row.sideEffects))
  }

  ghost predicate Possible(d: Desk, events: seq<Event>)
    decreases |events|
  {
    events != [] ==> Enabled(d, events[0]) && Possible(Step(d, events[0]), events[1..])
  }

  function Run(d: Desk, events: seq<Event>): Desk
    requires Possible(d, events)
    decreases |events|
  {
    if events == [] then d else Run(Step(d, events[0]), events[1..])
  }

  // ----- Counting -----

  function Memberships(log: seq<Ordered>): nat {
    if log == [] then 0
    else Memberships(log[..|log| - 1]) + (if log[|log| - 1].sideEffect == CreateMembership then 1 else 0)
  }

  function MembershipsFrom(log: seq<Ordered>, source: Source): nat {
    if log == [] then 0
    else MembershipsFrom(log[..|log| - 1], source) +
         (if log[|log| - 1] == Ordered(source, CreateMembership) then 1 else 0)
  }

  function Count<S(==)>(states: seq<S>, state: S): nat {
    if states == [] then 0
    else Count(states[..|states| - 1], state) + (if states[|states| - 1] == state then 1 else 0)
  }

  lemma {:induction false} CountUpdated<S>(states: seq<S>, i: nat, to: S, state: S)
    requires i < |states|
    ensures Count(states[i := to], state) + (if states[i] == state then 1 else 0) ==
            Count(states, state) + (if to == state then 1 else 0)
  {
    var last := |states| - 1;
    if i == last {
      assert states[i := to][..last] == states[..last];
    } else {
      CountUpdated(states[..last], i, to, state);
      assert states[i := to][..last] == states[..last][i := to];
    }
  }

  lemma {:induction false} LogGrows(log: seq<Ordered>, more: seq<Ordered>, source: Source)
    ensures Memberships(log + more) == Memberships(log) + Memberships(more)
    ensures MembershipsFrom(log + more, source) == MembershipsFrom(log, source) + MembershipsFrom(more, source)
  {
    if more == [] {
      assert log + more == log;
    } else {
      LogGrows(log, more[..|more| - 1], source);
      assert (log + more)[..|log + more| - 1] == log + more[..|more| - 1];
    }
  }

  /** The two kinds of orders that a row can give. */
  lemma OrdersOfRow(source: Source, sideEffects: seq<SideEffect>, other: Source)
    requires |sideEffects| == 2 || |sideEffects| == 1
    requires |sideEffects| == 2 <==> sideEffects[0] == CreateMembership
    requires |sideEffects| == 2 ==> sideEffects[1] != CreateMembership
    ensures var created := if |sideEffects| == 2 then 1 else 0;
            Memberships(Orders(source, sideEffects)) == created &&
            MembershipsFrom(Orders(source, sideEffects), other) == if other == source then created else 0
  {
    var first := Ordered(source, sideEffects[0]);
    SingleOrder(first, other);
    if |sideEffects| == 2 {
      var second := Ordered(source, sideEffects[1]);
      SingleOrder(second, other);
      LogGrows([first], [second], other);
      assert sideEffects[1..][1..] == [];
      assert Orders(source, sideEffects[1..]) == [second] + Orders(source, sideEffects[1..][1..]);
      assert Orders(source, sideEffects) == [first] + [second];
    } else {
      assert sideEffects[1..] == [];
      assert Orders(source, sideEffects) == [first];
    }
  }

  lemma SingleOrder(order: Ordered, source: Source)
    ensures Memberships([order]) == if order.sideEffect == CreateMembership then 1 else 0
    ensures MembershipsFrom([order], source) == if order == Ordered(source, CreateMembership) then 1 else 0
  {
    assert [order][..0] == [];
  }

  predicate Accepted(d: Desk, source: Source) {
    match source
    case FromInvitation(i) => i < |d.invitations| && d.invitations[i] == InvitationAccepted
    case FromRequest(i) => i < |d.requests| && d.requests[i] == RequestAccepted
  }

  ghost predicate Inv(d: Desk) {
    && Memberships(d.log) == Count(d.invitations, InvitationAccepted) + Count(d.requests, RequestAccepted)
    && forall source :: MembershipsFrom(d.log, source) == if Accepted(d, source) then 1 else 0
  }

  lemma InvitationRows(rule: nat)
    requires rule < |INVITATION_TABLE|
    ensures var row := INVITATION_TABLE[rule];
            row.from != InvitationAccepted &&
            (|row.sideEffects| == 2 || |row.sideEffects| == 1) &&
            (|row.sideEffects| == 2 <==> row.to == InvitationAccepted) &&
            (|row.sideEffects| == 2 <==> row.sideEffects[0] == CreateMembership) &&
            (|row.sideEffects| == 2 ==> row.sideEffects[1] != CreateMembership)
  {
  }

  lemma RequestRows(rule: nat)
    requires rule < |REQUEST_TABLE|
    ensures var row := REQUEST_TABLE[rule];
            row.from != RequestAccepted &&
            (|row.sideEffects| == 2 || |row.sideEffects| == 1) &&
            (|row.sideEffects| == 2 <==> row.to == RequestAccepted) &&
            (|row.sideEffects| == 2 <==> row.sideEffects[0] == CreateMembership) &&
            (|row.sideEffects| == 2 ==> row.sideEffects[1] != CreateMembership)
  {
  }

  lemma NewRecordInv(d: Desk, event: Event)
    requires Inv(d) && (event.Invite? || event.Ask?)
    ensures Inv(Step(d, event))
  {
    var t := Step(d, event);
    assert event.Invite? ==> t.invitations[..|t.invitations| - 1] == d.invitations;
    assert event.Ask? ==> t.requests[..|t.requests| - 1] == d.requests;
    assert forall source :: Accepted(t, source) <==> Accepted(d, source);
  }

  lemma InvitationInv(d: Desk, event: Event)
    requires Inv(d) && event.MoveInvitation? && Enabled(d, event)
    ensures Inv(Step(d, event))
  {
    var t, row := Step(d, event), INVITATION_TABLE[event.rule];
    InvitationRows(event.rule);
    CountUpdated(d.invitations, event.i, row.to, InvitationAccepted);
    LogExtends(d, t, FromInvitation(event.i), row.sideEffects);
  }

  lemma RequestInv(d: Desk, event: Event)
    requires Inv(d) && event.MoveRequest? && Enabled(d, event)
    ensures Inv(Step(d, event))
  {
    var t, row := Step(d, event), REQUEST_TABLE[event.rule];
    RequestRows(event.rule);
    CountUpdated(d.requests, event.i, row.to, RequestAccepted);
    LogExtends(d, t, FromRequest(event.i), row.sideEffects);
  }

  lemma StepInv(d: Desk, event: Event)
    requires Inv(d) && Enabled(d, event)
    ensures Inv(Step(d, event))
  {
    match event
    case Invite => NewRecordInv(d, event);
    case Ask => NewRecordInv(d, event);
    case MoveInvitation(_, _, _, _) => InvitationInv(d, event);
    case MoveRequest(_, _, _, _) => RequestInv(d, event);
  }

  lemma LogExtends(d: Desk, t: Desk, source: Source, sideEffects: seq<SideEffect>)
    requires |sideEffects| == 2 || |sideEffects| == 1
    requires |sideEffects| == 2 <==> sideEffects[0] == CreateMembership
    requires |sideEffects| == 2 ==> sideEffects[1] != CreateMembership
    requires t.log == d.log + Orders(source, sideEffects)
    ensures Memberships(t.log) == Memberships(d.log) + (if |sideEffects| == 2 then 1 else 0)
    ensures forall other :: MembershipsFrom(t.log, other) ==
              MembershipsFrom(d.log, other) + (if other == source && |sideEffects| == 2 then 1 else 0)
  {
    forall other
      ensures MembershipsFrom(t.log, other) ==
              MembershipsFrom(d.log, other) + (if other == source && |sideEffects| == 2 then 1 else 0)
    {
      LogGrows(d.log, Orders(source, sideEffects), other);
      OrdersOfRow(source, sideEffects, other);
    }
    LogGrows(d.log, Orders(source, sideEffects), source);
    OrdersOfRow(source, sideEffects, source);
  }

  lemma {:induction false} RunInv(d: Desk, events: seq<Event>)
    requires Inv(d) && Possible(d, events)
    ensures Inv(Run(d, events))
    decreases |events|
  {
    if events != [] {
      StepInv(d, events[0]);
      RunInv(Step(d, events[0]), events[1..]);
    }
  }

  const EMPTY := Desk([], [], [])

  /** Over every interleaving, as many memberships are ordered as invitations and requests
      have been accepted; each accepted record orders exactly one, every other none. */
  lemma MembershipsAreConserved(events: seq<Event>)
    requires Possible(EMPTY, events)
    ensures var d := Run(EMPTY, events);
            Memberships(d.log) == Count(d.invitations, InvitationAccepted) + Count(d.requests, RequestAccepted)
    ensures forall source :: MembershipsFrom(Run(EMPTY, events).log, source) ==
              if Accepted(Run(EMPTY, events), source) then 1 else 0
  {
    RunInv(EMPTY, events);
  }

  /** Exactly who may move a team invitation, and what must hold. */
  lemma InvitationRules(from: InvitationState, to: InvitationState, role: Role, satisfied: set<Guard>)
    ensures CanTransition(INVITATION_TABLE, from, to, role, satisfied) <==>
            (from == Sent || from == Viewed) &&
              match to
              case Viewed => from == Sent && role == Individual && {RecipientAuthorized, NotExpired} <= satisfied
              case InvitationAccepted => role == Individual && {RecipientAuthorized, NotExpired} <= satisfied
              case Declined => role == Individual && {RecipientAuthorized, ReasonRecorded} <= satisfied
              case Revoked => role in {TeamOwner, TeamAdmin} && SenderAuthorized in satisfied
              case InvitationExpired => role == PlatformOps && DeadlinePassed in satisfied
              case Sent => false
  {
    if CanTransition(INVITATION_TABLE, from, to, role, satisfied) {
      var i :| 0 <= i < |INVITATION_TABLE| && Allows(INVITATION_TABLE[i], from, to, role, satisfied);
      assert i == 0 || i == 1 || i == 2 || i == 3 || i == 4 || i == 5 || i == 6 || i == 7 || i == 8;
    }
    if from == Sent && to == Viewed && role == Individual &&
       {RecipientAuthorized, NotExpired} <= satisfied {
      assert Allows(INVITATION_TABLE[0], from, to, role, satisfied);
    }
    if from == Sent && to == InvitationAccepted && role == Individual &&
       {RecipientAuthorized, NotExpired} <= satisfied {
      assert Allows(INVITATION_TABLE[1], from, to, role, satisfied);
    }
    if from == Viewed && to == InvitationAccepted && role == Individual &&
       {RecipientAuthorized, NotExpired} <= satisfied {
      assert Allows(INVITATION_TABLE[2], from, to, role, satisfied);
    }
    if from == Sent && to == Declined && role == Individual && {RecipientAuthorized, ReasonRecorded} <= satisfied {
      assert Allows(INVITATION_TABLE[3], from, to, role, satisfied);
    }
    if from == Viewed && to == Declined && role == Individual && {RecipientAuthorized, ReasonRecorded} <= satisfied {
      assert Allows(INVITATION_TABLE[4], from, to, role, satisfied);
    }
    if from == Sent && to == Revoked && role in TEAM_MANAGERS && SenderAuthorized in satisfied {
      assert Allows(INVITATION_TABLE[5], from, to, role, satisfied);
    }
    if from == Viewed && to == Revoked && role in TEAM_MANAGERS && SenderAuthorized in satisfied {
      assert Allows(INVITATION_TABLE[6], from, to, role, satisfied);
    }
    if from == Sent && to == InvitationExpired && role == PlatformOps && DeadlinePassed in satisfied {
      assert Allows(INVITATION_TABLE[7], from, to, role, satisfied);
    }
    if from == Viewed && to == InvitationExpired && role == PlatformOps && DeadlinePassed in satisfied {
      assert Allows(INVITATION_TABLE[8], from, to, role, satisfied);
    }
  }

  /** And a request for membership. */
  lemma RequestRules(from: RequestState, to: RequestState, role: Role, satisfied: set<Guard>)
    ensures CanTransition(REQUEST_TABLE, from, to, role, satisfied) <==>
            from == Requested &&
              match to
              case RequestAccepted => role in {TeamOwner, TeamAdmin} && ScopeApproved in satisfied
              case Rejected => role in {TeamOwner, TeamAdmin} && DecisionConfirmed in satisfied
              case Withdrawn => role == Individual && RequesterAuthorized in satisfied
              case RequestExpired => role == PlatformOps && DeadlinePassed in satisfied
              case Requested => false
  {
    if CanTransition(REQUEST_TABLE, from, to, role, satisfied) {
      var i :| 0 <= i < |REQUEST_TABLE| && Allows(REQUEST_TABLE[i], from, to, role, satisfied);
      assert i == 0 || i == 1 || i == 2 || i == 3;
    }
    if from == Requested && to == RequestAccepted && role in TEAM_MANAGERS && ScopeApproved in satisfied {
      assert Allows(REQUEST_TABLE[0], from, to, role, satisfied);
    }
    if from == Requested && to == Rejected && role in TEAM_MANAGERS && DecisionConfirmed in satisfied {
      assert Allows(REQUEST_TABLE[1], from, to, role, satisfied);
    }
    if from == Requested && to == Withdrawn && role == Individual && RequesterAuthorized in satisfied {
      assert Allows(REQUEST_TABLE[2], from, to, role, satisfied);
    }
    if from == Requested && to == RequestExpired && role == PlatformOps && DeadlinePassed in satisfied {
      assert Allows(REQUEST_TABLE[3], from, to, role, satisfied);
    }
  }

  // ----- What each move orders -----

  /** Every side effect of a row is ordered, in the row's order. */
  lemma {:induction false} AllAreOrdered(source: Source, sideEffects: seq<SideEffect>)
    ensures |Orders(source, sideEffects)| == |sideEffects|
    ensures forall k :: 0 <= k < |sideEffects| ==> Orders(source, sideEffects)[k] == Ordered(source, sideEffects[k])
  {
    if sideEffects != [] {
      AllAreOrdered(source, sideEffects[1..]);
    }
  }

  /** What an invitation orders on its way. */
  lemma InvitationOrders(rule: nat)
    requires rule < |INVITATION_TABLE|
    ensures INVITATION_TABLE[rule].sideEffects ==
            match INVITATION_TABLE[rule].to
            case InvitationAccepted => [CreateMembership, AddWorkspace]
            case Viewed => [RecordViewedAt]
            case Revoked => [RevokeAccessToken]
            case _ => [CloseInvitation]
  {
  }

  lemma RequestOrders(rule: nat)
    requires rule < |REQUEST_TABLE|
    ensures REQUEST_TABLE[rule].sideEffects ==
            if REQUEST_TABLE[rule].to == RequestAccepted then [CreateMembership, UpdateRoster] else [CloseRequest]
  {
  }
}
