/** Team memberships moving through the membership table of domain/state-machines.ts, for a
    roster of any size. */
module TeamRoster {
  import opened Transitions

  datatype MembershipState = Requested | Invited | Active | Rejected | Expired | Suspended | Removed

  const MEMBERSHIP_TABLE: seq<Transition<MembershipState>> := [
    Transition(Requested, Active, TEAM_MANAGERS, {ScopeApproved}, [OtherEffect]),
    Transition(Requested, Rejected, TEAM_MANAGERS, {ReasonRecorded}, [CloseRequest]),
    Transition(Invited, Active, {Individual}, {InviteValid}, [OtherEffect]),
    Transition(Invited, Expired, {PlatformOps}, {DeadlinePassed}, [OtherEffect]),
    Transition(Active, Suspended, TEAM_MANAGERS, {NotOwner, NotSelf}, [OtherEffect]),
    Transition(Suspended, Active, TEAM_MANAGERS, {RestoreConfirmed}, [OtherEffect]),
    Transition(Active, Removed, TEAM_MANAGERS, {NotLastManager, ActiveWorkTransferred}, [OtherEffect])
  ]

  datatype Member = Member(role: Role, state: MembershipState)

  predicate IsTeamRole(role: Role) {
    role in {TeamOwner, TeamAdmin, TeamProposalManager, TeamContributor, TeamViewer}
  }

  /** Who takes a step: a member of the roster, or someone outside with another role. */
  datatype Actor = Insider(member: nat) | Outsider(role: Role)

  datatype Event =
    | Join(role: Role, state: MembershipState)
    | Move(actor: Actor, target: nat, to: MembershipState, satisfied: set<Guard>)

  predicate ActiveManager(roster: seq<Member>, i: nat) {
    i < |roster| && roster[i].state == Active && roster[i].role in TEAM_MANAGERS
  }

  ghost predicate Managed(roster: seq<Member>) {
    exists i :: ActiveManager(roster, i)
  }

  /** The guards that speak of the roster are only claimed when they hold of it. */
  ghost predicate Honest(roster: seq<Member>, actor: Actor, target: nat, satisfied: set<Guard>)
    requires target < |roster|
  {
    && (NotOwner in satisfied ==> roster[target].role != TeamOwner)
    && (NotSelf in satisfied ==> actor != Insider(target))
    && (NotLastManager in satisfied ==> exists j :: j != target && ActiveManager(roster, j))
  }

  function RoleOf(roster: seq<Member>, actor: Actor): Role
    requires actor.Insider? ==> actor.member < |roster|
  {
    match actor
    case Insider(i) => roster[i].role
    case Outsider(role) => role
  }

  /** An insider acts while active; an outsider does not carry a team role. */
  predicate MayAct(roster: seq<Member>, actor: Actor) {
    match actor
    case Insider(i) => i < |roster| && roster[i].state == Active
    case Outsider(role) => !IsTeamRole(role)
  }

  /** A step, except that the actor need not be active. */
  ghost predicate Permitted(roster: seq<Member>, event: Event) {
    match event
    case Join(role, state) => IsTeamRole(role) && (state == Requested || state == Invited)
    case Move(actor, target, to, satisfied) =>
      && target < |roster|
      && (actor.Insider? ==> actor.member < |roster|)
      && (actor.Outsider? ==> !IsTeamRole(actor.role))
      && Honest(roster, actor, target, satisfied)
      && CanTransition(MEMBERSHIP_TABLE, roster[target].state, to, RoleOf(roster, actor), satisfied)
  }

  ghost predicate Enabled(roster: seq<Member>, event: Event) {
    Permitted(roster, event) && (event.Move? ==> MayAct(roster, event.actor))
  }

  function Step(roster: seq<Member>, event: Event): seq<Member> {
    match event
    case Join(role, state) => roster + [Member(role, state)]
    case Move(_, target, to, _) => if target < |roster| then roster[target := roster[target].(state := to)] else roster
  }

  ghost predicate Possible(roster: seq<Member>, events: seq<Event>)
    decreases |events|
  {
    events != [] ==> Enabled(roster, events[0]) && Possible(Step(roster, events[0]), events[1..])
  }

  function Run(roster: seq<Member>, events: seq<Event>): seq<Member>
    decreases |events|
  {
    if events == [] then roster else Run(Step(roster, events[0]), events[1..])
  }

  lemma MembershipMoves(from: MembershipState, to: MembershipState, role: Role, satisfied: set<Guard>)
    requires CanTransition(MEMBERSHIP_TABLE, from, to, role, satisfied)
    ensures from != Removed && from != Rejected && from != Expired
    ensures from == Active ==>
              role in TEAM_MANAGERS && ({NotOwner, NotSelf} <= satisfied || NotLastManager in satisfied)
  {
  }

  lemma StepStaysManaged(roster: seq<Member>, event: Event)
    requires Managed(roster) && Enabled(roster, event)
    ensures Managed(Step(roster, event))
  {
    var next := Step(roster, event);
    match event
    case Join(_, _) =>
      var i :| ActiveManager(roster, i);
      assert ActiveManager(next, i);
    case Move(actor, target, to, satisfied) =>
      MembershipMoves(roster[target].state, to, RoleOf(roster, actor), satisfied);
      if roster[target].state != Active {
        var i :| ActiveManager(roster, i);
        assert ActiveManager(next, i);
      } else if NotLastManager in satisfied {
        var j :| j != target && ActiveManager(roster, j);
        assert ActiveManager(next, j);
      } else {
        assert ActiveManager(next, actor.member);
      }
  }

  /** A team with an active owner or admin keeps one, whoever of its active managers does
      what in which order, and however many members join. */
  lemma {:induction false} TeamStaysManaged(roster: seq<Member>, events: seq<Event>)
    requires Managed(roster) && Possible(roster, events)
    ensures Managed(Run(roster, events))
    decreases |events|
  {
    if events != [] {
      StepStaysManaged(roster, events[0]);
      TeamStaysManaged(Step(roster, events[0]), events[1..]);
    }
  }

  /** The last manager goes, in a step the table permits, exactly when a manager who is not
      active suspends the only active one, an admin. */
  lemma LosesLastManager(roster: seq<Member>, event: Event)
    requires Managed(roster) && Permitted(roster, event)
    ensures !Managed(Step(roster, event)) <==>
            && event.Move?
            && event.to == Suspended
            && event.actor.Insider?
            && ActiveManager(roster, event.target)
            && (forall j :: ActiveManager(roster, j) ==> j == event.target)
            && roster[event.actor.member].state != Active
  {
    if Enabled(roster, event) {
      StepStaysManaged(roster, event);
    } else {
      MembershipMoves(roster[event.target].state, event.to, RoleOf(roster, event.actor), event.satisfied);
      var next := Step(roster, event);
      if j :| ActiveManager(roster, j) && (j != event.target || event.to == Active) {
        assert ActiveManager(next, j);
      } else {
        forall j
          ensures !ActiveManager(next, j)
        {
          assert ActiveManager(next, j) ==> ActiveManager(roster, j);
        }
      }
    }
  }

  /** That does happen: a suspended owner suspends the only active admin. */
  lemma SuspendedOwnerLosesLast()
    ensures var roster := [Member(TeamAdmin, Active), Member(TeamOwner, Suspended)];
            var event := Move(Insider(1), 0, Suspended, {NotOwner, NotSelf});
            Managed(roster) && Permitted(roster, event) && !Managed(Step(roster, event))
  {
    var roster := [Member(TeamAdmin, Active), Member(TeamOwner, Suspended)];
    var event := Move(Insider(1), 0, Suspended, {NotOwner, NotSelf});
    assert ActiveManager(roster, 0);
    assert Allows(MEMBERSHIP_TABLE[4], Active, Suspended, TeamOwner, event.satisfied);
    assert Permitted(roster, event);
    LosesLastManager(roster, event);
  }

  /** Removed, rejected and expired memberships stay so for ever. */
  lemma {:induction false} ClosedMembershipsStay(roster: seq<Member>, events: seq<Event>, i: nat)
    requires Possible(roster, events) && i < |roster|
    requires roster[i].state == Removed || roster[i].state == Rejected || roster[i].state == Expired
    ensures i < |Run(roster, events)| && Run(roster, events)[i] == roster[i]
    decreases |events|
  {
    if events != [] {
      if events[0].Move? {
        MembershipMoves(roster[events[0].target].state, events[0].to,
                        RoleOf(roster, events[0].actor), events[0].satisfied);
      }
      ClosedMembershipsStay(Step(roster, events[0]), events[1..], i);
    }
  }

  /** Nobody leaves the roster or changes roles, whatever their memberships go through. */
  lemma {:induction false} RolesStay(roster: seq<Member>, events: seq<Event>, i: nat)
    requires Possible(roster, events) && i < |roster|
    ensures i < |Run(roster, events)| && Run(roster, events)[i].role == roster[i].role
    decreases |events|
  {
    if events != [] {
      RolesStay(Step(roster, events[0]), events[1..], i);
    }
  }

  /** Exactly who may move a membership, and what must hold. */
  lemma MembershipRules(from: MembershipState, to: MembershipState, role: Role, satisfied: set<Guard>)
    ensures CanTransition(MEMBERSHIP_TABLE, from, to, role, satisfied) <==>
              match from
              case Requested =>
                role in {TeamOwner, TeamAdmin} &&
                ((to == Active && ScopeApproved in satisfied) || (to == Rejected && ReasonRecorded in satisfied))
              case Invited =>
                (to == Active && role == Individual && InviteValid in satisfied) ||
                (to == Expired && role == PlatformOps && DeadlinePassed in satisfied)
              case Active =>
                role in {TeamOwner, TeamAdmin} &&
                ((to == Suspended && NotOwner in satisfied && NotSelf in satisfied) ||
                 (to == Removed && NotLastManager in satisfied && ActiveWorkTransferred in satisfied))
              case Suspended => to == Active && role in {TeamOwner, TeamAdmin} && RestoreConfirmed in satisfied
              case _ => false
  {
    if CanTransition(MEMBERSHIP_TABLE, from, to, role, satisfied) {
      var i :| 0 <= i < |MEMBERSHIP_TABLE| && Allows(MEMBERSHIP_TABLE[i], from, to, role, satisfied);
      assert i == 0 || i == 1 || i == 2 || i == 3 || i == 4 || i == 5 || i == 6;
    }
    if from == Requested && to == Active && role in TEAM_MANAGERS && ScopeApproved in satisfied {
      assert Allows(MEMBERSHIP_TABLE[0], from, to, role, satisfied);
    }
    if from == Requested && to == Rejected && role in TEAM_MANAGERS && ReasonRecorded in satisfied {
      assert Allows(MEMBERSHIP_TABLE[1], from, to, role, satisfied);
    }
    if from == Invited && to == Active && role == Individual && InviteValid in satisfied {
      assert Allows(MEMBERSHIP_TABLE[2], from, to, role, satisfied);
    }
    if from == Invited && to == Expired && role == PlatformOps && DeadlinePassed in satisfied {
      assert Allows(MEMBERSHIP_TABLE[3], from, to, role, satisfied);
    }
    if from == Active && to == Suspended && role in TEAM_MANAGERS && {NotOwner, NotSelf} <= satisfied {
      assert Allows(MEMBERSHIP_TABLE[4], from, to, role, satisfied);
    }
    if from == Suspended && to == Active && role in TEAM_MANAGERS && RestoreConfirmed in satisfied {
      assert Allows(MEMBERSHIP_TABLE[5], from, to, role, satisfied);
    }
    if from == Active && to == Removed && role in TEAM_MANAGERS &&
       {NotLastManager, ActiveWorkTransferred} <= satisfied {
      assert Allows(MEMBERSHIP_TABLE[6], from, to, role, satisfied);
    }
  }
}
