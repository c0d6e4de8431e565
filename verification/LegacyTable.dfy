/** The table of legacy addresses of data/legacy-redirects.ts. */
module LegacyTable {
  import opened Text
  import opened LegacyRoutes

  const SAMPLE_PATH := "/org/challenges/sample"
  const CASE_PATH := "/app/org/challenges/CH-1405-021"
  const CASES := "/app/org/challenges"
  const SUBMISSIONS := "/solver/submissions"
  const PROPOSALS := "/app/solver/proposals"
  const PILOTS := "/solver/pilots"

  /** An address that has only moved into the application. */
  function Moved(path: string): Entry {
    Redirect(path, "/app" + path)
  }

  /** A view of the sample case, and the view of the case that stands in for it. */
  function SampleCase(view: string, caseView: string): Entry {
    Redirect(SAMPLE_PATH + view, CASE_PATH + caseView)
  }

  const SOLVER_HOME: seq<Entry> := [
    Redirect("/trust", "/trust-security"),
    Redirect("/solver", "/app/solver/dashboard"),
    Moved("/solver/profile")
  ]

  const SOLVER_TEAMS: seq<Entry> := [
    Moved("/solver/verification"),
    Unavailable("/solver/eligibility", "/app/solver/opportunities"),
    Moved("/solver/teams")
  ]

  const SOLVER_WORK: seq<Entry> := [
    Redirect("/app/solver/invitations", "/app/solver/teams"),
    Unavailable("/solver/data-room", PROPOSALS)
  ]

  const SOLVER_SUBMISSIONS: seq<Entry> := [
    Redirect(SUBMISSIONS + "/new", PROPOSALS + "/new"),
    Redirect(SUBMISSIONS + "/sample", PROPOSALS + "/PR-104/preview"),
    Unavailable("/solver/contracts", PROPOSALS)
  ]

  const SOLVER_CASES: seq<Entry> := [
    Moved("/solver/payments"),
    Redirect(PILOTS + "/sample", "/app/solver/pilots" + "/PIL-021")
  ]

  const SOLVER_REPUTATION: seq<Entry> := [
    Unavailable("/solver/reputation", "/app/solver/profile"),
    Moved("/solver/settings"),
    Moved("/solver/opportunities")
  ]

  const SOLVER_LISTS: seq<Entry> := [
    Moved("/solver/received-proposals"),
    Moved("/solver/team-building"),
    Moved("/solver/proposals")
  ]

  const SOLVER_SAVED: seq<Entry> := [
    Moved("/solver/proposals/new"),
    Moved("/solver/saved"),
    Moved("/solver/invitations")
  ]

  const ORG_HOME: seq<Entry> := [
    Redirect("/org", "/app/org/dashboard"),
    Moved("/org/challenges"),
    Redirect("/org/intake", "/app/org/challenges/new")
  ]

  const ORG_INTAKE: seq<Entry> := [
    Redirect("/org/triage", CASES + "/triage"),
    Moved("/org/challenges/new"),
    Unavailable("/org/approvals", CASES)
  ]

  const SAMPLE_HOME: seq<Entry> := [
    SAMPLE_ENTRY,
    Unavailable(SAMPLE_PATH + "/operations", CASE_PATH + "/overview")
  ]

  const SAMPLE_RECORD: seq<Entry> := [
    SampleCase("/timeline", "/timeline"),
    SampleCase("/experts", "/experts"),
    SampleCase("/proposals", "/proposals")
  ]

  const SAMPLE_DECISION: seq<Entry> := [
    SampleCase("/compare", "/proposals/compare"),
    SampleCase("/review", "/review"),
    SampleCase("/decision", "/decision"),
    SampleCase("/contract", "/contract"),
    SampleCase("/pilot", "/pilot")
  ]

  const SAMPLE_OUTCOME: seq<Entry> := [
    SampleCase("/deliverables", "/deliverables"),
    SampleCase("/finance", "/finance"),
    SampleCase("/impact", "/impact"),
    SampleCase("/documents", "/documents"),
    SampleCase("/conversations", "/conversations"),
    SampleCase("/history", "/history")
  ]

  const ORG_LISTS: seq<Entry> := [
    Redirect("/org/submissions", "/app/org/proposals"),
    Unavailable("/org/reviewers", CASES),
    Unavailable("/org/decisions", "/app/org/proposals")
  ]

  const ORG_MONEY: seq<Entry> := [
    Redirect("/org/contracts", "/app/org/contracts-payments"),
    Redirect("/org/finance", "/app/org/contracts-payments")
  ]

  const ORG_REVIEW: seq<Entry> := [
    Moved("/org/pilots"),
    Unavailable("/org/impact", "/app/org/pilots"),
    Unavailable("/org/audit", CASES),
    Redirect("/org/members", "/app/org/access")
  ]

  const ORG_SETTINGS: seq<Entry> := [
    Moved("/org/team"),
    Unavailable("/org/verification", "/app/org/profile"),
    Moved("/org/reports"),
    Moved("/org/settings")
  ]

  const REVIEWER: seq<Entry> := [
    Redirect("/reviewer", "/app/reviewer/assignments"),
    Moved("/reviewer/assignments/RV-204/conflict"),
    Moved("/reviewer/assignments/RV-204/score"),
    Moved("/reviewer/assignments/RV-204/submit")
  ]

  const OPS_QUEUES: seq<Entry> := [
    Redirect("/ops", "/app/ops/dashboard"),
    Redirect("/ops/kyc", "/app/ops/verification"),
    Redirect("/ops/quality-gate", "/app/ops/publication")
  ]

  const OPS_CHECKS: seq<Entry> := [
    Redirect("/ops/moderation", "/app/ops/violations"),
    Redirect("/ops/review-monitoring", "/app/ops/reviews")
  ]

  const OPS_REST: seq<Entry> := [
    Moved("/ops/disputes"),
    Moved("/ops/payments")
  ]

  const OPS_SUPPORT: seq<Entry> := [
    Unavailable("/ops/support", "/app/ops/queue"),
    Unavailable("/ops/system", "/app/ops/dashboard"),
    Moved("/ops/settings")
  ]

  function Entries(): seq<Entry> {
    SOLVER_HOME + (SOLVER_TEAMS + (SOLVER_WORK + (SOLVER_SUBMISSIONS + (SOLVER_CASES + (SOLVER_REPUTATION + (
    SOLVER_LISTS + (SOLVER_SAVED + (ORG_HOME + (ORG_INTAKE + (SAMPLE_HOME + (SAMPLE_RECORD + (
    SAMPLE_DECISION + (SAMPLE_OUTCOME + (ORG_LISTS + (ORG_MONEY + (ORG_REVIEW + (ORG_SETTINGS + (REVIEWER + (
    OPS_QUEUES + (OPS_CHECKS + (OPS_REST + OPS_SUPPORT)))))))))))))))))))))
  }

  lemma SamplePathShape()
    ensures |SAMPLE_PATH| == 22 && SAMPLE_PATH[1] == 'o'
    ensures SAMPLE_PATH[16] == 's' && SAMPLE_PATH[17] == 'a' && SAMPLE_PATH[18] == 'm'
    ensures SAMPLE_PATH[19] == 'p' && SAMPLE_PATH[20] == 'l' && SAMPLE_PATH[21] == 'e'
    ensures Inside(CASE_PATH) && |CASE_PATH| > 5 && CASE_PATH[5] == 'o'
  {
  }

  /** An address below the sample case, leading to one below the case, is in order. */
  lemma BelowSampleOrderly(e: Entry, sample: string, target: string)
    requires |sample| == 22 && sample[1] == 'o'
    requires sample[16] == 's' && sample[17] == 'a' && sample[18] == 'm' &&
             sample[19] == 'p' && sample[20] == 'l' && sample[21] == 'e'
    requires Inside(target) && |target| > 5 && target[5] == 'o'
    requires sample <= e.source && target <= Target(e) && 22 < |e.source| < 40 && e.source[22] == '/'
    ensures Orderly(e)
  {
    var s, t := e.source, Target(e);
    assert s[1] == sample[1] && s[16] == sample[16] && s[17] == sample[17] && s[18] == sample[18];
    assert s[19] == sample[19] && s[20] == sample[20] && s[21] == sample[21];
    assert t[0] == target[0] && t[1] == target[1] && t[2] == target[2] &&
           t[3] == target[3] && t[4] == target[4] && t[5] == target[5];
  }

  lemma SampleCaseOrderly(view: string, caseView: string)
    requires 0 < |view| < 17 && view[0] == '/'
    ensures Orderly(SampleCase(view, caseView))
    ensures Orderly(Unavailable(SAMPLE_PATH + view, CASE_PATH + caseView))
  {
    SamplePathShape();
    BelowSampleOrderly(SampleCase(view, caseView), SAMPLE_PATH, CASE_PATH);
    BelowSampleOrderly(Unavailable(SAMPLE_PATH + view, CASE_PATH + caseView), SAMPLE_PATH, CASE_PATH);
  }

  /** An address that has only moved is in order, but for the four that its first
      characters set apart. */
  lemma MovedOrderly(path: string)
    requires 3 < |path| < 40 && path[0] == '/' && path[1] != 'a' && path[1] != 't'
    requires path[1] == 's' && |path| > 8 ==> path[8] != 'i'
    requires |path| > 10 ==> path[5] != 'c' && path[5] != 'i'
    ensures Orderly(Moved(path))
  {
    var t := "/app" + path;
    assert t[0] == '/' && t[1] == 'a' && t[2] == 'p' && t[3] == 'p' && t[4] == path[0] && t[5] == path[1];
    assert |path| > 8 ==> t[12] == path[8];
  }

  // One entry at a time, where a group would be too much at once.

  lemma NewSubmissionOrderly()
    ensures Orderly(Redirect(SUBMISSIONS + "/new", PROPOSALS + "/new"))
  {
  }

  lemma SampleSubmissionOrderly()
    ensures Orderly(Redirect(SUBMISSIONS + "/sample", PROPOSALS + "/PR-104/preview"))
  {
  }

  lemma SolverContractsOrderly()
    ensures Orderly(Unavailable("/solver/contracts", PROPOSALS))
  {
  }

  lemma TriageOrderly()
    ensures Orderly(Redirect("/org/triage", CASES + "/triage"))
  {
  }

  lemma NewChallengeOrderly()
    ensures Orderly(Moved("/org/challenges/new"))
  {
  }

  lemma ApprovalsOrderly()
    ensures Orderly(Unavailable("/org/approvals", CASES))
  {
  }

  lemma EligibilityOrderly()
    ensures Orderly(Unavailable("/solver/eligibility", "/app/solver/opportunities"))
  {
  }

  lemma ChallengesOrderly()
    ensures Orderly(Moved("/org/challenges"))
  {
  }

  lemma IntakeOrderly()
    ensures Orderly(Redirect("/org/intake", "/app/org/challenges/new"))
  {
  }

  lemma OrgOrderly()
    ensures Orderly(Redirect("/org", "/app/org/dashboard"))
  {
  }

  lemma ImpactOrderly()
    ensures Orderly(Unavailable("/org/impact", "/app/org/pilots"))
  {
  }

  lemma AuditOrderly()
    ensures Orderly(Unavailable("/org/audit", CASES))
  {
  }

  lemma MembersOrderly()
    ensures Orderly(Redirect("/org/members", "/app/org/access"))
  {
  }

  lemma SolverInvitationsOrderly()
    ensures Orderly(Moved("/solver/invitations"))
  {
  }

  lemma AppInvitationsOrderly()
    ensures Orderly(Redirect("/app/solver/invitations", "/app/solver/teams"))
  {
  }

  lemma DataRoomOrderly()
    ensures Orderly(Unavailable("/solver/data-room", PROPOSALS))
  {
  }

  lemma SamplePilotOrderly()
    ensures Orderly(Redirect(PILOTS + "/sample", "/app/solver/pilots" + "/PIL-021"))
  {
  }

  // The groups.

  lemma SolverHomeOrderly()
    ensures forall e :: e in SOLVER_HOME ==> Orderly(e)
  {
    assert Orderly(Redirect("/trust", "/trust-security"));
    assert Orderly(Redirect("/solver", "/app/solver/dashboard"));
    MovedOrderly("/solver/profile");
  }

  lemma SolverTeamsOrderly()
    ensures forall e :: e in SOLVER_TEAMS ==> Orderly(e)
  {
    MovedOrderly("/solver/verification");
    EligibilityOrderly();
    MovedOrderly("/solver/teams");
  }

  lemma SolverWorkOrderly()
    ensures forall e :: e in SOLVER_WORK ==> Orderly(e)
  {
    AppInvitationsOrderly();
    DataRoomOrderly();
  }

  lemma SolverSubmissionsOrderly()
    ensures forall e :: e in SOLVER_SUBMISSIONS ==> Orderly(e)
  {
    NewSubmissionOrderly();
    SampleSubmissionOrderly();
    SolverContractsOrderly();
  }

  lemma SolverCasesOrderly()
    ensures forall e :: e in SOLVER_CASES ==> Orderly(e)
  {
    MovedOrderly("/solver/payments");
    SamplePilotOrderly();
  }

  lemma SolverReputationOrderly()
    ensures forall e :: e in SOLVER_REPUTATION ==> Orderly(e)
  {
    assert Orderly(Unavailable("/solver/reputation", "/app/solver/profile"));
    MovedOrderly("/solver/settings");
    MovedOrderly("/solver/opportunities");
  }

  lemma SolverListsOrderly()
    ensures forall e :: e in SOLVER_LISTS ==> Orderly(e)
  {
    MovedOrderly("/solver/received-proposals");
    MovedOrderly("/solver/team-building");
    MovedOrderly("/solver/proposals");
  }

  lemma SolverSavedOrderly()
    ensures forall e :: e in SOLVER_SAVED ==> Orderly(e)
  {
    MovedOrderly("/solver/proposals/new");
    MovedOrderly("/solver/saved");
    SolverInvitationsOrderly();
  }

  lemma OrgHomeOrderly()
    ensures forall e :: e in ORG_HOME ==> Orderly(e)
  {
    OrgOrderly();
    ChallengesOrderly();
    IntakeOrderly();
  }

  lemma OrgIntakeOrderly()
    ensures forall e :: e in ORG_INTAKE ==> Orderly(e)
  {
    TriageOrderly();
    NewChallengeOrderly();
    ApprovalsOrderly();
  }

  lemma SampleHomeOrderly()
    ensures forall e :: e in SAMPLE_HOME ==> Orderly(e)
  {
    assert Orderly(SAMPLE_ENTRY);
    SampleCaseOrderly("/operations", "/overview");
  }

  lemma SampleRecordOrderly()
    ensures forall e :: e in SAMPLE_RECORD ==> Orderly(e)
  {
    SampleCaseOrderly("/timeline", "/timeline");
    SampleCaseOrderly("/experts", "/experts");
    SampleCaseOrderly("/proposals", "/proposals");
  }

  lemma SampleDecisionOrderly()
    ensures forall e :: e in SAMPLE_DECISION ==> Orderly(e)
  {
    SampleCaseOrderly("/compare", "/proposals/compare");
    SampleCaseOrderly("/review", "/review");
    SampleCaseOrderly("/decision", "/decision");
    SampleCaseOrderly("/contract", "/contract");
    SampleCaseOrderly("/pilot", "/pilot");
  }

  lemma SampleOutcomeOrderly()
    ensures forall e :: e in SAMPLE_OUTCOME ==> Orderly(e)
  {
    SampleCaseOrderly("/deliverables", "/deliverables");
    SampleCaseOrderly("/finance", "/finance");
    SampleCaseOrderly("/impact", "/impact");
    SampleCaseOrderly("/documents", "/documents");
    SampleCaseOrderly("/conversations", "/conversations");
    SampleCaseOrderly("/history", "/history");
  }

  lemma OrgListsOrderly()
    ensures forall e :: e in ORG_LISTS ==> Orderly(e)
  {
    assert Orderly(Redirect("/org/submissions", "/app/org/proposals"));
    assert Orderly(Unavailable("/org/reviewers", CASES));
    assert Orderly(Unavailable("/org/decisions", "/app/org/proposals"));
  }

  lemma OrgMoneyOrderly()
    ensures forall e :: e in ORG_MONEY ==> Orderly(e)
  {
    assert Orderly(Redirect("/org/contracts", "/app/org/contracts-payments"));
    assert Orderly(Redirect("/org/finance", "/app/org/contracts-payments"));
  }

  lemma OrgReviewOrderly()
    ensures forall e :: e in ORG_REVIEW ==> Orderly(e)
  {
    MovedOrderly("/org/pilots");
    ImpactOrderly();
    AuditOrderly();
    MembersOrderly();
  }

  lemma OrgSettingsOrderly()
    ensures forall e :: e in ORG_SETTINGS ==> Orderly(e)
  {
    MovedOrderly("/org/team");
    assert Orderly(Unavailable("/org/verification", "/app/org/profile"));
    MovedOrderly("/org/reports");
    MovedOrderly("/org/settings");
  }

  lemma ReviewerOrderly()
    ensures forall e :: e in REVIEWER ==> Orderly(e)
  {
    assert Orderly(Redirect("/reviewer", "/app/reviewer/assignments"));
    MovedOrderly("/reviewer/assignments/RV-204/conflict");
    MovedOrderly("/reviewer/assignments/RV-204/score");
    MovedOrderly("/reviewer/assignments/RV-204/submit");
  }

  lemma OpsQueuesOrderly()
    ensures forall e :: e in OPS_QUEUES ==> Orderly(e)
  {
    assert Orderly(Redirect("/ops", "/app/ops/dashboard"));
    assert Orderly(Redirect("/ops/kyc", "/app/ops/verification"));
    assert Orderly(Redirect("/ops/quality-gate", "/app/ops/publication"));
  }

  lemma OpsChecksOrderly()
    ensures forall e :: e in OPS_CHECKS ==> Orderly(e)
  {
    assert Orderly(Redirect("/ops/moderation", "/app/ops/violations"));
    assert Orderly(Redirect("/ops/review-monitoring", "/app/ops/reviews"));
  }

  lemma OpsRestOrderly()
    ensures forall e :: e in OPS_REST ==> Orderly(e)
  {
    MovedOrderly("/ops/disputes");
    MovedOrderly("/ops/payments");
  }

  lemma OpsSupportOrderly()
    ensures forall e :: e in OPS_SUPPORT ==> Orderly(e)
  {
    assert Orderly(Unavailable("/ops/support", "/app/ops/queue"));
    assert Orderly(Unavailable("/ops/system", "/app/ops/dashboard"));
    MovedOrderly("/ops/settings");
  }

  lemma EntriesOrderly()
    ensures OrderlyTable(Entries())
  {
    SolverHomeOrderly();
    SolverTeamsOrderly();
    SolverWorkOrderly();
    SolverSubmissionsOrderly();
    SolverCasesOrderly();
    SolverReputationOrderly();
    SolverListsOrderly();
    SolverSavedOrderly();
    OrgHomeOrderly();
    OrgIntakeOrderly();
    SampleHomeOrderly();
    SampleRecordOrderly();
    SampleDecisionOrderly();
    SampleOutcomeOrderly();
    OrgListsOrderly();
    OrgMoneyOrderly();
    OrgReviewOrderly();
    OrgSettingsOrderly();
    ReviewerOrderly();
    OpsQueuesOrderly();
    OpsChecksOrderly();
    OpsRestOrderly();
    OpsSupportOrderly();
  }

  lemma SampleIsListed()
    ensures SAMPLE_ENTRY in Entries()
  {
    assert SAMPLE_ENTRY in SAMPLE_HOME;
  }

  /** From any address whatever, with any query or fragment carried along, the legacy
      redirects end after at most two hops. */
  lemma RedirectsEnd(paths: seq<string>, ids: seq<string>)
    requires paths != [] && forall i :: 0 <= i < |paths| - 1 ==> Hop(paths[i], paths[i + 1], Entries(), ids)
    ensures |paths| <= 3
  {
    EntriesOrderly();
    ChainIsShort(paths, Entries(), ids);
  }

  /** The link on an unavailable page never leads to another legacy address. */
  lemma UnavailableLeadsOn(path: string, ids: seq<string>)
    requires Resolve(path, Entries(), ids).Some? && Resolve(path, Entries(), ids).value.Unavailable?
    ensures Resolve(Resolve(path, Entries(), ids).value.nextRoute, Entries(), ids) == None
  {
    EntriesOrderly();
    NextRouteIsCurrent(path, Entries(), ids);
  }
}
