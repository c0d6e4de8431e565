/** Every address that the legacy table lists resolves to its own entry: no two entries have
    one source, and every source is in its normal form. */
module LegacyFinds {
  import opened Text
  import opened RoutePaths
  import opened LegacyRoutes
  import opened LegacyTable

  /** The place of a listed source in the table. Its length and one or two of its characters
      tell it from all others. */
  function Place(s: string): nat {
    if |s| == 4 then (if s[2] == 'r' then 22 else 61)
    else if |s| == 6 then 0
    else if |s| == 7 then 1
    else if |s| == 8 then 62
    else if |s| == 9 then (if s[1] == 'o' then 53 else 57)
    else if |s| == 10 then 51
    else if |s| == 11 then (if s[6] == 'n' then 24 else if s[6] == 'r' then 25
         else if s[6] == 'i' then 49 else if s[6] == 'm' then 50 else 69)
    else if |s| == 12 then (if s[5] == 'f' then 48 else if s[5] == 'm' then 52
         else if s[5] == 'r' then 55 else 68)
    else if |s| == 13 then (if s[5] == 'e' then (if s[8] == 't' then 5 else 20)
         else if s[5] == 's' then (if s[2] == 'r' then 56 else 70)
         else if s[5] == 'd' then 66 else 67)
    else if |s| == 14 then (if s[5] == 'a' then 27 else if s[5] == 'r' then 45
         else if s[5] == 'd' then 46 else 47)
    else if |s| == 15 then (if s[2] == 'o' then 2 else if s[2] == 'r' then 23 else 64)
    else if |s| == 16 then (if s[8] == 'p' then 11 else if s[8] == 's' then 14 else 44)
    else if |s| == 17 then (if s[8] == 'd' then 7 else if s[8] == 'c' then 10
         else if s[8] == 'p' then 18 else if s[8] == 'i' then 54 else 63)
    else if |s| == 18 then 13
    else if |s| == 19 then (if s[8] == 'e' then 4 else if s[8] == 'i' then 21 else 26)
    else if |s| == 20 then 3
    else if |s| == 21 then (if s[9] == 'i' then 12 else if s[9] == 'p' then 15
         else if s[9] == 'e' then 17 else 19)
    else if |s| == 22 then (if s[2] == 'r' then 28 else 65)
    else if |s| == 23 then (if s[1] == 'a' then 6 else 8)
    else if |s| == 26 then (if s[8] == 's' then 9 else 16)
    else if |s| == 28 then 37
    else if |s| == 29 then (if s[23] == 'r' then 34 else 40)
    else if |s| == 30 then (if s[23] == 'e' then 31 else if s[23] == 'c' then 33
         else if s[23] == 'f' then 39 else 43)
    else if |s| == 31 then (if s[23] == 't' then 30 else if s[23] == 'd' then 35 else 36)
    else if |s| == 32 then (if s[23] == 'p' then 32 else 41)
    else if |s| == 33 then 29
    else if |s| == 34 then 59
    else if |s| == 35 then (if s[1] == 'o' then 38 else 60)
    else if |s| == 36 then 42
    else if |s| == 37 then 58
    else 71
  }

  /** In its normal form. */
  predicate Clean(s: string) {
    |s| > 1 && '?' !in s && '#' !in s && s[|s| - 1] != '/'
  }

  /** The entries have the places from `first` on, in order. */
  ghost predicate Placed(table: seq<Entry>, first: nat) {
    forall i :: 0 <= i < |table| ==> Place(table[i].source) == first + i
  }

  /** And their sources are in their normal form. */
  ghost predicate Numbered(table: seq<Entry>, first: nat) {
    Placed(table, first) && forall e :: e in table ==> Clean(e.source)
  }

  lemma NumberedParts(front: seq<Entry>, back: seq<Entry>, first: nat)
    requires Numbered(front, first) && Numbered(back, first + |front|)
    ensures Numbered(front + back, first)
  {
  }

  lemma CleanStays(s: string, suffix: string)
    requires Clean(s) && IsSuffix(suffix)
    ensures NormalizeRoutePath(s + suffix) == s
  {
    NormalizedSuffix(s, suffix);
    BareStays(s);
    StripStays(s, '/');
  }

  lemma NumberedIsFound(table: seq<Entry>, first: nat, e: Entry, suffix: string, ids: seq<string>)
    requires Numbered(table, first) && e in table && IsSuffix(suffix)
    ensures Resolve(e.source + suffix, table, ids) == Some(e)
  {
    var i :| 0 <= i < |table| && table[i] == e;
    CleanStays(e.source, suffix);
    var found := Find(table, e.source);
    assert found.Some?;
    var j :| 0 <= j < |table| && table[j] == found.value;
    assert Place(table[j].source) == Place(table[i].source);
  }

  /** Parts of a source that have no query, fragment or slash at the end. */
  lemma CleanParts(front: string, back: string)
    requires '?' !in front && '#' !in front && Clean(back)
    ensures Clean(front + back)
  {
  }

  // ----- A few sources at a time -----

  lemma SamplePathIsClean()
    ensures '?' !in SAMPLE_PATH && '#' !in SAMPLE_PATH
  {
  }

  lemma SolverHomeClean()
    ensures Clean("/trust") && Clean("/solver") && Clean("/solver/profile")
  {
  }

  lemma SolverTeamsClean()
    ensures Clean("/solver/verification")
  {
  }

  lemma SolverTeamsMoreClean()
    ensures Clean("/solver/eligibility") && Clean("/solver/teams")
  {
  }

  lemma SolverWorkClean()
    ensures Clean("/app/solver/invitations")
  {
  }

  lemma SolverWorkMoreClean()
    ensures Clean("/solver/data-room")
  {
  }

  lemma SolverSubmissionsClean()
    ensures Clean("/solver/submissions/new")
  {
  }

  lemma SolverSubmissionsMoreClean()
    ensures Clean("/solver/submissions/sample")
  {
  }

  lemma SolverSubmissionsOtherClean()
    ensures Clean("/solver/contracts")
  {
  }

  lemma SolverCasesClean()
    ensures Clean("/solver/payments")
  {
  }

  lemma SolverCasesMoreClean()
    ensures Clean("/solver/pilots/sample")
  {
  }

  lemma SolverReputationClean()
    ensures Clean("/solver/reputation") && Clean("/solver/settings")
  {
  }

  lemma SolverReputationMoreClean()
    ensures Clean("/solver/opportunities")
  {
  }

  lemma SolverListsClean()
    ensures Clean("/solver/received-proposals")
  {
  }

  lemma SolverListsMoreClean()
    ensures Clean("/solver/team-building")
  {
  }

  lemma SolverListsOtherClean()
    ensures Clean("/solver/proposals")
  {
  }

  lemma SolverSavedClean()
    ensures Clean("/solver/proposals/new") && Clean("/solver/saved")
  {
  }

  lemma SolverSavedMoreClean()
    ensures Clean("/solver/invitations")
  {
  }

  lemma OrgHomeClean()
    ensures Clean("/org") && Clean("/org/challenges") && Clean("/org/intake")
  {
  }

  lemma OrgIntakeClean()
    ensures Clean("/org/triage") && Clean("/org/challenges/new")
  {
  }

  lemma OrgIntakeMoreClean()
    ensures Clean("/org/approvals")
  {
  }

  lemma SampleHomeClean()
    ensures Clean("/org/challenges/sample") && Clean("/operations")
  {
  }

  lemma SampleRecordClean()
    ensures Clean("/timeline") && Clean("/experts") && Clean("/proposals")
  {
  }

  lemma SampleDecisionClean()
    ensures Clean("/compare") && Clean("/review") && Clean("/decision") && Clean("/contract")
  {
  }

  lemma SampleDecisionMoreClean()
    ensures Clean("/pilot")
  {
  }

  lemma SampleOutcomeClean()
    ensures Clean("/deliverables") && Clean("/finance") && Clean("/impact")
  {
  }

  lemma SampleOutcomeMoreClean()
    ensures Clean("/documents") && Clean("/conversations") && Clean("/history")
  {
  }

  lemma OrgListsClean()
    ensures Clean("/org/submissions") && Clean("/org/reviewers")
  {
  }

  lemma OrgListsMoreClean()
    ensures Clean("/org/decisions")
  {
  }

  lemma OrgMoneyClean()
    ensures Clean("/org/contracts") && Clean("/org/finance")
  {
  }

  lemma OrgReviewClean()
    ensures Clean("/org/pilots") && Clean("/org/impact") && Clean("/org/audit")
  {
  }

  lemma OrgReviewMoreClean()
    ensures Clean("/org/members")
  {
  }

  lemma OrgSettingsClean()
    ensures Clean("/org/team") && Clean("/org/verification")
  {
  }

  lemma OrgSettingsMoreClean()
    ensures Clean("/org/reports") && Clean("/org/settings")
  {
  }

  lemma ReviewerClean()
    ensures Clean("/reviewer")
  {
  }

  lemma ReviewerMoreClean()
    ensures Clean("/reviewer/assignments/RV-204/conflict")
  {
  }

  lemma ReviewerOtherClean()
    ensures Clean("/reviewer/assignments/RV-204/score")
  {
  }

  lemma ReviewerLastClean()
    ensures Clean("/reviewer/assignments/RV-204/submit")
  {
  }

  lemma OpsQueuesClean()
    ensures Clean("/ops") && Clean("/ops/kyc") && Clean("/ops/quality-gate")
  {
  }

  lemma OpsChecksClean()
    ensures Clean("/ops/moderation")
  {
  }

  lemma OpsChecksMoreClean()
    ensures Clean("/ops/review-monitoring")
  {
  }

  lemma OpsRestClean()
    ensures Clean("/ops/disputes") && Clean("/ops/payments")
  {
  }

  lemma OpsSupportClean()
    ensures Clean("/ops/support") && Clean("/ops/system") && Clean("/ops/settings")
  {
  }

  // ----- The groups of the table -----

  lemma SolverHomePlaced()
    ensures Placed(SOLVER_HOME, 0)
  {
  }

  lemma SolverHomeNumbered()
    ensures Numbered(SOLVER_HOME, 0)
  {
    SolverHomePlaced();
    SolverHomeClean();
  }

  lemma SolverTeamsPlaced()
    ensures Placed(SOLVER_TEAMS, 3)
  {
  }

  lemma SolverTeamsNumbered()
    ensures Numbered(SOLVER_TEAMS, 3)
  {
    SolverTeamsPlaced();
    SolverTeamsClean();
    SolverTeamsMoreClean();
  }

  lemma SolverWorkPlaced()
    ensures Placed(SOLVER_WORK, 6)
  {
  }

  lemma SolverWorkNumbered()
    ensures Numbered(SOLVER_WORK, 6)
  {
    SolverWorkPlaced();
    SolverWorkClean();
    SolverWorkMoreClean();
  }

  lemma SolverSubmissionsPlaced()
    ensures Placed(SOLVER_SUBMISSIONS, 8)
  {
  }

  lemma SolverSubmissionsNumbered()
    ensures Numbered(SOLVER_SUBMISSIONS, 8)
  {
    SolverSubmissionsPlaced();
    SolverSubmissionsClean();
    SolverSubmissionsMoreClean();
    SolverSubmissionsOtherClean();
  }

  lemma SolverCasesPlaced()
    ensures Placed(SOLVER_CASES, 11)
  {
  }

  lemma SolverCasesNumbered()
    ensures Numbered(SOLVER_CASES, 11)
  {
    SolverCasesPlaced();
    SolverCasesClean();
    SolverCasesMoreClean();
  }

  lemma SolverReputationPlaced()
    ensures Placed(SOLVER_REPUTATION, 13)
  {
  }

  lemma SolverReputationNumbered()
    ensures Numbered(SOLVER_REPUTATION, 13)
  {
    SolverReputationPlaced();
    SolverReputationClean();
    SolverReputationMoreClean();
  }

  lemma SolverListsPlaced()
    ensures Placed(SOLVER_LISTS, 16)
  {
  }

  lemma SolverListsNumbered()
    ensures Numbered(SOLVER_LISTS, 16)
  {
    SolverListsPlaced();
    SolverListsClean();
    SolverListsMoreClean();
    SolverListsOtherClean();
  }

  lemma SolverSavedPlaced()
    ensures Placed(SOLVER_SAVED, 19)
  {
  }

  lemma SolverSavedNumbered()
    ensures Numbered(SOLVER_SAVED, 19)
  {
    SolverSavedPlaced();
    SolverSavedClean();
    SolverSavedMoreClean();
  }

  lemma OrgHomePlaced()
    ensures Placed(ORG_HOME, 22)
  {
  }

  lemma OrgHomeNumbered()
    ensures Numbered(ORG_HOME, 22)
  {
    OrgHomePlaced();
    OrgHomeClean();
  }

  lemma OrgIntakePlaced()
    ensures Placed(ORG_INTAKE, 25)
  {
  }

  lemma OrgIntakeNumbered()
    ensures Numbered(ORG_INTAKE, 25)
  {
    OrgIntakePlaced();
    OrgIntakeClean();
    OrgIntakeMoreClean();
  }

  lemma SampleHomePlaced()
    ensures Placed(SAMPLE_HOME, 28)
  {
  }

  lemma SampleHomeNumbered()
    ensures Numbered(SAMPLE_HOME, 28)
  {
    SampleHomePlaced();
    SampleHomeClean();
    SamplePathIsClean();
    CleanParts(SAMPLE_PATH, "/operations");
  }

  lemma SampleRecordPlaced()
    ensures Placed(SAMPLE_RECORD, 30)
  {
  }

  lemma SampleRecordNumbered()
    ensures Numbered(SAMPLE_RECORD, 30)
  {
    SampleRecordPlaced();
    SampleRecordClean();
    SamplePathIsClean();
    CleanParts(SAMPLE_PATH, "/timeline");
    CleanParts(SAMPLE_PATH, "/experts");
    CleanParts(SAMPLE_PATH, "/proposals");
  }

  lemma SampleDecisionPlaced()
    ensures Placed(SAMPLE_DECISION, 33)
  {
  }

  lemma SampleDecisionNumbered()
    ensures Numbered(SAMPLE_DECISION, 33)
  {
    SampleDecisionPlaced();
    SampleDecisionClean();
    SampleDecisionMoreClean();
    SamplePathIsClean();
    CleanParts(SAMPLE_PATH, "/compare");
    CleanParts(SAMPLE_PATH, "/review");
    CleanParts(SAMPLE_PATH, "/decision");
    CleanParts(SAMPLE_PATH, "/contract");
    CleanParts(SAMPLE_PATH, "/pilot");
  }

  lemma SampleOutcomePlaced()
    ensures Placed(SAMPLE_OUTCOME, 38)
  {
  }

  lemma SampleOutcomeNumbered()
    ensures Numbered(SAMPLE_OUTCOME, 38)
  {
    SampleOutcomePlaced();
    SampleOutcomeClean();
    SampleOutcomeMoreClean();
    SamplePathIsClean();
    CleanParts(SAMPLE_PATH, "/deliverables");
    CleanParts(SAMPLE_PATH, "/finance");
    CleanParts(SAMPLE_PATH, "/impact");
    CleanParts(SAMPLE_PATH, "/documents");
    CleanParts(SAMPLE_PATH, "/conversations");
    CleanParts(SAMPLE_PATH, "/history");
  }

  lemma OrgListsPlaced()
    ensures Placed(ORG_LISTS, 44)
  {
  }

  lemma OrgListsNumbered()
    ensures Numbered(ORG_LISTS, 44)
  {
    OrgListsPlaced();
    OrgListsClean();
    OrgListsMoreClean();
  }

  lemma OrgMoneyPlaced()
    ensures Placed(ORG_MONEY, 47)
  {
  }

  lemma OrgMoneyNumbered()
    ensures Numbered(ORG_MONEY, 47)
  {
    OrgMoneyPlaced();
    OrgMoneyClean();
  }

  lemma OrgReviewPlaced()
    ensures Placed(ORG_REVIEW, 49)
  {
  }

  lemma OrgReviewNumbered()
    ensures Numbered(ORG_REVIEW, 49)
  {
    OrgReviewPlaced();
    OrgReviewClean();
    OrgReviewMoreClean();
  }

  lemma OrgSettingsPlaced()
    ensures Placed(ORG_SETTINGS, 53)
  {
  }

  lemma OrgSettingsNumbered()
    ensures Numbered(ORG_SETTINGS, 53)
  {
    OrgSettingsPlaced();
    OrgSettingsClean();
    OrgSettingsMoreClean();
  }

  lemma ReviewerPlaced()
    ensures Placed(REVIEWER, 57)
  {
  }

  lemma ReviewerNumbered()
    ensures Numbered(REVIEWER, 57)
  {
    ReviewerPlaced();
    ReviewerClean();
    ReviewerMoreClean();
    ReviewerOtherClean();
    ReviewerLastClean();
  }

  lemma OpsQueuesPlaced()
    ensures Placed(OPS_QUEUES, 61)
  {
  }

  lemma OpsQueuesNumbered()
    ensures Numbered(OPS_QUEUES, 61)
  {
    OpsQueuesPlaced();
    OpsQueuesClean();
  }

  lemma OpsChecksPlaced()
    ensures Placed(OPS_CHECKS, 64)
  {
  }

  lemma OpsChecksNumbered()
    ensures Numbered(OPS_CHECKS, 64)
  {
    OpsChecksPlaced();
    OpsChecksClean();
    OpsChecksMoreClean();
  }

  lemma OpsRestPlaced()
    ensures Placed(OPS_REST, 66)
  {
  }

  lemma OpsRestNumbered()
    ensures Numbered(OPS_REST, 66)
  {
    OpsRestPlaced();
    OpsRestClean();
  }

  lemma OpsSupportPlaced()
    ensures Placed(OPS_SUPPORT, 68)
  {
  }

  lemma OpsSupportNumbered()
    ensures Numbered(OPS_SUPPORT, 68)
  {
    OpsSupportPlaced();
    OpsSupportClean();
  }

  function SolverPart(rest: seq<Entry>): seq<Entry> {
    SOLVER_HOME + (SOLVER_TEAMS + (SOLVER_WORK + (SOLVER_SUBMISSIONS + (SOLVER_CASES + (SOLVER_REPUTATION + (
    SOLVER_LISTS + (SOLVER_SAVED + rest)))))))
  }

  lemma SolverPartNumbered(rest: seq<Entry>)
    requires Numbered(rest, 22)
    ensures Numbered(SolverPart(rest), 0)
  {
    var all := rest;
    SolverSavedNumbered();
    NumberedParts(SOLVER_SAVED, all, 19);
    all := SOLVER_SAVED + all;
    SolverListsNumbered();
    NumberedParts(SOLVER_LISTS, all, 16);
    all := SOLVER_LISTS + all;
    SolverReputationNumbered();
    NumberedParts(SOLVER_REPUTATION, all, 13);
    all := SOLVER_REPUTATION + all;
    SolverCasesNumbered();
    NumberedParts(SOLVER_CASES, all, 11);
    all := SOLVER_CASES + all;
    SolverSubmissionsNumbered();
    NumberedParts(SOLVER_SUBMISSIONS, all, 8);
    all := SOLVER_SUBMISSIONS + all;
    SolverWorkNumbered();
    NumberedParts(SOLVER_WORK, all, 6);
    all := SOLVER_WORK + all;
    SolverTeamsNumbered();
    NumberedParts(SOLVER_TEAMS, all, 3);
    all := SOLVER_TEAMS + all;
    SolverHomeNumbered();
    NumberedParts(SOLVER_HOME, all, 0);
    all := SOLVER_HOME + all;
  }

  function IntakePart(rest: seq<Entry>): seq<Entry> {
    ORG_HOME + (ORG_INTAKE + rest)
  }

  lemma IntakePartNumbered(rest: seq<Entry>)
    requires Numbered(rest, 28)
    ensures Numbered(IntakePart(rest), 22)
  {
    var all := rest;
    OrgIntakeNumbered();
    NumberedParts(ORG_INTAKE, all, 25);
    all := ORG_INTAKE + all;
    OrgHomeNumbered();
    NumberedParts(ORG_HOME, all, 22);
    all := ORG_HOME + all;
  }

  function SamplePart(rest: seq<Entry>): seq<Entry> {
    SAMPLE_HOME + (SAMPLE_RECORD + (SAMPLE_DECISION + (SAMPLE_OUTCOME + rest)))
  }

  lemma SamplePartNumbered(rest: seq<Entry>)
    requires Numbered(rest, 44)
    ensures Numbered(SamplePart(rest), 28)
  {
    var all := rest;
    SampleOutcomeNumbered();
    NumberedParts(SAMPLE_OUTCOME, all, 38);
    all := SAMPLE_OUTCOME + all;
    SampleDecisionNumbered();
    NumberedParts(SAMPLE_DECISION, all, 33);
    all := SAMPLE_DECISION + all;
    SampleRecordNumbered();
    NumberedParts(SAMPLE_RECORD, all, 30);
    all := SAMPLE_RECORD + all;
    SampleHomeNumbered();
    NumberedParts(SAMPLE_HOME, all, 28);
    all := SAMPLE_HOME + all;
  }

  function OrgPart(rest: seq<Entry>): seq<Entry> {
    ORG_LISTS + (ORG_MONEY + (ORG_REVIEW + (ORG_SETTINGS + rest)))
  }

  lemma OrgPartNumbered(rest: seq<Entry>)
    requires Numbered(rest, 57)
    ensures Numbered(OrgPart(rest), 44)
  {
    var all := rest;
    OrgSettingsNumbered();
    NumberedParts(ORG_SETTINGS, all, 53);
    all := ORG_SETTINGS + all;
    OrgReviewNumbered();
    NumberedParts(ORG_REVIEW, all, 49);
    all := ORG_REVIEW + all;
    OrgMoneyNumbered();
    NumberedParts(ORG_MONEY, all, 47);
    all := ORG_MONEY + all;
    OrgListsNumbered();
    NumberedParts(ORG_LISTS, all, 44);
    all := ORG_LISTS + all;
  }

  function OpsPart(): seq<Entry> {
    REVIEWER + (OPS_QUEUES + (OPS_CHECKS + (OPS_REST + OPS_SUPPORT)))
  }

  lemma OpsPartNumbered()
    ensures Numbered(OpsPart(), 57)
  {
    OpsSupportNumbered();
    var all := OPS_SUPPORT;
    OpsRestNumbered();
    NumberedParts(OPS_REST, all, 66);
    all := OPS_REST + all;
    OpsChecksNumbered();
    NumberedParts(OPS_CHECKS, all, 64);
    all := OPS_CHECKS + all;
    OpsQueuesNumbered();
    NumberedParts(OPS_QUEUES, all, 61);
    all := OPS_QUEUES + all;
    ReviewerNumbered();
    NumberedParts(REVIEWER, all, 57);
    all := REVIEWER + all;
  }

  lemma EntriesNumbered()
    ensures Numbered(Entries(), 0)
  {
    OpsPartNumbered();
    OrgPartNumbered(OpsPart());
    SamplePartNumbered(OrgPart(OpsPart()));
    IntakePartNumbered(SamplePart(OrgPart(OpsPart())));
    SolverPartNumbered(IntakePart(SamplePart(OrgPart(OpsPart()))));
  }

  /** All seventy-one, with any query or fragment behind them and whatever cases there are. */
  lemma EveryEntryIsFound(e: Entry, suffix: string, ids: seq<string>)
    requires e in Entries() && IsSuffix(suffix)
    ensures Resolve(e.source + suffix, Entries(), ids) == Some(e)
  {
    EntriesNumbered();
    NumberedIsFound(Entries(), 0, e, suffix, ids);
  }
}
