/** Single records of domain/state-machines.ts moving through their tables: invitations to
    respond, reviews, and verifications with their rounds of revision. */
module RecordLifecycles {
  import opened Transitions

  datatype InvitationState = Pending | InvitationAccepted | Declined | InvitationExpired | Cancelled

  datatype ReviewState = CoiGate | ReviewAccepted | ReviewDraft | ReviewSubmitted | Locked | Invalidated

  datatype VerificationState = NotStarted | Draft | Submitted | UnderReview | NeedsRevision | Verified | Rejected

  const INVITATION_TABLE: seq<Transition<InvitationState>> := [
    Transition(Pending, InvitationAccepted, SOLVER_MANAGERS, {NotExpired}, [OtherEffect]),
    Transition(Pending, Declined, SOLVER_MANAGERS, {ReasonRecorded}, [CloseInvitation]),
    Transition(Pending, InvitationExpired, {PlatformOps}, {DeadlinePassed}, [CloseInvitation]),
    Transition(Pending, Cancelled, {OrgMember}, {ReasonRecorded}, [CloseInvitation])
  ]

  const REVIEW_TABLE: seq<Transition<ReviewState>> := [
    Transition(CoiGate, ReviewAccepted, {PlatformReviewer}, {CoiClear}, [OtherEffect]),
    Transition(ReviewAccepted, ReviewDraft, {PlatformReviewer}, {MaterialsAuthorized}, [OtherEffect]),
    Transition(ReviewDraft, ReviewSubmitted, {PlatformReviewer}, {ScoresValid, RationaleValid},
      [OtherEffect, CreateReceipt]),
    Transition(ReviewSubmitted, Locked, {PlatformOps}, {ReceiptValid}, [OtherEffect]),
    Transition(Locked, Invalidated, {PlatformOps}, {ReasonRecorded}, [OtherEffect, OtherEffect])
  ]

  const VERIFICATION_TABLE: seq<Transition<VerificationState>> := [
    Transition(NotStarted, Draft, SOLVER_MANAGERS, {}, [OtherEffect]),
    Transition(Draft, Submitted, SOLVER_MANAGERS, {DocumentsValid}, [OtherEffect, CreateReceipt]),
    Transition(NeedsRevision, Submitted, SOLVER_MANAGERS, {DocumentsValid, RevisionAddressed},
      [OtherEffect, CreateReceipt]),
    Transition(Submitted, UnderReview, {PlatformOps}, {SubmissionLocked}, [OtherEffect]),
    Transition(UnderReview, Verified, {PlatformOps}, {EvidenceApproved}, [OtherEffect]),
    Transition(UnderReview, NeedsRevision, {PlatformOps}, {ReasonRecorded}, [OpenRevision]),
    Transition(UnderReview, Rejected, {PlatformOps}, {ReasonRecorded}, [OtherEffect])
  ]

  /** A move by the given row of a table. */
  datatype Move = Move(rule: nat, role: Role, satisfied: set<Guard>)

  predicate Enabled<S(==)>(table: seq<Transition<S>>, state: S, move: Move) {
    move.rule < |table| && Allows(table[move.rule], state, table[move.rule].to, move.role, move.satisfied)
  }

  ghost predicate Possible<S>(table: seq<Transition<S>>, state: S, moves: seq<Move>)
    decreases |moves|
  {
    moves != [] ==> Enabled(table, state, moves[0]) && Possible(table, table[moves[0].rule].to, moves[1..])
  }

  function Final<S(==)>(table: seq<Transition<S>>, state: S, moves: seq<Move>): S
    requires Possible(table, state, moves)
    decreases |moves|
  {
    if moves == [] then state else Final(table, table[moves[0].rule].to, moves[1..])
  }

  // ----- Machines that only go forward -----

  ghost predicate Ranked<S(!new)>(table: seq<Transition<S>>, rank: S -> nat) {
    forall i :: 0 <= i < |table| ==> rank(table[i].from) < rank(table[i].to)
  }

  /** A record whose rank every row raises moves no further than its rank does. */
  lemma {:induction false} RankBoundsMoves<S(!new)>(table: seq<Transition<S>>, rank: S -> nat,
                                          state: S, moves: seq<Move>)
    requires Ranked(table, rank) && Possible(table, state, moves)
    ensures rank(state) + |moves| <= rank(Final(table, state, moves))
    decreases |moves|
  {
    if moves != [] {
      RankBoundsMoves(table, rank, table[moves[0].rule].to, moves[1..]);
    }
  }

  function ReviewRank(state: ReviewState): (r: nat)
    ensures r <= 5
  {
    match state
    case CoiGate => 0
    case ReviewAccepted => 1
    case ReviewDraft => 2
    case ReviewSubmitted => 3
    case Locked => 4
    case Invalidated => 5
  }

  /** A review takes every step once and in order: after n moves it is in its n-th state. */
  lemma {:induction false} ReviewGoesForward(state: ReviewState, moves: seq<Move>)
    requires Possible(REVIEW_TABLE, state, moves)
    ensures ReviewRank(Final(REVIEW_TABLE, state, moves)) == ReviewRank(state) + |moves| <= 5
    decreases |moves|
  {
    if moves != [] {
      ReviewGoesForward(REVIEW_TABLE[moves[0].rule].to, moves[1..]);
    }
  }

  /** An invitation is answered or closed once and for all. */
  lemma InvitationIsDecidedOnce(moves: seq<Move>)
    requires Possible(INVITATION_TABLE, Pending, moves)
    ensures |moves| <= 1 && (Final(INVITATION_TABLE, Pending, moves) == Pending <==> moves == [])
  {
    var rank := (state: InvitationState) => if state == Pending then 0 else 1;
    RankBoundsMoves(INVITATION_TABLE, rank, Pending, moves);
  }

  // ----- Rounds of revision -----

  /** How often a run orders the side effect. */
  function Ordered(state: VerificationState, moves: seq<Move>, sideEffect: SideEffect): nat
    requires Possible(VERIFICATION_TABLE, state, moves)
    decreases |moves|
  {
    if moves == [] then 0
    else
      (if sideEffect in VERIFICATION_TABLE[moves[0].rule].sideEffects then 1 else 0) +
      Ordered(VERIFICATION_TABLE[moves[0].rule].to, moves[1..], sideEffect)
  }

  /** Whether a submission is with the platform, or has been decided. */
  function HandedIn(state: VerificationState): nat {
    if state in {Submitted, UnderReview, Verified, Rejected} then 1 else 0
  }

  /** Receipts and revisions take turns, in whichever of the endless rounds a run ends. */
  lemma {:induction false} RoundsBalance(state: VerificationState, moves: seq<Move>)
    requires Possible(VERIFICATION_TABLE, state, moves)
    ensures Ordered(state, moves, CreateReceipt) + HandedIn(state) ==
            Ordered(state, moves, OpenRevision) + HandedIn(Final(VERIFICATION_TABLE, state, moves))
    decreases |moves|
  {
    if moves != [] {
      RoundsBalance(VERIFICATION_TABLE[moves[0].rule].to, moves[1..]);
      VerificationRow(moves[0].rule);
    }
  }

  lemma VerificationRow(rule: nat)
    requires rule < |VERIFICATION_TABLE|
    ensures var row := VERIFICATION_TABLE[rule];
            (if CreateReceipt in row.sideEffects then 1 else 0) + HandedIn(row.from) ==
            (if OpenRevision in row.sideEffects then 1 else 0) + HandedIn(row.to)
  {
  }

  /** A verification that is decided has one receipt more than it had revisions. */
  lemma DecidedVerification(moves: seq<Move>)
    requires Possible(VERIFICATION_TABLE, NotStarted, moves)
    requires Final(VERIFICATION_TABLE, NotStarted, moves) in {Verified, Rejected}
    ensures Ordered(NotStarted, moves, CreateReceipt) == Ordered(NotStarted, moves, OpenRevision) + 1
  {
    RoundsBalance(NotStarted, moves);
  }

  // ----- Who has answered for what -----

  /** The last move of a run, and the run before it. */
  lemma {:induction false} LastMove<S>(table: seq<Transition<S>>, state: S, moves: seq<Move>)
    requires Possible(table, state, moves) && moves != []
    ensures var front, last := moves[..|moves| - 1], moves[|moves| - 1];
            Possible(table, state, front) && Enabled(table, Final(table, state, front), last) &&
            Final(table, state, moves) == table[last.rule].to
    decreases |moves|
  {
    if |moves| > 1 {
      LastMove(table, table[moves[0].rule].to, moves[1..]);
      var front := moves[..|moves| - 1];
      assert front[1..] == moves[1..][..|moves| - 2];
      assert moves[1..][|moves| - 2] == moves[|moves| - 1];
    }
  }

  /** Who has decided an invitation, and on what. */
  lemma InvitationWasDecidedBy(moves: seq<Move>)
    requires Possible(INVITATION_TABLE, Pending, moves) && moves != []
    ensures match Final(INVITATION_TABLE, Pending, moves)
            case InvitationAccepted =>
              moves[0].role in {Individual, TeamOwner, TeamAdmin} && NotExpired in moves[0].satisfied
            case Declined => moves[0].role in {Individual, TeamOwner, TeamAdmin} && ReasonRecorded in moves[0].satisfied
            case InvitationExpired => moves[0].role == PlatformOps && DeadlinePassed in moves[0].satisfied
            case Cancelled => moves[0].role == OrgMember && ReasonRecorded in moves[0].satisfied
            case Pending => false
  {
    InvitationIsDecidedOnce(moves);
    LastMove(INVITATION_TABLE, Pending, moves);
  }

  lemma ReviewRow(rule: nat, state: ReviewState, move: Move)
    requires Enabled(REVIEW_TABLE, state, move) && rule == move.rule
    ensures ReviewRank(state) == rule && ReviewRank(REVIEW_TABLE[rule].to) == rule + 1
    ensures rule < 3 ==> move.role == PlatformReviewer
    ensures rule >= 3 ==> move.role == PlatformOps
    ensures rule == 0 ==> CoiClear in move.satisfied
    ensures rule == 1 ==> MaterialsAuthorized in move.satisfied
    ensures rule == 2 ==> ScoresValid in move.satisfied && RationaleValid in move.satisfied
    ensures rule == 3 ==> ReceiptValid in move.satisfied
    ensures rule == 4 ==> ReasonRecorded in move.satisfied
  {
  }

  lemma {:induction false} ReviewMoves(state: ReviewState, moves: seq<Move>, k: nat)
    requires Possible(REVIEW_TABLE, state, moves) && k < |moves|
    ensures moves[k].rule == ReviewRank(state) + k < 5
    ensures exists at :: Enabled(REVIEW_TABLE, at, moves[k])
    decreases |moves|
  {
    ReviewRow(moves[0].rule, state, moves[0]);
    if k > 0 {
      ReviewMoves(REVIEW_TABLE[moves[0].rule].to, moves[1..], k - 1);
    }
  }

  /** A locked review was cleared of conflicts, worked on with authorised materials, scored
      with reasons by the reviewer, and locked by the platform on a valid receipt. */
  lemma {:induction false} LockedWasReviewed(moves: seq<Move>)
    requires Possible(REVIEW_TABLE, CoiGate, moves) && Final(REVIEW_TABLE, CoiGate, moves) == Locked
    ensures |moves| == 4
    ensures forall k :: 0 <= k < 3 ==> moves[k].role == PlatformReviewer
    ensures moves[3].role == PlatformOps
    ensures CoiClear in moves[0].satisfied && MaterialsAuthorized in moves[1].satisfied
    ensures ScoresValid in moves[2].satisfied && RationaleValid in moves[2].satisfied
    ensures ReceiptValid in moves[3].satisfied
  {
    ReviewGoesForward(CoiGate, moves);
    forall k | 0 <= k < 4
      ensures exists at :: moves[k].rule == k && Enabled(REVIEW_TABLE, at, moves[k])
    {
      ReviewMoves(CoiGate, moves, k);
    }
  }

  lemma VerificationCame(state: VerificationState, move: Move)
    requires Enabled(VERIFICATION_TABLE, state, move)
    ensures match VERIFICATION_TABLE[move.rule].to
            case NotStarted => false
            case Draft => state == NotStarted && move.role in {Individual, TeamOwner, TeamAdmin}
            case Submitted =>
              (state == Draft || (state == NeedsRevision && RevisionAddressed in move.satisfied)) &&
              move.role in {Individual, TeamOwner, TeamAdmin} && DocumentsValid in move.satisfied
            case UnderReview => state == Submitted && move.role == PlatformOps && SubmissionLocked in move.satisfied
            case Verified => state == UnderReview && move.role == PlatformOps && EvidenceApproved in move.satisfied
            case NeedsRevision => state == UnderReview && move.role == PlatformOps && ReasonRecorded in move.satisfied
            case Rejected => state == UnderReview && move.role == PlatformOps && ReasonRecorded in move.satisfied
  {
  }

  /** A verification was granted by the platform on approved evidence, for a submission that
      was locked, and that the solver had handed in with valid documents. */
  lemma {:induction false} VerifiedWasSubmitted(moves: seq<Move>)
    requires Possible(VERIFICATION_TABLE, NotStarted, moves)
    requires Final(VERIFICATION_TABLE, NotStarted, moves) == Verified
    ensures var n := |moves|;
            n >= 3 && moves[n - 1].role == PlatformOps && EvidenceApproved in moves[n - 1].satisfied &&
            moves[n - 2].role == PlatformOps && SubmissionLocked in moves[n - 2].satisfied &&
            moves[n - 3].role in {Individual, TeamOwner, TeamAdmin} && DocumentsValid in moves[n - 3].satisfied
  {
    var n := |moves|;
    LastMove(VERIFICATION_TABLE, NotStarted, moves);
    VerificationCame(Final(VERIFICATION_TABLE, NotStarted, moves[..n - 1]), moves[n - 1]);
    LastMove(VERIFICATION_TABLE, NotStarted, moves[..n - 1]);
    assert moves[..n - 1][..n - 2] == moves[..n - 2];
    VerificationCame(Final(VERIFICATION_TABLE, NotStarted, moves[..n - 2]), moves[n - 2]);
    LastMove(VERIFICATION_TABLE, NotStarted, moves[..n - 2]);
    assert moves[..n - 2][..n - 3] == moves[..n - 3];
    VerificationCame(Final(VERIFICATION_TABLE, NotStarted, moves[..n - 3]), moves[n - 3]);
  }
}
