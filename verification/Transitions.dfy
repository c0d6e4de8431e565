/** Transition tables as packages/domain/src/challenge.ts defines them, with the names that
    the tables of domain/state-machines.ts use for roles, preconditions and side effects. */
module Transitions {

  datatype Role =
    | Individual | TeamOwner | TeamAdmin | TeamProposalManager | TeamContributor | TeamViewer
    | OrgMember | OrgOwner | OrgApproverLegal | OrgApproverFinance | OrgApproverTechnical
    | PlatformOps | PlatformLegal | PlatformFinance | PlatformReviewer

  datatype Guard =
    | ScopeDefined | TermsAgreed | IpAgreed | LegalApproved | FinanceApproved | ApprovedCurrentVersion
    | ContractEffective | PlanApproved | DeliverableValid | TechnicalEvidenceApproved | ReasonRecorded
    | RevisionDeadline | TechnicalAccepted | ProviderConfirmed | LedgerMatched | ProviderFailed | RefundApproved
    | RecipientAuthorized | NotExpired | SenderAuthorized | DeadlinePassed
    | ScopeApproved | DecisionConfirmed | RequesterAuthorized
    | InviteValid | NotOwner | NotSelf | RestoreConfirmed | NotLastManager | ActiveWorkTransferred
    | CoiClear | MaterialsAuthorized | ScoresValid | RationaleValid | ReceiptValid
    | DocumentsValid | RevisionAddressed | SubmissionLocked | EvidenceApproved

  datatype SideEffect =
    | RecordViewedAt | CreateMembership | AddWorkspace | UpdateRoster | CloseInvitation | CloseRequest
    | RevokeAccessToken | CreateReceipt | OpenRevision | OtherEffect

  datatype Transition<S> = Transition(
    from: S,
    to: S,
    roles: set<Role>,
    preconditions: set<Guard>,
    sideEffects: seq<SideEffect>)

  predicate Allows<S(==)>(rule: Transition<S>, from: S, to: S, role: Role, satisfied: set<Guard>) {
    rule.from == from && rule.to == to && role in rule.roles && rule.preconditions <= satisfied
  }

  /** `canTransition`. */
  predicate CanTransition<S(==)>(table: seq<Transition<S>>, from: S, to: S, role: Role, satisfied: set<Guard>) {
    exists i :: 0 <= i < |table| && Allows(table[i], from, to, role, satisfied)
  }

  const TEAM_MANAGERS := {TeamOwner, TeamAdmin}
  const SOLVER_MANAGERS := {Individual, TeamOwner, TeamAdmin}
}
