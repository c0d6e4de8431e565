# Verified models of the Rahhal web application

Rahhal is a marketplace of organizational challenges. Most of its web client is markup; this
project models the parts that are algorithms or protocols, and proves what they promise.

* **Two hand-written serialisers.** `PdfFile`, `PdfStrings` and `ResumePdf` model the team
  resume: a PDF file whose cross-reference table records where each object starts. A reader
  that starts from the end of the file (ISO 32000-1, sections 7.3.4.2, 7.3.8, 7.5.4 and 7.5.5)
  is defined independently of the writer and recovers every object and the text that is shown.
  `InvitationCsv` does the same for the invitation export and a reader after section 2 of
  RFC 4180. `Decimal` and `Text` hold what both need.
* **A dialog bridge that undoes itself.** `DialogTree` and `DialogManager` model the walk that
  makes everything around a modal dialog inert, on a heap of elements, and its restoration
  over whole runs of dialogs that open, replace one another and close while the page itself
  goes on writing.
* **Three asynchronous protocols.** `PublicCatalogue` (pages of a list, with requests that
  overtake one another) with `PublicListing` (the server that answers them, by keyset),
  `RuntimeSession` (workspace switches with idempotency keys, a network that loses, repeats
  and reorders, and the server's command with its tokens and revocations), `StandaloneReveal` (chains of
  animation frames that navigations supersede). Each is a class whose methods are proved
  against a step function, and the theorems are about all runs of the steps.
* **Business state machines.** `Transitions`, `CaseLifecycle` (contracts, pilots, payments),
  `TeamRoster` and `MembershipEffects` put the transition tables side by side and prove what
  holds in every interleaving of any number of records; `RecordLifecycles` follows single
  invitations, reviews and verifications.
* **Addresses.** `RoutePaths`, `LegacyRoutes`, `LegacyTable`, `LegacyFinds` and `FlowRoutes`
  show that legacy redirects are all found and end after two hops, and that two redirect
  tables agree. `Navigation` finds the
  longest matching navigation item, `ProposalList` filters and sorts a worklist, and
  `StableSort` says what the language's stable sort returns.

Seven places where the code does less than one would expect came out of the proofs. Each has a
theorem that says exactly when the code does meet the property, and one that shows an input
for which it does not.

* An offset of more than ten digits breaks the resume's cross-reference table: the file reads
  back if and only if the name that is shown has fewer than 9 999 999 556 characters
  (`ResumePdf.ResumeReadsBack`, `ResumePdf.LongNameIsUnreadable`). The limits that engines set
  to the length of a string keep real names far below that.
* Applying a filter does not reset the catalogue's cursor. When the filter's first page fails
  and "load more" is pressed, the list shows what follows an earlier filter's cursor. Against
  the repository's own listing, with rows of any number and kind: the list shows the first
  rows of its category if and only if no such press on an empty list had a cursor amid the
  category's rows (`PublicListing.FirstRowsAreShownExactly` over runs,
  `PublicListing.LoadMoreKeepsFirstRowsExactly` before a press;
  `PublicListing.FailedFilterSkipsRows` and `PublicListing.TwoRowsAreSkipped` show it happen).
  Once a first page has arrived, by a retry say, it shows all rows exactly when no more are
  offered (`PublicListing.WholeCategoryIsShown`). Against any server whatever, the same holds
  as far as pages that do land on an empty list can be told from first pages
  (`PublicCatalogue.ListStartsAtFirstPageExactly`,
  `PublicCatalogue.LoadMoreKeepsFirstPagesExactly`,
  `PublicCatalogue.ImpatientListMissesFirstPage`), and a first page that arrives sets the
  list right until the filter changes (`PublicCatalogue.FirstPageSetsRight`).
* The dialog bridge does not take back everything, and does not cover everything.
  * The walk passes over siblings that are not HTML elements. The background of a dialog is
    out of reach if and only if every such sibling was so before
    (`DialogManager.BackgroundIsCovered`, `DialogManager.SvgBesideDialog`).
  * Siblings that are inserted while a dialog is open stay within reach
    (`DialogManager.SyncCoversExactly`, `DialogManager.LateSiblingIsNotMarked`).
  * When the page meanwhile writes to the overflow, or makes an element inert that the bridge
    has flipped, that is lost when the dialog closes; everything else survives, in every run
    (`DialogManager.RunRestores`, `DialogManager.WriteSurvives`,
    `DialogManager.MarkedWriteIsLost`). The drawer of `components/site-header.tsx` is such a
    dialog: it saves, hides and restores the overflow by itself, and can leave the page unable
    to scroll (`DialogManager.DrawerLeavesHidden`).
* The membership table keeps a team managed only because the one who acts is active: a manager
  who is not could suspend the last one (`TeamRoster.LosesLastManager`,
  `TeamRoster.SuspendedOwnerLosesLast`).
* The two redirect tables agree because the list of cases starts with the one that stands in
  for the sample in the legacy table; with any other first case they part at
  `/org/challenges/sample`, and nowhere else (`FlowRoutes.TablesAgree`,
  `FlowRoutes.TablesAgreeExactly`, `FlowRoutes.SampleIsRedirected`).
* A success of `refreshMe` that arrives after `signOut` has returned signs the client in again,
  and the success of a switch calls `refreshMe` unasked. Unless the user asks again, the
  client stays signed out if and only if no reply to `refreshMe` is outstanding and no
  outstanding switch is open, that is, granted or still to be granted by the server
  (`RuntimeSession.SignOutLastsExactly`, `RuntimeSession.LateReplySignsIn`,
  `RuntimeSession.SwitchSignsIn`).
* Replies to `refreshMe` do not know their place: an older one that comes late is shown, and
  the next switch is refused as stale (`RuntimeSession.NewestIsShownExactly`,
  `RuntimeSession.OvertakenReplyMakesStale`).

## Model

| member | source | states |
|---|---|---|
| Decimal.ValueOfDec | components/team-resume-dialog.tsx:34-49 | a printed number denotes the number it was printed from |
| Decimal.ValueOfPadded | components/team-resume-dialog.tsx:47 | padding an offset with zeros does not change its value |
| Decimal.DecWidth | components/team-resume-dialog.tsx:47 | a number takes at most so many digits exactly when it is below that power of ten |
| PdfFile.StartReadsBack | components/team-resume-dialog.tsx:43-49 | the last `startxref` of the file gives the position of the table, whatever the objects contain |
| PdfFile.EntriesReadBack | components/team-resume-dialog.tsx:45-48 | the table reads back entry by entry, or not at all when an offset outgrows ten digits |
| PdfFile.XrefReadsBack | components/team-resume-dialog.tsx:44-49 | table, size and root of the trailer read back together |
| PdfFile.ObjectReadsBack | components/team-resume-dialog.tsx:30-36 | an object reads back whatever follows it, and a stream by its length whatever it contains |
| PdfFile.OffsetLocates | components/team-resume-dialog.tsx:37-42 | each object starts where its recorded offset says |
| PdfFile.OffsetsGrow | components/team-resume-dialog.tsx:38-42 | recorded offsets increase strictly |
| PdfFile.EntryWidth | components/team-resume-dialog.tsx:45-48 | an entry takes twenty characters exactly when its offset has at most ten digits |
| PdfFile.EntryOfFile | components/team-resume-dialog.tsx:44-48 | entry i stands at its fixed place, twenty characters for each earlier one |
| PdfFile.LastOffsetDecides | components/team-resume-dialog.tsx:45-48 | whether all offsets fit is decided by the last |
| PdfFile.FileReadsBack | components/team-resume-dialog.tsx:37-49 | a file of any number of objects reads back to exactly these if all offsets fit, and to nothing otherwise |
| PdfFile.FileIsAscii | components/team-resume-dialog.tsx:37-50 | a file of ASCII objects is ASCII, so character offsets are byte offsets |
| PdfStrings.BareLiteralReads | components/team-resume-dialog.tsx:22-27 | a literal string without delimiters decodes to itself |
| PdfStrings.JoinedLinesShow | components/team-resume-dialog.tsx:18-29 | a content stream shows the strings of its lines, in order |
| ResumePdf.CreateResumePdf | components/team-resume-dialog.tsx:16-51 | the file written is the one that the layout prescribes, and a reader of it finds the text for the name, exactly while that is short enough |
| ResumePdf.WriteFile | components/team-resume-dialog.tsx:43-50 | table and trailer follow the objects, for any list of objects |
| ResumePdf.WriteObjects | components/team-resume-dialog.tsx:37-42 | the loop appends every object and records where each starts |
| ResumePdf.SanitisedOnce | components/team-resume-dialog.tsx:17 | exactly the names from a space to a tilde without parentheses and backslashes are left as they are, and sanitising twice is sanitising once |
| ResumePdf.KeptParts | components/team-resume-dialog.tsx:17 | a name keeps each of its characters by its code alone, in order and number |
| ResumePdf.SafeIsKept | components/team-resume-dialog.tsx:17 | the two replacements keep exactly these |
| ResumePdf.ContentShowsTeam | components/team-resume-dialog.tsx:17-29 | the page shows title, note and what the name keeps, or the fallback exactly when that is nothing |
| ResumePdf.ResumeReadsBack | components/team-resume-dialog.tsx:16-51 | for every name a reader recovers all five objects and the text exactly while the shown name is shorter than 9 999 999 556 characters |
| ResumePdf.LongNameIsUnreadable | components/team-resume-dialog.tsx:47 | a plain name for which it recovers nothing |
| ResumePdf.PageTreeHangsTogether | components/team-resume-dialog.tsx:30-36 | catalog, pages, page, font and contents refer to one another by the numbers they have |
| ResumePdf.ResumeIsAscii | components/team-resume-dialog.tsx:17-49 | every character of the file is ASCII, for every name |
| InvitationCsv.QuotedFieldReads | components/organization-workspace.tsx:507-508 | a quoted field reads back, quotes, commas and line feeds included |
| InvitationCsv.LinesRead | components/organization-workspace.tsx:506-512 | any records of any strings read back from their lines |
| InvitationCsv.HeaderReads | components/organization-workspace.tsx:505 | the unquoted header reads back as five fields |
| InvitationCsv.ExportReadsBack | components/organization-workspace.tsx:504-513 | the export reads back as the header and one record an offer, in order |
| InvitationCsv.ColumnsReadBack | components/organization-workspace.tsx:504-513 | which field of an offer stands under which word of the header |
| InvitationCsv.ExportInjective | components/organization-workspace.tsx:504-513 | different offers never export to the same file |
| DialogTree.Branches | components/a11y/dialog-manager.tsx:16-28 | two elements of a subtree contain one another or sit under two siblings |
| DialogTree.WalkMembers | components/a11y/dialog-manager.tsx:17-27 | the walk visits exactly the ancestors-or-self below its end |
| DialogTree.CandidateMembers | components/a11y/dialog-manager.tsx:19-20 | it turns to exactly the HTML siblings along the way |
| DialogTree.TopIsBody | components/a11y/dialog-manager.tsx:25-26 | from a dialog inside the body it ends at the body |
| DialogManager.MarkedElems | components/a11y/dialog-manager.tsx:19-24 | exactly the candidates that were not inert are flipped, none twice |
| DialogManager.DialogAccessibilityManager.SetBackgroundInert | components/a11y/dialog-manager.tsx:16-28 | the walk flips and records the candidates that were not inert, and nothing else |
| DialogManager.DialogAccessibilityManager.MarkSiblings | components/a11y/dialog-manager.tsx:19-24 | the inner loop does so for one level |
| DialogManager.DialogAccessibilityManager.Clear | components/a11y/dialog-manager.tsx:29-35 | every flip and the overflow are taken back and the record is emptied |
| DialogManager.DialogAccessibilityManager.Sync | components/a11y/dialog-manager.tsx:39-50 | the whole view after the callback, for every combination of old and new dialog |
| DialogManager.DialogAccessibilityManager.Unmount | components/a11y/dialog-manager.tsx:80-84 | the cleanup takes everything back if a dialog is open |
| DialogManager.AncestorsUntouched | components/a11y/dialog-manager.tsx:16-28 | neither the dialog nor anything around it changes |
| DialogManager.BackgroundIsCovered | components/a11y/dialog-manager.tsx:16-28 | everything neither inside nor around the dialog is out of reach, if and only if the siblings passed over were |
| DialogManager.SvgBesideDialog | components/a11y/dialog-manager.tsx:20 | a page on which an element beside the open dialog is within reach, after the callback itself |
| DialogManager.RunRestores | components/a11y/dialog-manager.tsx:29-52 | over every run, whatever the page writes meanwhile, a page without an open dialog is the page without the bridge and without the writes that get lost |
| DialogManager.PoliteRunDiffersByMarks | components/a11y/dialog-manager.tsx:29-52 | a page that leaves alone what the bridge has taken over differs from the untouched one by exactly the recorded flips, and cannot be scrolled while a dialog is open |
| DialogManager.SyncOpensExactly | components/a11y/dialog-manager.tsx:43-50 | when a dialog is found, whatever was open before, exactly its background is inert besides what the page has made so, and exactly the flips are recorded |
| DialogManager.SyncClosesExactly | components/a11y/dialog-manager.tsx:43-45 | when none is found, the page is at rest and nothing recorded |
| DialogManager.OthersAreAsThePageMadeThem | components/a11y/dialog-manager.tsx:29-50 | in every run what is outside the open dialog's background is inert exactly as the page has made it |
| DialogManager.OpenDialogIsFree | components/a11y/dialog-manager.tsx:16-50 | so are the open dialog and everything around it, whatever dialogs it has replaced |
| DialogManager.SecondDialogIsFree | components/a11y/dialog-manager.tsx:44 | of two dialogs side by side the one that replaces the other is not inert |
| DialogManager.SyncCoversExactly | components/a11y/dialog-manager.tsx:43-50 | after a callback the background is inert exactly if the dialog was not open already or the background was inert without it |
| DialogManager.LateSiblingIsNotMarked | components/a11y/dialog-manager.tsx:43 | an element inserted beside an open dialog stays within reach |
| DialogManager.WriteSurvives | components/a11y/dialog-manager.tsx:29-35 | exactly which writes of the page, to `inert` and to the overflow, survive the dialog |
| DialogManager.MarkedWriteIsLost | components/a11y/dialog-manager.tsx:30-32 | a run after which an element that the page has made inert is not |
| DialogManager.DrawerLeavesHidden | components/site-header.tsx:52-78 | a run of the header's drawer after which the page cannot scroll, from any page |
| PublicCatalogue.PublicChallengeCatalogue.constructor | components/public-challenge-catalogue.tsx:86-92 | mounting asks for the first page of the empty filter |
| PublicCatalogue.PublicChallengeCatalogue.Load | components/public-challenge-catalogue.tsx:94-101 | what a request changes before its reply, and what it asks for |
| PublicCatalogue.PublicChallengeCatalogue.Resume | components/public-challenge-catalogue.tsx:102-110 | what a reply changes: nothing when overtaken, otherwise the list or the error |
| PublicCatalogue.PublicChallengeCatalogue.SubmitFilter | components/public-challenge-catalogue.tsx:137-143 | the list is emptied and the trimmed filter's first page requested |
| PublicCatalogue.PublicChallengeCatalogue.ClearFilter | components/public-challenge-catalogue.tsx:157-165 | likewise for the empty filter |
| PublicCatalogue.PublicChallengeCatalogue.Retry | components/public-challenge-catalogue.tsx:173-178 | the first page of the active filter is requested |
| PublicCatalogue.PublicChallengeCatalogue.LoadMore | components/public-challenge-catalogue.tsx:207-213 | the page at the cursor in hand is requested |
| PublicCatalogue.PublicChallengeCatalogue.Unmount | components/public-challenge-catalogue.tsx:112-117 | every outstanding request is overtaken |
| PublicCatalogue.CategoryIsChosen | components/public-challenge-catalogue.tsx:137-165 | in every run the active category is the trimmed text applied last, or none after clearing |
| PublicCatalogue.ButtonsAskForChosen | components/public-challenge-catalogue.tsx:137-213 | what each button asks for in every run, and which of them empty the list |
| Text.TrimIsCore | components/public-challenge-catalogue.tsx:139 | trimming takes away the white space around a text, all of it and nothing else |
| PublicCatalogue.ListIsConsecutivePages | components/public-challenge-catalogue.tsx:94-117 | in every run the list is consecutive pages of the active filter, with the cursor after them, and loading means that the newest request is out |
| PublicCatalogue.PatientListStartsAtFirstPage | components/public-challenge-catalogue.tsx:137-143 | it starts at the first page if "load more" is never pressed while that page is missing |
| PublicCatalogue.FirstPageSetsRight | components/public-challenge-catalogue.tsx:108-109 | in every run, once a first page has arrived since the filter changed, list and cursor are those of first pages |
| PublicCatalogue.ListStartsAtFirstPageExactly | components/public-challenge-catalogue.tsx:108-109 | in every run against any server, as far as pages landing on an empty list can be told from first pages: the list shows first pages if and only if no "load more" was answered onto an empty list since they last arrived |
| PublicCatalogue.LoadMoreKeepsFirstPagesExactly | components/public-challenge-catalogue.tsx:207-213 | in every reachable state with first pages or nothing in the list, pressing "load more" keeps first pages if and only if the list is not empty, as far as the page that answers an empty list can be told from a first page |
| PublicCatalogue.ImpatientListMissesFirstPage | components/public-challenge-catalogue.tsx:137-143 | a run, within the scope of the two theorems before, after which the list does not start at the first page |
| PublicCatalogue.RetryIsOfferedAfterFailure | components/public-challenge-catalogue.tsx:97-107 | in every run the error is the message with which the newest request has failed, and a retry is offered exactly then |
| PublicCatalogue.OvertakenRepliesDoNotMatter | components/public-challenge-catalogue.tsx:95-102 | a run without its overtaken replies shows the same |
| PublicListing.ListedInOrder | apps/api/src/in-memory-challenges.ts:1081-1093 | the listing holds exactly the rows of the category, each once, in strict order |
| PublicListing.PageIsSlice | apps/api/src/in-memory-challenges.ts:1094-1106 | every page is the slice of these rows that follows the cursor, and its cursor leads on to the row behind it |
| PublicListing.ListIsStretch | components/public-challenge-catalogue.tsx:94-117 | in every run the list is a stretch of the rows of its category, without a gap or a repeat, and the cursor leads on |
| PublicListing.WholeCategoryIsShown | components/public-challenge-catalogue.tsx:108-109 | once a first page has arrived the list shows first rows, and all rows exactly when no more are offered |
| PublicListing.FirstRowsAreShownExactly | components/public-challenge-catalogue.tsx:137-143 | in every run the list shows first rows if and only if no "load more" on an empty list has skipped any |
| PublicListing.LoadMoreKeepsFirstRowsExactly | components/public-challenge-catalogue.tsx:207-213 | in every reachable state with first rows or none, pressing "load more" keeps that if and only if the list is not empty or the cursor not amid the category's rows |
| PublicListing.SkipsRowsExactly | apps/api/src/in-memory-challenges.ts:1094-1096 | a cursor is amid the rows exactly if some come at or before it and some after |
| PublicListing.FailedFilterSkipsRows | components/public-challenge-catalogue.tsx:137-143 | for any rows whose first page ends amid the category, a run that skips the category's first rows |
| PublicListing.TwoRowsAreSkipped | apps/api/src/in-memory-challenges.ts:1094-1106 | there are such rows |
| RuntimeSession.CommandInjective | components/runtime-provider.tsx:147 | a command's name determines version and workspace |
| RuntimeSession.CommandIsNotOidcStart | components/runtime-provider.tsx:128-147 | no switch shares its name with the login command |
| RuntimeSession.RuntimeProvider.ResumeRefreshMe | components/runtime-provider.tsx:100-117 | all session fields follow one reply |
| RuntimeSession.RuntimeProvider.StartOrganizationLogin | components/runtime-provider.tsx:126-130 | the login's key is kept and used again |
| RuntimeSession.RuntimeProvider.SwitchWorkspace | components/runtime-provider.tsx:144-154 | what is sent, with the kept key or a new one, and that nothing is without a session |
| RuntimeSession.RuntimeProvider.ResumeSwitchWorkspace | components/runtime-provider.tsx:155-160 | a success drops the key and asks who the user is, a failure keeps it |
| RuntimeSession.RuntimeProvider.SignOut | components/runtime-provider.tsx:166-172 | a new key is sent each time, and kept nowhere |
| RuntimeSession.RuntimeProvider.ResumeSignOut | components/runtime-provider.tsx:173-178 | the session fields are emptied, the keys are not |
| RuntimeSession.ServedInv | apps/api/src/in-memory-identity.ts:776-827 | the server's command carries out each version of a session once, in order |
| RuntimeSession.NoKeyConflict | apps/api/src/in-memory-identity.ts:288-300 | a key is never used for two commands |
| RuntimeSession.StepInv | components/runtime-provider.tsx:126-164 | every step of client, network and server keeps keys, effects and session fields consistent |
| RuntimeSession.SwitchedAtMostOnce | components/runtime-provider.tsx:144-164 | in every run a session carries out at most one switch a version |
| RuntimeSession.LostSuccessIsReplayed | components/runtime-provider.tsx:147-159 | a switch whose success was lost is answered by that success when tried again, exactly while the server accepts the browser's token, and never carried out twice |
| RuntimeSession.AttemptsShareKey | components/runtime-provider.tsx:148-149 | all attempts before an observed success carry one key |
| RuntimeSession.CommandsDoNotShareKeys | components/runtime-provider.tsx:147-149 | different commands never do |
| RuntimeSession.RunsStayCoherent | components/runtime-provider.tsx:100-178 | the server never refuses a key, and the session fields never contradict each other |
| RuntimeSession.SignOutLastsExactly | components/runtime-provider.tsx:100-178 | in every run, unless the user asks again, the client stays signed out after signing out if and only if no reply to `refreshMe` and no open switch is outstanding |
| RuntimeSession.LateReplySignsIn | components/runtime-provider.tsx:100-117 | a run in which a late reply signs it in |
| RuntimeSession.SwitchSignsIn | components/runtime-provider.tsx:155-160 | a run in which the late success of a switch does, unasked |
| RuntimeSession.NewestIsShownExactly | components/runtime-provider.tsx:100-117 | in every run the session shown is that of the newest call answered if and only if it was answered last or both say the same |
| RuntimeSession.OvertakenReplyMakesStale | components/runtime-provider.tsx:147-158 | a run in which an overtaken reply makes the next switch stale |
| RuntimeSession.ErrorIsLastFailure | components/runtime-provider.tsx:100-178 | in every run the session error is the failure that came back last, until the user is found or signs out |
| RuntimeSession.StatusFollows | components/runtime-provider.tsx:100-178 | and the status follows the last answer |
| RuntimeSession.KeysExactly | components/runtime-provider.tsx:126-178 | exactly which kept keys a step adds, drops or leaves |
| RuntimeSession.ServedExactly | apps/api/src/in-memory-identity.ts:776-827 | exactly when the server carries a switch out, and what it then records |
| StandaloneReveal.HomePageEffect.Sync | app/page.tsx:65-72 | a navigation lowers the flag and starts its chain |
| StandaloneReveal.HomePageEffect.RevealWhenCommitted | app/page.tsx:52-53 | a frame is requested and its number kept |
| StandaloneReveal.HomePageEffect.OnFrame | app/page.tsx:53-63 | what a frame does when superseded, settled, used up, or still waiting |
| StandaloneReveal.HomePageEffect.Cleanup | app/page.tsx:111-113 | unmounting supersedes all chains and cancels the newest frame |
| StandaloneReveal.StepInv | app/page.tsx:50-72 | at most one frame a navigation is pending, and the latest one's is the one that can be cancelled |
| StandaloneReveal.RaisedForLatestOnly | app/page.tsx:54-60 | the flag is raised only for the latest navigation, committed or out of attempts |
| StandaloneReveal.ReadyExactly | app/page.tsx:53-67 | in every run, exactly when the flag is up after one more step |
| StandaloneReveal.TargetIsLatest | app/page.tsx:68-72 | the frames wait for the key of the latest navigation |
| StandaloneReveal.UnmountCancelsLatest | app/page.tsx:111-113 | unmounting takes back the latest navigation's frame and no other |
| StandaloneReveal.UnmountedNeverReveals | app/page.tsx:111-113 | after unmounting it never changes |
| StandaloneReveal.ChainIsBounded | app/page.tsx:58-62 | no navigation takes more than 241 frames |
| StandaloneReveal.ChainEnds | app/page.tsx:58-62 | undisturbed, a chain is at its n-th attempt after n frames or has raised the flag |
| StandaloneReveal.ChainRaisesFlag | app/page.tsx:58-62 | after 241 frames of its own it has |
| CaseLifecycle.StepInv | domain/state-machines.ts:372-652 | every step keeps: a pilot past its plan has an effective contract, a payment past its trigger an accepted pilot |
| CaseLifecycle.PaymentNeedsAcceptedPilot | domain/state-machines.ts:519-652 | in every interleaving no payment moves without both |
| CaseLifecycle.ProcessingGuardIsImplied | domain/state-machines.ts:592-597 | the contract guard of processing follows from the guards before it |
| CaseLifecycle.PaymentHistory | domain/state-machines.ts:426-585 | contract effective, pilot accepted and payment approved happened in this order |
| CaseLifecycle.EffectiveWasApproved | domain/state-machines.ts:372-436 | in every run an effective contract was scoped, agreed, approved by law and finance, and signed, by whom and in this order |
| CaseLifecycle.AcceptedWasDelivered | domain/state-machines.ts:519-578 | an accepted pilot was started, delivered and accepted, by whom and on what |
| CaseLifecycle.PaidWasConfirmed | domain/state-machines.ts:581-652 | a paid payment was accepted technically, approved by finance and confirmed by the provider, in this order |
| CaseLifecycle.ContractCame | domain/state-machines.ts:372-436 | how a contract came into each of its states |
| CaseLifecycle.PilotCame | domain/state-machines.ts:519-578 | how a pilot did |
| CaseLifecycle.PaymentCame | domain/state-machines.ts:581-652 | how a payment did |
| CaseLifecycle.MovesMatchRank | domain/state-machines.ts:372-652 | in every interleaving a record has moved as often as its state is steps from the first |
| TeamRoster.StepStaysManaged | domain/state-machines.ts:272-301 | a step of an active manager leaves an active manager |
| TeamRoster.TeamStaysManaged | domain/state-machines.ts:231-302 | so does every run, for rosters of any size |
| TeamRoster.LosesLastManager | domain/state-machines.ts:273-278 | exactly which permitted step of an inactive manager would leave none |
| TeamRoster.SuspendedOwnerLosesLast | domain/state-machines.ts:273-278 | such a step |
| TeamRoster.ClosedMembershipsStay | domain/state-machines.ts:231-302 | removed, rejected and expired memberships never change |
| TeamRoster.RolesStay | domain/state-machines.ts:231-302 | in every run nobody leaves the roster or changes roles |
| TeamRoster.MembershipRules | domain/state-machines.ts:231-302 | exactly who may move a membership, and on what |
| MembershipEffects.StepInv | domain/state-machines.ts:86-221 | every step keeps orders and acceptances in balance |
| MembershipEffects.MembershipsAreConserved | domain/state-machines.ts:86-221 | as many memberships are ordered as records accepted, one each |
| MembershipEffects.InvitationRules | domain/state-machines.ts:86-177 | exactly who may move a team invitation, and on what |
| MembershipEffects.RequestRules | domain/state-machines.ts:180-221 | exactly who may move a request, and on what |
| MembershipEffects.AllAreOrdered | domain/state-machines.ts:86-221 | every side effect of a move is ordered, in order |
| MembershipEffects.InvitationOrders | domain/state-machines.ts:86-177 | what each move of an invitation orders |
| MembershipEffects.RequestOrders | domain/state-machines.ts:180-221 | what each move of a request orders |
| RecordLifecycles.RankBoundsMoves | domain/state-machines.ts:42-83 | a record that only goes forward moves no further than its rank |
| RecordLifecycles.ReviewGoesForward | domain/state-machines.ts:311-362 | a review takes its five steps in order, each once |
| RecordLifecycles.InvitationIsDecidedOnce | domain/state-machines.ts:42-83 | an invitation is answered or closed once and for all |
| RecordLifecycles.InvitationWasDecidedBy | domain/state-machines.ts:42-83 | who has decided an invitation, and on what |
| RecordLifecycles.LockedWasReviewed | domain/state-machines.ts:311-362 | a locked review was cleared, worked on, scored and locked, by whom and on what |
| RecordLifecycles.RoundsBalance | domain/state-machines.ts:439-510 | receipts and revisions of a verification take turns, over any number of rounds |
| RecordLifecycles.DecidedVerification | domain/state-machines.ts:480-509 | a decided verification has one receipt more than revisions |
| RecordLifecycles.VerifiedWasSubmitted | domain/state-machines.ts:439-510 | a verification was granted on evidence for a locked submission with valid documents |
| RoutePaths.NormalizedSuffix | data/legacy-redirects.ts:207-211 | a query or fragment does not change the path |
| RoutePaths.NormalizedIdempotent | components/app-shell.tsx:49-52 | normalising twice is normalising once |
| RoutePaths.NormalizersAgree | lib/routing/standalone-navigation.ts:1-9 | three ways to take the path agree, but for the empty one |
| RoutePaths.NormalizingCuts | data/legacy-redirects.ts:207-211 | exactly slashes at the end and a query or fragment are cut off |
| RoutePaths.NoPathIsRoot | lib/routing/standalone-navigation.ts:1-9 | a fragment that is no path leads to the root |
| LegacyRoutes.SuffixDoesNotMatter | data/legacy-redirects.ts:213-224 | a query or fragment does not change the resolution |
| LegacyRoutes.HopDrops | data/legacy-redirects.ts:213-224 | every redirect comes nearer to the end |
| LegacyRoutes.ArrivedIsUnresolved | data/legacy-redirects.ts:213-224 | at the end nothing resolves |
| LegacyRoutes.ChainIsShort | components/legacy-redirect.tsx:7-26 | a chain is no longer than its start's rank, which is at most two |
| LegacyTable.EntriesOrderly | data/legacy-redirects.ts:46-201 | what all seventy-one entries have in common |
| LegacyTable.RedirectsEnd | data/legacy-redirects.ts:46-224 | from any address, with any suffixes carried along, at most two hops |
| LegacyTable.UnavailableLeadsOn | data/legacy-redirects.ts:51-198 | the link of an unavailable page is no legacy address |
| LegacyFinds.EveryEntryIsFound | data/legacy-redirects.ts:46-224 | each of the seventy-one sources resolves to its own entry, with any query or fragment |
| FlowRoutes.GeneratedKeys | data/challenge-flow-routes.ts:40-48 | every generated redirect is an old view of a case and its successor |
| FlowRoutes.NewCaseIsView | data/challenge-flow-routes.ts:118-122 | the current address of a case leads to its view |
| FlowRoutes.CaseScreens | data/challenge-flow-routes.ts:74-122 | the screen of each of a case's seven addresses, by name |
| FlowRoutes.RecordScreens | data/challenge-flow-routes.ts:89-115 | and of the record whose id is in the query |
| FlowRoutes.OtherSegmentsAreUnknown | data/challenge-flow-routes.ts:118-121 | no other address below a case is a screen |
| FlowRoutes.SlashDoesNotMatter | data/challenge-flow-routes.ts:83 | a slash at the end makes no difference |
| FlowRoutes.RootScreens | data/challenge-flow-routes.ts:23-29 | where the list, the form and the five other old addresses lead |
| FlowRoutes.OldCaseTargets | data/challenge-flow-routes.ts:40-48 | where each old address of a case leads, by name |
| FlowRoutes.ResolvesExactly | data/legacy-redirects.ts:213-224 | an address resolves exactly if it is listed or an old view of a known case |
| FlowRoutes.LegacyCase | data/legacy-redirects.ts:217-223 | the legacy pattern sends every old view of a case to the same view |
| FlowRoutes.CasesAgree | data/challenge-flow-routes.ts:40-48 | both tables lead old views of a case to the same screen, `/studio` too |
| FlowRoutes.LegacyRoot | data/legacy-redirects.ts:99-110 | what the legacy table says of the addresses in the root table |
| FlowRoutes.TablesAgreeExactly | app/page.tsx:78-98 | an address that both tables redirect leads to the same screen of the same case, exactly unless it is the sample's and another case comes first |
| FlowRoutes.TablesAgree | data/challenge-flow-routes.ts:23-29 | the tables agree on every address that both redirect if and only if the sample's case comes first |
| FlowRoutes.ApplicationTablesAgree | lib/challenges/ids.ts:1-8 | so they do in the application |
| FlowRoutes.BothKnowEveryCase | data/challenge-flow-routes.ts:31-50 | both tables redirect every old view of every case |
| FlowRoutes.RouteIdsAreValid | lib/challenges/ids.ts:1-8 | the application's ids are such ids, the sample's first |
| Navigation.MatchesBySegments | components/app-shell.tsx:66 | a path matches by whole segments |
| Navigation.LongestMatchWins | components/app-shell.tsx:54-68 | an item is found exactly when some item declares a path that begins the current one, and it is the first item with the longest, unique such path |
| Navigation.SuffixKeepsMatch | components/app-shell.tsx:49-58 | a query or fragment changes nothing |
| StableSort.SortIsTheStableOrder | components/solver-proposals-list.tsx:121-128 | an ordered list that keeps ties in place is the result of the sort, and only that |
| StableSort.SortIsPermutation | components/solver-proposals-list.tsx:121-128 | sorting drops, repeats and invents nothing |
| ProposalList.VisibleIsStableOrder | components/solver-proposals-list.tsx:110-129 | in every mode the list is the one stable order of the rows that pass the filter |
| ProposalList.ActionRowsFirst | components/solver-proposals-list.tsx:124-127 | by default rows that need action come first |
| ProposalList.VisibleOrder | components/solver-proposals-list.tsx:121-128 | which of two rows comes first, in each mode, by their fields |
| ProposalList.VisibleRows | components/solver-proposals-list.tsx:110-120 | a row is shown exactly if it is on the tab and its id, title and publisher contain the query |
| ProposalList.GroupStatus | components/solver-proposals-list.tsx:27-32 | which states each group tab shows |
| ProposalList.OwnStatus | components/solver-proposals-list.tsx:115-116 | any other status is the name of one state |
| ProposalList.TabNames | components/solver-proposals-list.tsx:132-142 | the tabs from first to last |
| ProposalList.BadgeCountsVisible | components/solver-proposals-list.tsx:130-142 | without a query a tab shows as many rows as its badge says |
| ProposalList.GroupsAreDisjoint | components/solver-proposals-list.tsx:27-32 | no row is on two group tabs |
| ProposalList.BadgesAddUp | components/solver-proposals-list.tsx:132-142 | the group badges never add up to more than the first |

## Left out

- Markup, labels, styling, focus and keyboard handling, downloads through `Blob` and anchors, scrolling and timers.
- DialogManager.DialogAccessibilityManager.Clear: does not give the focus back, because no part of the model has a focus.
- DialogManager.DialogAccessibilityManager.Sync: takes the dialog that the document query finds as a parameter, and does not move the focus; the query looks at selectors, which elements of the model do not have.
- DialogManager.DialogAccessibilityManager.Unmount: does not disconnect the observer and the key listener, which only call what the model has as methods.
- Elements are one class; attributes other than `inert`, `style.overflow` and the kind of element are not modelled.
- React's batching: every event handler, and every continuation after an `await`, is one step on the current state.
- What the server answers to `refreshMe` and `signOut`: either may be answered at any time after the call, and `refreshMe` with any version and workspace, so the theorems hold for stale answers, too.
- RuntimeSession.RuntimeProvider.StartOrganizationLogin: ends with the request; its reply only leads to another site or to a message.
- The demo mode of the session provider, in which every command does nothing, and `window.location.assign` after the login has started.
- `crypto.randomUUID` and SHA-256 fingerprints: keys never come up twice, and fingerprints of different commands differ.
- Server storage, audit records and receipts; a switch from another tab is an `OtherCommand` step that raises the session's version. Access tokens are numbers, and time is a step after which a token no longer holds.
- StandaloneReveal.HomePageEffect.Sync: takes the key of the route to commit as a parameter; which route an address leads to is in part the subject of `LegacyRoutes` and `FlowRoutes`.
- StandaloneReveal.HomePageEffect.Cleanup: does not remove the two event listeners, which only call `Sync`.
- `sync` of the home page outside the standalone build, where it returns at once.
- `search` of `getChallengeFlowRoute`: addresses carry no query, as in the call of the home page. A record's `id` and `workspace` are therefore not parsed.
- Property lookups on plain objects whose key is the name of a built-in property, such as `constructor`, as route or tab.
- Titles, descriptions and labels of unavailable pages.
- The transition tables of challenges, proposals and direct offers, which `domain/state-machines.ts` only passes on.
- Guards without a record of their own, such as `terms-agreed`, are free to hold or not. The tables do not say which record the others speak of: a pilot's `contract-effective` is read as its own contract's state, a payment's `technical-accepted` as its pilot's, and `not-last-manager` as another active owner or admin.
- `localeCompare` is any total preorder on strings, and `comparePublicChallenges` any strict weak order that tells the keys of all rows apart.
- Rows of the listing that are not open, past their deadline or hidden from the audience: the model's rows are the ones that remain, and they do not change during a run. A cursor is the key that it encodes; cursors that cannot be decoded are never sent. The page size is any positive number; the source's is 50.
- Notifications, audit names and the `retry` column of transitions; the names of side effects other than those counted or told apart are one.
