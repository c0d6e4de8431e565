/** The solver's proposal list of components/solver-proposals-list.tsx: filtered by tab and
    query, then sorted. */
module ProposalList {
  import opened Text
  import opened StableSort

  datatype ProposalState =
    | Draft | Submitted | EligibilityReview | Eligible | Ineligible | ClarificationRequested | ClarificationSubmitted
    | Reviewing | RevisionRequested | RevisionDraft | Resubmitted | Selected | Rejected | Withdrawn

  datatype Row = Row(
    id: string,
    challengeTitle: Option<string>,
    publisherName: Option<string>,
    state: ProposalState,
    updatedAt: string)

  /** A state's name, as addresses and tabs spell it. */
  function Name(state: ProposalState): string {
    match state
    case Draft => "draft"
    case Submitted => "submitted"
    case EligibilityReview => "eligibility_review"
    case Eligible => "eligible"
    case Ineligible => "ineligible"
    case ClarificationRequested => "clarification_requested"
    case ClarificationSubmitted => "clarification_submitted"
    case Reviewing => "reviewing"
    case RevisionRequested => "revision_requested"
    case RevisionDraft => "revision_draft"
    case Resubmitted => "resubmitted"
    case Selected => "selected"
    case Rejected => "rejected"
    case Withdrawn => "withdrawn"
  }

  const ACTION_STATES := {Draft, ClarificationRequested, RevisionRequested, RevisionDraft}

  const STATUS_GROUPS: map<string, set<ProposalState>> := map[
    "draft" := {Draft, RevisionDraft},
    "submitted" := {Submitted, Resubmitted, ClarificationSubmitted},
    "reviewing" := {EligibilityReview, Eligible, Reviewing},
    "revision_requested" := {RevisionRequested, ClarificationRequested}
  ]

  predicate Includes(s: string, word: string) {
    exists i :: 0 <= i <= |s| && word <= s[i..]
  }

  function OrEmpty(s: Option<string>): string {
    if s.Some? then s.value else ""
  }

  function Haystack(row: Row): string {
    row.id + " " + OrEmpty(row.challengeTitle) + " " + OrEmpty(row.publisherName)
  }

  predicate InStatus(row: Row, status: string) {
    status == "all" ||
    (if status in STATUS_GROUPS then row.state in STATUS_GROUPS[status] else Name(row.state) == status)
  }

  predicate Shown(row: Row, status: string, query: string) {
    InStatus(row, status) && Includes(Haystack(row), Trim(query))
  }

  /** `collate(a, b)` stands for `a.localeCompare(b) <= 0`. */
  type Collation = (string, string) -> bool

  predicate NeedsAction(row: Row) {
    row.state in ACTION_STATES
  }

  predicate Leq(sort: string, collate: Collation, a: Row, b: Row) {
    if sort == "updated" then collate(b.updatedAt, a.updatedAt)
    else if sort == "id" then collate(a.id, b.id)
    else if NeedsAction(a) != NeedsAction(b) then NeedsAction(a)
    else collate(b.updatedAt, a.updatedAt)
  }

  function Comparator(sort: string, collate: Collation): (Row, Row) -> bool {
    (a: Row, b: Row) => Leq(sort, collate, a, b)
  }

  function ShownTest(status: string, query: string): Row -> bool {
    (row: Row) => Shown(row, status, query)
  }

  function StateTest(states: set<ProposalState>): Row -> bool {
    (row: Row) => row.state in states
  }

  function Visible(rows: seq<Row>, status: string, query: string, sort: string, collate: Collation): seq<Row> {
    Sort(Comparator(sort, collate), Select(rows, ShownTest(status, query)))
  }

  function Count(rows: seq<Row>, states: set<ProposalState>): nat {
    |Select(rows, StateTest(states))|
  }

  /** The tabs with their badges. */
  function Tabs(rows: seq<Row>): seq<(string, nat)> {
    [
      ("all", |rows|),
      ("draft", Count(rows, {Draft, RevisionDraft})),
      ("submitted", Count(rows, {Submitted, Resubmitted, ClarificationSubmitted})),
      ("reviewing", Count(rows, {EligibilityReview, Eligible, Reviewing})),
      ("revision_requested", Count(rows, {RevisionRequested, ClarificationRequested}))
    ]
  }

  // ----- The order -----

  lemma ComparatorsArePreorders(sort: string, collate: Collation)
    requires TotalPreorder(collate)
    ensures TotalPreorder(Comparator(sort, collate))
  {
  }

  /** Whatever the sort mode: the list is the one stable order of the rows that pass the
      filter, so it drops, repeats and invents none. */
  lemma VisibleIsStableOrder(rows: seq<Row>, status: string, query: string,
                             sort: string, collate: Collation, s: seq<Row>)
    requires TotalPreorder(collate)
    ensures var shown := Select(rows, ShownTest(status, query));
            (s == Visible(rows, status, query, sort, collate) <==> StablyOrders(Comparator(sort, collate), shown, s)) &&
            multiset(Visible(rows, status, query, sort, collate)) == multiset(shown)
  {
    var shown := Select(rows, ShownTest(status, query));
    ComparatorsArePreorders(sort, collate);
    SortIsTheStableOrder(Comparator(sort, collate), shown, s);
    SortIsPermutation(Comparator(sort, collate), shown);
  }

  /** In the default mode the rows that need action come first. */
  lemma ActionRowsFirst(rows: seq<Row>, status: string, query: string, sort: string, collate: Collation, i: nat, j: nat)
    requires TotalPreorder(collate) && sort != "updated" && sort != "id"
    requires i < j < |Visible(rows, status, query, sort, collate)|
    requires Visible(rows, status, query, sort, collate)[j].state in ACTION_STATES
    ensures Visible(rows, status, query, sort, collate)[i].state in ACTION_STATES
  {
    ComparatorsArePreorders(sort, collate);
    SortStablyOrders(Comparator(sort, collate), Select(rows, ShownTest(status, query)));
  }

  /** What comes before what, in each mode. */
  lemma VisibleOrder(rows: seq<Row>, status: string, query: string, sort: string, collate: Collation, i: nat, j: nat)
    requires TotalPreorder(collate) && i < j < |Visible(rows, status, query, sort, collate)|
    ensures var visible := Visible(rows, status, query, sort, collate);
            var a, b := visible[i], visible[j];
            if sort == "updated" then collate(b.updatedAt, a.updatedAt)
            else if sort == "id" then collate(a.id, b.id)
            else
              var urgent := {Draft, ClarificationRequested, RevisionRequested, RevisionDraft};
              (b.state in urgent ==> a.state in urgent) &&
              ((a.state in urgent <==> b.state in urgent) ==> collate(b.updatedAt, a.updatedAt))
  {
    ComparatorsArePreorders(sort, collate);
    SortStablyOrders(Comparator(sort, collate), Select(rows, ShownTest(status, query)));
    var visible := Visible(rows, status, query, sort, collate);
    assert Comparator(sort, collate)(visible[i], visible[j]);
  }

  // ----- The filter -----

  /** Which rows are shown: those of the tab whose id, title or publisher, with a space
      between them, contain the text of the query. */
  lemma VisibleRows(rows: seq<Row>, status: string, query: string, sort: string, collate: Collation, row: Row)
    ensures row in Visible(rows, status, query, sort, collate) <==>
            row in rows && InStatus(row, status) &&
            Contains(row.id + " " + (match row.challengeTitle case Some(title) => title case None => "") + " " +
                     (match row.publisherName case Some(name) => name case None => ""), Trim(query))
  {
    var shown := Select(rows, ShownTest(status, query));
    SortIsPermutation(Comparator(sort, collate), shown);
    assert row in Visible(rows, status, query, sort, collate) <==> row in multiset(shown);
    IncludesIsContains(Haystack(row), Trim(query));
  }

  ghost predicate Contains(s: string, word: string) {
    exists front, back :: s == front + word + back
  }

  lemma IncludesIsContains(s: string, word: string)
    ensures Includes(s, word) <==> Contains(s, word)
  {
    if Includes(s, word) {
      var i :| 0 <= i <= |s| && word <= s[i..];
      CutsAt(s, word, i);
    }
    if Contains(s, word) {
      var front, back :| s == front + word + back;
      StandsAt(front, word, back);
    }
  }

  lemma CutsAt(s: string, word: string, i: nat)
    requires i <= |s| && word <= s[i..]
    ensures s == s[..i] + word + s[i..][|word|..]
  {
  }

  lemma StandsAt(front: string, word: string, back: string)
    ensures word <= (front + word + back)[|front|..]
  {
    assert (front + word + back)[|front|..] == word + back;
  }

  /** The four group tabs, and the one for everything. */
  lemma GroupStatus(row: Row)
    ensures InStatus(row, "all")
    ensures InStatus(row, "draft") <==> row.state == Draft || row.state == RevisionDraft
    ensures InStatus(row, "submitted") <==>
            row.state == Submitted || row.state == Resubmitted || row.state == ClarificationSubmitted
    ensures InStatus(row, "reviewing") <==>
            row.state == EligibilityReview || row.state == Eligible || row.state == Reviewing
    ensures InStatus(row, "revision_requested") <==>
            row.state == RevisionRequested || row.state == ClarificationRequested
  {
    GroupLengths();
  }

  lemma GroupLengths()
    ensures |"draft"| == 5 && |"submitted"| == 9 && |"reviewing"| == 9 && |"revision_requested"| == 18 && |"all"| == 3
    ensures "submitted"[0] == 's' && "reviewing"[0] == 'r'
  {
  }

  /** Any other status is a state's own name, and no two states share one. */
  lemma OwnStatus(row: Row, status: string)
    requires status != "all" && status !in STATUS_GROUPS
    ensures InStatus(row, status) <==> Name(row.state) == status
    ensures Name(Eligible) == "eligible" && Name(Ineligible) == "ineligible" && Name(Selected) == "selected"
    ensures Name(Rejected) == "rejected" && Name(Withdrawn) == "withdrawn" && Name(Resubmitted) == "resubmitted"
    ensures Name(RevisionDraft) == "revision_draft" && Name(EligibilityReview) == "eligibility_review"
    ensures Name(ClarificationRequested) == "clarification_requested"
    ensures Name(ClarificationSubmitted) == "clarification_submitted"
  {
  }

  // ----- The badges -----

  lemma EmptyQueryMatches(row: Row, query: string)
    requires Trim(query) == ""
    ensures Includes(Haystack(row), Trim(query))
  {
    assert "" <= Haystack(row)[0..];
  }

  lemma {:induction false} SameFilter(rows: seq<Row>, f: Row -> bool, g: Row -> bool)
    requires forall row :: row in rows ==> f(row) == g(row)
    ensures Select(rows, f) == Select(rows, g)
  {
    if rows != [] {
      SameFilter(rows[1..], f, g);
    }
  }

  lemma {:induction false} FilterAll(rows: seq<Row>, f: Row -> bool)
    requires forall row :: row in rows ==> f(row)
    ensures Select(rows, f) == rows
  {
    if rows != [] {
      FilterAll(rows[1..], f);
    }
  }

  /** With no query, a selected tab shows as many rows as its badge says. */
  lemma BadgeCountsVisible(rows: seq<Row>, tab: nat, query: string, sort: string, collate: Collation)
    requires tab < 5 && Trim(query) == ""
    ensures |Visible(rows, Tabs(rows)[tab].0, query, sort, collate)| == Tabs(rows)[tab].1
  {
    var status := Tabs(rows)[tab].0;
    forall row | row in rows
      ensures Shown(row, status, query) == InStatus(row, status)
    {
      EmptyQueryMatches(row, query);
    }
    if tab == 0 {
      FilterAll(rows, ShownTest(status, query));
    } else {
      TabIsGroup(rows, tab);
      assert status != "all";
      SameFilter(rows, ShownTest(status, query), StateTest(STATUS_GROUPS[status]));
    }
  }

  lemma TabIsGroup(rows: seq<Row>, tab: nat)
    requires 0 < tab < 5
    ensures Tabs(rows)[tab].0 in STATUS_GROUPS && Tabs(rows)[tab].0 != "all"
    ensures Tabs(rows)[tab].1 == Count(rows, STATUS_GROUPS[Tabs(rows)[tab].0])
  {
    assert |"draft"| == 5 && |"submitted"| == 9 && |"reviewing"| == 9 && |"revision_requested"| == 18 && |"all"| == 3;
    assert "submitted"[0] != "reviewing"[0];
  }

  /** No row is on two of the group tabs. */
  lemma GroupsAreDisjoint(row: Row, a: string, b: string)
    requires a in STATUS_GROUPS && b in STATUS_GROUPS && a != b
    ensures !(InStatus(row, a) && InStatus(row, b))
  {
    assert "all" !in STATUS_GROUPS by {
      assert |"draft"| == 5 && |"submitted"| == 9 && |"reviewing"| == 9 && |"revision_requested"| == 18 && |"all"| == 3;
    }
  }

  lemma {:induction false} DisjointCounts(rows: seq<Row>, a: set<ProposalState>, b: set<ProposalState>)
    requires a !! b
    ensures Count(rows, a) + Count(rows, b) == Count(rows, a + b)
  {
    if rows != [] {
      DisjointCounts(rows[1..], a, b);
    }
  }

  lemma {:induction false} FilterShrinks(rows: seq<Row>, keep: Row -> bool)
    ensures |Select(rows, keep)| <= |rows|
  {
    if rows != [] {
      FilterShrinks(rows[1..], keep);
    }
  }

  /** The tabs, from first to last. */
  lemma TabNames(rows: seq<Row>)
    ensures |Tabs(rows)| == 5 && Tabs(rows)[0] == ("all", |rows|) && Tabs(rows)[1].0 == "draft"
    ensures Tabs(rows)[2].0 == "submitted" && Tabs(rows)[3].0 == "reviewing"
    ensures Tabs(rows)[4].0 == "revision_requested"
  {
  }

  /** So the four badges never add up to more than the first. */
  lemma BadgesAddUp(rows: seq<Row>)
    ensures Tabs(rows)[1].1 + Tabs(rows)[2].1 + Tabs(rows)[3].1 + Tabs(rows)[4].1 <= Tabs(rows)[0].1
  {
    var drafts, submitted := {Draft, RevisionDraft}, {Submitted, Resubmitted, ClarificationSubmitted};
    var reviewing, revisions := {EligibilityReview, Eligible, Reviewing}, {RevisionRequested, ClarificationRequested};
    DisjointCounts(rows, drafts, submitted);
    DisjointCounts(rows, drafts + submitted, reviewing);
    DisjointCounts(rows, drafts + submitted + reviewing, revisions);
    FilterShrinks(rows, StateTest(drafts + submitted + reviewing + revisions));
  }
}
