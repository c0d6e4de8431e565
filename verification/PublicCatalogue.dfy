/** The public challenge catalogue of components/public-challenge-catalogue.tsx: a list
    that asks a server for pages, one request overtaking another. Event handlers, and the
    continuation of `load` after its `await`, are atomic steps. */
module PublicCatalogue {
  import opened Text

  type Item = string
  type Cursor = string

  datatype Page = Page(items: seq<Item>, next: Option<Cursor>)

  /** A fixed server: the page it returns for a category and an optional cursor. */
  type Server = (string, Option<Cursor>) -> Page

  datatype Request = Request(category: string, cursor: Option<Cursor>)

  /** JavaScript's truth of a cursor: neither missing nor empty. */
  predicate Truthy(cursor: Option<Cursor>) {
    cursor.Some? && cursor.value != ""
  }

  /** The component's state, and the requests whose replies it still awaits, by the
      generation that `load` gave them. */
  datatype State = State(
    items: seq<Item>,
    activeCategory: string,
    nextCursor: Option<Cursor>,
    loading: bool,
    error: string,
    generation: nat,
    mounted: bool,
    outstanding: map<nat, Request>)

  datatype Outcome = Success | Failure(message: string)

  datatype Event =
    | SubmitFilter(typed: string)
    | ClearFilter
    | Retry
    | LoadMore
    | Respond(generation: nat, outcome: Outcome)
    | Unmount

  /** What `load` does up to its `await`. */
  function Requested(s: State, category: string, cursor: Option<Cursor>): State {
    s.(generation := s.generation + 1,
       loading := true,
       error := "",
       outstanding := s.outstanding[s.generation + 1 := Request(category, if Truthy(cursor) then cursor else None)])
  }

  /** Which buttons the page offers, and which replies can still come. */
  predicate Enabled(s: State, event: Event) {
    match event
    case SubmitFilter(_) => s.mounted
    case ClearFilter => s.mounted && s.activeCategory != ""
    case Retry => s.mounted && s.error != ""
    case LoadMore => s.mounted && Truthy(s.nextCursor) && !s.loading
    case Respond(generation, outcome) =>
      generation in s.outstanding && (outcome.Failure? ==> outcome.message != "")
    case Unmount => s.mounted
  }

  /** What `load` does after its `await`. */
  function Settled(s: State, generation: nat, outcome: Outcome, server: Server): State
    requires generation in s.outstanding
  {
    var request := s.outstanding[generation];
    var t := s.(outstanding := s.outstanding - {generation});
    if generation != s.generation then t
    else match outcome
      case Failure(message) => t.(loading := false, error := message)
      case Success =>
        var page := server(request.category, request.cursor);
        t.(loading := false,
           items := if request.cursor.Some? then s.items + page.items else page.items,
           nextCursor := page.next)
  }

  function Step(s: State, event: Event, server: Server): State
    requires Enabled(s, event)
  {
    match event
    case SubmitFilter(typed) => Requested(s.(items := [], activeCategory := Trim(typed)), Trim(typed), None)
    case ClearFilter => Requested(s.(items := [], activeCategory := ""), "", None)
    case Retry => Requested(s, s.activeCategory, None)
    case LoadMore => Requested(s, s.activeCategory, s.nextCursor)
    case Respond(generation, outcome) => Settled(s, generation, outcome, server)
    case Unmount => s.(generation := s.generation + 1, mounted := false)
  }

  const BLANK := State([], "", None, true, "", 0, true, map[])

  /** The state after the mount effect has asked for the first page. */
  function Initial(): State {
    Requested(BLANK, "", None)
  }

  // ----- The component -----

  class PublicChallengeCatalogue {
    const server: Server
    var items: seq<Item>
    var activeCategory: string
    var nextCursor: Option<Cursor>
    var loading: bool
    var error: string
    var requestGeneration: nat
    var mounted: bool
    var outstanding: map<nat, Request>

    ghost function Now(): State
      reads this
    {
      State(items, activeCategory, nextCursor, loading, error, requestGeneration, mounted, outstanding)
    }

    constructor (server: Server)
      ensures this.server == server && Now() == Initial()
    {
      this.server := server;
      items, activeCategory, nextCursor, loading, error := [], "", None, true, "";
      requestGeneration, mounted, outstanding := 0, true, map[];
      new;
      Load("", None);
    }

    method Load(filter: string, cursor: Option<Cursor>)
      modifies this
      ensures Now() == Requested(old(Now()), filter, cursor)
    {
      requestGeneration := requestGeneration + 1;
      var generation := requestGeneration;
      loading := true;
      error := "";
      var sentCursor := if Truthy(cursor) then cursor else None;
      outstanding := outstanding[generation := Request(filter, sentCursor)];
    }

    /** `typed` is what the input field holds. */
    method SubmitFilter(typed: string)
      requires Enabled(Now(), Event.SubmitFilter(typed))
      modifies this
      ensures Now() == Step(old(Now()), Event.SubmitFilter(typed), server)
    {
      var nextCategory := Trim(typed);
      items := [];
      activeCategory := nextCategory;
      Load(nextCategory, None);
    }

    method ClearFilter()
      requires Enabled(Now(), Event.ClearFilter)
      modifies this
      ensures Now() == Step(old(Now()), Event.ClearFilter, server)
    {
      items := [];
      activeCategory := "";
      Load("", None);
    }

    method Retry()
      requires Enabled(Now(), Event.Retry)
      modifies this
      ensures Now() == Step(old(Now()), Event.Retry, server)
    {
      Load(activeCategory, None);
    }

    method LoadMore()
      requires Enabled(Now(), Event.LoadMore)
      modifies this
      ensures Now() == Step(old(Now()), Event.LoadMore, server)
    {
      Load(activeCategory, nextCursor);
    }

    /** The continuation of the `load` call of the given generation. */
    method Resume(generation: nat, outcome: Outcome)
      requires Enabled(Now(), Respond(generation, outcome))
      modifies this
      ensures Now() == Step(old(Now()), Respond(generation, outcome), server)
    {
      var request := outstanding[generation];
      outstanding := outstanding - {generation};
      if generation != requestGeneration {
        return;
      }
      loading := false;
      if outcome.Failure? {
        error := outcome.message;
        return;
      }
      var page := server(request.category, request.cursor);
      items := if request.cursor.Some? then items + page.items else page.items;
      nextCursor := page.next;
    }

    method Unmount()
      requires Enabled(Now(), Event.Unmount)
      modifies this
      ensures Now() == Step(old(Now()), Event.Unmount, server)
    {
      requestGeneration := requestGeneration + 1;
      mounted := false;
    }
  }

  // ----- Runs against a fixed server -----

  ghost predicate Possible(s: State, events: seq<Event>, server: Server)
    decreases |events|
  {
    events != [] ==> Enabled(s, events[0]) && Possible(Step(s, events[0], server), events[1..], server)
  }

  function Run(s: State, events: seq<Event>, server: Server): State
    requires Possible(s, events, server)
    decreases |events|
  {
    if events == [] then s else Run(Step(s, events[0], server), events[1..], server)
  }

  /** The cursor of the page after the first k pages that start at `start`. */
  function CursorAfter(server: Server, category: string, start: Option<Cursor>, k: nat): Option<Cursor> {
    if k == 0 then start else server(category, CursorAfter(server, category, start, k - 1)).next
  }

  /** The first k pages from `start` on, in order. */
  function PagesFrom(server: Server, category: string, start: Option<Cursor>, k: nat): seq<Item> {
    if k == 0 then []
    else PagesFrom(server, category, start, k - 1) +
         server(category, CursorAfter(server, category, start, k - 1)).items
  }

  /** How the list came about since the filter last changed: so many pages, the first of
      them at `start`. No start is the server's first page. */
  datatype Progress = Progress(start: Option<Cursor>, pages: nat)

  /** A load's reply that still counts. */
  predicate Lands(s: State, event: Event) {
    event.Respond? && event.generation == s.generation && event.generation in s.outstanding && event.outcome.Success?
  }

  function Progressed(p: Progress, s: State, event: Event): Progress {
    if event.SubmitFilter? || event.ClearFilter? then Progress(None, 0)
    else if Lands(s, event) then
      var cursor := s.outstanding[event.generation].cursor;
      if cursor.None? then Progress(None, 1)
      else if p.pages == 0 then Progress(cursor, 1)
      else Progress(p.start, p.pages + 1)
    else p
  }

  function ProgressOf(p: Progress, s: State, events: seq<Event>, server: Server): Progress
    requires Possible(s, events, server)
    decreases |events|
  {
    if events == [] then p
    else ProgressOf(Progressed(p, s, events[0]), Step(s, events[0], server), events[1..], server)
  }

  /** The newest request, while it is on its way, asks for the active category, and for
      the first page or for the one at the cursor in hand. */
  predicate NewestIsCurrent(s: State) {
    s.mounted && s.generation in s.outstanding ==>
      var request := s.outstanding[s.generation];
      request.category == s.activeCategory && (request.cursor.Some? ==> request.cursor == s.nextCursor)
  }

  ghost predicate Inv(s: State, p: Progress, server: Server) {
    && (forall g :: g in s.outstanding ==> g <= s.generation)
    && (!s.mounted ==> s.generation !in s.outstanding)
    && (s.mounted ==> (s.loading <==> s.generation in s.outstanding))
    && (s.error != "" && s.mounted ==> !s.loading)
    && NewestIsCurrent(s)
    && s.items == PagesFrom(server, s.activeCategory, p.start, p.pages)
    && (p.pages > 0 ==> s.nextCursor == CursorAfter(server, s.activeCategory, p.start, p.pages))
  }

  lemma InitialInv(server: Server)
    ensures Inv(Initial(), Progress(None, 0), server)
  {
  }

  lemma StepInv(s: State, p: Progress, event: Event, server: Server)
    requires Inv(s, p, server) && Enabled(s, event)
    ensures Inv(Step(s, event, server), Progressed(p, s, event), server)
  {
    if Lands(s, event) {
      LandingInv(s, p, event, server);
    }
  }

  lemma LandingInv(s: State, p: Progress, event: Event, server: Server)
    requires Inv(s, p, server) && Enabled(s, event) && Lands(s, event)
    ensures Inv(Step(s, event, server), Progressed(p, s, event), server)
  {
    var category := s.activeCategory;
    var cursor := s.outstanding[event.generation].cursor;
    assert s.mounted;
    if cursor.None? {
      assert PagesFrom(server, category, None, 0) + server(category, None).items == server(category, None).items;
      assert CursorAfter(server, category, None, 1) == server(category, CursorAfter(server, category, None, 0)).next;
    } else if p.pages == 0 {
      assert PagesFrom(server, category, cursor, 0) + server(category, cursor).items == server(category, cursor).items;
      assert CursorAfter(server, category, cursor, 1) ==
             server(category, CursorAfter(server, category, cursor, 0)).next;
    }
  }

  lemma {:induction false} RunInv(s: State, p: Progress, events: seq<Event>, server: Server)
    requires Inv(s, p, server) && Possible(s, events, server)
    ensures Inv(Run(s, events, server), ProgressOf(p, s, events, server), server)
    decreases |events|
  {
    if events != [] {
      StepInv(s, p, events[0], server);
      RunInv(Step(s, events[0], server), Progressed(p, s, events[0]), events[1..], server);
    }
  }

  /** Whatever the order of the replies, and however many fail or never come: the list is
      a run of consecutive pages of the active category, the cursor in hand is that of the
      page after them, and the list is loading exactly while its newest request is out. */
  lemma ListIsConsecutivePages(events: seq<Event>, server: Server)
    requires Possible(Initial(), events, server)
    ensures var s, p := Run(Initial(), events, server), ProgressOf(Progress(None, 0), Initial(), events, server);
            && s.items == PagesFrom(server, s.activeCategory, p.start, p.pages)
            && (p.pages > 0 ==> s.nextCursor == CursorAfter(server, s.activeCategory, p.start, p.pages))
            && (s.mounted ==> (s.loading <==> s.generation in s.outstanding))
  {
    InitialInv(server);
    RunInv(Initial(), Progress(None, 0), events, server);
  }

  // ----- What the user has chosen -----

  /** The filter in force: the one typed last, less the space around it, or none at first
      and after it has been cleared. */
  function Chosen(category: string, events: seq<Event>): string
    decreases |events|
  {
    if events == [] then category
    else
      match events[0]
      case SubmitFilter(typed) => Chosen(Trim(typed), events[1..])
      case ClearFilter => Chosen("", events[1..])
      case _ => Chosen(category, events[1..])
  }

  lemma {:induction false} CategoryFollows(s: State, events: seq<Event>, server: Server)
    requires Possible(s, events, server)
    ensures Run(s, events, server).activeCategory == Chosen(s.activeCategory, events)
    decreases |events|
  {
    if events != [] {
      CategoryFollows(Step(s, events[0], server), events[1..], server);
    }
  }

  /** In every run the active category is the one that the user has chosen. */
  lemma CategoryIsChosen(events: seq<Event>, server: Server)
    requires Possible(Initial(), events, server)
    ensures Run(Initial(), events, server).activeCategory == Chosen("", events)
  {
    CategoryFollows(Initial(), events, server);
  }

  /** What each button asks for, in every run: the first page of the filter typed, of no
      filter, or of the filter chosen before; or the page of that filter at the cursor that
      the last page came with. Applying or clearing a filter also empties the list. */
  lemma ButtonsAskForChosen(events: seq<Event>, event: Event, server: Server)
    requires Possible(Initial(), events, server) && Enabled(Run(Initial(), events, server), event)
    requires !event.Respond? && !event.Unmount?
    ensures var s := Run(Initial(), events, server);
            var t := Step(s, event, server);
            && t.generation in t.outstanding && t.generation !in s.outstanding && t.loading && t.error == ""
            && t.items == (if event.SubmitFilter? || event.ClearFilter? then [] else s.items)
    ensures var s := Run(Initial(), events, server);
            var t := Step(s, event, server);
            t.outstanding[t.generation] ==
            match event
            case SubmitFilter(typed) => Request(Trim(typed), None)
            case ClearFilter => Request("", None)
            case Retry => Request(Chosen("", events), None)
            case _ => Request(Chosen("", events), s.nextCursor)
  {
    CategoryIsChosen(events, server);
    InitialInv(server);
    RunInv(Initial(), Progress(None, 0), events, server);
  }

  // ----- When the list starts at the first page -----

  predicate ShowsFirstPages(s: State, server: Server, k: nat) {
    s.items == PagesFrom(server, s.activeCategory, None, k)
  }

  /** The list is some number of first pages of the active category. */
  ghost predicate StartsAtFirstPage(s: State, server: Server) {
    exists k: nat :: ShowsFirstPages(s, server, k)
  }

  /** A filter has been applied, and its first page has not arrived yet. */
  predicate Awaiting(p: Progress) {
    p.pages == 0
  }

  /** No "load more" is pressed while the first page of the filter is missing. */
  ghost predicate Patient(p: Progress, s: State, events: seq<Event>, server: Server)
    requires Possible(s, events, server)
    decreases |events|
  {
    events != [] ==>
      (events[0].LoadMore? ==> !Awaiting(p)) &&
      Patient(Progressed(p, s, events[0]), Step(s, events[0], server), events[1..], server)
  }

  /** Follow-up pages are only asked for after a first page. */
  predicate Anchored(s: State, p: Progress) {
    p.start.None? && (s.generation in s.outstanding && s.outstanding[s.generation].cursor.Some? ==> p.pages > 0)
  }

  lemma {:induction false} PatientRunAnchored(s: State, p: Progress, events: seq<Event>, server: Server)
    requires Inv(s, p, server) && Anchored(s, p) && Possible(s, events, server) && Patient(p, s, events, server)
    ensures ProgressOf(p, s, events, server).start.None?
    decreases |events|
  {
    if events != [] {
      StepInv(s, p, events[0], server);
      PatientRunAnchored(Step(s, events[0], server), Progressed(p, s, events[0]), events[1..], server);
    }
  }

  /** With patience, the list is always the first pages of the active category, without a
      gap or a repeat. */
  lemma PatientListStartsAtFirstPage(events: seq<Event>, server: Server)
    requires Possible(Initial(), events, server) && Patient(Progress(None, 0), Initial(), events, server)
    ensures StartsAtFirstPage(Run(Initial(), events, server), server)
  {
    InitialInv(server);
    RunInv(Initial(), Progress(None, 0), events, server);
    PatientRunAnchored(Initial(), Progress(None, 0), events, server);
    assert ShowsFirstPages(Run(Initial(), events, server), server,
                           ProgressOf(Progress(None, 0), Initial(), events, server).pages);
  }

  // ----- A first page that has arrived -----

  /** Whether a first page has arrived since the filter last changed. */
  predicate FirstPageArrives(arrived: bool, s: State, event: Event) {
    if event.SubmitFilter? || event.ClearFilter? then false
    else arrived || (Lands(s, event) && s.outstanding[event.generation].cursor.None?)
  }

  predicate FirstPageArrived(arrived: bool, s: State, events: seq<Event>, server: Server)
    requires Possible(s, events, server)
    decreases |events|
  {
    if events == [] then arrived
    else FirstPageArrived(FirstPageArrives(arrived, s, events[0]), Step(s, events[0], server), events[1..], server)
  }

  /** At least one first page of the active category, and the cursor after them. */
  ghost predicate HoldsFirstPages(s: State, server: Server) {
    exists k: nat :: k > 0 && ShowsFirstPages(s, server, k) &&
      s.nextCursor == CursorAfter(server, s.activeCategory, None, k)
  }

  lemma {:induction false} ArrivedRunStartsThere(arrived: bool, s: State, p: Progress, events: seq<Event>,
                                                 server: Server)
    requires Inv(s, p, server) && Possible(s, events, server)
    requires arrived ==> p.start.None? && p.pages > 0
    ensures FirstPageArrived(arrived, s, events, server) ==>
              ProgressOf(p, s, events, server).start.None? && ProgressOf(p, s, events, server).pages > 0
    decreases |events|
  {
    if events != [] {
      StepInv(s, p, events[0], server);
      ArrivedRunStartsThere(FirstPageArrives(arrived, s, events[0]), Step(s, events[0], server),
                            Progressed(p, s, events[0]), events[1..], server);
    }
  }

  /** With or without patience: once a first page has arrived since the filter changed, by
      a retry say, list and cursor are right and stay so. */
  lemma FirstPageSetsRight(events: seq<Event>, server: Server)
    requires Possible(Initial(), events, server) && FirstPageArrived(false, Initial(), events, server)
    ensures HoldsFirstPages(Run(Initial(), events, server), server)
  {
    InitialInv(server);
    RunInv(Initial(), Progress(None, 0), events, server);
    ArrivedRunStartsThere(false, Initial(), Progress(None, 0), events, server);
    assert ShowsFirstPages(Run(Initial(), events, server), server,
                           ProgressOf(Progress(None, 0), Initial(), events, server).pages);
  }

  // ----- Exactly when the first page is lost -----

  lemma {:induction false} FirstItem(server: Server, category: string, start: Option<Cursor>, k: nat)
    requires server(category, start).items != [] && k > 0
    ensures PagesFrom(server, category, start, k) != []
    ensures PagesFrom(server, category, start, k)[0] == server(category, start).items[0]
  {
    if k > 1 {
      FirstItem(server, category, start, k - 1);
    }
  }

  /** The page at the cursor can be told from the first page: neither is empty, and they
      begin with different items. */
  predicate StandsOut(server: Server, category: string, cursor: Option<Cursor>) {
    && server(category, None).items != [] && server(category, cursor).items != []
    && server(category, None).items[0] != server(category, cursor).items[0]
  }

  lemma LaterStartIsNoFirstPage(s: State, server: Server, start: Option<Cursor>, k: nat)
    requires StandsOut(server, s.activeCategory, start) && k > 0
    requires s.items == PagesFrom(server, s.activeCategory, start, k)
    ensures !StartsAtFirstPage(s, server)
  {
    FirstItem(server, s.activeCategory, start, k);
    forall m: nat
      ensures !ShowsFirstPages(s, server, m)
    {
      if m > 0 {
        FirstItem(server, s.activeCategory, None, m);
      }
    }
  }

  /** A reply to "load more" that lands on an empty list loses the first page, until the
      filter changes or a first page arrives. */
  predicate LosesFirstPage(lost: bool, s: State, event: Event) {
    if event.SubmitFilter? || event.ClearFilter? then false
    else if Lands(s, event) then s.outstanding[event.generation].cursor.Some? && (lost || s.items == [])
    else lost
  }

  predicate FirstPageLost(lost: bool, s: State, events: seq<Event>, server: Server)
    requires Possible(s, events, server)
    decreases |events|
  {
    if events == [] then lost
    else FirstPageLost(LosesFirstPage(lost, s, events[0]), Step(s, events[0], server), events[1..], server)
  }

  /** A page that lands on an empty list in answer to "load more" can be told from the
      first page. Nothing is asked of any other page. */
  predicate Tells(s: State, event: Event, server: Server) {
    Lands(s, event) && s.outstanding[event.generation].cursor.Some? && s.items == [] ==>
      StandsOut(server, s.activeCategory, s.outstanding[event.generation].cursor)
  }

  predicate Telling(s: State, events: seq<Event>, server: Server)
    requires Possible(s, events, server)
    decreases |events|
  {
    events != [] ==> Tells(s, events[0], server) && Telling(Step(s, events[0], server), events[1..], server)
  }

  predicate StartedLater(s: State, p: Progress, server: Server) {
    p.pages > 0 && p.start.Some? && StandsOut(server, s.activeCategory, p.start)
  }

  lemma {:induction false} LostMeansLaterStart(lost: bool, s: State, p: Progress, events: seq<Event>, server: Server)
    requires Inv(s, p, server) && Possible(s, events, server) && Telling(s, events, server)
    requires if lost then StartedLater(s, p, server) else p.start.None? || p.pages == 0
    ensures var t, q := Run(s, events, server), ProgressOf(p, s, events, server);
            if FirstPageLost(lost, s, events, server) then StartedLater(t, q, server)
            else q.start.None? || q.pages == 0
    decreases |events|
  {
    if events != [] {
      StepInv(s, p, events[0], server);
      if p.pages > 0 && server(s.activeCategory, p.start).items != [] {
        FirstItem(server, s.activeCategory, p.start, p.pages);
      }
      LostMeansLaterStart(LosesFirstPage(lost, s, events[0]), Step(s, events[0], server),
                          Progressed(p, s, events[0]), events[1..], server);
    }
  }

  /** Over every run against any server: the list shows first pages if and only if no "load
      more" was answered onto an empty list since they last arrived, as long as such answers
      can be told from first pages. */
  lemma ListStartsAtFirstPageExactly(events: seq<Event>, server: Server)
    requires Possible(Initial(), events, server) && Telling(Initial(), events, server)
    ensures StartsAtFirstPage(Run(Initial(), events, server), server) <==>
            !FirstPageLost(false, Initial(), events, server)
  {
    var s, p := Run(Initial(), events, server), ProgressOf(Progress(None, 0), Initial(), events, server);
    InitialInv(server);
    RunInv(Initial(), Progress(None, 0), events, server);
    LostMeansLaterStart(false, Initial(), Progress(None, 0), events, server);
    if FirstPageLost(false, Initial(), events, server) {
      LaterStartIsNoFirstPage(s, server, p.start, p.pages);
    } else {
      assert ShowsFirstPages(s, server, p.pages);
    }
  }

  /** What can be seen before pressing, in every reachable state against any server: with
      first pages in the list or nothing at all, pressing "load more" and its reply keep
      that if and only if the list is not empty, as long as the reply to an empty list can
      be told from a first page. */
  lemma LoadMoreKeepsFirstPagesExactly(events: seq<Event>, server: Server)
    requires Possible(Initial(), events, server)
    requires Enabled(Run(Initial(), events, server), LoadMore)
    requires var s := Run(Initial(), events, server);
             if s.items == [] then StandsOut(server, s.activeCategory, s.nextCursor) else HoldsFirstPages(s, server)
    ensures var s := Run(Initial(), events, server);
            var t := Step(s, LoadMore, server);
            Enabled(t, Respond(t.generation, Success)) &&
            (StartsAtFirstPage(Step(t, Respond(t.generation, Success), server), server) <==> s.items != [])
  {
    var s := Run(Initial(), events, server);
    var t := Step(s, LoadMore, server);
    var u := Step(t, Respond(t.generation, Success), server);
    if s.items == [] {
      assert CursorAfter(server, s.activeCategory, s.nextCursor, 0) == s.nextCursor;
      assert u.items == PagesFrom(server, s.activeCategory, s.nextCursor, 1);
      LaterStartIsNoFirstPage(u, server, s.nextCursor, 1);
    } else {
      var k: nat :| k > 0 && ShowsFirstPages(s, server, k) &&
        s.nextCursor == CursorAfter(server, s.activeCategory, None, k);
      assert ShowsFirstPages(u, server, k + 1);
    }
  }

  function SampleServer(category: string, cursor: Option<Cursor>): Page {
    if category == "" then Page(["open-1"], Some("c"))
    else if cursor == None then Page(["energy-1"], Some("d"))
    else Page(["energy-9"], None)
  }

  lemma {:induction false} StartsWithFirst(k: nat)
    ensures k > 0 ==> PagesFrom(SampleServer, "energy", None, k) != [] &&
                      PagesFrom(SampleServer, "energy", None, k)[0] == "energy-1"
  {
    if k > 1 {
      StartsWithFirst(k - 1);
    }
  }

  lemma MissesFirstPage(s: State)
    requires s.items == ["energy-9"] && s.activeCategory == "energy"
    ensures !StartsAtFirstPage(s, SampleServer)
  {
    forall k: nat
      ensures !ShowsFirstPages(s, SampleServer, k)
    {
      StartsWithFirst(k);
    }
  }

  lemma RunCons(s: State, event: Event, rest: seq<Event>, server: Server)
    requires Enabled(s, event) && Possible(Step(s, event, server), rest, server)
    ensures Possible(s, [event] + rest, server)
    ensures Run(s, [event] + rest, server) == Run(Step(s, event, server), rest, server)
    ensures Tells(s, event, server) && Telling(Step(s, event, server), rest, server) ==>
              Telling(s, [event] + rest, server)
  {
    assert ([event] + rest)[1..] == rest;
  }

  /** The filter is applied to a list with a cursor in hand. */
  const FILTERED := State([], "energy", Some("c"), true, "", 2, true, map[2 := Request("energy", None)])

  lemma EnergyIsTrimmed()
    ensures Trim("energy") == "energy"
  {
  }

  lemma SampleIsFiltered()
    ensures Enabled(Initial(), Respond(1, Success))
    ensures Step(Step(Initial(), Respond(1, Success), SampleServer), SubmitFilter("energy"), SampleServer) == FILTERED
  {
    EnergyIsTrimmed();
  }

  /** Its first page fails, and "load more" is pressed. */
  lemma FilteredMissesFirstPage()
    ensures var events := [Respond(2, Failure("offline")), LoadMore, Respond(3, Success)];
            Possible(FILTERED, events, SampleServer) &&
            Telling(FILTERED, events, SampleServer) &&
            Run(FILTERED, events, SampleServer).items == ["energy-9"] &&
            Run(FILTERED, events, SampleServer).activeCategory == "energy"
  {
    var e3, e4, e5 := Respond(2, Failure("offline")), LoadMore, Respond(3, Success);
    var s3 := Step(FILTERED, e3, SampleServer);
    assert s3.error == "offline" && s3.nextCursor == Some("c") && s3.items == [];
    var s4 := Step(s3, e4, SampleServer);
    assert s4.outstanding[3] == Request("energy", Some("c"));
    RunCons(s4, e5, [], SampleServer);
    RunCons(s3, e4, [e5], SampleServer);
    RunCons(FILTERED, e3, [e4, e5], SampleServer);
    assert [e5] == [e5] + [] && [e4, e5] == [e4] + [e5] && [e3, e4, e5] == [e3] + [e4, e5];
  }

  /** Impatience really does harm: a failed first page, then "load more". The run is one
      that the theorems above speak of. */
  lemma ImpatientListMissesFirstPage()
    ensures var events := [Respond(1, Success), SubmitFilter("energy"), Respond(2, Failure("offline")),
                          LoadMore, Respond(3, Success)];
            Possible(Initial(), events, SampleServer) && Telling(Initial(), events, SampleServer) &&
            Run(Initial(), events, SampleServer).items == ["energy-9"] &&
            !StartsAtFirstPage(Run(Initial(), events, SampleServer), SampleServer)
  {
    var e1, e2, rest :=
      Respond(1, Success), SubmitFilter("energy"), [Respond(2, Failure("offline")), LoadMore, Respond(3, Success)];
    SampleIsFiltered();
    FilteredMissesFirstPage();
    RunCons(Step(Initial(), e1, SampleServer), e2, rest, SampleServer);
    RunCons(Initial(), e1, [e2] + rest, SampleServer);
    MissesFirstPage(Run(FILTERED, rest, SampleServer));
    assert [e1] + ([e2] + rest) ==
           [Respond(1, Success), SubmitFilter("energy"), Respond(2, Failure("offline")), LoadMore, Respond(3, Success)];
  }

  // ----- When a retry is offered -----

  /** The message with which the newest request has failed, if it has. */
  function NewestFailure(message: string, s: State, event: Event): string {
    match event
    case Respond(generation, outcome) =>
      if generation != s.generation then message else if outcome.Failure? then outcome.message else ""
    case Unmount => message
    case _ => ""
  }

  function FailureAfter(message: string, s: State, events: seq<Event>, server: Server): string
    requires Possible(s, events, server)
    decreases |events|
  {
    if events == [] then message
    else FailureAfter(NewestFailure(message, s, events[0]), Step(s, events[0], server), events[1..], server)
  }

  lemma {:induction false} ErrorMeansFailed(s: State, events: seq<Event>, server: Server)
    requires Possible(s, events, server)
    requires forall g :: g in s.outstanding ==> g <= s.generation
    requires s.generation in s.outstanding ==> s.error == ""
    requires !s.mounted ==> s.generation !in s.outstanding
    ensures Run(s, events, server).error == FailureAfter(s.error, s, events, server)
    decreases |events|
  {
    if events != [] {
      ErrorMeansFailed(Step(s, events[0], server), events[1..], server);
    }
  }

  /** The error, and with it the retry, is there exactly when the newest request has failed,
      and says what that request's failure said. */
  lemma RetryIsOfferedAfterFailure(events: seq<Event>, server: Server)
    requires Possible(Initial(), events, server)
    ensures Run(Initial(), events, server).error == FailureAfter("", Initial(), events, server)
    ensures Run(Initial(), events, server).mounted ==>
              (Enabled(Run(Initial(), events, server), Retry) <==> FailureAfter("", Initial(), events, server) != "")
  {
    ErrorMeansFailed(Initial(), events, server);
  }

  // ----- Overtaken replies -----

  /** The run without the replies that no longer count. */
  function Pruned(s: State, events: seq<Event>, server: Server): seq<Event>
    requires Possible(s, events, server)
    decreases |events|
  {
    if events == [] then []
    else
      var rest := Pruned(Step(s, events[0], server), events[1..], server);
      if events[0].Respond? && events[0].generation != s.generation then rest else [events[0]] + rest
  }

  /** Equal but for requests that have been overtaken. */
  ghost predicate SameDisplay(s: State, t: State) {
    && (forall g :: g in s.outstanding || g in t.outstanding ==> g <= s.generation)
    && t == s.(outstanding := t.outstanding)
    && (s.generation in s.outstanding <==> s.generation in t.outstanding)
    && (s.generation in s.outstanding ==> s.outstanding[s.generation] == t.outstanding[s.generation])
  }

  /** Overtaken replies are as good as lost: without them the list shows the same. */
  lemma {:induction false} OvertakenRepliesDoNotMatter(s: State, t: State, events: seq<Event>, server: Server)
    requires Possible(s, events, server) && SameDisplay(s, t)
    ensures Possible(t, Pruned(s, events, server), server)
    ensures SameDisplay(Run(s, events, server), Run(t, Pruned(s, events, server), server))
    decreases |events|
  {
    if events != [] {
      var event := events[0];
      var next := Step(s, event, server);
      if event.Respond? && event.generation != s.generation {
        OvertakenRepliesDoNotMatter(next, t, events[1..], server);
      } else {
        OvertakenRepliesDoNotMatter(next, Step(t, event, server), events[1..], server);
        assert ([event] + Pruned(next, events[1..], server))[1..] == Pruned(next, events[1..], server);
      }
    }
  }
}
