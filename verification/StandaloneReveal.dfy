/** The reveal protocol of app/page.tsx: after every navigation a chain of animation frames
    waits for the new route to be on the page, then raises the ready flag. Navigations
    supersede one another, and frames that were asked for cannot be taken back. */
module StandaloneReveal {
  import opened Text

  const LAST_ATTEMPT := 240

  /** What a pending frame callback has closed over. */
  datatype Frame = Frame(expectedKey: string, generation: nat, attempt: nat)

  /** `target` is the key of the latest navigation; `pending` are the callbacks that the
      browser has not run yet, by the number `requestAnimationFrame` returned. */
  datatype State = State(
    generation: nat,
    revealFrame: nat,
    ready: bool,
    mounted: bool,
    target: string,
    pending: map<nat, Frame>,
    requested: nat)

  /** What a callback finds on the page: the committed key, if the root is there, and
      whether a loading fallback is shown. */
  datatype Page = Page(committed: Option<string>, loading: bool)

  datatype Event = Navigate(key: string) | RunFrame(id: nat, page: Page) | Unmount

  predicate Enabled(s: State, event: Event) {
    match event
    case Navigate(_) => s.mounted
    case RunFrame(id, _) => id in s.pending
    case Unmount => s.mounted
  }

  predicate Settled(f: Frame, page: Page) {
    page.committed == Some(f.expectedKey) && !page.loading
  }

  function Scheduled(s: State, f: Frame): State {
    s.(pending := s.pending[s.requested := f], revealFrame := s.requested, requested := s.requested + 1)
  }

  function Step(s: State, event: Event): State
    requires Enabled(s, event)
  {
    match event
    case Navigate(key) =>
      Scheduled(s.(ready := false, generation := s.generation + 1, target := key), Frame(key, s.generation + 1, 0))
    case RunFrame(id, page) =>
      var f := s.pending[id];
      var t := s.(pending := s.pending - {id});
      if f.generation != s.generation then t
      else if Settled(f, page) || f.attempt >= LAST_ATTEMPT then t.(ready := true)
      else Scheduled(t, f.(attempt := f.attempt + 1))
    case Unmount =>
      s.(generation := s.generation + 1, mounted := false, pending := s.pending - {s.revealFrame})
  }

  const START := State(0, 0, false, true, "", map[], 1)

  // ----- The effect -----

  class HomePageEffect {
    var revealGeneration: nat
    var revealFrame: nat
    var standaloneReady: bool
    var mounted: bool
    var pending: map<nat, Frame>
    var requested: nat
    ghost var target: string

    ghost function Now(): State
      reads this
    {
      State(revealGeneration, revealFrame, standaloneReady, mounted, target, pending, requested)
    }

    constructor ()
      ensures Now() == START
    {
      revealGeneration, revealFrame, standaloneReady, mounted := 0, 0, false, true;
      pending, requested, target := map[], 1, "";
    }

    method RevealWhenCommitted(expectedKey: string, generation: nat, attempt: nat)
      modifies this
      ensures Now() == Scheduled(old(Now()), Frame(expectedKey, generation, attempt))
    {
      pending := pending[requested := Frame(expectedKey, generation, attempt)];
      revealFrame := requested;
      requested := requested + 1;
    }

    /** `sync` with the `commit` it ends in, for the route with the given key. */
    method Sync(key: string)
      requires Enabled(Now(), Navigate(key))
      modifies this
      ensures Now() == Step(old(Now()), Navigate(key))
    {
      standaloneReady := false;
      revealGeneration := revealGeneration + 1;
      var generation := revealGeneration;
      target := key;
      RevealWhenCommitted(key, generation, 0);
    }

    method OnFrame(id: nat, page: Page)
      requires Enabled(Now(), RunFrame(id, page))
      modifies this
      ensures Now() == Step(old(Now()), RunFrame(id, page))
    {
      var frame := pending[id];
      pending := pending - {id};
      var routeCommitted := page.committed == Some(frame.expectedKey);
      var routeResolved := !page.loading;
      if frame.generation != revealGeneration {
        return;
      }
      if (routeCommitted && routeResolved) || frame.attempt >= LAST_ATTEMPT {
        standaloneReady := true;
        return;
      }
      RevealWhenCommitted(frame.expectedKey, frame.generation, frame.attempt + 1);
    }

    method Cleanup()
      requires Enabled(Now(), Unmount)
      modifies this
      ensures Now() == Step(old(Now()), Unmount)
    {
      revealGeneration := revealGeneration + 1;
      mounted := false;
      pending := pending - {revealFrame};
    }
  }

  // ----- Runs -----

  ghost predicate Possible(s: State, events: seq<Event>)
    decreases |events|
  {
    events != [] ==> Enabled(s, events[0]) && Possible(Step(s, events[0]), events[1..])
  }

  function Run(s: State, events: seq<Event>): State
    requires Possible(s, events)
    decreases |events|
  {
    if events == [] then s else Run(Step(s, events[0]), events[1..])
  }

  /** One pending callback a generation at most; that of the current one is for the latest
      navigation and is the one that `revealFrame` names. */
  ghost predicate Inv(s: State) {
    && s.revealFrame < s.requested
    && (forall id :: id in s.pending ==>
          id < s.requested && s.pending[id].generation <= s.generation && s.pending[id].attempt <= LAST_ATTEMPT)
    && (forall id, id' ::
          id in s.pending && id' in s.pending && s.pending[id].generation == s.pending[id'].generation ==>
          id == id')
    && (forall id :: id in s.pending && s.pending[id].generation == s.generation ==>
          s.mounted && id == s.revealFrame && s.pending[id].expectedKey == s.target && !s.ready)
    && (s.mounted && s.revealFrame in s.pending ==> s.pending[s.revealFrame].generation == s.generation)
  }

  lemma StepInv(s: State, event: Event)
    requires Inv(s) && Enabled(s, event)
    ensures Inv(Step(s, event))
  {
  }

  lemma {:induction false} RunInv(s: State, events: seq<Event>)
    requires Inv(s) && Possible(s, events)
    ensures Inv(Run(s, events))
    decreases |events|
  {
    if events != [] {
      StepInv(s, events[0]);
      RunInv(Step(s, events[0]), events[1..]);
    }
  }

  /** In every run the flag is raised only for the latest navigation of a mounted page, and
      only once its key is committed without a loading fallback or its attempts are used up. */
  lemma RaisedForLatestOnly(events: seq<Event>, event: Event)
    requires Possible(START, events) && Enabled(Run(START, events), event)
    requires var s := Run(START, events); !s.ready && Step(s, event).ready
    ensures var s := Run(START, events);
            event.RunFrame? && s.mounted &&
            ((event.page.committed == Some(s.target) && !event.page.loading) ||
             s.pending[event.id].attempt == LAST_ATTEMPT)
  {
    RunInv(START, events);
  }

  /** In every run, exactly when the flag is up after one more step: a navigation lowers it;
      a frame of the latest navigation raises it if it finds that navigation's key committed
      and no loading fallback, or is its two hundred and forty-first; all else leaves it. */
  lemma ReadyExactly(events: seq<Event>, event: Event)
    requires Possible(START, events) && Enabled(Run(START, events), event)
    ensures var s := Run(START, events);
            Step(s, event).ready <==>
              match event
              case Navigate(_) => false
              case RunFrame(id, page) =>
                s.ready ||
                (s.pending[id].generation == s.generation &&
                 ((page.committed == Some(s.target) && !page.loading) || s.pending[id].attempt == 240))
              case Unmount => s.ready
  {
    RunInv(START, events);
  }

  /** The key of the latest navigation: what the frames wait for. */
  function LatestKey(key: string, events: seq<Event>): string
    decreases |events|
  {
    if events == [] then key
    else LatestKey(if events[0].Navigate? then events[0].key else key, events[1..])
  }

  lemma {:induction false} TargetIsLatest(s: State, events: seq<Event>)
    requires Possible(s, events)
    ensures Run(s, events).target == LatestKey(s.target, events)
    decreases |events|
  {
    if events != [] {
      TargetIsLatest(Step(s, events[0]), events[1..]);
    }
  }

  /** Unmounting takes back the frame of the latest navigation, if it is pending, and no
      other. */
  lemma UnmountCancelsLatest(events: seq<Event>, id: nat)
    requires Possible(START, events) && Run(START, events).mounted && id in Run(START, events).pending
    ensures var s := Run(START, events);
            id in Step(s, Unmount).pending <==> s.pending[id].generation != s.generation
  {
    RunInv(START, events);
  }

  /** Once unmounted, the flag never changes again. */
  lemma {:induction false} UnmountedNeverReveals(s: State, events: seq<Event>)
    requires Inv(s) && !s.mounted && Possible(s, events)
    ensures Run(s, events).ready == s.ready
    decreases |events|
  {
    if events != [] {
      StepInv(s, events[0]);
      UnmountedNeverReveals(Step(s, events[0]), events[1..]);
    }
  }

  // ----- How long a chain is -----

  predicate Fires(s: State, event: Event, generation: nat) {
    event.RunFrame? && event.id in s.pending && s.pending[event.id].generation == generation
  }

  /** How many callbacks of the generation a run fires. */
  function Fired(s: State, events: seq<Event>, generation: nat): nat
    requires Possible(s, events)
    decreases |events|
  {
    if events == [] then 0
    else (if Fires(s, events[0], generation) then 1 else 0) + Fired(Step(s, events[0]), events[1..], generation)
  }

  ghost predicate HasFrame(s: State, generation: nat) {
    exists id :: id in s.pending && s.pending[id].generation == generation
  }

  /** How many callbacks of the generation are still to come, at most. */
  ghost function Budget(s: State, generation: nat): nat
    requires Inv(s)
  {
    if generation > s.generation then LAST_ATTEMPT + 1
    else if HasFrame(s, generation) then
      var id :| id in s.pending && s.pending[id].generation == generation;
      LAST_ATTEMPT + 1 - s.pending[id].attempt
    else 0
  }

  lemma BudgetOfFrame(s: State, id: nat)
    requires Inv(s) && id in s.pending
    ensures Budget(s, s.pending[id].generation) == LAST_ATTEMPT + 1 - s.pending[id].attempt
  {
    assert HasFrame(s, s.pending[id].generation);
  }

  lemma StepSpendsBudget(s: State, event: Event, generation: nat)
    requires Inv(s) && Enabled(s, event) && Inv(Step(s, event))
    ensures Budget(Step(s, event), generation) + (if Fires(s, event, generation) then 1 else 0) <= Budget(s, generation)
  {
    var t := Step(s, event);
    if event.RunFrame? && Fires(s, event, generation) {
      BudgetOfFrame(s, event.id);
    }
    if HasFrame(t, generation) {
      var id :| id in t.pending && t.pending[id].generation == generation;
      BudgetOfFrame(t, id);
      if id in s.pending {
        assert s.pending[id] == t.pending[id];
        BudgetOfFrame(s, id);
      }
    }
  }

  lemma {:induction false} RunSpendsBudget(s: State, events: seq<Event>, generation: nat)
    requires Inv(s) && Possible(s, events)
    ensures Fired(s, events, generation) <= Budget(s, generation)
    decreases |events|
  {
    if events != [] {
      StepInv(s, events[0]);
      StepSpendsBudget(s, events[0], generation);
      RunSpendsBudget(Step(s, events[0]), events[1..], generation);
    }
  }

  /** In every run, each navigation's chain takes at most 241 frames. */
  lemma ChainIsBounded(events: seq<Event>, generation: nat)
    requires Possible(START, events) && generation > 0
    ensures Fired(START, events, generation) <= 241
  {
    RunSpendsBudget(START, events, generation);
  }

  /** And it does end: while no navigation or unmount interferes, after n of its frames the
      latest chain has raised the flag or is at its n-th attempt; after 241 it is raised. */
  lemma {:induction false} ChainEnds(s: State, events: seq<Event>)
    requires Inv(s) && Possible(s, events) && s.mounted
    requires s.ready || (s.revealFrame in s.pending && s.pending[s.revealFrame].generation == s.generation)
    requires forall i :: 0 <= i < |events| ==> events[i].RunFrame?
    ensures s.ready ==> Run(s, events).ready
    ensures var t := Run(s, events);
            s.ready || t.ready ||
            (t.revealFrame in t.pending && t.pending[t.revealFrame].generation == s.generation == t.generation &&
             t.pending[t.revealFrame].attempt == s.pending[s.revealFrame].attempt + Fired(s, events, s.generation))
    decreases |events|
  {
    if events != [] {
      StepInv(s, events[0]);
      ChainEnds(Step(s, events[0]), events[1..]);
    }
  }

  lemma ChainRaisesFlag(s: State, key: string, events: seq<Event>)
    requires Inv(s) && s.mounted && Possible(Step(s, Navigate(key)), events)
    requires forall i :: 0 <= i < |events| ==> events[i].RunFrame?
    requires Fired(Step(s, Navigate(key)), events, s.generation + 1) >= 241
    ensures Run(Step(s, Navigate(key)), events).ready
  {
    var t := Step(s, Navigate(key));
    StepInv(s, Navigate(key));
    RunInv(t, events);
    ChainEnds(t, events);
  }
}
