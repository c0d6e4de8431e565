/** The dialog bridge of components/a11y/dialog-manager.tsx: when a modal dialog opens, what
    is around it becomes inert and the body stops scrolling; when it closes, the bridge takes
    that back. What the page itself writes or inserts in between is another matter, and the
    last part of the module says exactly what becomes of it. */
module DialogManager {
  import opened Text
  import opened DialogTree

  // ----- What marking and clearing do, on values -----

  function Elems<E>(s: seq<E>): set<E> {
    set e | e in s
  }

  lemma ElemsCons<E>(e: E, s: seq<E>)
    ensures Elems([e] + s) == {e} + Elems(s)
  {
  }

  lemma ElemsParts<E>(s: seq<E>, t: seq<E>)
    ensures Elems(s + t) == Elems(s) + Elems(t)
  {
  }

  /** The candidates that get flipped, in order, when `inert` already is. */
  function Marked<E(==)>(inert: set<E>, candidates: seq<E>): (flipped: seq<E>)
    decreases |candidates|
  {
    if candidates == [] then []
    else if candidates[0] in inert then Marked(inert, candidates[1..])
    else [candidates[0]] + Marked(inert + {candidates[0]}, candidates[1..])
  }

  /** Exactly the candidates that were not inert are flipped, each once. */
  lemma {:induction false} MarkedElems<E>(inert: set<E>, candidates: seq<E>)
    ensures Elems(Marked(inert, candidates)) == Elems(candidates) - inert
    ensures forall i, j :: 0 <= i < j < |Marked(inert, candidates)| ==>
              Marked(inert, candidates)[i] != Marked(inert, candidates)[j]
    decreases |candidates|
  {
    if candidates != [] {
      var c, rest := candidates[0], candidates[1..];
      assert candidates == [c] + rest;
      ElemsCons(c, rest);
      if c in inert {
        MarkedElems(inert, rest);
      } else {
        var more := Marked(inert + {c}, rest);
        MarkedElems(inert + {c}, rest);
        ElemsCons(c, more);
        assert forall i :: 0 <= i < |more| ==> more[i] in Elems(more);
      }
    }
  }

  lemma {:induction false} MarkedInParts<E>(inert: set<E>, front: seq<E>, back: seq<E>)
    ensures Marked(inert, front + back) == Marked(inert, front) + Marked(inert + Elems(Marked(inert, front)), back)
    decreases |front|
  {
    if front == [] {
      assert front + back == back;
      assert inert + Elems(Marked(inert, front)) == inert;
    } else {
      var f, rest := front[0], front[1..];
      assert (front + back)[1..] == rest + back;
      if f in inert {
        MarkedInParts(inert, rest, back);
      } else {
        var more := Marked(inert + {f}, rest);
        MarkedInParts(inert + {f}, rest, back);
        ElemsCons(f, more);
        assert inert + {f} + Elems(more) == inert + Elems([f] + more);
        Reassociate([f], more, Marked(inert + {f} + Elems(more), back));
      }
    }
  }

  lemma Reassociate<E>(a: seq<E>, b: seq<E>, c: seq<E>)
    ensures a + (b + c) == (a + b) + c
  {
  }

  lemma MarkedExtends<E>(inert: set<E>, front: seq<E>, back: seq<E>)
    ensures var here := inert + Elems(Marked(inert, front));
            Marked(inert, front + back) == Marked(inert, front) + Marked(here, back) &&
            inert + Elems(Marked(inert, front + back)) == here + Elems(Marked(here, back))
  {
    var here := inert + Elems(Marked(inert, front));
    MarkedInParts(inert, front, back);
    ElemsParts(Marked(inert, front), Marked(here, back));
  }

  lemma LevelMarks<E>(before: set<E>, visited: seq<E>, beyond: seq<E>, after: set<E>, was: seq<E>, inerted: seq<E>)
    requires inerted == was + Marked(before, visited) && after == before + Elems(Marked(before, visited))
    ensures inerted + Marked(after, beyond) == was + Marked(before, visited + beyond)
    ensures after + Elems(Marked(after, beyond)) == before + Elems(Marked(before, visited + beyond))
  {
    MarkedExtends(before, visited, beyond);
    Reassociate(was, Marked(before, visited), Marked(after, beyond));
  }

  lemma StaysInside<E>(was: seq<E>, flipped: seq<E>, inert: set<E>, nodes: set<E>)
    requires Elems(was) <= nodes && Elems(flipped) <= inert <= nodes
    ensures Elems(was + flipped) <= nodes
  {
    ElemsParts(was, flipped);
  }

  /** One more candidate. */
  lemma MarkedSnoc<E>(inert: set<E>, seen: seq<E>, e: E, here: set<E>)
    requires here == inert + Elems(Marked(inert, seen))
    ensures Marked(inert, seen + [e]) == Marked(inert, seen) + (if e in here then [] else [e])
    ensures inert + Elems(Marked(inert, seen + [e])) == here + {e}
  {
    MarkedExtends(inert, seen, [e]);
    assert Marked(here, [e]) == if e in here then [] else [e];
    assert Elems([e]) == {e};
  }

  /** All that the bridge reads and writes: the inert elements, the body's overflow, and
      its own three fields. */
  datatype View<E> = View(inert: set<E>, overflow: string, active: Option<E>, previous: string, inerted: seq<E>)

  function Cleared<E>(v: View<E>): View<E> {
    View(v.inert - Elems(v.inerted), v.previous, None, v.previous, [])
  }

  function Opened<E(==)>(v: View<E>, next: E, candidates: seq<E>): View<E> {
    var flipped := Marked(v.inert, candidates);
    View(v.inert + Elems(flipped), "hidden", Some(next), v.overflow, v.inerted + flipped)
  }

  /** One `sync`: the query finds `next`, whose background is `candidates`. */
  function Synced<E(==)>(v: View<E>, next: Option<E>, candidates: seq<E>): View<E> {
    if next == v.active then v
    else
      var c := if v.active.Some? then Cleared(v) else v;
      if next.None? then c else Opened(c, next.value, candidates)
  }

  // ----- The bridge itself -----

  ghost function InertSet(nodes: set<Element>): set<Element>
    reads nodes`inert
  {
    set e | e in nodes && e.inert
  }

  class DialogAccessibilityManager {
    const body: Element
    var activeDialog: Element?
    var previousOverflow: string
    var inerted: seq<Element>

    constructor (body: Element)
      ensures this.body == body && activeDialog == null && inerted == [] && previousOverflow == ""
    {
      this.body := body;
      activeDialog := null;
      previousOverflow := "";
      inerted := [];
    }

    ghost predicate Valid(nodes: set<Element>)
      reads this, nodes`parent, nodes`children, nodes`level
    {
      Tree(nodes) && body in nodes && (activeDialog != null ==> activeDialog in nodes) &&
      Elems(inerted) <= nodes
    }

    ghost function ViewOf(nodes: set<Element>): View<Element>
      requires body in nodes
      reads this, nodes`inert, body`overflow
    {
      var active: Option<Element> := if activeDialog == null then None else Some(activeDialog);
      View(InertSet(nodes), body.overflow, active, previousOverflow, inerted)
    }

    /** Marks the background of the dialog: exactly the candidates of its walk that were
        not inert yet, each once. */
    method SetBackgroundInert(dialog: Element, ghost nodes: set<Element>)
      requires Valid(nodes) && dialog in nodes
      modifies nodes`inert, this`inerted
      ensures Tree(nodes)
      ensures inerted == old(inerted + Marked(InertSet(nodes), Candidates(dialog, body, nodes)))
      ensures InertSet(nodes) == old(InertSet(nodes) + Elems(Marked(InertSet(nodes), Candidates(dialog, body, nodes))))
    {
      var node := dialog;
      ghost var total := Marked(InertSet(nodes), Candidates(dialog, body, nodes));
      ghost var left := total;
      while node.parent != null
        invariant node in nodes && Tree(nodes)
        invariant left == Marked(InertSet(nodes), Candidates(node, body, nodes))
        invariant inerted + left == old(inerted) + total
        invariant InertSet(nodes) + Elems(left) == old(InertSet(nodes)) + Elems(total)
        decreases node.level
      {
        left := MarkLevel(node, nodes);
        node := node.parent;
        if node == body {
          break;
        }
      }
      assert left == [] && inerted + left == inerted;
    }

    /** One level of the walk; `left` is what the levels above will flip. */
    method MarkLevel(node: Element, ghost nodes: set<Element>) returns (ghost left: seq<Element>)
      requires Tree(nodes) && node in nodes && body in nodes && node.parent != null
      modifies nodes`inert, this`inerted
      ensures Tree(nodes)
      ensures left == Marked(InertSet(nodes), Beyond(node, body, nodes))
      ensures inerted + left == old(inerted + Marked(InertSet(nodes), Candidates(node, body, nodes)))
      ensures InertSet(nodes) + Elems(left) ==
              old(InertSet(nodes) + Elems(Marked(InertSet(nodes), Candidates(node, body, nodes))))
    {
      ghost var before := InertSet(nodes);
      ghost var visited, beyond := Eligible(node.parent.children, node), Beyond(node, body, nodes);
      assert Candidates(node, body, nodes) == visited + beyond;
      MarkSiblings(node.parent.children, node, nodes);
      left := Marked(InertSet(nodes), beyond);
      LevelMarks(before, visited, beyond, InertSet(nodes), old(inerted), inerted);
    }

    /** The inner loop, over a copy of the children. */
    method MarkSiblings(siblings: seq<Element>, node: Element, ghost nodes: set<Element>)
      requires forall s :: s in siblings ==> s in nodes
      modifies nodes`inert, this`inerted
      ensures inerted == old(inerted) + Marked(old(InertSet(nodes)), Eligible(siblings, node))
      ensures InertSet(nodes) == old(InertSet(nodes)) + Elems(Marked(old(InertSet(nodes)), Eligible(siblings, node)))
    {
      ghost var before := InertSet(nodes);
      for k := 0 to |siblings|
        invariant inerted == old(inerted) + Marked(before, Eligible(siblings[..k], node))
        invariant InertSet(nodes) == before + Elems(Marked(before, Eligible(siblings[..k], node)))
      {
        TurnTo(siblings[k], node, before, Eligible(siblings[..k], node), old(inerted), nodes);
        EligibleSnoc(siblings, k, node);
      }
      assert siblings[..|siblings|] == siblings;
    }

    /** The body of that loop; `seen` are the candidates before this sibling. */
    method TurnTo(sibling: Element, node: Element, ghost before: set<Element>, ghost seen: seq<Element>,
                  ghost was: seq<Element>, ghost nodes: set<Element>)
      requires sibling in nodes
      requires inerted == was + Marked(before, seen) && InertSet(nodes) == before + Elems(Marked(before, seen))
      modifies nodes`inert, this`inerted
      ensures var now := seen + (if sibling != node && sibling.isHtml then [sibling] else []);
              inerted == was + Marked(before, now) && InertSet(nodes) == before + Elems(Marked(before, now))
    {
      if sibling != node && sibling.isHtml {
        MarkedSnoc(before, seen, sibling, InertSet(nodes));
        MarkSibling(sibling, nodes);
      } else {
        assert seen + [] == seen;
      }
    }

    method MarkSibling(sibling: Element, ghost nodes: set<Element>)
      requires sibling in nodes
      modifies nodes`inert, this`inerted
      ensures inerted == old(inerted) + (if sibling in old(InertSet(nodes)) then [] else [sibling])
      ensures InertSet(nodes) == old(InertSet(nodes)) + {sibling}
    {
      if !sibling.inert {
        sibling.inert := true;
        inerted := inerted + [sibling];
      }
    }

    method Clear(ghost nodes: set<Element>)
      requires Valid(nodes)
      modifies nodes`inert, body`overflow, this
      ensures Valid(nodes) && ViewOf(nodes) == Cleared(old(ViewOf(nodes)))
    {
      ghost var before := InertSet(nodes);
      for k := 0 to |inerted|
        invariant Valid(nodes) && inerted == old(inerted)
        invariant InertSet(nodes) == before - Elems(inerted[..k])
        invariant previousOverflow == old(previousOverflow)
      {
        ghost var here := InertSet(nodes);
        inerted[k].inert := false;
        assert InertSet(nodes) == here - {inerted[k]};
        assert Elems(inerted[..k + 1]) == Elems(inerted[..k]) + {inerted[k]};
      }
      assert inerted[..|inerted|] == inerted;
      inerted := [];
      body.overflow := previousOverflow;
      activeDialog := null;
    }

    /** One run of the observer's callback; `next` is what the document query finds. */
    method Sync(next: Element?, ghost nodes: set<Element>)
      requires Valid(nodes) && (next != null ==> next in nodes)
      modifies nodes`inert, body`overflow, this
      ensures Valid(nodes)
      ensures ViewOf(nodes) ==
              if next == null then Synced(old(ViewOf(nodes)), None, [])
              else old(Synced(ViewOf(nodes), Some(next), Candidates(next, body, nodes)))
    {
      if next == activeDialog {
        return;
      }
      if activeDialog != null {
        Clear(nodes);
      }
      if next == null {
        return;
      }
      Open(next, nodes);
    }

    /** The second half of `sync`, once a dialog has been found. */
    method Open(next: Element, ghost nodes: set<Element>)
      requires Valid(nodes) && next in nodes
      modifies nodes`inert, body`overflow, this
      ensures Valid(nodes)
      ensures ViewOf(nodes) == old(Opened(ViewOf(nodes), next, Candidates(next, body, nodes)))
    {
      ghost var before, candidates, was := InertSet(nodes), Candidates(next, body, nodes), inerted;
      activeDialog := next;
      previousOverflow := body.overflow;
      body.overflow := "hidden";
      assert InertSet(nodes) == before && Candidates(next, body, nodes) == candidates;
      SetBackgroundInert(next, nodes);
      StaysInside(was, Marked(before, candidates), InertSet(nodes), nodes);
    }

    /** The effect's cleanup. */
    method Unmount(ghost nodes: set<Element>)
      requires Valid(nodes)
      modifies nodes`inert, body`overflow, this
      ensures Valid(nodes)
      ensures ViewOf(nodes) ==
              if old(activeDialog) != null then Cleared(old(ViewOf(nodes))) else old(ViewOf(nodes))
    {
      if activeDialog != null {
        Clear(nodes);
      }
    }
  }

  // ----- What the background is -----

  /** Some ancestor-or-self is inert, which takes the element out of reach. */
  ghost predicate Covered(e: Element, inert: set<Element>, nodes: set<Element>)
    requires Tree(nodes) && e in nodes
    reads nodes`parent, nodes`children, nodes`level
  {
    exists a :: a in Path(e, nodes) && a in inert
  }

  /** In the walked subtree, but neither inside the dialog nor around it. */
  ghost predicate Background(e: Element, dialog: Element, body: Element, nodes: set<Element>)
    requires Tree(nodes) && e in nodes && dialog in nodes
    reads nodes`parent, nodes`children, nodes`level
  {
    Top(dialog, body, nodes) in Path(e, nodes) && dialog !in Path(e, nodes) && e !in Path(dialog, nodes)
  }

  /** A sibling that the walk passes over because it is not an HTML element. */
  ghost predicate PassedOver(s: Element, dialog: Element, body: Element, nodes: set<Element>)
    requires Tree(nodes) && dialog in nodes
    reads nodes`parent, nodes`children, nodes`level
  {
    !s.isHtml &&
    exists n :: n in Walk(dialog, body, nodes) && n in nodes && n.parent != null && s in n.parent.children && s != n
  }

  ghost function InertAfter(before: set<Element>, dialog: Element, body: Element, nodes: set<Element>): set<Element>
    requires Tree(nodes) && dialog in nodes
    reads nodes`parent, nodes`children, nodes`level
  {
    before + Elems(Marked(before, Candidates(dialog, body, nodes)))
  }

  lemma SiblingsAreBackground(dialog: Element, body: Element, nodes: set<Element>, n: Element, s: Element)
    requires Tree(nodes) && dialog in nodes && n in nodes
    requires n in Walk(dialog, body, nodes) && n.parent != null && s in n.parent.children && s != n
    ensures s in nodes && Background(s, dialog, body, nodes)
    ensures forall a :: a in Path(s, nodes) ==> a == s || a in Path(dialog, nodes)
  {
    WalkMembers(dialog, body, nodes, n);
    assert Path(s, nodes) == [s] + Path(n.parent, nodes);
    if s in Path(dialog, nodes) {
      OnePerLevel(dialog, s, n, nodes);
    }
    forall a | a in Path(n.parent, nodes)
      ensures a in Path(dialog, nodes)
    {
      assert a in Path(n, nodes);
      PathsOverlap(dialog, n, a, nodes);
    }
  }

  /** Neither the dialog nor anything around it is ever flipped. */
  lemma AncestorsUntouched(dialog: Element, body: Element, nodes: set<Element>, before: set<Element>, a: Element)
    requires Tree(nodes) && dialog in nodes && a in Path(dialog, nodes)
    ensures a in InertAfter(before, dialog, body, nodes) <==> a in before
  {
    MarkedElems(before, Candidates(dialog, body, nodes));
    CandidateMembers(dialog, body, nodes, a);
    if a in Candidates(dialog, body, nodes) {
      var n :| n in Walk(dialog, body, nodes) && n.parent != null && a in Eligible(n.parent.children, n);
      WalkInNodes(dialog, body, nodes, n);
      SiblingsAreBackground(dialog, body, nodes, n, a);
    }
  }

  lemma {:induction false} WalkInNodes(e: Element, body: Element, nodes: set<Element>, n: Element)
    requires Tree(nodes) && e in nodes && n in Walk(e, body, nodes)
    ensures n in nodes
    decreases e.level
  {
    if n != e {
      WalkInNodes(e.parent, body, nodes, n);
    }
  }

  /** The whole background is out of reach if and only if no sibling that was passed over
      was within reach before. */
  lemma BackgroundIsCovered(dialog: Element, body: Element, nodes: set<Element>, before: set<Element>)
    requires Tree(nodes) && dialog in nodes
    ensures (forall e :: e in nodes && Background(e, dialog, body, nodes) ==>
               Covered(e, InertAfter(before, dialog, body, nodes), nodes)) <==>
            (forall s :: s in nodes && PassedOver(s, dialog, body, nodes) ==> Covered(s, before, nodes))
  {
    var after := InertAfter(before, dialog, body, nodes);
    if forall s :: s in nodes && PassedOver(s, dialog, body, nodes) ==> Covered(s, before, nodes) {
      forall e | e in nodes && Background(e, dialog, body, nodes)
        ensures Covered(e, after, nodes)
      {
        BackgroundElementCovered(dialog, body, nodes, before, e);
      }
    }
    if forall e :: e in nodes && Background(e, dialog, body, nodes) ==> Covered(e, after, nodes) {
      forall s | s in nodes && PassedOver(s, dialog, body, nodes)
        ensures Covered(s, before, nodes)
      {
        PassedOverElement(dialog, body, nodes, before, s);
      }
    }
  }

  lemma BackgroundElementCovered(dialog: Element, body: Element, nodes: set<Element>, before: set<Element>, e: Element)
    requires Tree(nodes) && dialog in nodes && e in nodes && Background(e, dialog, body, nodes)
    requires forall s :: s in nodes && PassedOver(s, dialog, body, nodes) ==> Covered(s, before, nodes)
    ensures Covered(e, InertAfter(before, dialog, body, nodes), nodes)
  {
    var s, n := Branches(e, dialog, Top(dialog, body, nodes), nodes);
    MarkedElems(before, Candidates(dialog, body, nodes));
    WalkMembers(dialog, body, nodes, n);
    if s.isHtml {
      CandidateMembers(dialog, body, nodes, s);
      assert s in Eligible(n.parent.children, n);
      assert s in InertAfter(before, dialog, body, nodes);
    } else {
      assert PassedOver(s, dialog, body, nodes);
      var a :| a in Path(s, nodes) && a in before;
      PathsOverlap(e, s, a, nodes);
    }
  }

  lemma PassedOverElement(dialog: Element, body: Element, nodes: set<Element>, before: set<Element>, s: Element)
    requires Tree(nodes) && dialog in nodes && s in nodes && PassedOver(s, dialog, body, nodes)
    requires forall e :: e in nodes && Background(e, dialog, body, nodes) ==>
               Covered(e, InertAfter(before, dialog, body, nodes), nodes)
    ensures Covered(s, before, nodes)
  {
    var n :| n in Walk(dialog, body, nodes) && n in nodes && n.parent != null && s in n.parent.children && s != n;
    SiblingsAreBackground(dialog, body, nodes, n, s);
    MarkedElems(before, Candidates(dialog, body, nodes));
    var a :| a in Path(s, nodes) && a in InertAfter(before, dialog, body, nodes);
    if a == s {
      CandidateMembers(dialog, body, nodes, s);
    } else {
      AncestorsUntouched(dialog, body, nodes, before, a);
    }
  }

  /** A body that holds a dialog and, beside it, an element that is not an HTML one. */
  ghost predicate SvgBeside(body: Element, dialog: Element, svg: Element)
    reads body, dialog, svg
  {
    && body != dialog && body != svg && dialog != svg && !svg.isHtml
    && body.parent == null && body.children == [dialog, svg] && body.level == 0
    && dialog.parent == body && dialog.children == [] && dialog.level == 1
    && svg.parent == body && svg.children == [] && svg.level == 1
  }

  lemma SvgIsReachable(body: Element, dialog: Element, svg: Element, nodes: set<Element>)
    requires SvgBeside(body, dialog, svg) && nodes == {body, dialog, svg}
    ensures Tree(nodes)
    ensures Candidates(dialog, body, nodes) == []
    ensures Background(svg, dialog, body, nodes) && !Covered(svg, {}, nodes)
  {
    assert Path(body, nodes) == [body];
    assert Path(svg, nodes) == [svg, body];
    assert Path(dialog, nodes) == [dialog, body];
    assert Eligible([dialog], dialog) == [];
    assert [dialog, svg][..1] == [dialog];
  }

  method NewSvgPage() returns (bridge: DialogAccessibilityManager, dialog: Element, svg: Element)
    ensures fresh(bridge) && fresh(bridge.body) && fresh(dialog) && fresh(svg)
    ensures SvgBeside(bridge.body, dialog, svg) && !bridge.body.inert && !dialog.inert && !svg.inert
    ensures bridge.activeDialog == null && bridge.inerted == []
  {
    var body := new Element(true);
    dialog := new Element(true);
    svg := new Element(false);
    body.children := [dialog, svg];
    dialog.parent, dialog.level := body, 1;
    svg.parent, svg.level := body, 1;
    bridge := new DialogAccessibilityManager(body);
  }

  /** A callback that finds a dialog without candidates around it. */
  method SyncAlone(bridge: DialogAccessibilityManager, dialog: Element, ghost nodes: set<Element>)
    requires bridge.Valid(nodes) && bridge.activeDialog == null && dialog in nodes
    requires Candidates(dialog, bridge.body, nodes) == []
    modifies nodes`inert, bridge.body`overflow, bridge
    ensures InertSet(nodes) == old(InertSet(nodes))
  {
    ghost var before := bridge.ViewOf(nodes);
    assert Elems(Marked(before.inert, [])) == {};
    bridge.Sync(dialog, nodes);
    assert bridge.ViewOf(nodes).inert == before.inert + Elems(Marked(before.inert, []));
  }

  method SvgStaysReachable(bridge: DialogAccessibilityManager, dialog: Element, svg: Element, ghost nodes: set<Element>)
    requires SvgBeside(bridge.body, dialog, svg) && nodes == {bridge.body, dialog, svg} && InertSet(nodes) == {}
    requires bridge.activeDialog == null && bridge.inerted == []
    modifies nodes`inert, bridge.body`overflow, bridge
    ensures SvgBeside(bridge.body, dialog, svg) && Tree(nodes)
    ensures Background(svg, dialog, bridge.body, nodes) && !Covered(svg, InertSet(nodes), nodes)
  {
    SvgIsReachable(bridge.body, dialog, svg, nodes);
    SyncAlone(bridge, dialog, nodes);
    SvgIsReachable(bridge.body, dialog, svg, nodes);
  }

  /** The smallest page on which a sibling is passed over. After the callback that finds
      the dialog the sibling is still within reach. */
  method SvgBesideDialog() returns (bridge: DialogAccessibilityManager, dialog: Element, svg: Element,
                                    ghost nodes: set<Element>)
    ensures SvgBeside(bridge.body, dialog, svg) && nodes == {bridge.body, dialog, svg} && Tree(nodes)
    ensures Background(svg, dialog, bridge.body, nodes) && !Covered(svg, InertSet(nodes), nodes)
  {
    bridge, dialog, svg := NewSvgPage();
    nodes := {bridge.body, dialog, svg};
    SvgStaysReachable(bridge, dialog, svg, nodes);
  }

  // ----- Whole runs -----

  /** The observer's callback, and what the rest of the page may do in between. */
  datatype Event<E> =
    | Sync(next: Option<E>, candidates: seq<E>)
    | WriteInert(element: E, value: bool)
    | WriteOverflow(overflow: string)

  function Written<E>(inert: set<E>, element: E, value: bool): set<E> {
    if value then inert + {element} else inert - {element}
  }

  function Step<E(==)>(v: View<E>, event: Event<E>): View<E> {
    match event
    case Sync(next, candidates) => Synced(v, next, candidates)
    case WriteInert(element, value) => v.(inert := Written(v.inert, element, value))
    case WriteOverflow(overflow) => v.(overflow := overflow)
  }

  /** The page as it would be without the bridge. */
  datatype Page<E> = Page(inert: set<E>, overflow: string)

  function Unbridged<E>(page: Page<E>, event: Event<E>): Page<E> {
    match event
    case Sync(_, _) => page
    case WriteInert(element, value) => page.(inert := Written(page.inert, element, value))
    case WriteOverflow(overflow) => page.(overflow := overflow)
  }

  function Run<E(==)>(v: View<E>, events: seq<Event<E>>): View<E>
    decreases |events|
  {
    if events == [] then v else Run(Step(v, events[0]), events[1..])
  }

  function UnbridgedRun<E(==)>(page: Page<E>, events: seq<Event<E>>): Page<E>
    decreases |events|
  {
    if events == [] then page else UnbridgedRun(Unbridged(page, events[0]), events[1..])
  }

  /** What the page is when no dialog is open, or comes back to once none is. */
  function Resting<E>(v: View<E>): Page<E> {
    Page(v.inert - Elems(v.inerted), if v.active.None? then v.overflow else v.previous)
  }

  /** Writes of the page that the bridge undoes when it closes the dialog: any to the
      overflow, and making an element inert that the bridge has flipped itself. */
  predicate Lost<E(==)>(v: View<E>, event: Event<E>) {
    match event
    case Sync(_, _) => false
    case WriteInert(element, value) => value && element in v.inerted
    case WriteOverflow(_) => v.active.Some?
  }

  /** The run without the writes that get lost. */
  function Heeded<E(==)>(v: View<E>, events: seq<Event<E>>): seq<Event<E>>
    decreases |events|
  {
    if events == [] then []
    else
      var rest := Heeded(Step(v, events[0]), events[1..]);
      if Lost(v, events[0]) then rest else [events[0]] + rest
  }

  /** Marks are only kept while a dialog is open. */
  predicate Tidy<E(==)>(v: View<E>) {
    v.active.None? ==> v.inerted == []
  }

  lemma SyncRests<E>(v: View<E>, next: Option<E>, candidates: seq<E>)
    ensures Resting(Synced(v, next, candidates)) == Resting(v)
  {
    var c := if v.active.Some? then Cleared(v) else v;
    assert Elems<E>([]) == {};
    assert Resting(c) == Resting(v);
    if next.Some? {
      MarkedElems(c.inert, candidates);
      ElemsParts(c.inerted, Marked(c.inert, candidates));
      assert Resting(Opened(c, next.value, candidates)).inert == Resting(c).inert;
    }
  }

  lemma StepRests<E>(v: View<E>, event: Event<E>)
    ensures Resting(Step(v, event)) == if Lost(v, event) then Resting(v) else Unbridged(Resting(v), event)
  {
    match event
    case Sync(next, candidates) =>
      SyncRests(v, next, candidates);
    case WriteInert(element, value) =>
      assert element in v.inerted <==> element in Elems(v.inerted);
      assert Resting(Step(v, event)).inert ==
             if Lost(v, event) then Resting(v).inert else Unbridged(Resting(v), event).inert;
    case WriteOverflow(_) =>
  }

  lemma {:induction false} RunRests<E>(v: View<E>, events: seq<Event<E>>)
    ensures Resting(Run(v, events)) == UnbridgedRun(Resting(v), Heeded(v, events))
    ensures Tidy(v) ==> Tidy(Run(v, events))
    decreases |events|
  {
    if events != [] {
      StepRests(v, events[0]);
      RunRests(Step(v, events[0]), events[1..]);
      var rest := Heeded(Step(v, events[0]), events[1..]);
      assert ([events[0]] + rest)[1..] == rest;
    }
  }

  /** Over every run, whatever the page writes meanwhile: once no dialog is open, the page
      is what it would be without the bridge and without the writes that get lost. */
  lemma RunRestores<E>(v: View<E>, events: seq<Event<E>>)
    requires Tidy(v) && Run(v, events).active.None?
    ensures Page(Run(v, events).inert, Run(v, events).overflow) == UnbridgedRun(Resting(v), Heeded(v, events))
  {
    RunRests(v, events);
    assert Elems<E>([]) == {};
  }

  /** Exactly which single event the bridge restores around: every one that is not lost,
      and a lost write to the overflow of the value that waits to be put back. */
  lemma WriteSurvives<E>(v: View<E>, event: Event<E>)
    ensures Resting(Step(v, event)) == Unbridged(Resting(v), event) <==>
            !Lost(v, event) || (event.WriteOverflow? && event.overflow == v.previous)
  {
    StepRests(v, event);
    if Lost(v, event) && event.WriteInert? {
      assert event.element in Elems(v.inerted);
      assert event.element !in Resting(v).inert && event.element in Unbridged(Resting(v), event).inert;
    }
  }

  /** An element that the bridge has flipped, and that the page then makes inert as well,
      is not inert once the dialog is closed. */
  lemma MarkedWriteIsLost<E>(v: View<E>, dialog: E, sibling: E)
    requires v.active.None? && v.inerted == [] && sibling !in v.inert
    ensures var events := [Sync(Some(dialog), [sibling]), WriteInert(sibling, true), Sync(None, [])];
            Run(v, events).active.None? && sibling !in Run(v, events).inert &&
            sibling in UnbridgedRun(Resting(v), events).inert
  {
    var e0, e1, e2 := Event.Sync(Some(dialog), [sibling]), Event.WriteInert(sibling, true), Event<E>.Sync(None, []);
    Run3(v, e0, e1, e2);
    assert Marked(v.inert, [sibling]) == [sibling];
    assert Step(v, e0).inerted == [sibling];
    assert sibling in Elems([sibling]);
  }

  /** The site header's drawer is a dialog that saves, hides and restores the overflow by
      itself. Opened before the bridge sees it, and closed before the bridge sees that, it
      leaves every page unable to scroll. */
  lemma DrawerLeavesHidden<E>(v: View<E>, drawer: E, candidates: seq<E>)
    requires v.active.None?
    ensures var events := [WriteOverflow("hidden"), Sync(Some(drawer), candidates),
                           WriteOverflow(v.overflow), Sync(None, [])];
            Run(v, events).active.None? && Run(v, events).overflow == "hidden" &&
            UnbridgedRun(Resting(v), events).overflow == v.overflow
  {
    var e0, e1 := Event<E>.WriteOverflow("hidden"), Event.Sync(Some(drawer), candidates);
    var e2, e3 := Event<E>.WriteOverflow(v.overflow), Event<E>.Sync(None, []);
    assert [e0, e1, e2, e3][1..] == [e1, e2, e3];
    Run3(Step(v, e0), e1, e2, e3);
    Unbridged3(Unbridged(Resting(v), e0), e1, e2, e3);
  }

  lemma Run3<E>(v: View<E>, a: Event<E>, b: Event<E>, c: Event<E>)
    ensures Run(v, [a, b, c]) == Step(Step(Step(v, a), b), c)
    ensures UnbridgedRun(Resting(v), [a, b, c]) == Unbridged(Unbridged(Unbridged(Resting(v), a), b), c)
  {
    Unbridged3(Resting(v), a, b, c);
    assert [a, b, c][1..] == [b, c] && [b, c][1..] == [c];
    assert Run(Step(Step(v, a), b), [c]) == Step(Step(Step(v, a), b), c);
    assert Run(Step(v, a), [b, c]) == Run(Step(Step(v, a), b), [c]);
  }

  lemma Unbridged3<E>(page: Page<E>, a: Event<E>, b: Event<E>, c: Event<E>)
    ensures UnbridgedRun(page, [a, b, c]) == Unbridged(Unbridged(Unbridged(page, a), b), c)
  {
    assert [a, b, c][1..] == [b, c] && [b, c][1..] == [c];
    var next := Unbridged(Unbridged(page, a), b);
    assert UnbridgedRun(next, [c]) == Unbridged(next, c);
    assert UnbridgedRun(Unbridged(page, a), [b, c]) == UnbridgedRun(next, [c]);
  }

  // ----- While a dialog is open -----

  /** A callback that finds another dialog than before: whatever was open, exactly this
      dialog's background is inert now, besides what the page itself has made inert; exactly
      the part of it that was not is recorded, each element once; and the overflow waits. */
  lemma SyncOpensExactly<E>(v: View<E>, dialog: E, candidates: seq<E>)
    requires Tidy(v) && v.active != Some(dialog)
    ensures var t := Synced(v, Some(dialog), candidates);
            && t.active == Some(dialog) && t.overflow == "hidden" && t.previous == Resting(v).overflow
            && t.inert == Resting(v).inert + Elems(candidates)
            && Elems(t.inerted) == Elems(candidates) - Resting(v).inert
            && forall i, j :: 0 <= i < j < |t.inerted| ==> t.inerted[i] != t.inerted[j]
  {
    var c := if v.active.Some? then Cleared(v) else v;
    assert Elems<E>([]) == {};
    assert c.inert == Resting(v).inert && c.inerted == [];
    MarkedElems(c.inert, candidates);
    assert [] + Marked(c.inert, candidates) == Marked(c.inert, candidates);
  }

  /** A callback that finds none leaves the page at rest, and nothing recorded. */
  lemma SyncClosesExactly<E>(v: View<E>, candidates: seq<E>)
    requires Tidy(v)
    ensures var t := Synced(v, None, candidates);
            t.active == None && t.inerted == [] && Page(t.inert, t.overflow) == Resting(v)
  {
    assert Elems<E>([]) == {};
    assert v.inert - {} == v.inert;
  }

  /** The background with which the dialog that is open was opened. */
  function Opening<E(==)>(since: seq<E>, v: View<E>, events: seq<Event<E>>): seq<E>
    decreases |events|
  {
    if events == [] then since
    else
      var now := match events[0]
        case Sync(next, candidates) => if next == v.active then since else if next.Some? then candidates else []
        case _ => since;
      Opening(now, Step(v, events[0]), events[1..])
  }

  lemma {:induction false} MarksAreOfOpening<E>(v: View<E>, since: seq<E>, events: seq<Event<E>>)
    requires Tidy(v) && Elems(v.inerted) <= Elems(since)
    ensures Elems(Run(v, events).inerted) <= Elems(Opening(since, v, events))
    decreases |events|
  {
    if events != [] {
      var now := since;
      if events[0].Sync? && events[0].next != v.active {
        if events[0].next.Some? {
          now := events[0].candidates;
          SyncOpensExactly(v, events[0].next.value, events[0].candidates);
        } else {
          now := [];
          SyncClosesExactly(v, events[0].candidates);
        }
      }
      MarksAreOfOpening(Step(v, events[0]), now, events[1..]);
    }
  }

  /** Over every run, whatever dialogs came before: an element outside the background of
      the dialog that is open is inert exactly if the page has made it so. */
  lemma OthersAreAsThePageMadeThem<E>(v: View<E>, events: seq<Event<E>>, e: E)
    requires Tidy(v) && v.inerted == [] && e !in Opening([], v, events)
    ensures e in Run(v, events).inert <==> e in UnbridgedRun(Resting(v), Heeded(v, events)).inert
  {
    assert Elems<E>([]) == {};
    MarksAreOfOpening(v, [], events);
    RunRests(v, events);
    assert e !in Elems(Run(v, events).inerted);
  }

  /** On the tree of elements: the open dialog and everything around it, so that it can be
      used, whatever dialogs it has replaced. */
  lemma OpenDialogIsFree(v: View<Element>, events: seq<Event<Element>>, dialog: Element, body: Element,
                         nodes: set<Element>, a: Element)
    requires Tree(nodes) && dialog in nodes && a in Path(dialog, nodes)
    requires Tidy(v) && v.inerted == [] && Opening([], v, events) == Candidates(dialog, body, nodes)
    ensures a in Run(v, events).inert <==> a in UnbridgedRun(Resting(v), Heeded(v, events)).inert
  {
    AncestorsUntouched(dialog, body, nodes, {}, a);
    MarkedElems({}, Candidates(dialog, body, nodes));
    assert a !in Elems(Candidates(dialog, body, nodes));
    OthersAreAsThePageMadeThem(v, events, a);
  }

  /** Two dialogs side by side, the second replacing the first, is open and not inert. */
  lemma SecondDialogIsFree<E>(a: E, b: E)
    requires a != b
    ensures var v := View({}, "", None, "", []);
            var t := Run(v, [Sync(Some(a), [b]), Sync(Some(b), [a])]);
            t.active == Some(b) && t.inert == {a}
  {
    var v: View<E> := View({}, "", None, "", []);
    var e0, e1 := Event.Sync(Some(a), [b]), Event.Sync(Some(b), [a]);
    assert [e0, e1][1..] == [e1];
    assert Run(Step(v, e0), [e1]) == Step(Step(v, e0), e1);
    SyncOpensExactly(v, a, [b]);
    SyncOpensExactly(Step(v, e0), b, [a]);
    assert Elems([b]) == {b} && Elems([a]) == {a};
  }


  /** The page leaves alone what the bridge has taken over. */
  predicate Polite<E(==)>(v: View<E>, event: Event<E>) {
    match event
    case Sync(_, _) => true
    case WriteInert(element, _) => element !in v.inerted
    case WriteOverflow(_) => v.active.None?
  }

  predicate PoliteRun<E(==)>(v: View<E>, events: seq<Event<E>>)
    decreases |events|
  {
    events != [] ==> Polite(v, events[0]) && PoliteRun(Step(v, events[0]), events[1..])
  }

  /** The view differs from the page by exactly what the bridge flipped. */
  ghost predicate Consistent<E>(v: View<E>, page: Page<E>) {
    && Elems(v.inerted) !! page.inert
    && v.inert == page.inert + Elems(v.inerted)
    && (forall i, j :: 0 <= i < j < |v.inerted| ==> v.inerted[i] != v.inerted[j])
    && (if v.active.None? then v.inerted == [] && v.overflow == page.overflow
        else v.overflow == "hidden" && v.previous == page.overflow)
  }

  lemma ClearRestores<E>(v: View<E>, page: Page<E>)
    requires Consistent(v, page) && v.active.Some?
    ensures Consistent(Cleared(v), page) && Cleared(v).active.None?
  {
    assert Elems<E>([]) == {};
  }

  lemma OpenKeeps<E>(v: View<E>, page: Page<E>, next: E, candidates: seq<E>)
    requires Consistent(v, page) && v.active.None?
    ensures Consistent(Opened(v, next, candidates), page)
  {
    assert v.inert == page.inert;
    MarkedElems(v.inert, candidates);
    assert v.inerted + Marked(v.inert, candidates) == Marked(v.inert, candidates);
  }

  lemma StepKeeps<E>(v: View<E>, page: Page<E>, event: Event<E>)
    requires Consistent(v, page) && Polite(v, event)
    ensures Consistent(Step(v, event), Unbridged(page, event))
  {
    match event
    case Sync(next, candidates) =>
      if next != v.active {
        if v.active.Some? {
          ClearRestores(v, page);
        }
        if next.Some? {
          OpenKeeps(if v.active.Some? then Cleared(v) else v, page, next.value, candidates);
        }
      }
    case WriteInert(element, value) =>
      assert element !in Elems(v.inerted);
    case WriteOverflow(overflow) =>
  }

  /** A page that leaves alone what the bridge has taken over is at all times the page
      without it plus the marks, and cannot be scrolled while a dialog is open. */
  lemma {:induction false} PoliteRunDiffersByMarks<E>(v: View<E>, page: Page<E>, events: seq<Event<E>>)
    requires Consistent(v, page) && PoliteRun(v, events)
    ensures Consistent(Run(v, events), UnbridgedRun(page, events))
    ensures Run(v, events).active.None? ==>
              Page(Run(v, events).inert, Run(v, events).overflow) == UnbridgedRun(page, events)
    decreases |events|
  {
    if events != [] {
      StepKeeps(v, page, events[0]);
      PoliteRunDiffersByMarks(Step(v, events[0]), Unbridged(page, events[0]), events[1..]);
    } else {
      assert v.active.None? ==> Elems(v.inerted) == {};
    }
  }

  /** A second callback on the same dialog changes nothing, so a bridge that observes its
      own writes comes to rest. */
  lemma SyncSettles<E>(v: View<E>, next: Option<E>, candidates: seq<E>, again: seq<E>)
    ensures Synced(Synced(v, next, candidates), next, again) == Synced(v, next, candidates)
  {
  }

  /** After a callback that finds a dialog its background is inert if and only if the
      dialog was not open already, or the background was inert without it. */
  lemma SyncCoversExactly<E>(v: View<E>, dialog: E, candidates: seq<E>)
    ensures Elems(candidates) <= Synced(v, Some(dialog), candidates).inert <==>
            v.active != Some(dialog) || Elems(candidates) <= v.inert
  {
    if v.active != Some(dialog) {
      MarkedElems((if v.active.Some? then Cleared(v) else v).inert, candidates);
    }
  }

  /** So an element that is inserted beside a dialog while it is open stays within reach. */
  lemma LateSiblingIsNotMarked<E>(v: View<E>, dialog: E, candidates: seq<E>, late: E)
    requires v.active != Some(dialog) && late !in v.inert && late !in candidates
    ensures var events := [Sync(Some(dialog), candidates), Sync(Some(dialog), candidates + [late])];
            Run(v, events).active == Some(dialog) &&
            Elems(candidates) <= Run(v, events).inert && late !in Run(v, events).inert
  {
    var e0, e1 := Event.Sync(Some(dialog), candidates), Event.Sync(Some(dialog), candidates + [late]);
    assert [e0, e1][1..] == [e1];
    assert Run(Step(v, e0), [e1]) == Step(Step(v, e0), e1);
    SyncSettles(v, Some(dialog), candidates, candidates + [late]);
    assert Run(v, [e0, e1]) == Synced(v, Some(dialog), candidates);
    SyncCoversExactly(v, dialog, candidates);
    MarkedElems((if v.active.Some? then Cleared(v) else v).inert, candidates);
  }
}
