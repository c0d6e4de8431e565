/** The element tree of a page, as far as the dialog bridge of
    components/a11y/dialog-manager.tsx walks it. */
module DialogTree {

  class Element {
    const isHtml: bool  // `instanceof HTMLElement`; false for SVG elements, say
    var parent: Element?
    var children: seq<Element>
    var inert: bool
    var overflow: string  // the inline `style.overflow`
    ghost var level: nat  // distance from the root of its tree

    /** An element that has just been created. */
    constructor (isHtml: bool)
      ensures this.isHtml == isHtml && parent == null && children == [] && !inert && overflow == "" && level == 0
    {
      this.isHtml := isHtml;
      parent, children, inert, overflow, level := null, [], false, "", 0;
    }
  }

  /** Parents and children agree, and there are no cycles. The elements may form several
      trees: those that have left the document keep existing. */
  ghost predicate Tree(nodes: set<Element>)
    reads nodes`parent, nodes`children, nodes`level
  {
    forall e :: e in nodes ==>
      && (e.parent != null ==> e.parent in nodes && e in e.parent.children && e.level == e.parent.level + 1)
      && (forall c :: c in e.children ==> c in nodes && c.parent == e)
  }

  /** The element and its ancestors, up to the root. */
  ghost function Path(e: Element, nodes: set<Element>): (path: seq<Element>)
    requires Tree(nodes) && e in nodes
    reads nodes`parent, nodes`children, nodes`level
    ensures e in path
    ensures forall a :: a in path ==> a in nodes && a.level <= e.level && (a.level == e.level ==> a == e)
    decreases e.level
  {
    if e.parent == null then [e] else [e] + Path(e.parent, nodes)
  }

  /** The elements whose siblings the walk from `e` visits: `e` and its ancestors below
      the body, or below the root when the walk never meets the body. */
  ghost function Walk(e: Element, body: Element, nodes: set<Element>): seq<Element>
    requires Tree(nodes) && e in nodes
    reads nodes`parent, nodes`children, nodes`level
    decreases e.level
  {
    if e.parent == null then []
    else if e.parent == body then [e]
    else [e] + Walk(e.parent, body, nodes)
  }

  /** Where that walk ends. */
  ghost function Top(e: Element, body: Element, nodes: set<Element>): (top: Element)
    requires Tree(nodes) && e in nodes
    reads nodes`parent, nodes`children, nodes`level
    ensures top in nodes && top in Path(e, nodes)
    decreases e.level
  {
    if e.parent == null then e
    else if e.parent == body then body
    else Top(e.parent, body, nodes)
  }

  /** The siblings that a step of the walk turns to. */
  function Eligible(children: seq<Element>, self: Element): (r: seq<Element>)
    ensures forall c :: c in r ==> c in children && c != self && c.isHtml
    ensures forall c :: c in children && c != self && c.isHtml ==> c in r
  {
    if children == [] then []
    else
      var last := children[|children| - 1];
      Eligible(children[..|children| - 1], self) + (if last != self && last.isHtml then [last] else [])
  }

  lemma EligibleSnoc(children: seq<Element>, k: nat, self: Element)
    requires k < |children|
    ensures Eligible(children[..k + 1], self) ==
            Eligible(children[..k], self) + (if children[k] != self && children[k].isHtml then [children[k]] else [])
  {
    assert children[..k + 1][..k] == children[..k];
  }

  /** Every element the walk from `e` turns to, in the order it does. */
  ghost function Candidates(e: Element, body: Element, nodes: set<Element>): seq<Element>
    requires Tree(nodes) && e in nodes
    reads nodes`parent, nodes`children, nodes`level
    decreases e.level, 1
  {
    if e.parent == null then [] else Eligible(e.parent.children, e) + Beyond(e, body, nodes)
  }

  /** The candidates of the levels above `e`'s own. */
  ghost function Beyond(e: Element, body: Element, nodes: set<Element>): seq<Element>
    requires Tree(nodes) && e in nodes && e.parent != null
    reads nodes`parent, nodes`children, nodes`level
    decreases e.level, 0
  {
    if e.parent == body then [] else Candidates(e.parent, body, nodes)
  }

  // ----- Paths -----

  lemma {:induction false} PathsOverlap(e: Element, a: Element, b: Element, nodes: set<Element>)
    requires Tree(nodes) && e in nodes
    requires a in Path(e, nodes) && b in Path(a, nodes)
    ensures b in Path(e, nodes)
    decreases e.level
  {
    if a != e {
      PathsOverlap(e.parent, a, b, nodes);
    }
  }

  lemma {:induction false} OnePerLevel(e: Element, a: Element, b: Element, nodes: set<Element>)
    requires Tree(nodes) && e in nodes
    requires a in Path(e, nodes) && b in Path(e, nodes) && a.level == b.level
    ensures a == b
    decreases e.level
  {
    if a != e && b != e {
      OnePerLevel(e.parent, a, b, nodes);
    }
  }

  lemma {:induction false} WalkMembers(e: Element, body: Element, nodes: set<Element>, n: Element)
    requires Tree(nodes) && e in nodes && n in nodes
    ensures n in Walk(e, body, nodes) <==>
            n in Path(e, nodes) && n.parent != null && Top(e, body, nodes) in Path(n.parent, nodes)
    decreases e.level
  {
    if e.parent != null && n != e && e.parent != body {
      WalkMembers(e.parent, body, nodes, n);
    }
  }

  lemma {:induction false} CandidateMembers(e: Element, body: Element, nodes: set<Element>, c: Element)
    requires Tree(nodes) && e in nodes
    ensures c in Candidates(e, body, nodes) <==>
            exists n :: n in Walk(e, body, nodes) && n.parent != null && c in Eligible(n.parent.children, n)
    decreases e.level
  {
    if e.parent != null {
      if e.parent != body {
        CandidateMembers(e.parent, body, nodes, c);
      }
      assert e in Walk(e, body, nodes);
    }
  }

  /** A dialog strictly inside the body walks up to the body. */
  lemma {:induction false} TopIsBody(e: Element, body: Element, nodes: set<Element>)
    requires Tree(nodes) && e in nodes && e != body && body in Path(e, nodes)
    ensures Top(e, body, nodes) == body
    decreases e.level
  {
    if e.parent != body {
      TopIsBody(e.parent, body, nodes);
    }
  }

  /** Two elements of one subtree: either one contains the other, or they sit under two
      different children of a common ancestor. */
  lemma {:induction false} Branches(e: Element, d: Element, top: Element, nodes: set<Element>)
    returns (s: Element, n: Element)
    requires Tree(nodes) && e in nodes && d in nodes
    requires top in Path(e, nodes) && top in Path(d, nodes)
    ensures s in nodes && n in nodes
    ensures d !in Path(e, nodes) && e !in Path(d, nodes) ==>
              s != n && s in Path(e, nodes) && n in Path(d, nodes) &&
              s.parent != null && s.parent == n.parent && top in Path(s.parent, nodes)
    decreases e.level + d.level
  {
    s, n := e, d;
    if d !in Path(e, nodes) && e !in Path(d, nodes) {
      if e.level > d.level {
        s, n := Branches(e.parent, d, top, nodes);
      } else if d.level > e.level {
        s, n := Branches(e, d.parent, top, nodes);
      } else if e.parent != d.parent {
        s, n := Branches(e.parent, d.parent, top, nodes);
      }
    }
  }
}
