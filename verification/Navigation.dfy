/** The highlighted navigation item of components/app-shell.tsx. */
module Navigation {
  import opened Text
  import opened RoutePaths
  import opened StableSort

  /** An item's address, and the addresses it declares to stand for; none when `matches`
      is missing or empty. */
  datatype Item = Item(href: string, matches: seq<string>)

  datatype Candidate = Candidate(item: Item, path: string)

  function Declared(item: Item): seq<string> {
    if item.matches != [] then item.matches else [item.href]
  }

  function CandidatesOf(item: Item, paths: seq<string>): seq<Candidate> {
    if paths == [] then [] else [Candidate(item, NormalizedPath(paths[0]))] + CandidatesOf(item, paths[1..])
  }

  function Candidates(items: seq<Item>): seq<Candidate> {
    if items == [] then [] else CandidatesOf(items[0], Declared(items[0])) + Candidates(items[1..])
  }

  predicate Matches(current: string, path: string) {
    current == path || path + "/" <= current
  }

  function Matching(current: string, candidates: seq<Candidate>): seq<Candidate> {
    if candidates == [] then []
    else (if Matches(current, candidates[0].path) then [candidates[0]] else []) + Matching(current, candidates[1..])
  }

  predicate LongerFirst(a: Candidate, b: Candidate) {
    |a.path| >= |b.path|
  }

  function LongestNavigationMatch(items: seq<Item>, currentPath: string): Option<Item> {
    var sorted := Sort(LongerFirst, Matching(NormalizedPath(currentPath), Candidates(items)));
    if sorted == [] then None else Some(sorted[0].item)
  }

  // ----- Matching is by whole segments -----

  lemma {:induction false} JoinParts(front: seq<string>, back: seq<string>, c: char)
    requires front != [] && back != []
    ensures Join(front + back, [c]) == Join(front, [c]) + ([c] + Join(back, [c]))
  {
    assert (front + back)[1..] == front[1..] + back;
    if |front| == 1 {
      assert front + back == [front[0]] + back;
    } else {
      JoinParts(front[1..], back, c);
    }
  }

  /** A path matches exactly the addresses that its segments, and not just its letters,
      begin. */
  lemma MatchesBySegments(current: string, path: string)
    ensures Matches(current, path) <==> Split(path, '/') <= Split(current, '/')
  {
    var p, c := Split(path, '/'), Split(current, '/');
    if path + "/" <= current {
      var rest := current[|path| + 1..];
      assert current == path + (['/'] + rest);
      SplitAt(path, '/', rest);
    }
    if p <= c {
      var rest := c[|p|..];
      JoinSplit(path, '/');
      JoinSplit(current, '/');
      assert c == p + rest;
      if rest == [] {
        assert c == p;
      } else {
        JoinParts(p, rest, '/');
      }
    }
  }

  // ----- Which item wins -----

  /** Of the candidates, number k is the first of the longest that match. */
  ghost predicate Wins(current: string, candidates: seq<Candidate>, k: nat) {
    && k < |candidates| && Matches(current, candidates[k].path)
    && (forall j :: 0 <= j < |candidates| && Matches(current, candidates[j].path) ==>
          |candidates[j].path| <= |candidates[k].path|)
    && (forall j :: 0 <= j < k && Matches(current, candidates[j].path) ==>
          |candidates[j].path| < |candidates[k].path|)
  }

  lemma {:induction false} HeadWins(current: string, candidates: seq<Candidate>) returns (k: nat)
    ensures Matching(current, candidates) != [] ==>
              Wins(current, candidates, k) && Sort(LongerFirst, Matching(current, candidates))[0] == candidates[k]
    ensures Matching(current, candidates) == [] ==>
              forall j :: 0 <= j < |candidates| ==> !Matches(current, candidates[j].path)
  {
    k := 0;
    if candidates != [] {
      var first, rest := candidates[0], candidates[1..];
      var k' := HeadWins(current, rest);
      var tail := Matching(current, rest);
      if !Matches(current, first.path) {
        k := k' + 1;
        assert Matching(current, candidates) == tail;
      } else {
        assert ([first] + tail)[1..] == tail;
        assert Sort(LongerFirst, [first] + tail) == Insert(LongerFirst, first, Sort(LongerFirst, tail));
        if tail != [] && !LongerFirst(first, Sort(LongerFirst, tail)[0]) {
          k := k' + 1;
        }
      }
      assert forall j :: 0 <= j < |rest| ==> rest[j] == candidates[j + 1];
      if Matching(current, candidates) != [] {
        forall j | 0 <= j < |candidates| && Matches(current, candidates[j].path)
          ensures |candidates[j].path| <= |candidates[k].path|
          ensures j < k ==> |candidates[j].path| < |candidates[k].path|
        {
          if j > 0 {
            assert candidates[j] == rest[j - 1];
          }
        }
      }
    }
  }

  /** Two matching paths of one length are one path. */
  lemma SameLengthSamePath(current: string, a: string, b: string)
    requires Matches(current, a) && Matches(current, b) && |a| == |b|
    ensures a == b
  {
    assert a <= current && b <= current;
    assert a == current[..|a|] && b == current[..|b|];
  }

  lemma {:induction false} CandidateIsDeclared(items: seq<Item>, c: Candidate)
    ensures c in Candidates(items) <==>
            exists item, path :: item in items && path in Declared(item) && c == Candidate(item, NormalizedPath(path))
  {
    if items != [] {
      CandidateIsDeclared(items[1..], c);
      CandidateOfItem(items[0], Declared(items[0]), c);
    }
  }

  lemma {:induction false} CandidateOfItem(item: Item, paths: seq<string>, c: Candidate)
    ensures c in CandidatesOf(item, paths) <==>
            exists path :: path in paths && c == Candidate(item, NormalizedPath(path))
  {
    if paths != [] {
      CandidateOfItem(item, paths[1..], c);
    }
  }

  lemma {:induction false} CandidateAt(item: Item, paths: seq<string>, k: nat)
    ensures |CandidatesOf(item, paths)| == |paths|
    ensures k < |paths| ==> CandidatesOf(item, paths)[k] == Candidate(item, NormalizedPath(paths[k]))
  {
    if paths != [] {
      CandidateAt(item, paths[1..], if k > 0 then k - 1 else 0);
    }
  }

  lemma {:induction false} CandidatesParts(front: seq<Item>, back: seq<Item>)
    ensures Candidates(front + back) == Candidates(front) + Candidates(back)
  {
    if front == [] {
      assert front + back == back;
    } else {
      assert (front + back)[1..] == front[1..] + back;
      CandidatesParts(front[1..], back);
    }
  }

  lemma CandidatesOfFirst(items: seq<Item>, i: nat)
    requires 0 < i <= |items|
    ensures Candidates(items[..i]) ==
            CandidatesOf(items[0], Declared(items[0])) + Candidates(items[1..][..i - 1])
  {
    assert items[..i] == [items[0]] + items[1..][..i - 1];
    assert ([items[0]] + items[1..][..i - 1])[1..] == items[1..][..i - 1];
  }

  /** The item and the path that candidate k comes from. */
  lemma {:induction false} Origin(items: seq<Item>, k: nat) returns (i: nat, path: string)
    requires k < |Candidates(items)|
    ensures i < |items| && path in Declared(items[i])
    ensures Candidates(items)[k] == Candidate(items[i], NormalizedPath(path))
    ensures |Candidates(items[..i])| <= k
  {
    var here := CandidatesOf(items[0], Declared(items[0]));
    CandidateAt(items[0], Declared(items[0]), k);
    if k < |here| {
      i, path := 0, Declared(items[0])[k];
    } else {
      i, path := Origin(items[1..], k - |here|);
      i := i + 1;
      CandidatesOfFirst(items, i);
    }
  }

  lemma CandidatesCut(items: seq<Item>, i: nat)
    requires i <= |items|
    ensures Candidates(items) == Candidates(items[..i]) + Candidates(items[i..])
  {
    assert items == items[..i] + items[i..];
    CandidatesParts(items[..i], items[i..]);
  }

  lemma InPrefix<T>(c: T, front: seq<T>, back: seq<T>, k: nat)
    requires c in front && |front| <= k <= |front + back|
    ensures c in (front + back)[..k]
  {
    var m :| 0 <= m < |front| && front[m] == c;
    assert (front + back)[..k][m] == c;
  }

  lemma DeclaredIsCandidate(items: seq<Item>, item: Item, path: string)
    requires item in items && path in Declared(item)
    ensures Candidate(item, NormalizedPath(path)) in Candidates(items)
  {
    CandidateIsDeclared(items, Candidate(item, NormalizedPath(path)));
  }

  /** What earlier items declare comes before candidate k. */
  lemma EarlierIsBefore(items: seq<Item>, i: nat, k: nat, item: Item, path: string)
    requires i <= |items| && |Candidates(items[..i])| <= k < |Candidates(items)|
    requires item in items[..i] && path in Declared(item)
    ensures Candidate(item, NormalizedPath(path)) in Candidates(items)[..k]
  {
    DeclaredIsCandidate(items[..i], item, path);
    CandidatesCut(items, i);
    InPrefix(Candidate(item, NormalizedPath(path)), Candidates(items[..i]), Candidates(items[i..]), k);
  }

  /** The item stands for a path that begins the current one by whole segments: one of its
      `matches`, or its own address when it has none. */
  ghost predicate Begins(item: Item, path: string, current: string) {
    (if item.matches == [] then path == item.href else path in item.matches) &&
    Split(NormalizedPath(path), '/') <= Split(current, '/')
  }

  ghost predicate SomeBegins(items: seq<Item>, current: string) {
    exists item, path :: item in items && Begins(item, path, current)
  }

  /** Item i is the first to declare a longest path that begins the current one. */
  ghost predicate FirstLongest(items: seq<Item>, current: string, i: nat, path: string) {
    && i < |items| && Begins(items[i], path, current)
    && (forall item, p :: item in items && Begins(item, p, current) ==>
          |NormalizedPath(p)| <= |NormalizedPath(path)| &&
          (|NormalizedPath(p)| == |NormalizedPath(path)| ==> NormalizedPath(p) == NormalizedPath(path)))
    && (forall item, p :: item in items[..i] && Begins(item, p, current) ==>
          |NormalizedPath(p)| < |NormalizedPath(path)|)
  }

  lemma WinnerIsFirstLongest(items: seq<Item>, current: string, k: nat) returns (i: nat, path: string)
    requires Wins(current, Candidates(items), k)
    ensures FirstLongest(items, current, i, path) && items[i] == Candidates(items)[k].item
  {
    i, path := Origin(items, k);
    MatchesBySegments(current, NormalizedPath(path));
    forall item, p | item in items && Begins(item, p, current)
      ensures |NormalizedPath(p)| <= |NormalizedPath(path)|
      ensures |NormalizedPath(p)| == |NormalizedPath(path)| ==> NormalizedPath(p) == NormalizedPath(path)
      ensures item in items[..i] ==> |NormalizedPath(p)| < |NormalizedPath(path)|
    {
      MatchesBySegments(current, NormalizedPath(p));
      CandidateIsDeclared(items, Candidate(item, NormalizedPath(p)));
      if item in items[..i] {
        EarlierIsBefore(items, i, k, item, p);
      }
      if |NormalizedPath(p)| == |NormalizedPath(path)| {
        SameLengthSamePath(current, NormalizedPath(p), NormalizedPath(path));
      }
    }
  }

  /** An item is highlighted if and only if some item declares a path that begins the
      current one by whole segments. It is then the first to declare the longest such path,
      and that path is unique. */
  lemma LongestMatchWins(items: seq<Item>, currentPath: string) returns (i: nat, path: string)
    ensures LongestNavigationMatch(items, currentPath).Some? <==> SomeBegins(items, NormalizedPath(currentPath))
    ensures LongestNavigationMatch(items, currentPath).Some? ==>
              FirstLongest(items, NormalizedPath(currentPath), i, path) &&
              LongestNavigationMatch(items, currentPath) == Some(items[i])
  {
    i, path := 0, "";
    var current, candidates := NormalizedPath(currentPath), Candidates(items);
    var k := HeadWins(current, candidates);
    if Matching(current, candidates) != [] {
      i, path := WinnerIsFirstLongest(items, current, k);
      assert items[i] in items;
    } else {
      forall item, p | item in items && p in Declared(item)
        ensures !Begins(item, p, current)
      {
        CandidateIsDeclared(items, Candidate(item, NormalizedPath(p)));
        MatchesBySegments(current, NormalizedPath(p));
      }
    }
  }

  /** A query or fragment of the current address changes nothing. */
  lemma SuffixKeepsMatch(items: seq<Item>, currentPath: string, suffix: string)
    requires IsSuffix(suffix)
    ensures LongestNavigationMatch(items, currentPath + suffix) == LongestNavigationMatch(items, currentPath)
  {
    NormalizedSuffix(currentPath, suffix);
  }
}
