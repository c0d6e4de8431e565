/** Legacy addresses, as data/legacy-redirects.ts resolves them by a table of entries and a
    pattern for cases, and why following them ends. */
module LegacyRoutes {
  import opened Text
  import opened RoutePaths

  /** A redirect, or an explanatory page with a link onward. The page's texts are left out. */
  datatype Entry = Redirect(source: string, target: string) | Unavailable(source: string, nextRoute: string)

  const OLD_INVITATIONS := "/app/solver/invitations"
  const TEAMS := "/app/solver/teams"
  const SAMPLE_ENTRY := Redirect("/org/challenges/sample", "/app/org/challenges/CH-1405-021" + "/overview")

  function Target(e: Entry): string {
    match e
    case Redirect(_, target) => target
    case Unavailable(_, nextRoute) => nextRoute
  }

  /** `path` starts with "/app/". */
  predicate Inside(path: string) {
    |path| > 4 && path[0] == '/' && path[1] == 'a' && path[2] == 'p' && path[3] == 'p' && path[4] == '/'
  }

  /** What the entries have in common. Each line looks at as few characters of an address
      as tell it from the others, so that the whole table can be gone through:
      - only one entry leads away from inside the application ("/a...");
      - only one starts with "/t", and all others lead inside;
      - only one leads to an address like that of the invitations ("/app/s......i");
      - of those below the cases ("/org/c.........../"), one makes a new case, one is the
        sample, and the rest are below the sample;
      - "/org/intake" and "/org/challenges" are the only ones of their length and first
        letters. */
  predicate Orderly(e: Entry) {
    var s, t := e.source, Target(e);
    && 3 < |s| < 40
    && (s[1] == 'a' ==> e == Redirect(OLD_INVITATIONS, TEAMS))
    && (s[1] == 't' ==> e == Redirect("/trust", "/trust-security"))
    && (s[1] == 't' || Inside(t))
    && (|t| > 12 && t[5] == 's' && t[12] == 'i' ==> e == Redirect("/solver/invitations", OLD_INVITATIONS))
    && (|s| > 15 && s[1] == 'o' && s[5] == 'c' && s[15] == '/' ==>
          e == Redirect("/org/challenges/new", "/app/org/challenges/new") ||
          e == SAMPLE_ENTRY ||
          (|s| > 22 && s[16] == 's' && s[17] == 'a' && s[18] == 'm' &&
           s[19] == 'p' && s[20] == 'l' && s[21] == 'e' && s[22] == '/'))
    && (|s| == 11 && s[5] == 'i' && s[6] == 'n' ==> e == Redirect("/org/intake", "/app/org/challenges/new"))
    && (|s| == 15 && s[5] == 'c' ==> e == Redirect("/org/challenges", "/app/org/challenges"))
  }

  ghost predicate OrderlyTable(table: seq<Entry>) {
    forall e :: e in table ==> Orderly(e)
  }

  // ----- Resolution -----

  /** `entries.find((entry) => entry.source === source)`. */
  function Find(entries: seq<Entry>, source: string): (r: Option<Entry>)
    ensures r.Some? ==> r.value in entries && r.value.source == source
    ensures r.None? ==> forall e :: e in entries ==> e.source != source
  {
    if entries == [] then None
    else if entries[0].source == source then Some(entries[0])
    else Find(entries[1..], source)
  }

  const OLD_CASES := "/org/challenges/"
  const NEW_CASES := "/app/org/challenges/"

  predicate OldView(view: string) {
    view == "" || view == "/edit" || view == "/studio" || view == "/preview" || view == "/submitted"
  }

  /** The id and the view of an old address of a case. */
  function OldCase(path: string): Option<(string, string)> {
    var rest :- Expect(path, OLD_CASES);
    var id := Before(rest, '/');
    if id != "" && OldView(rest[|id|..]) then Some((id, rest[|id|..])) else None
  }

  /** `getLegacyResolution`, for the given ids of cases. */
  function Resolve(path: string, table: seq<Entry>, ids: seq<string>): Option<Entry> {
    var normalized := NormalizeRoutePath(path);
    var direct := Find(table, normalized);
    if direct.Some? then direct
    else
      var found :- OldCase(normalized);
      if found.0 in ids then Some(Redirect(normalized, NEW_CASES + (found.0 + found.1))) else None
  }

  /** A query or fragment never changes where an address leads. */
  lemma SuffixDoesNotMatter(path: string, suffix: string, table: seq<Entry>, ids: seq<string>)
    requires IsSuffix(suffix)
    ensures Resolve(path + suffix, table, ids) == Resolve(path, table, ids)
  {
    NormalizedSuffix(path, suffix);
  }

  // ----- How far it is to the end -----

  /** Inside the application, or longer than "/trust". */
  predicate Arrived(normalized: string) {
    |normalized| > 1 && (normalized[1] == 'a' || (normalized[1] == 't' && |normalized| > 6))
  }

  function Rank(path: string): nat {
    var normalized := NormalizeRoutePath(path);
    if !Arrived(normalized) then 2 else if normalized == OLD_INVITATIONS then 1 else 0
  }

  lemma OldInvitationsShape()
    ensures |OLD_INVITATIONS| > 12 && OLD_INVITATIONS[1] == 'a' &&
            OLD_INVITATIONS[5] == 's' && OLD_INVITATIONS[12] == 'i'
  {
  }

  /** Normalising keeps an address up to a character that is neither cut nor stripped. */
  lemma Survives(path: string, k: nat)
    requires k < |path| && path[k] != '/' && forall i :: 0 <= i <= k ==> path[i] != '?' && path[i] != '#'
    ensures NormalizeRoutePath(path) <= path && |NormalizeRoutePath(path)| > k
  {
    BareIsBare(path);
    var bare := Bare(path);
    assert |bare| > k && bare[k] == path[k];
  }

  lemma InsideArrives(path: string)
    requires Inside(path)
    ensures Arrived(NormalizeRoutePath(path)) && NormalizeRoutePath(path) <= path
    ensures (|path| > 12 ==> path[5] != 's' || path[12] != 'i') ==> Rank(path) == 0
  {
    Survives(path, 3);
    OldInvitationsShape();
    if NormalizeRoutePath(path) == OLD_INVITATIONS {
      assert path[5] == OLD_INVITATIONS[5] && path[12] == OLD_INVITATIONS[12];
    }
  }

  lemma TrustArrives(suffix: string)
    ensures Rank("/trust-security" + suffix) == 0
  {
    var path := "/trust-security" + suffix;
    Survives(path, 6);
    OldInvitationsShape();
    assert NormalizeRoutePath(path)[1] == 't';
  }

  lemma TeamsArrives(suffix: string)
    ensures Rank(TEAMS + suffix) == 0
  {
    InsideArrives(TEAMS + suffix);
  }

  lemma OrderlySources(e: Entry)
    requires Orderly(e)
    ensures e.source[1] == 'a' ==> e.source == OLD_INVITATIONS
    ensures e.source[1] == 't' ==> |e.source| == 6
  {
  }

  lemma DirectEntryDrops(path: string, suffix: string, e: Entry)
    requires Orderly(e) && e.Redirect? && e.source == NormalizeRoutePath(path)
    ensures Rank(e.target + suffix) < Rank(path)
  {
    OrderlySources(e);
    if e.source[1] == 'a' {
      TeamsArrives(suffix);
    } else if e.source[1] == 't' {
      TrustArrives(suffix);
    } else {
      InsideArrives(e.target + suffix);
    }
  }

  /** Every hop comes nearer to the end. */
  lemma HopDrops(path: string, suffix: string, table: seq<Entry>, ids: seq<string>)
    requires OrderlyTable(table)
    requires Resolve(path, table, ids).Some? && Resolve(path, table, ids).value.Redirect?
    ensures Rank(Resolve(path, table, ids).value.target + suffix) < Rank(path)
  {
    var n := NormalizeRoutePath(path);
    var direct := Find(table, n);
    if direct.Some? {
      DirectEntryDrops(path, suffix, direct.value);
    } else {
      CaseDrops(path, Resolve(path, table, ids).value.target + suffix);
    }
  }

  lemma CaseDrops(path: string, next: string)
    requires OLD_CASES <= NormalizeRoutePath(path) && NEW_CASES <= next
    ensures Rank(next) < Rank(path)
  {
    NewCaseIsInside(next);
    InsideArrives(next);
    OldCaseIsAhead(NormalizeRoutePath(path));
  }

  lemma NewCaseIsInside(path: string)
    requires NEW_CASES <= path
    ensures Inside(path)
  {
    assert path[0] == NEW_CASES[0] && path[1] == NEW_CASES[1] && path[2] == NEW_CASES[2];
    assert path[3] == NEW_CASES[3] && path[4] == NEW_CASES[4];
  }

  lemma OldCaseIsAhead(normalized: string)
    requires OLD_CASES <= normalized
    ensures !Arrived(normalized)
  {
    assert normalized[1] == OLD_CASES[1] == 'o';
  }

  lemma ArrivedIsNoSource(e: Entry, n: string)
    requires Orderly(e) && Arrived(n) && n != OLD_INVITATIONS
    ensures e.source != n
  {
    OrderlySources(e);
  }

  lemma ArrivedIsUnresolved(path: string, table: seq<Entry>, ids: seq<string>)
    requires OrderlyTable(table)
    requires Rank(path) == 0
    ensures Resolve(path, table, ids) == None
  {
    var n := NormalizeRoutePath(path);
    forall e | e in table
      ensures e.source != n
    {
      ArrivedIsNoSource(e, n);
    }
    if OLD_CASES <= n {
      OldCaseIsAhead(n);
    }
  }

  /** One redirect, with whatever query or fragment it carries along. */
  ghost predicate Hop(path: string, next: string, table: seq<Entry>, ids: seq<string>) {
    var r := Resolve(path, table, ids);
    r.Some? && r.value.Redirect? && r.value.target <= next && IsSuffix(next[|r.value.target|..])
  }

  lemma HopRanks(path: string, next: string, table: seq<Entry>, ids: seq<string>)
    requires OrderlyTable(table)
    requires Hop(path, next, table, ids)
    ensures Rank(next) < Rank(path)
  {
    var target := Resolve(path, table, ids).value.target;
    assert next == target + next[|target|..];
    HopDrops(path, next[|target|..], table, ids);
  }

  /** From any address whatever, with any suffixes carried along, redirects end after at
      most two hops. */
  lemma {:induction false} ChainIsShort(paths: seq<string>, table: seq<Entry>, ids: seq<string>)
    requires OrderlyTable(table)
    requires paths != [] && forall i :: 0 <= i < |paths| - 1 ==> Hop(paths[i], paths[i + 1], table, ids)
    ensures |paths| - 1 <= Rank(paths[0]) <= 2
  {
    if |paths| > 1 {
      assert Hop(paths[0], paths[0 + 1], table, ids);
      HopRanks(paths[0], paths[1], table, ids);
      forall i | 0 <= i < |paths| - 2
        ensures Hop(paths[1..][i], paths[1..][i + 1], table, ids)
      {
        assert Hop(paths[i + 1], paths[i + 1 + 1], table, ids);
      }
      ChainIsShort(paths[1..], table, ids);
    }
  }

  /** The link on an unavailable page never leads to another legacy address. */
  lemma NextRouteIsCurrent(path: string, table: seq<Entry>, ids: seq<string>)
    requires OrderlyTable(table)
    requires Resolve(path, table, ids).Some? && Resolve(path, table, ids).value.Unavailable?
    ensures Resolve(Resolve(path, table, ids).value.nextRoute, table, ids) == None
  {
    var e := Resolve(path, table, ids).value;
    assert Orderly(e);
    InsideArrives(e.nextRoute);
    ArrivedIsUnresolved(e.nextRoute, table, ids);
  }
}
