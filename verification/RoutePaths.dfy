/** The three ways in which the application takes the path out of an address. */
module RoutePaths {
  import opened Text

  /** The part before any query or fragment. */
  function Bare(path: string): string {
    Before(Before(path, '#'), '?')
  }

  /** `normalizeRoutePath` of data/legacy-redirects.ts. */
  function NormalizeRoutePath(path: string): string {
    var withoutQuery := Bare(path);
    if withoutQuery != "/" then StripTrailing(withoutQuery, '/') else "/"
  }

  /** `normalizedPath` of components/app-shell.tsx. */
  function NormalizedPath(path: string): string {
    var clean := StripTrailing(Before(Before(path, '?'), '#'), '/');
    if clean == "" then "/" else clean
  }

  /** `indexOf` followed by `slice(0, index)`, or everything. */
  function UpTo(s: string, c: char): string {
    if c in s then Before(s, c) else s
  }

  /** `standalonePathFromHash` of lib/routing/standalone-navigation.ts. */
  function StandalonePathFromHash(hash: string): string {
    if !("#/" <= hash) then "/"
    else
      var pathname := UpTo(UpTo(hash[1..], '#'), '?');
      if pathname != "/" then StripTrailing(pathname, '/') else "/"
  }

  // ----- Cutting -----

  /** `bare` is the longest prefix of `s` without a question mark or a number sign. */
  ghost predicate IsBare(s: string, bare: string) {
    bare <= s && '?' !in bare && '#' !in bare && (|bare| < |s| ==> s[|bare|] == '?' || s[|bare|] == '#')
  }

  lemma {:induction false} BareUnique(s: string, a: string, b: string)
    requires IsBare(s, a) && IsBare(s, b)
    ensures a == b
  {
    if s != "" && a != "" && b != "" {
      BareUnique(s[1..], a[1..], b[1..]);
      assert a == [s[0]] + a[1..] && b == [s[0]] + b[1..];
    }
  }

  lemma BareIsBare(s: string)
    ensures IsBare(s, Bare(s))
  {
    var first := Before(s, '#');
    assert |Bare(s)| < |first| ==> s[|Bare(s)|] == first[|Bare(s)|];
  }

  lemma EitherOrder(s: string)
    ensures Before(Before(s, '?'), '#') == Bare(s)
  {
    var first := Before(s, '?');
    var bare := Before(first, '#');
    assert |bare| < |first| ==> s[|bare|] == first[|bare|];
    assert IsBare(s, bare);
    BareIsBare(s);
    BareUnique(s, bare, Bare(s));
  }

  /** A query, a fragment, or nothing: what a redirect carries along. */
  predicate IsSuffix(suffix: string) {
    suffix == "" || suffix[0] == '?' || suffix[0] == '#'
  }

  lemma SuffixIsCut(path: string, suffix: string)
    requires IsSuffix(suffix)
    ensures Bare(path + suffix) == Bare(path)
  {
    BareIsBare(path);
    BareIsBare(path + suffix);
    assert IsBare(path + suffix, Bare(path));
    BareUnique(path + suffix, Bare(path + suffix), Bare(path));
  }

  lemma BareStays(path: string)
    requires '?' !in path && '#' !in path
    ensures Bare(path) == path
  {
    BareIsBare(path);
    BareUnique(path, Bare(path), path);
  }

  lemma {:induction false} StripStays(s: string, c: char)
    requires s == "" || s[|s| - 1] != c
    ensures StripTrailing(s, c) == s
  {
  }

  lemma {:induction false} StripRun(s: string, c: char, run: string)
    requires forall i :: 0 <= i < |run| ==> run[i] == c
    ensures StripTrailing(s + run, c) == StripTrailing(s, c)
  {
    if run == "" {
      assert s + run == s;
    } else {
      assert (s + run)[..|s + run| - 1] == s + run[..|run| - 1];
      StripRun(s, c, run[..|run| - 1]);
    }
  }

  // ----- What the three have in common -----

  lemma NormalizedSuffix(path: string, suffix: string)
    requires IsSuffix(suffix)
    ensures NormalizeRoutePath(path + suffix) == NormalizeRoutePath(path)
    ensures NormalizedPath(path + suffix) == NormalizedPath(path)
  {
    SuffixIsCut(path, suffix);
    EitherOrder(path);
    EitherOrder(path + suffix);
  }

  lemma StrippedStays(path: string)
    ensures var clean := StripTrailing(Bare(path), '/');
            Bare(clean) == clean && StripTrailing(clean, '/') == clean
  {
    BareIsBare(path);
    var clean := StripTrailing(Bare(path), '/');
    assert forall c :: c in clean ==> c in Bare(path);
    BareStays(clean);
    StripStays(clean, '/');
  }

  lemma NormalizedIdempotent(path: string)
    ensures NormalizeRoutePath(NormalizeRoutePath(path)) == NormalizeRoutePath(path)
    ensures NormalizedPath(NormalizedPath(path)) == NormalizedPath(path)
  {
    StrippedStays(path);
    EitherOrder(path);
    EitherOrder(StripTrailing(Bare(path), '/'));
    BareStays("/");
    EitherOrder("/");
    assert StripTrailing("/", '/') == "";
  }

  /** What is cut off: slashes at the end, and a query or fragment behind them; nothing else,
      and all of it, except that a single slash stays. */
  lemma NormalizingCuts(path: string) returns (slashes: string, suffix: string)
    ensures path == NormalizeRoutePath(path) + slashes + suffix && IsSuffix(suffix)
    ensures forall i :: 0 <= i < |slashes| ==> slashes[i] == '/'
    ensures '?' !in NormalizeRoutePath(path) && '#' !in NormalizeRoutePath(path)
    ensures var n := NormalizeRoutePath(path);
            if n == "/" then slashes == "" else n == "" || n[|n| - 1] != '/'
  {
    BareIsBare(path);
    var bare, n := Bare(path), NormalizeRoutePath(path);
    slashes, suffix := bare[|n|..], path[|bare|..];
    assert path == bare + suffix && bare == n + slashes;
  }

  /** The router, the redirects and the navigation read every address alike, but for what
      they make of an empty path. */
  lemma NormalizersAgree(path: string)
    ensures NormalizedPath(path) == if NormalizeRoutePath(path) == "" then "/" else NormalizeRoutePath(path)
    ensures "/" <= path ==> StandalonePathFromHash("#" + path) == NormalizeRoutePath(path)
  {
    EitherOrder(path);
    assert StripTrailing("/", '/') == "";
    if "/" <= path {
      assert "#/" <= "#" + path && ("#" + path)[1..] == path;
      UpToIsBefore(path, '#');
      UpToIsBefore(Before(path, '#'), '?');
    }
  }

  lemma UpToIsBefore(s: string, c: char)
    ensures UpTo(s, c) == Before(s, c)
  {
    if c !in s {
      BeforeIsLongest(s, c, s);
    }
  }

  /** A fragment that is no path leads to the root. */
  lemma NoPathIsRoot(hash: string)
    requires |hash| < 2 || hash[0] != '#' || hash[1] != '/'
    ensures StandalonePathFromHash(hash) == "/"
  {
  }
}
