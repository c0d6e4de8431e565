/** The organization's challenge routes of data/challenge-flow-routes.ts, with a redirect
    table of their own, and their agreement with the legacy redirects. */
module FlowRoutes {
  import opened Text
  import opened RoutePaths
  import opened LegacyRoutes
  import opened LegacyTable

  datatype RecordView = Detail | Edit | Preview | Submitted | Governance

  /** Where an address leads when it carries no query. */
  datatype Flow =
    | ListPage
    | NewPage
    | View(view: RecordView, id: string)
    | ConnectedRecord(recordView: RecordView)
    | FlowRedirect(target: string)
    | Unknown

  const INTAKE := "/org/intake"
  const CHALLENGES := "/org/challenges"
  const NEW_CHALLENGE := "/org/challenges/new"
  const SAMPLE := "/org/challenges/sample"
  const FIRST_CHALLENGE := "/onboarding/organization" + "/first-challenge"

  const LIST_PATH := "/app/org/challenges"
  const NEW_PATH := "/app/org/challenges/new"
  const RECORD_PATH := "/app/org/challenges/record"

  /** The case that stands in for the sample in the legacy table. */
  const SAMPLE_ID := "CH-1405-021"

  function RootRedirects(ids: seq<string>): map<string, string>
    requires ids != []
  {
    map[
      INTAKE := NEW_PATH,
      CHALLENGES := LIST_PATH,
      NEW_CHALLENGE := NEW_PATH,
      SAMPLE := NEW_CASES + ids[0],
      FIRST_CHALLENGE := NEW_PATH
    ]
  }

  /** The five entries of one id. */
  function CaseRedirects(id: string): map<string, string> {
    map[
      OLD_CASES + (id + "") := NEW_CASES + (id + ""),
      OLD_CASES + (id + "/edit") := NEW_CASES + (id + "/edit"),
      OLD_CASES + (id + "/studio") := NEW_CASES + (id + "/edit"),
      OLD_CASES + (id + "/preview") := NEW_CASES + (id + "/preview"),
      OLD_CASES + (id + "/submitted") := NEW_CASES + (id + "/submitted")
    ]
  }

  /** `Object.fromEntries` of them all; later entries win. */
  function GeneratedRedirects(ids: seq<string>): map<string, string> {
    if ids == [] then map[]
    else GeneratedRedirects(ids[..|ids| - 1]) + CaseRedirects(ids[|ids| - 1])
  }

  function Redirects(ids: seq<string>): map<string, string>
    requires ids != []
  {
    RootRedirects(ids) + GeneratedRedirects(ids)
  }

  predicate ViewSegment(view: string) {
    view == "" || view == "/overview" || view == "/edit" || view == "/studio" || view == "/preview" ||
    view == "/submitted" || view == "/governance"
  }

  /** `recordView` of the segment, with its slash. */
  function ViewOf(view: string): RecordView {
    if view == "/studio" || view == "/edit" then Edit
    else if view == "/preview" then Preview
    else if view == "/submitted" then Submitted
    else if view == "/governance" then Governance
    else Detail
  }

  /** `path.length > 1 ? path.replace(/\/$/, "") : path`. */
  function DropSlash(path: string): string {
    if |path| > 1 && path[|path| - 1] == '/' then path[..|path| - 1] else path
  }

  /** A case's id and view, in its current address. */
  function NewCase(path: string): Option<(string, string)> {
    var rest :- Expect(path, NEW_CASES);
    var id := Before(rest, '/');
    if id != "" && ViewSegment(rest[|id|..]) then Some((id, rest[|id|..])) else None
  }

  /** `getChallengeFlowRoute` of a path without a query. */
  function FlowRoute(path: string, ids: seq<string>): Flow
    requires ids != []
  {
    var n := DropSlash(path);
    if n == LIST_PATH then ListPage
    else if n == NEW_PATH then NewPage
    else if n in Redirects(ids) then FlowRedirect(Redirects(ids)[n])
    else if RECORD_PATH <= n && ViewSegment(n[|RECORD_PATH|..]) then ConnectedRecord(ViewOf(n[|RECORD_PATH|..]))
    else match NewCase(n)
      case None => Unknown
      case Some((id, view)) => if id in ids then View(ViewOf(view), id) else Unknown
  }

  /** Ids are path segments, and none is one of the words that the tables reserve. */
  predicate ValidId(id: string) {
    && id != "" && '/' !in id && '?' !in id && '#' !in id
    && id != "new" && id != "sample" && id != "record"
  }

  ghost predicate ValidIds(ids: seq<string>) {
    ids != [] && forall id :: id in ids ==> ValidId(id)
  }

  // ----- The generated table -----

  /** The view that takes an old view's place. */
  function NewView(view: string): string {
    if view == "/studio" then "/edit" else view
  }

  ghost predicate Generated(ids: seq<string>, key: string, target: string, id: string, view: string) {
    id in ids && OldView(view) && key == OLD_CASES + (id + view) && target == NEW_CASES + (id + NewView(view))
  }

  lemma CaseKeys(id: string, key: string) returns (view: string)
    requires key in CaseRedirects(id)
    ensures OldView(view) && key == OLD_CASES + (id + view)
    ensures CaseRedirects(id)[key] == NEW_CASES + (id + NewView(view))
  {
    view :| view in {"", "/edit", "/studio", "/preview", "/submitted"} && key == OLD_CASES + (id + view);
    assert |"/edit"| == 5 && |"/studio"| == 7 && |"/preview"| == 8 && |"/submitted"| == 10;
  }

  lemma {:induction false} GeneratedKeys(ids: seq<string>, key: string) returns (id: string, view: string)
    requires key in GeneratedRedirects(ids)
    ensures Generated(ids, key, GeneratedRedirects(ids)[key], id, view)
  {
    var last := ids[|ids| - 1];
    if key in CaseRedirects(last) {
      id := last;
      view := CaseKeys(last, key);
    } else {
      id, view := GeneratedKeys(ids[..|ids| - 1], key);
    }
  }

  // ----- Reading an id and a view back -----

  predicate Segment(view: string) {
    view == "" || view[0] == '/'
  }

  lemma IdReadsBack(id: string, view: string)
    requires '/' !in id && Segment(view)
    ensures Before(id + view, '/') == id && (id + view)[|id|..] == view
  {
    BeforeIsLongest(id + view, '/', id);
  }

  lemma SegmentsUnique(id: string, view: string, id': string, view': string)
    requires '/' !in id && '/' !in id' && Segment(view) && Segment(view')
    requires id + view == id' + view'
    ensures id == id' && view == view'
  {
    IdReadsBack(id, view);
    IdReadsBack(id', view');
  }

  lemma OldCaseReadsBack(id: string, view: string)
    requires ValidId(id) && OldView(view)
    ensures OldCase(OLD_CASES + (id + view)) == Some((id, view))
  {
    ExpectPrefix(OLD_CASES, id + view);
    IdReadsBack(id, view);
  }

  lemma NewCaseReadsBack(id: string, view: string)
    requires ValidId(id) && ViewSegment(view)
    ensures NewCase(NEW_CASES + (id + view)) == Some((id, view))
  {
    ExpectPrefix(NEW_CASES, id + view);
    IdReadsBack(id, view);
  }

  // ----- What the legacy table says of a case -----

  lemma OldCasesShape()
    ensures |OLD_CASES| == 16 && OLD_CASES[1] == 'o' && OLD_CASES[5] == 'c' && OLD_CASES[15] == '/'
    ensures NEW_CHALLENGE == OLD_CASES + "new" && SAMPLE == OLD_CASES + "sample"
  {
  }

  lemma WordsAreReserved(id: string, view: string)
    requires ValidId(id) && Segment(view)
    ensures id + view != "new" && id + view != "sample" && !("sample/" <= id + view)
  {
    IdReadsBack(id, view);
    if id + view == "new" {
      SegmentsUnique(id, view, "new", "");
    }
    if id + view == "sample" {
      SegmentsUnique(id, view, "sample", "");
    }
    if "sample/" <= id + view {
      var rest := (id + view)[6..];
      assert id + view == "sample" + rest;
      SegmentsUnique(id, view, "sample", rest);
    }
  }

  lemma CaseIsNoEntry(id: string, view: string, e: Entry)
    requires ValidId(id) && Segment(view) && Orderly(e)
    ensures e.source != OLD_CASES + (id + view)
  {
    OldCasesShape();
    WordsAreReserved(id, view);
    var s, tail := OLD_CASES + (id + view), id + view;
    assert s[1] == OLD_CASES[1] && s[5] == OLD_CASES[5] && s[15] == OLD_CASES[15];
    assert s[16..] == tail;
    if e.source == s {
      CaseEntries(e, tail);
    }
  }

  lemma CaseEntries(e: Entry, tail: string)
    requires Orderly(e) && |e.source| > 15 && e.source == OLD_CASES + tail
    requires e.source[1] == 'o' && e.source[5] == 'c' && e.source[15] == '/'
    ensures tail == "new" || tail == "sample" || "sample/" <= tail
  {
    OldCasesShape();
    assert e.source[16..] == tail;
    if |e.source| > 22 && e.source[16] == 's' && e.source[17] == 'a' && e.source[18] == 'm' &&
       e.source[19] == 'p' && e.source[20] == 'l' && e.source[21] == 'e' && e.source[22] == '/' {
      assert tail[0] == 's' && tail[1] == 'a' && tail[2] == 'm' && tail[3] == 'p' &&
             tail[4] == 'l' && tail[5] == 'e' && tail[6] == '/';
      assert tail[..7] == "sample/";
    } else {
      assert e.source == NEW_CHALLENGE || e.source == SAMPLE;
    }
  }

  /** An old address of a case is in its normal form, with or without a slash at its end. */
  lemma CaseIsNormal(id: string, view: string)
    requires ValidId(id) && OldView(view)
    ensures NormalizeRoutePath(OLD_CASES + (id + view)) == OLD_CASES + (id + view)
    ensures NormalizeRoutePath(OLD_CASES + (id + view) + "/") == OLD_CASES + (id + view)
  {
    var s := OLD_CASES + (id + view);
    assert '?' !in OLD_CASES && '#' !in OLD_CASES;
    assert '?' !in view && '#' !in view && (view != "" ==> view[|view| - 1] != '/');
    assert s[|s| - 1] == (if view == "" then id[|id| - 1] else view[|view| - 1]) != '/';
    CleanIsNormal(s);
  }

  lemma CleanIsNormal(s: string)
    requires |s| > 1 && '?' !in s && '#' !in s && s[|s| - 1] != '/'
    ensures NormalizeRoutePath(s) == s && NormalizeRoutePath(s + "/") == s
  {
    BareStays(s);
    BareStays(s + "/");
    StripStays(s, '/');
    StripRun(s, '/', "/");
  }

  /** The legacy redirects send every old view of a case to the same view. */
  lemma LegacyCase(id: string, view: string, path: string, ids: seq<string>)
    requires ValidId(id) && OldView(view) && NormalizeRoutePath(path) == OLD_CASES + (id + view)
    ensures Resolve(path, Entries(), ids) ==
            if id in ids then Some(Redirect(OLD_CASES + (id + view), NEW_CASES + (id + view))) else None
  {
    EntriesOrderly();
    LegacyCaseIn(id, view, path, Entries(), ids);
  }

  lemma LegacyCaseIn(id: string, view: string, path: string, table: seq<Entry>, ids: seq<string>)
    requires OrderlyTable(table)
    requires ValidId(id) && OldView(view) && NormalizeRoutePath(path) == OLD_CASES + (id + view)
    ensures Resolve(path, table, ids) ==
            if id in ids then Some(Redirect(OLD_CASES + (id + view), NEW_CASES + (id + view))) else None
  {
    forall e | e in table
      ensures e.source != NormalizeRoutePath(path)
    {
      CaseIsNoEntry(id, view, e);
    }
    OldCaseReadsBack(id, view);
  }

  // ----- Where the new addresses lead -----

  lemma NewCasesShape()
    ensures NEW_CASES == LIST_PATH + "/" && NEW_PATH == NEW_CASES + "new" && RECORD_PATH == NEW_CASES + "record"
    ensures NEW_CASES[1] == 'a' && |LIST_PATH| == 19 && |NEW_CASES| == 20
  {
  }

  lemma RootKeysShape(ids: seq<string>, key: string)
    requires ids != [] && key in RootRedirects(ids)
    ensures |key| > 1 && key[1] == 'o'
  {
    assert INTAKE[1] == 'o' && CHALLENGES[1] == 'o' && NEW_CHALLENGE[1] == 'o' &&
           SAMPLE[1] == 'o' && FIRST_CHALLENGE[1] == 'o';
  }

  lemma RedirectKeysShape(ids: seq<string>, key: string)
    requires ids != [] && key in Redirects(ids)
    ensures |key| > 1 && key[1] == 'o'
  {
    if key in GeneratedRedirects(ids) {
      var id, view := GeneratedKeys(ids, key);
      OldCasesShape();
      assert key[1] == OLD_CASES[1];
    } else {
      RootKeysShape(ids, key);
    }
  }

  lemma NotReservedPath(id: string, view: string)
    requires ValidId(id) && Segment(view)
    ensures NEW_CASES + (id + view) != LIST_PATH && NEW_CASES + (id + view) != NEW_PATH
    ensures RECORD_PATH <= NEW_CASES + (id + view) ==> !Segment((NEW_CASES + (id + view))[|RECORD_PATH|..])
  {
    NewCasesShape();
    WordsAreReserved(id, view);
    SamePrefix(NEW_CASES, id + view, "new");
    if RECORD_PATH <= NEW_CASES + (id + view) {
      NotRecordPath(id, view, NEW_CASES, "record");
    }
  }

  lemma SamePrefix(front: string, tail: string, other: string)
    requires tail != other
    ensures front + tail != front + other
  {
    assert (front + tail)[|front|..] == tail && (front + other)[|front|..] == other;
  }

  lemma NotRecordPath(id: string, view: string, front: string, word: string)
    requires '/' !in id && '/' !in word && Segment(view) && id != word
    requires front + word <= front + (id + view)
    ensures !Segment((front + (id + view))[|front + word|..])
  {
    var rest := (front + (id + view))[|front + word|..];
    assert front + (id + view) == front + (word + rest);
    assert (front + (id + view))[|front|..] == id + view && (front + (word + rest))[|front|..] == word + rest;
    if Segment(rest) {
      SegmentsUnique(id, view, word, rest);
    }
  }

  lemma ViewSegments(view: string)
    requires ViewSegment(view)
    ensures Segment(view) && (view != "" ==> view[|view| - 1] != '/')
  {
  }

  /** A current address of any case, known or not, is read as such and as nothing else. */
  lemma CaseAddress(id: string, view: string, ids: seq<string>)
    requires ids != [] && ValidId(id) && ViewSegment(view)
    ensures FlowRoute(NEW_CASES + (id + view), ids) == if id in ids then View(ViewOf(view), id) else Unknown
  {
    var n := NEW_CASES + (id + view);
    ViewSegments(view);
    assert n[|n| - 1] == (if view == "" then id[|id| - 1] else view[|view| - 1]) != '/';
    NotReservedPath(id, view);
    NewCasesShape();
    if n in Redirects(ids) {
      RedirectKeysShape(ids, n);
    }
    if RECORD_PATH <= n && ViewSegment(n[|RECORD_PATH|..]) {
      ViewSegments(n[|RECORD_PATH|..]);
    }
    NewCaseReadsBack(id, view);
  }

  lemma NewCaseIsView(id: string, view: string, ids: seq<string>)
    requires ids != [] && id in ids && ValidId(id) && ViewSegment(view)
    ensures FlowRoute(NEW_CASES + (id + view), ids) == View(ViewOf(view), id)
  {
    CaseAddress(id, view, ids);
  }

  /** The screens of a case, address by address. */
  lemma CaseScreens(id: string, ids: seq<string>)
    requires id in ids && ValidId(id)
    ensures FlowRoute("/app/org/challenges/" + (id + ""), ids) == View(Detail, id)
    ensures FlowRoute("/app/org/challenges/" + (id + "/overview"), ids) == View(Detail, id)
    ensures FlowRoute("/app/org/challenges/" + (id + "/edit"), ids) == View(Edit, id)
    ensures FlowRoute("/app/org/challenges/" + (id + "/studio"), ids) == View(Edit, id)
    ensures FlowRoute("/app/org/challenges/" + (id + "/preview"), ids) == View(Preview, id)
    ensures FlowRoute("/app/org/challenges/" + (id + "/submitted"), ids) == View(Submitted, id)
    ensures FlowRoute("/app/org/challenges/" + (id + "/governance"), ids) == View(Governance, id)
  {
    CaseAddress(id, "", ids);
    CaseAddress(id, "/overview", ids);
    CaseAddress(id, "/edit", ids);
    CaseAddress(id, "/studio", ids);
    CaseAddress(id, "/preview", ids);
    CaseAddress(id, "/submitted", ids);
    CaseAddress(id, "/governance", ids);
    SegmentViews();
  }

  lemma SegmentViews()
    ensures ViewOf("") == Detail && ViewOf("/overview") == Detail && ViewOf("/edit") == Edit
    ensures ViewOf("/studio") == Edit && ViewOf("/preview") == Preview
    ensures ViewOf("/submitted") == Submitted && ViewOf("/governance") == Governance
  {
  }

  /** Of the record whose id is in the query. */
  lemma RecordScreens(ids: seq<string>)
    requires ids != []
    ensures FlowRoute("/app/org/challenges/record" + "", ids) == ConnectedRecord(Detail)
    ensures FlowRoute("/app/org/challenges/record" + "/overview", ids) == ConnectedRecord(Detail)
    ensures FlowRoute("/app/org/challenges/record" + "/edit", ids) == ConnectedRecord(Edit)
    ensures FlowRoute("/app/org/challenges/record" + "/studio", ids) == ConnectedRecord(Edit)
    ensures FlowRoute("/app/org/challenges/record" + "/preview", ids) == ConnectedRecord(Preview)
    ensures FlowRoute("/app/org/challenges/record" + "/submitted", ids) == ConnectedRecord(Submitted)
    ensures FlowRoute("/app/org/challenges/record" + "/governance", ids) == ConnectedRecord(Governance)
  {
    RecordAddress("", ids);
    RecordAddress("/overview", ids);
    RecordAddress("/edit", ids);
    RecordAddress("/studio", ids);
    RecordAddress("/preview", ids);
    RecordAddress("/submitted", ids);
    RecordAddress("/governance", ids);
    SegmentViews();
  }

  lemma RecordShape()
    ensures |RECORD_PATH| == 26 && RECORD_PATH[1] == 'a' && RECORD_PATH[20] == 'r' && RECORD_PATH[25] == 'd'
    ensures |LIST_PATH| == 19 && |NEW_PATH| == 23
  {
  }

  lemma RecordAddress(view: string, ids: seq<string>)
    requires ids != [] && ViewSegment(view)
    ensures FlowRoute(RECORD_PATH + view, ids) == ConnectedRecord(ViewOf(view))
  {
    var n := RECORD_PATH + view;
    ViewSegments(view);
    RecordShape();
    assert n[|n| - 1] == (if view == "" then RECORD_PATH[25] else view[|view| - 1]) != '/';
    assert n[1] == RECORD_PATH[1];
    if n in Redirects(ids) {
      RedirectKeysShape(ids, n);
    }
    assert n[|RECORD_PATH|..] == view;
  }

  /** Nothing else below a case is a screen. */
  lemma OtherSegmentsAreUnknown(id: string, view: string, ids: seq<string>)
    requires ids != [] && ValidId(id) && view != "" && view[0] == '/' && view[|view| - 1] != '/'
    requires view != "/overview" && view != "/edit" && view != "/studio" && view != "/preview"
    requires view != "/submitted" && view != "/governance"
    ensures FlowRoute(NEW_CASES + (id + view), ids) == Unknown
  {
    var n := NEW_CASES + (id + view);
    assert n[|n| - 1] == view[|view| - 1];
    NotReservedPath(id, view);
    NewCasesShape();
    assert n[1] == NEW_CASES[1];
    if n in Redirects(ids) {
      RedirectKeysShape(ids, n);
    }
    if RECORD_PATH <= n && ViewSegment(n[|RECORD_PATH|..]) {
      ViewSegments(n[|RECORD_PATH|..]);
    }
    ExpectPrefix(NEW_CASES, id + view);
    IdReadsBack(id, view);
  }

  /** A slash at the end makes no difference. */
  lemma SlashDoesNotMatter(path: string, ids: seq<string>)
    requires ids != [] && |path| > 1 && path[|path| - 1] != '/'
    ensures FlowRoute(path + "/", ids) == FlowRoute(path, ids)
  {
    assert DropSlash(path + "/") == path == DropSlash(path);
  }

  lemma OldViewsAreSegments(view: string)
    requires OldView(view)
    ensures ViewSegment(view) && ViewSegment(NewView(view)) && ViewOf(NewView(view)) == ViewOf(view)
  {
  }

  // ----- Agreement -----

  /** What the application shows in the end, and of which case. */
  predicate IsScreen(flow: Flow) {
    flow.ListPage? || flow.NewPage? || flow.View?
  }

  lemma SlashDropped(path: string, n: string)
    requires DropSlash(path) == n
    ensures path == n || path == n + "/"
  {
  }

  /** The generated entries agree: `/studio`, too, whose written targets differ. */
  lemma CasesAgree(path: string, table: seq<Entry>, ids: seq<string>, id: string, view: string)
    requires OrderlyTable(table) && ValidIds(ids) && id in ids && OldView(view)
    requires DropSlash(path) == OLD_CASES + (id + view)
    ensures Resolve(path, table, ids) == Some(Redirect(OLD_CASES + (id + view), NEW_CASES + (id + view)))
    ensures FlowRoute(NEW_CASES + (id + view), ids) == FlowRoute(NEW_CASES + (id + NewView(view)), ids) ==
            View(ViewOf(view), id)
  {
    SlashDropped(path, OLD_CASES + (id + view));
    CaseIsNormal(id, view);
    LegacyCaseIn(id, view, path, table, ids);
    OldViewsAreSegments(view);
    NewCaseIsView(id, view, ids);
    NewCaseIsView(id, NewView(view), ids);
  }

  lemma IntakeEntry(e: Entry)
    requires Orderly(e)
    ensures e.source == INTAKE ==> e == Redirect(INTAKE, NEW_PATH)
    ensures e.source == CHALLENGES ==> e == Redirect(CHALLENGES, LIST_PATH)
    ensures e.source != FIRST_CHALLENGE
  {
    assert |INTAKE| == 11 && INTAKE[5] == 'i' && INTAKE[6] == 'n';
    assert |CHALLENGES| == 15 && CHALLENGES[5] == 'c';
    assert |FIRST_CHALLENGE| == 40;
  }

  lemma SampleEntry(e: Entry)
    requires Orderly(e)
    ensures e.source == NEW_CHALLENGE ==> e == Redirect(NEW_CHALLENGE, NEW_PATH)
    ensures e.source == SAMPLE ==> e == SAMPLE_ENTRY
  {
    assert |NEW_CHALLENGE| == 19 && NEW_CHALLENGE[1] == 'o' && NEW_CHALLENGE[5] == 'c' &&
           NEW_CHALLENGE[15] == '/' && NEW_CHALLENGE[16] == 'n';
    assert |SAMPLE| == 22 && SAMPLE[1] == 'o' && SAMPLE[5] == 'c' && SAMPLE[15] == '/' && SAMPLE[16] == 's';
  }

  lemma ShortIsNoCase(path: string)
    requires |path| < 16
    ensures OldCase(path) == None
  {
    OldCasesShape();
  }

  lemma ElsewhereIsNoCase(path: string)
    requires |path| > 5 && path[5] != 'c'
    ensures OldCase(path) == None
  {
    OldCasesShape();
  }

  /** A word in the place of an id reads as that id, if as any. */
  lemma WordReadsAsId(word: string)
    requires '/' !in word
    ensures OldCase(OLD_CASES + word).Some? ==> OldCase(OLD_CASES + word).value.0 == word
  {
    ExpectPrefix(OLD_CASES, word);
    IdReadsBack(word, "");
    assert word + "" == word;
  }

  lemma IntakeIsNoCase()
    ensures OldCase(INTAKE) == None
  {
    assert |INTAKE| == 11;
    ShortIsNoCase(INTAKE);
  }

  lemma ChallengesIsNoCase()
    ensures OldCase(CHALLENGES) == None
  {
    assert |CHALLENGES| == 15;
    ShortIsNoCase(CHALLENGES);
  }

  lemma FirstChallengeIsNoCase()
    ensures OldCase(FIRST_CHALLENGE) == None
  {
    assert "/onboarding/organization"[5] == 'a';
    ElsewhereIsNoCase(FIRST_CHALLENGE);
  }

  lemma WordsAreNoIds(ids: seq<string>)
    requires ValidIds(ids)
    ensures OldCase(NEW_CHALLENGE).Some? ==> OldCase(NEW_CHALLENGE).value.0 !in ids
    ensures OldCase(SAMPLE).Some? ==> OldCase(SAMPLE).value.0 !in ids
  {
    OldCasesShape();
    WordReadsAsId("new");
    WordReadsAsId("sample");
  }

  predicate RootKey(key: string) {
    key == INTAKE || key == CHALLENGES || key == NEW_CHALLENGE || key == SAMPLE || key == FIRST_CHALLENGE
  }

  lemma RootKeyIsNormal(path: string, key: string)
    requires RootKey(key) && DropSlash(path) == key
    ensures NormalizeRoutePath(path) == key
  {
    SlashDropped(path, key);
    assert '?' !in INTAKE && '#' !in INTAKE && '?' !in CHALLENGES && '#' !in CHALLENGES;
    assert '?' !in NEW_CHALLENGE && '#' !in NEW_CHALLENGE && '?' !in SAMPLE && '#' !in SAMPLE;
    FirstChallengeIsClean();
    CleanIsNormal(key);
  }

  lemma FirstChallengeIsClean()
    ensures '?' !in FIRST_CHALLENGE && '#' !in FIRST_CHALLENGE && FIRST_CHALLENGE[|FIRST_CHALLENGE| - 1] != '/'
  {
    FrontIsClean();
    BackIsClean();
  }

  lemma FrontIsClean()
    ensures '?' !in "/onboarding/organization" && '#' !in "/onboarding/organization"
  {
  }

  lemma BackIsClean()
    ensures '?' !in "/first-challenge" && '#' !in "/first-challenge"
    ensures |"/first-challenge"| == 16 && "/first-challenge"[15] == 'e'
  {
  }

  lemma RootKeyIsNoCase(key: string, ids: seq<string>)
    requires ValidIds(ids) && RootKey(key)
    ensures OldCase(key).Some? ==> OldCase(key).value.0 !in ids
  {
    IntakeIsNoCase();
    ChallengesIsNoCase();
    FirstChallengeIsNoCase();
    WordsAreNoIds(ids);
  }

  /** What the legacy table says of the addresses in the root table. */
  lemma LegacyRoot(path: string, key: string, table: seq<Entry>, ids: seq<string>)
    requires OrderlyTable(table) && ValidIds(ids) && RootKey(key) && NormalizeRoutePath(path) == key
    requires Resolve(path, table, ids).Some?
    ensures key != FIRST_CHALLENGE
    ensures Resolve(path, table, ids).value ==
            if key == CHALLENGES then Redirect(key, LIST_PATH)
            else if key == SAMPLE then SAMPLE_ENTRY
            else Redirect(key, NEW_PATH)
  {
    RootKeyIsNoCase(key, ids);
    var e := Resolve(path, table, ids).value;
    assert e in table && e.source == key;
    IntakeEntry(e);
    SampleEntry(e);
  }

  lemma FixedPages(ids: seq<string>)
    requires ids != []
    ensures FlowRoute(NEW_PATH, ids) == NewPage && FlowRoute(LIST_PATH, ids) == ListPage
  {
    assert NEW_PATH[|NEW_PATH| - 1] == 'w' && LIST_PATH[|LIST_PATH| - 1] == 's' && |NEW_PATH| != |LIST_PATH|;
  }

  lemma SampleTarget()
    ensures SAMPLE_ENTRY.target == NEW_CASES + (SAMPLE_ID + "/overview")
  {
    assert "/app/org/challenges/CH-1405-021" == NEW_CASES + SAMPLE_ID;
    Regroup(NEW_CASES, SAMPLE_ID, "/overview");
  }

  lemma Regroup(a: string, b: string, c: string)
    ensures (a + b) + c == a + (b + c) && b + "" == b
  {
  }

  lemma SampleIdIsValid()
    ensures ValidId(SAMPLE_ID)
  {
  }

  /** Where either table leads from the sample. */
  lemma SampleLeadsToCase(ids: seq<string>)
    requires ValidIds(ids)
    ensures FlowRoute(SAMPLE_ENTRY.target, ids) == if SAMPLE_ID in ids then View(Detail, SAMPLE_ID) else Unknown
    ensures FlowRoute(NEW_CASES + ids[0], ids) == View(Detail, ids[0])
  {
    assert ids[0] in ids;
    SampleTarget();
    SampleIdIsValid();
    if SAMPLE_ID in ids {
      CaseDetails(SAMPLE_ID, ids);
    } else {
      CaseAddress(SAMPLE_ID, "/overview", ids);
    }
    CaseDetails(ids[0], ids);
    Regroup(NEW_CASES, ids[0], "");
  }

  lemma CaseDetails(id: string, ids: seq<string>)
    requires ids != [] && id in ids && ValidId(id)
    ensures FlowRoute(NEW_CASES + (id + "/overview"), ids) == FlowRoute(NEW_CASES + (id + ""), ids) == View(Detail, id)
  {
    NewCaseIsView(id, "/overview", ids);
    NewCaseIsView(id, "", ids);
  }

  lemma FlowRedirectKey(path: string, ids: seq<string>)
    requires ids != [] && FlowRoute(path, ids).FlowRedirect?
    ensures DropSlash(path) in Redirects(ids) && FlowRoute(path, ids).target == Redirects(ids)[DropSlash(path)]
  {
  }

  ghost predicate BothRedirect(path: string, ids: seq<string>)
    requires ids != []
  {
    Resolve(path, Entries(), ids).Some? && Resolve(path, Entries(), ids).value.Redirect? &&
    FlowRoute(path, ids).FlowRedirect?
  }

  /** Both tables lead to the same screen, without another redirect. */
  ghost predicate SameScreen(legacyTarget: string, flowTarget: string, ids: seq<string>)
    requires ids != []
  {
    IsScreen(FlowRoute(legacyTarget, ids)) && FlowRoute(legacyTarget, ids) == FlowRoute(flowTarget, ids)
  }

  ghost predicate AgreeOn(path: string, ids: seq<string>)
    requires ids != [] && BothRedirect(path, ids)
  {
    SameScreen(Resolve(path, Entries(), ids).value.target, FlowRoute(path, ids).target, ids)
  }

  /** For any ids and any address that both tables redirect: they lead to the same screen
      of the same case, unless it is the sample's and another case is the first. */
  lemma TablesAgreeExactly(path: string, ids: seq<string>)
    requires ValidIds(ids) && BothRedirect(path, ids)
    ensures AgreeOn(path, ids) <==> DropSlash(path) != SAMPLE || ids[0] == SAMPLE_ID
  {
    EntriesOrderly();
    FlowRedirectKey(path, ids);
    KeyAgrees(path, DropSlash(path), Entries(), ids);
  }

  /** So they agree everywhere if and only if the list of ids starts with the sample's. */
  lemma TablesAgree(ids: seq<string>)
    requires ValidIds(ids)
    ensures (forall path :: BothRedirect(path, ids) ==> AgreeOn(path, ids)) <==> ids[0] == SAMPLE_ID
  {
    forall path | BothRedirect(path, ids)
      ensures AgreeOn(path, ids) <==> DropSlash(path) != SAMPLE || ids[0] == SAMPLE_ID
    {
      TablesAgreeExactly(path, ids);
    }
    SampleIsRedirected(ids);
  }

  /** As it does in the application. */
  lemma ApplicationTablesAgree(path: string)
    requires BothRedirect(path, ROUTE_IDS)
    ensures AgreeOn(path, ROUTE_IDS)
  {
    RouteIdsAreValid();
    TablesAgreeExactly(path, ROUTE_IDS);
  }

  lemma KeyAgrees(path: string, key: string, table: seq<Entry>, ids: seq<string>)
    requires OrderlyTable(table) && ValidIds(ids) && DropSlash(path) == key && key in Redirects(ids)
    requires Resolve(path, table, ids).Some? && Resolve(path, table, ids).value.Redirect?
    ensures SameScreen(Resolve(path, table, ids).value.target, Redirects(ids)[key], ids) <==>
            key != SAMPLE || ids[0] == SAMPLE_ID
  {
    if key in GeneratedRedirects(ids) {
      GeneratedAgrees(path, key, table, ids);
      SampleIsNotGenerated(key, ids);
    } else {
      RootAgrees(path, key, table, ids);
    }
  }

  lemma SampleIsNotGenerated(key: string, ids: seq<string>)
    requires ValidIds(ids) && key in GeneratedRedirects(ids)
    ensures key != SAMPLE
  {
    var id, view := GeneratedKeys(ids, key);
    OldViewsAreSegments(view);
    WordsAreReserved(id, view);
    OldCasesShape();
    SamePrefix(OLD_CASES, id + view, "sample");
  }

  lemma GeneratedAgrees(path: string, key: string, table: seq<Entry>, ids: seq<string>)
    requires OrderlyTable(table) && ValidIds(ids) && DropSlash(path) == key && key in GeneratedRedirects(ids)
    ensures Resolve(path, table, ids).Some? && Resolve(path, table, ids).value.Redirect?
    ensures SameScreen(Resolve(path, table, ids).value.target, GeneratedRedirects(ids)[key], ids)
  {
    var id, view := GeneratedKeys(ids, key);
    CasesAgree(path, table, ids, id, view);
  }

  lemma RootAgrees(path: string, key: string, table: seq<Entry>, ids: seq<string>)
    requires OrderlyTable(table) && ValidIds(ids) && DropSlash(path) == key && key in RootRedirects(ids)
    requires Resolve(path, table, ids).Some? && Resolve(path, table, ids).value.Redirect?
    ensures SameScreen(Resolve(path, table, ids).value.target, RootRedirects(ids)[key], ids) <==>
            key != SAMPLE || ids[0] == SAMPLE_ID
  {
    RootKeyIsNormal(path, key);
    LegacyRoot(path, key, table, ids);
    RootKeyLeads(key, ids);
    SampleLeadsToCase(ids);
  }

  lemma RootKeyLeads(key: string, ids: seq<string>)
    requires ids != [] && key in RootRedirects(ids)
    ensures RootKey(key)
    ensures key == SAMPLE ==> RootRedirects(ids)[key] == NEW_CASES + ids[0]
    ensures key == CHALLENGES ==> RootRedirects(ids)[key] == LIST_PATH
    ensures key != SAMPLE && key != CHALLENGES ==> RootRedirects(ids)[key] == NEW_PATH
    ensures FlowRoute(NEW_PATH, ids) == NewPage && FlowRoute(LIST_PATH, ids) == ListPage
  {
    FixedPages(ids);
    RootTargets(ids);
  }

  /** The list, the form, and the five old addresses besides those of cases. */
  lemma RootScreens(ids: seq<string>)
    requires ValidIds(ids)
    ensures FlowRoute(LIST_PATH, ids) == ListPage && FlowRoute(NEW_PATH, ids) == NewPage
    ensures FlowRoute(INTAKE, ids) == FlowRedirect(NEW_PATH)
    ensures FlowRoute(CHALLENGES, ids) == FlowRedirect(LIST_PATH)
    ensures FlowRoute(NEW_CHALLENGE, ids) == FlowRedirect(NEW_PATH)
    ensures FlowRoute(SAMPLE, ids) == FlowRedirect(NEW_CASES + (ids[0] + ""))
    ensures FlowRoute(FIRST_CHALLENGE, ids) == FlowRedirect(NEW_PATH)
  {
    FixedPages(ids);
    RootTargets(ids);
    Regroup(NEW_CASES, ids[0], "");
    RootKeyFlows(INTAKE, ids);
    RootKeyFlows(CHALLENGES, ids);
    RootKeyFlows(NEW_CHALLENGE, ids);
    RootKeyFlows(SAMPLE, ids);
    RootKeyFlows(FIRST_CHALLENGE, ids);
  }

  lemma RootKeyEnds(key: string)
    requires RootKey(key)
    ensures |key| > 1 && key[1] == 'o' && key[|key| - 1] != '/'
  {
    RootLengths();
    BackIsClean();
    assert INTAKE[1] == 'o' && INTAKE[10] == 'e' && CHALLENGES[1] == 'o' && CHALLENGES[14] == 's';
    assert NEW_CHALLENGE[1] == 'o' && NEW_CHALLENGE[18] == 'w' && SAMPLE[1] == 'o' && SAMPLE[21] == 'e';
    assert "/onboarding/organization"[1] == 'o';
  }

  lemma RootKeyFlows(key: string, ids: seq<string>)
    requires ValidIds(ids) && RootKey(key) && key in RootRedirects(ids)
    ensures FlowRoute(key, ids) == FlowRedirect(RootRedirects(ids)[key])
  {
    RootKeyEnds(key);
    assert LIST_PATH[1] == 'a' && NEW_PATH[1] == 'a';
    if key in GeneratedRedirects(ids) {
      RootKeyIsNotGenerated(key, ids);
    }
  }

  lemma RootKeyIsNotGenerated(key: string, ids: seq<string>)
    requires ValidIds(ids) && RootKey(key)
    ensures key !in GeneratedRedirects(ids)
  {
    if key in GeneratedRedirects(ids) {
      var id, view := GeneratedKeys(ids, key);
      OldViewsAreSegments(view);
      OldCaseReadsBack(id, view);
      RootKeyIsNoCase(key, ids);
    }
  }

  /** The address on which they part is one that both do redirect. */
  lemma SampleIsRedirected(ids: seq<string>)
    requires ValidIds(ids)
    ensures DropSlash(SAMPLE) == SAMPLE && BothRedirect(SAMPLE, ids)
  {
    EntriesOrderly();
    SampleIsListed();
    SampleIsNoSlash();
    RootKeyIsNormal(SAMPLE, SAMPLE);
    SampleRedirectedIn(SAMPLE, Entries(), ids);
    SampleFlows(ids);
  }

  lemma SampleIsNoSlash()
    ensures |SAMPLE| == 22 && SAMPLE[1] == 'o' && SAMPLE[21] == 'e'
  {
  }

  lemma SampleRedirectedIn(path: string, table: seq<Entry>, ids: seq<string>)
    requires SAMPLE_ENTRY in table && OrderlyTable(table) && NormalizeRoutePath(path) == SAMPLE_ENTRY.source == SAMPLE
    ensures Resolve(path, table, ids) == Some(SAMPLE_ENTRY)
  {
    var found := Find(table, SAMPLE);
    assert found.Some?;
    SampleEntry(found.value);
  }

  lemma SampleFlows(ids: seq<string>)
    requires ids != []
    ensures FlowRoute(SAMPLE, ids).FlowRedirect?
  {
    SampleIsNoSlash();
    NewCasesShape();
    assert LIST_PATH[1] == 'a' && NEW_PATH[1] == 'a';
  }

  lemma RootTargets(ids: seq<string>)
    requires ids != []
    ensures RootRedirects(ids)[INTAKE] == NEW_PATH && RootRedirects(ids)[CHALLENGES] == LIST_PATH
    ensures RootRedirects(ids)[NEW_CHALLENGE] == NEW_PATH && RootRedirects(ids)[SAMPLE] == NEW_CASES + ids[0]
    ensures RootRedirects(ids)[FIRST_CHALLENGE] == NEW_PATH
  {
    RootLengths();
  }

  lemma RootLengths()
    ensures |INTAKE| == 11 && |CHALLENGES| == 15 && |NEW_CHALLENGE| == 19 && |SAMPLE| == 22 && |FIRST_CHALLENGE| == 40
  {
  }

  lemma {:induction false} CaseIsGenerated(ids: seq<string>, id: string, view: string)
    requires id in ids && OldView(view)
    ensures OLD_CASES + (id + view) in GeneratedRedirects(ids)
  {
    var last := |ids| - 1;
    if id == ids[last] {
      assert OLD_CASES + (id + view) in CaseRedirects(id);
    } else {
      CaseIsGenerated(ids[..last], id, view);
    }
  }

  lemma GeneratedTarget(ids: seq<string>, id: string, view: string)
    requires ValidIds(ids) && id in ids && OldView(view)
    ensures var path := OLD_CASES + (id + view);
            path in Redirects(ids) && Redirects(ids)[path] == NEW_CASES + (id + NewView(view))
  {
    var path := OLD_CASES + (id + view);
    CaseIsGenerated(ids, id, view);
    var id', view' := GeneratedKeys(ids, path);
    assert path[|OLD_CASES|..] == id + view == id' + view';
    OldViewsAreSegments(view);
    OldViewsAreSegments(view');
    SegmentsUnique(id, view, id', view');
  }

  lemma OldCaseIsNoPage(id: string, view: string)
    requires ValidId(id) && OldView(view)
    ensures var path := OLD_CASES + (id + view);
            DropSlash(path) == path && path != LIST_PATH && path != NEW_PATH
  {
    var path := OLD_CASES + (id + view);
    OldViewsAreSegments(view);
    ViewSegments(view);
    assert path[|path| - 1] == (if view == "" then id[|id| - 1] else view[|view| - 1]) != '/';
    assert path[1] == OLD_CASES[1] == 'o' && LIST_PATH[1] == 'a' && NEW_PATH[1] == 'a';
  }

  /** Both tables do redirect every old view of every case. */
  lemma BothKnowEveryCase(ids: seq<string>, id: string, view: string)
    requires ValidIds(ids) && id in ids && OldView(view)
    ensures var path := OLD_CASES + (id + view);
            Resolve(path, Entries(), ids) == Some(Redirect(path, NEW_CASES + (id + view))) &&
            FlowRoute(path, ids) == FlowRedirect(NEW_CASES + (id + NewView(view)))
  {
    CaseIsNormal(id, view);
    LegacyCase(id, view, OLD_CASES + (id + view), ids);
    GeneratedTarget(ids, id, view);
    OldCaseIsNoPage(id, view);
  }

  /** Where both tables lead from the old addresses of a case, address by address. */
  lemma OldCaseTargets(id: string, ids: seq<string>)
    requires ValidIds(ids) && id in ids
    ensures FlowRoute("/org/challenges/" + (id + ""), ids) == FlowRedirect("/app/org/challenges/" + (id + ""))
    ensures FlowRoute("/org/challenges/" + (id + "/edit"), ids) == FlowRedirect("/app/org/challenges/" + (id + "/edit"))
    ensures FlowRoute("/org/challenges/" + (id + "/studio"), ids) ==
            FlowRedirect("/app/org/challenges/" + (id + "/edit"))
    ensures FlowRoute("/org/challenges/" + (id + "/preview"), ids) ==
            FlowRedirect("/app/org/challenges/" + (id + "/preview"))
    ensures FlowRoute("/org/challenges/" + (id + "/submitted"), ids) ==
            FlowRedirect("/app/org/challenges/" + (id + "/submitted"))
  {
    BothKnowEveryCase(ids, id, "");
    BothKnowEveryCase(ids, id, "/edit");
    BothKnowEveryCase(ids, id, "/studio");
    BothKnowEveryCase(ids, id, "/preview");
    BothKnowEveryCase(ids, id, "/submitted");
    Successors();
  }

  lemma Successors()
    ensures NewView("") == "" && NewView("/edit") == "/edit" && NewView("/studio") == "/edit"
    ensures NewView("/preview") == "/preview" && NewView("/submitted") == "/submitted"
  {
  }

  ghost predicate IsOldCase(normalized: string, ids: seq<string>) {
    exists id, view :: id in ids && OldView(view) && normalized == OLD_CASES + (id + view)
  }

  /** An address resolves if and only if it is listed or an old view of a known case. */
  lemma ResolvesExactly(path: string, table: seq<Entry>, ids: seq<string>)
    requires forall id :: id in ids ==> ValidId(id)
    ensures Resolve(path, table, ids).Some? <==>
            (exists e :: e in table && e.source == NormalizeRoutePath(path)) || IsOldCase(NormalizeRoutePath(path), ids)
  {
    var n := NormalizeRoutePath(path);
    if Find(table, n).None? && IsOldCase(n, ids) {
      var id, view :| id in ids && OldView(view) && n == OLD_CASES + (id + view);
      OldCaseReadsBack(id, view);
    }
    if Find(table, n).None? && Resolve(path, table, ids).Some? {
      var found := OldCase(n).value;
      assert n == OLD_CASES + n[|OLD_CASES|..];
      assert n[|OLD_CASES|..] == found.0 + found.1;
      assert found.0 in ids && OldView(found.1);
    }
  }

  const ROUTE_IDS := [
    "CH-1405-021", "CH-1405-034", "CH-1405-041", "CH-1405-052",
    "CH-DRAFT-001", "CH-DRAFT-002", "CH-DRAFT-003", "CH-DRAFT-004",
    "CH-DRAFT-005", "CH-DRAFT-006", "CH-DRAFT-007", "CH-DRAFT-008"
  ]

  /** A plain id, of two parts. */
  lemma PlainIdIsValid(front: string, back: string)
    requires front != "" && front[0] == 'C'
    requires '/' !in front && '?' !in front && '#' !in front && '/' !in back && '?' !in back && '#' !in back
    ensures ValidId(front + back)
  {
    assert (front + back)[0] == 'C';
  }

  lemma ListedIdsAreValid()
    ensures ValidId("CH-1405-021") && ValidId("CH-1405-034") && ValidId("CH-1405-041") && ValidId("CH-1405-052")
  {
    PlainIdIsValid("CH-1405-", "021");
    PlainIdIsValid("CH-1405-", "034");
    PlainIdIsValid("CH-1405-", "041");
    PlainIdIsValid("CH-1405-", "052");
    assert "CH-1405-021" == "CH-1405-" + "021" && "CH-1405-034" == "CH-1405-" + "034";
    assert "CH-1405-041" == "CH-1405-" + "041" && "CH-1405-052" == "CH-1405-" + "052";
  }

  lemma FirstDraftsAreValid()
    ensures ValidId("CH-DRAFT-001") && ValidId("CH-DRAFT-002") && ValidId("CH-DRAFT-003") && ValidId("CH-DRAFT-004")
  {
    PlainIdIsValid("CH-DRAFT-", "001");
    PlainIdIsValid("CH-DRAFT-", "002");
    PlainIdIsValid("CH-DRAFT-", "003");
    PlainIdIsValid("CH-DRAFT-", "004");
    assert "CH-DRAFT-001" == "CH-DRAFT-" + "001" && "CH-DRAFT-002" == "CH-DRAFT-" + "002";
    assert "CH-DRAFT-003" == "CH-DRAFT-" + "003" && "CH-DRAFT-004" == "CH-DRAFT-" + "004";
  }

  lemma OtherDraftsAreValid()
    ensures ValidId("CH-DRAFT-005") && ValidId("CH-DRAFT-006") && ValidId("CH-DRAFT-007") && ValidId("CH-DRAFT-008")
  {
    PlainIdIsValid("CH-DRAFT-", "005");
    PlainIdIsValid("CH-DRAFT-", "006");
    PlainIdIsValid("CH-DRAFT-", "007");
    PlainIdIsValid("CH-DRAFT-", "008");
    assert "CH-DRAFT-005" == "CH-DRAFT-" + "005" && "CH-DRAFT-006" == "CH-DRAFT-" + "006";
    assert "CH-DRAFT-007" == "CH-DRAFT-" + "007" && "CH-DRAFT-008" == "CH-DRAFT-" + "008";
  }

  /** The ids that the application is built with are such ids, the sample's first. */
  lemma RouteIdsAreValid()
    ensures ValidIds(ROUTE_IDS) && ROUTE_IDS[0] == SAMPLE_ID
  {
    ListedIdsAreValid();
    FirstDraftsAreValid();
    OtherDraftsAreValid();
  }
}
