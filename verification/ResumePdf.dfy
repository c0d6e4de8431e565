/** The team resume of components/team-resume-dialog.tsx: a one-page PDF file whose
    only variable part is the team's name. */
module ResumePdf {
  import opened Text
  import opened Decimal
  import opened PdfFile
  import opened PdfStrings

  predicate Printable(c: char) {
    ' ' <= c <= '~'
  }

  predicate Undelimiting(c: char) {
    c != '(' && c != ')' && c != '\\'
  }

  function SafeTeam(team: string): string {
    Filter(Filter(team, Printable), Undelimiting)
  }

  lemma {:induction false} FilterKeepsAll(s: string, keep: char -> bool)
    requires forall c :: c in s ==> keep(c)
    ensures Filter(s, keep) == s
  {
    if s != "" {
      FilterKeepsAll(s[1..], keep);
    }
  }

  /** A name is shown as it is exactly when it has nothing to sanitise; what is shown never
      has. */
  lemma SanitisedOnce(team: string)
    ensures SafeTeam(team) == team <==>
            forall c :: c in team ==> 0x20 <= c as int <= 0x7E && c != '(' && c != ')' && c != '\\'
    ensures SafeTeam(SafeTeam(team)) == SafeTeam(team)
  {
    FilterKeepsAll(SafeTeam(team), Printable);
    FilterKeepsAll(SafeTeam(team), Undelimiting);
    if forall c :: c in team ==> Printable(c) && Undelimiting(c) {
      FilterKeepsAll(team, Printable);
      FilterKeepsAll(team, Undelimiting);
    } else {
      var c :| c in team && !(Printable(c) && Undelimiting(c));
      assert c !in SafeTeam(team);
    }
  }

  /** What a name keeps, by the codes of its characters: those from a space to a tilde, but
      for the two parentheses and the backslash. */
  function Kept(team: string): string {
    if team == "" then ""
    else
      var code := team[0] as int;
      (if 0x20 <= code <= 0x7E && code != 0x28 && code != 0x29 && code != 0x5C then [team[0]] else "") + Kept(team[1..])
  }

  /** Every character by itself, in order, none dropped or repeated otherwise. */
  lemma {:induction false} KeptParts(a: string, b: string)
    ensures Kept(a + b) == Kept(a) + Kept(b)
    ensures forall c: char :: Kept([c]) ==
              if 0x20 <= c as int <= 0x7E && c as int != 0x28 && c as int != 0x29 && c as int != 0x5C then [c] else ""
  {
    if a == "" {
      assert a + b == b;
    } else {
      assert (a + b)[1..] == a[1..] + b;
      KeptParts(a[1..], b);
    }
  }

  lemma {:induction false} SafeIsKept(team: string)
    ensures SafeTeam(team) == Kept(team)
  {
    if team != "" {
      SafeIsKept(team[1..]);
      var first, rest := if Printable(team[0]) then [team[0]] else "", Filter(team[1..], Printable);
      assert Filter(team, Printable) == first + rest;
      assert first != "" ==> (first + rest)[1..] == rest;
      assert first == "" ==> first + rest == rest;
    }
  }

  function ShownTeam(team: string): string {
    if SafeTeam(team) == "" then "Inviting team" else SafeTeam(team)
  }

  const TITLE := "Rahhal - Team Resume"
  const NOTE := "Demo resume generated " + "from the Rahhal workspace."

  function ContentLines(team: string): seq<string> {
    [
      "BT",
      "/F1 18 Tf",
      "72 760 Td",
      "(" + TITLE + ") Tj",
      "0 -34 Td",
      "/F1 12 Tf",
      "(Team: " + ShownTeam(team) + ") Tj",
      "0 -24 Td",
      "(" + NOTE + ") Tj",
      "ET"
    ]
  }

  /** The same lines, told apart. */
  function PageLines(team: string): seq<Line> {
    [
      Operators("BT"),
      Operators("/F1 18 Tf"),
      Operators("72 760 Td"),
      Show(TITLE),
      Operators("0 -34 Td"),
      Operators("/F1 12 Tf"),
      Show("Team: " + ShownTeam(team)),
      Operators("0 -24 Td"),
      Show(NOTE),
      Operators("ET")
    ]
  }

  function Content(team: string): string {
    Join(ContentLines(team), "\n")
  }

  const CATALOG := "<< /Type /Catalog" + " /Pages 2 0 R >>"
  const PAGES := "<< /Type /Pages" + " /Kids [3 0 R] /Count 1 >>"
  const PAGE_FRONT := "<< /Type /Page /Parent 2 0 R" + " /MediaBox [0 0 595 842]"
  const PAGE_BACK := " /Resources << /Font" + (" << /F1 5 0 R >> >>" + " /Contents 4 0 R >>")
  const PAGE := PAGE_FRONT + PAGE_BACK
  const FONT := "<< /Type /Font /Subtype /Type1" + " /BaseFont /Helvetica >>"

  function Bodies(team: string): seq<Body> {
    [Plain(CATALOG), Plain(PAGES), Plain(PAGE), Stream(Content(team)), Plain(FONT)]
  }

  lemma SmallNumerals()
    ensures Dec(1) == "1" && Dec(2) == "2" && Dec(3) == "3" && Dec(4) == "4" && Dec(5) == "5" && Dec(6) == "6"
  {
  }

  lemma PlainObject(number: nat, dictionary: string)
    ensures ObjectText(number, Plain(dictionary)) == Dec(number) + " 0 obj\n" + dictionary + "\nendobj\n"
  {
  }

  lemma StreamObject(number: nat, content: string)
    ensures ObjectText(number, Stream(content)) ==
            Dec(number) + " 0 obj\n" + LengthDictionary(|content|) + "\nstream\n" + content + "\nendstream\nendobj\n"
  {
    Reassociate(Dec(number), " 0 obj\n", LengthDictionary(|content|), "\nstream\n", content, "\nendstream\nendobj\n");
  }

  lemma Reassociate(a: string, b: string, c: string, d: string, e: string, f: string)
    ensures a + (b + (c + (d + (e + f)))) == a + b + c + d + e + f
  {
  }

  /** The five objects are written as their bodies demand. */
  lemma ObjectsAreRendered(catalog: string, pages: string, page: string, content: string, font: string)
    ensures [
              "1" + " 0 obj\n" + catalog + "\nendobj\n",
              "2" + " 0 obj\n" + pages + "\nendobj\n",
              "3" + " 0 obj\n" + page + "\nendobj\n",
              "4" + " 0 obj\n" + LengthDictionary(|content|) + "\nstream\n" + content + "\nendstream\nendobj\n",
              "5" + " 0 obj\n" + font + "\nendobj\n"
            ] == ObjectTexts([Plain(catalog), Plain(pages), Plain(page), Stream(content), Plain(font)], 1)
  {
    SmallNumerals();
    PlainObject(1, catalog);
    PlainObject(2, pages);
    PlainObject(3, page);
    StreamObject(4, content);
    PlainObject(5, font);
  }

  /** The table and the trailer follow the objects, for any list of objects. */
  method WriteFile(objects: seq<string>) returns (pdf: string)
    ensures pdf == FileText(objects)
  {
    var offsets;
    pdf, offsets := WriteObjects(objects);
    var xref := |pdf|;
    FileIsWritten(objects, pdf);
    pdf := pdf + ("xref\n0 " + Dec(|objects| + 1) + "\n" + FREE_ENTRY);
    pdf := pdf + EntryTexts(offsets[1..]);
    pdf := pdf + ("trailer\n<< /Size " + Dec(|objects| + 1) + " /Root 1 0 R >>\nstartxref\n" + Dec(xref) + "\n%%EOF");
  }

  /** Appends every object, recording where it starts. */
  method WriteObjects(objects: seq<string>) returns (pdf: string, offsets: seq<nat>)
    ensures pdf == HEADER + Concat(objects)
    ensures offsets == [0] + Offsets(objects)
  {
    pdf := HEADER;
    offsets := [0];
    for k := 0 to |objects|
      invariant pdf == HEADER + Concat(objects[..k])
      invariant |offsets| == k + 1 && offsets[0] == 0
      invariant forall i :: 0 <= i < k ==> offsets[i + 1] == Offset(objects, i)
    {
      ConcatAround(objects, k);
      offsets := offsets + [|pdf|];
      pdf := pdf + objects[k];
    }
    assert objects[..|objects|] == objects;
  }

  lemma FileIsWritten(objects: seq<string>, written: string)
    requires written == HEADER + Concat(objects)
    ensures written + ("xref\n0 " + Dec(|objects| + 1) + "\n" + FREE_ENTRY) + EntryTexts(Offsets(objects)) +
            ("trailer\n<< /Size " + Dec(|objects| + 1) + " /Root 1 0 R >>\nstartxref\n" + Dec(|written|) + "\n%%EOF") ==
            FileText(objects)
  {
    SectionIsWritten(written, Offsets(objects), |written|);
    JoinsFile(objects);
  }

  lemma JoinsFile(objects: seq<string>)
    ensures FileText(objects) == (HEADER + Concat(objects)) + XrefSection(Offsets(objects), |HEADER + Concat(objects)|)
  {
    assert objects[..|objects|] == objects;
    assert Offset(objects, |objects|) == |HEADER + Concat(objects)|;
    Regroup(HEADER, Concat(objects), XrefSection(Offsets(objects), Offset(objects, |objects|)));
  }

  lemma Regroup(a: string, b: string, c: string)
    ensures a + (b + c) == (a + b) + c
  {
  }

  lemma SectionIsWritten(front: string, offsets: seq<nat>, xref: nat)
    ensures front + ("xref\n0 " + Dec(|offsets| + 1) + "\n" + FREE_ENTRY) + EntryTexts(offsets) +
            ("trailer\n<< /Size " + Dec(|offsets| + 1) + " /Root 1 0 R >>\nstartxref\n" + Dec(xref) + "\n%%EOF") ==
            front + XrefSection(offsets, xref)
  {
    var size := |offsets| + 1;
    var head := "xref\n0 " + Dec(size) + "\n";
    HeadIsWritten(size, FREE_ENTRY + (EntryTexts(offsets) + Trailer(size, xref)));
    TrailerIsWritten(size, xref);
    RegroupSection(front, head, FREE_ENTRY, EntryTexts(offsets), Trailer(size, xref));
  }

  lemma RegroupSection(front: string, head: string, free: string, entries: string, trailer: string)
    ensures front + (head + free) + entries + trailer == front + (head + (free + (entries + trailer)))
  {
  }

  lemma HeadIsWritten(size: nat, rest: string)
    ensures "xref\n0 " + Dec(size) + "\n" + rest == "xref\n" + (Dec(0) + (" " + (Dec(size) + ("\n" + rest))))
  {
    assert Dec(0) == "0";
    assert "xref\n0 " == "xref\n" + ("0" + " ");
  }

  lemma TrailerIsWritten(size: nat, xref: nat)
    ensures "trailer\n<< /Size " + Dec(size) + " /Root 1 0 R >>\nstartxref\n" + Dec(xref) + "\n%%EOF" ==
            Trailer(size, xref)
  {
    var a, b, c := "trailer\n<< /Size ", " /Root 1 0 R >>\n", "startxref";
    assert " /Root 1 0 R >>\nstartxref\n" == b + c + "\n";
    assert a + Dec(size) + (b + c + "\n") + Dec(xref) + "\n%%EOF" ==
           (a + (Dec(size) + b)) + (c + ("\n" + (Dec(xref) + "\n%%EOF")));
  }

  // ----- What a reader of the file finds -----

  lemma {:induction false} TextsIndexed(lines: seq<Line>, i: nat)
    requires i < |lines|
    ensures Texts(lines)[i] == lines[i].Text()
  {
    if i > 0 {
      TextsIndexed(lines[1..], i - 1);
    }
  }

  lemma PageTexts(a: string, b: string, c: string, title: string, d: string, e: string, name: string,
                  f: string, note: string, g: string)
    ensures Texts([Operators(a), Operators(b), Operators(c), Show(title), Operators(d), Operators(e), Show(name),
                   Operators(f), Show(note), Operators(g)]) ==
            [a, b, c, "(" + title + ") Tj", d, e, "(" + name + ") Tj", f, "(" + note + ") Tj", g]
  {
    var lines := [Operators(a), Operators(b), Operators(c), Show(title), Operators(d), Operators(e), Show(name),
                  Operators(f), Show(note), Operators(g)];
    forall i | 0 <= i < 10
      ensures Texts(lines)[i] == lines[i].Text()
    {
      TextsIndexed(lines, i);
    }
  }

  lemma LinesAreTexts(team: string)
    ensures ContentLines(team) == Texts(PageLines(team))
  {
    PageTexts("BT", "/F1 18 Tf", "72 760 Td", TITLE, "0 -34 Td", "/F1 12 Tf", "Team: " + ShownTeam(team),
              "0 -24 Td", NOTE, "ET");
    NamedLine(ShownTeam(team));
  }

  lemma NamedLine(name: string)
    ensures "(Team: " + name + ") Tj" == "(" + ("Team: " + name) + ") Tj"
  {
  }

  lemma NoteIsBare()
    ensures Bare(NOTE)
  {
    assert Bare("Demo resume generated ") && Bare("from the Rahhal workspace.");
  }

  lemma TailShows(name: string, f: string, note: string, g: string)
    ensures ShownBy([Show(name), Operators(f), Show(note), Operators(g)]) == [name, note]
  {
    var last := [Operators(g)];
    ShownByCons(Operators(g), []);
    assert last == [Operators(g)] + [];
    ShownByCons(Show(note), last);
    ShownByCons(Operators(f), [Show(note)] + last);
    ShownByCons(Show(name), [Operators(f)] + ([Show(note)] + last));
    assert [Show(name), Operators(f), Show(note), Operators(g)] ==
           [Show(name)] + ([Operators(f)] + ([Show(note)] + last));
  }

  lemma MiddleShows(title: string, d: string, e: string, tail: seq<Line>)
    ensures ShownBy([Show(title), Operators(d), Operators(e)] + tail) == [title] + ShownBy(tail)
  {
    ShownByCons(Operators(e), tail);
    ShownByCons(Operators(d), [Operators(e)] + tail);
    ShownByCons(Show(title), [Operators(d)] + ([Operators(e)] + tail));
    assert [Show(title), Operators(d), Operators(e)] + tail ==
           [Show(title)] + ([Operators(d)] + ([Operators(e)] + tail));
  }

  lemma FrontShows(a: string, b: string, c: string, tail: seq<Line>)
    ensures ShownBy([Operators(a), Operators(b), Operators(c)] + tail) == ShownBy(tail)
  {
    ShownByCons(Operators(c), tail);
    ShownByCons(Operators(b), [Operators(c)] + tail);
    ShownByCons(Operators(a), [Operators(b)] + ([Operators(c)] + tail));
    assert [Operators(a), Operators(b), Operators(c)] + tail ==
           [Operators(a)] + ([Operators(b)] + ([Operators(c)] + tail));
  }

  lemma PageShows(a: string, b: string, c: string, title: string, d: string, e: string, name: string,
                  f: string, note: string, g: string)
    ensures ShownBy([Operators(a), Operators(b), Operators(c), Show(title), Operators(d), Operators(e),
                     Show(name), Operators(f), Show(note), Operators(g)]) == [title, name, note]
  {
    var tail := [Show(name), Operators(f), Show(note), Operators(g)];
    var middle := [Show(title), Operators(d), Operators(e)] + tail;
    TailShows(name, f, note, g);
    MiddleShows(title, d, e, tail);
    FrontShows(a, b, c, middle);
    assert [Operators(a), Operators(b), Operators(c), Show(title), Operators(d), Operators(e),
            Show(name), Operators(f), Show(note), Operators(g)] == [Operators(a), Operators(b), Operators(c)] + middle;
  }

  lemma PageIsValid(a: string, b: string, c: string, title: string, d: string, e: string, name: string,
                    f: string, note: string, g: string)
    requires '(' !in a && '(' !in b && '(' !in c && '(' !in d && '(' !in e && '(' !in f && '(' !in g
    requires Bare(title) && Bare(name) && Bare(note)
    ensures var lines := [Operators(a), Operators(b), Operators(c), Show(title), Operators(d), Operators(e),
                          Show(name), Operators(f), Show(note), Operators(g)];
            forall i :: 0 <= i < |lines| ==> lines[i].Valid()
  {
  }

  lemma OperatorsHaveNoStrings()
    ensures '(' !in "BT" && '(' !in "/F1 18 Tf" && '(' !in "72 760 Td" && '(' !in "0 -34 Td"
    ensures '(' !in "/F1 12 Tf" && '(' !in "0 -24 Td" && '(' !in "ET"
  {
  }

  lemma TextsAreBare(team: string)
    ensures Bare(TITLE) && Bare("Team: " + ShownTeam(team)) && Bare(NOTE)
  {
    NoteIsBare();
    assert Bare("Team: ") && Bare("Inviting team");
  }

  lemma PageLinesValid(team: string)
    ensures forall i :: 0 <= i < |PageLines(team)| ==> PageLines(team)[i].Valid()
  {
    OperatorsHaveNoStrings();
    TextsAreBare(team);
    PageIsValid("BT", "/F1 18 Tf", "72 760 Td", TITLE, "0 -34 Td", "/F1 12 Tf", "Team: " + ShownTeam(team),
                "0 -24 Td", NOTE, "ET");
  }

  lemma PageLinesShow(team: string)
    ensures ShownBy(PageLines(team)) == [TITLE, "Team: " + ShownTeam(team), NOTE]
  {
    PageShows("BT", "/F1 18 Tf", "72 760 Td", TITLE, "0 -34 Td", "/F1 12 Tf", "Team: " + ShownTeam(team),
              "0 -24 Td", NOTE, "ET");
  }

  /** The three strings that the page shows for a name that keeps so much. */
  function Shown(kept: string): seq<string> {
    [
      "Rahhal - Team Resume",
      "Team: " + (if kept == "" then "Inviting team" else kept),
      "Demo resume generated from the Rahhal workspace."
    ]
  }

  lemma TitleAndNote()
    ensures TITLE == "Rahhal - Team Resume" && NOTE == "Demo resume generated from the Rahhal workspace."
  {
  }

  /** The page shows what the name keeps, or the fallback exactly when that is nothing. */
  lemma ContentShowsTeam(team: string)
    ensures ShownStrings(Content(team)) == Some(Shown(Kept(team)))
  {
    ContentShowsShown(team);
    SafeIsKept(team);
    TitleAndNote();
  }

  lemma ContentShowsShown(team: string)
    ensures ShownStrings(Content(team)) == Some([TITLE, "Team: " + ShownTeam(team), NOTE])
  {
    LinesAreTexts(team);
    PageLinesValid(team);
    JoinedLinesShow(PageLines(team));
    PageLinesShow(team);
  }

  // ----- The file as a whole -----

  /** Where the last object of the resume starts. */
  function LastOffset(team: string): nat {
    Offset(ObjectTexts(Bodies(team), 1), 4)
  }

  predicate OneLine(s: string) {
    '\n' !in s
  }

  lemma DictionariesAreLines()
    ensures OneLine(CATALOG) && OneLine(PAGES) && OneLine(PAGE) && OneLine(FONT)
    ensures Ascii(CATALOG) && Ascii(PAGES) && Ascii(PAGE) && Ascii(FONT)
  {
    CatalogIsLine();
    PagesIsLine();
    PageIsLine();
    FontIsLine();
  }

  lemma CatalogIsLine()
    ensures OneLine(CATALOG) && Ascii(CATALOG)
  {
    assert OneLine("<< /Type /Catalog") && OneLine(" /Pages 2 0 R >>");
  }

  lemma PagesIsLine()
    ensures OneLine(PAGES) && Ascii(PAGES)
  {
    assert OneLine("<< /Type /Pages") && OneLine(" /Kids [3 0 R] /Count 1 >>");
  }

  lemma PageIsLine()
    ensures OneLine(PAGE) && Ascii(PAGE)
  {
    PageFrontIsLine();
    PageBackIsLine();
  }

  lemma PageFrontIsLine()
    ensures OneLine(PAGE_FRONT) && Ascii(PAGE_FRONT)
  {
    assert OneLine("<< /Type /Page /Parent 2 0 R") && OneLine(" /MediaBox [0 0 595 842]");
  }

  lemma PageBackIsLine()
    ensures OneLine(PAGE_BACK) && Ascii(PAGE_BACK)
  {
    assert OneLine(" /Resources << /Font") && OneLine(" << /F1 5 0 R >> >>" + " /Contents 4 0 R >>");
  }

  lemma FontIsLine()
    ensures OneLine(FONT) && Ascii(FONT)
  {
    assert OneLine("<< /Type /Font /Subtype /Type1") && OneLine(" /BaseFont /Helvetica >>");
  }

  lemma BodiesWellFormed(team: string)
    ensures forall body :: body in Bodies(team) ==> WellFormed(body)
  {
    DictionariesAreLines();
  }

  // ----- How long a name may be -----

  function TotalLength(parts: seq<string>): nat {
    if parts == [] then 0 else |parts[0]| + TotalLength(parts[1..])
  }

  lemma {:induction false} JoinLength(parts: seq<string>, separator: string)
    requires |separator| == 1 && parts != []
    ensures |Join(parts, separator)| == TotalLength(parts) + |parts| - 1
  {
    if |parts| > 1 {
      JoinLength(parts[1..], separator);
    }
  }

  lemma {:induction false} TotalParts(front: seq<string>, back: seq<string>)
    ensures TotalLength(front + back) == TotalLength(front) + TotalLength(back)
  {
    if front == [] {
      assert front + back == back;
    } else {
      assert (front + back)[1..] == front[1..] + back;
      TotalParts(front[1..], back);
    }
  }

  lemma TotalOne(a: string)
    ensures TotalLength([a]) == |a|
  {
    assert [a][1..] == [];
  }

  lemma TotalOfFive(a: string, b: string, c: string, d: string, e: string)
    ensures TotalLength([a, b, c, d, e]) == |a| + |b| + |c| + |d| + |e|
  {
    TotalOne(a);
    TotalOne(b);
    TotalOne(c);
    TotalOne(d);
    TotalOne(e);
    TotalParts([d], [e]);
    TotalParts([c], [d] + [e]);
    TotalParts([b], [c] + ([d] + [e]));
    TotalParts([a], [b] + ([c] + ([d] + [e])));
    assert [a, b, c, d, e] == [a] + ([b] + ([c] + ([d] + [e])));
  }

  lemma OperatorLengths()
    ensures |"BT"| == 2 && |"/F1 18 Tf"| == 9 && |"72 760 Td"| == 9 && |"0 -34 Td"| == 8
    ensures |"/F1 12 Tf"| == 9 && |"0 -24 Td"| == 8 && |"ET"| == 2
  {
  }

  lemma ShownLengths(name: string)
    ensures |"(" + TITLE + ") Tj"| == 25 && |"(Team: " + name + ") Tj"| == |name| + 11 && |"(" + NOTE + ") Tj"| == 53
  {
    assert |TITLE| == 20 && |NOTE| == 48;
  }

  lemma ContentLength(team: string)
    ensures |Content(team)| == |ShownTeam(team)| + 145
  {
    var title, name, note := "(" + TITLE + ") Tj", "(Team: " + ShownTeam(team) + ") Tj", "(" + NOTE + ") Tj";
    OperatorLengths();
    ShownLengths(ShownTeam(team));
    TenLines("BT", "/F1 18 Tf", "72 760 Td", title, "0 -34 Td", "/F1 12 Tf", name, "0 -24 Td", note, "ET");
  }

  lemma TenLines(a: string, b: string, c: string, d: string, e: string, f: string, g: string, h: string,
                 i: string, j: string)
    ensures |Join([a, b, c, d, e, f, g, h, i, j], "\n")| ==
            |a| + |b| + |c| + |d| + |e| + |f| + |g| + |h| + |i| + |j| + 9
  {
    JoinLength([a, b, c, d, e, f, g, h, i, j], "\n");
    assert [a, b, c, d, e, f, g, h, i, j] == [a, b, c, d, e] + [f, g, h, i, j];
    TotalParts([a, b, c, d, e], [f, g, h, i, j]);
    TotalOfFive(a, b, c, d, e);
    TotalOfFive(f, g, h, i, j);
  }

  lemma ConcatCons(text: string, rest: seq<string>)
    ensures Concat([text] + rest) == text + Concat(rest)
  {
    assert ([text] + rest)[1..] == rest;
  }

  lemma ConcatOfFour(a: string, b: string, c: string, d: string)
    ensures |Concat([a, b, c, d])| == |a| + |b| + |c| + |d|
  {
    ConcatCons(d, []);
    ConcatCons(c, [d]);
    ConcatCons(b, [c, d]);
    ConcatCons(a, [b, c, d]);
    assert [d] == [d] + [] && [c, d] == [c] + [d];
    assert [b, c, d] == [b] + [c, d] && [a, b, c, d] == [a] + [b, c, d];
  }

  lemma PlainLength(number: nat, dictionary: string)
    requires number < 10
    ensures |ObjectText(number, Plain(dictionary))| == |dictionary| + 16
  {
  }

  lemma StreamLength(number: nat, content: string)
    requires number < 10
    ensures |ObjectText(number, Stream(content))| == |content| + |Dec(|content|)| + 48
  {
    assert |"\nendstream\nendobj\n"| == 18 && |"<< /Length "| == 11;
  }

  lemma DictionaryLengths()
    ensures |CATALOG| == 33 && |PAGES| == 41 && |PAGE| == 110
  {
    assert |"<< /Type /Page /Parent 2 0 R"| == 28 && |" /MediaBox [0 0 595 842]"| == 24;
    PageBackLength();
  }

  lemma PageBackLength()
    ensures |PAGE_BACK| == 58
  {
    assert |" /Resources << /Font"| == 20 && |" << /F1 5 0 R >> >>"| == 19 && |" /Contents 4 0 R >>"| == 19;
  }

  lemma LastOffsetIs(team: string)
    ensures LastOffset(team) == |Content(team)| + |Dec(|Content(team)|)| + 289
  {
    DictionaryLengths();
    OffsetOfFifth(CATALOG, PAGES, PAGE, Content(team), FONT);
    assert |HEADER| == 9;
  }

  lemma FirstFour(bodies: seq<Body>)
    requires |bodies| > 4
    ensures ObjectTexts(bodies, 1)[..4] ==
            [ObjectText(1, bodies[0]), ObjectText(2, bodies[1]), ObjectText(3, bodies[2]), ObjectText(4, bodies[3])]
  {
  }

  lemma OffsetOfFifth(a: string, b: string, c: string, content: string, e: string)
    ensures Offset(ObjectTexts([Plain(a), Plain(b), Plain(c), Stream(content), Plain(e)], 1), 4) ==
            |HEADER| + |a| + |b| + |c| + |content| + |Dec(|content|)| + 96
  {
    FirstFour([Plain(a), Plain(b), Plain(c), Stream(content), Plain(e)]);
    ConcatOfFour(ObjectText(1, Plain(a)), ObjectText(2, Plain(b)),
                 ObjectText(3, Plain(c)), ObjectText(4, Stream(content)));
    PlainLength(1, a);
    PlainLength(2, b);
    PlainLength(3, c);
    StreamLength(4, content);
  }

  /** The length at which a name no longer fits. */
  const NAME_LIMIT := 9_999_999_556

  lemma NineAndTenDigits()
    ensures Pow10(9) == 1_000_000_000 && Pow10(10) == 10_000_000_000
  {
    assert Pow10(3) == 1000;
    assert Pow10(6) == 1_000_000;
  }

  lemma ShortNamesFit(team: string)
    ensures LastOffset(team) < Pow10(10) <==> |ShownTeam(team)| < NAME_LIMIT
  {
    var n := |Content(team)|;
    ContentLength(team);
    LastOffsetIs(team);
    NineAndTenDigits();
    DecWidth(n, 9);
    DecWidth(n, 10);
  }

  /** For every team name, a reader that starts from the end of the file recovers all five
      objects and the page's lines; it does so exactly while the name that is shown is
      short enough for the last object to start before byte ten thousand million, where
      the ten digits of an entry run out. */
  lemma ResumeReadsBack(team: string)
    ensures ReadFile(FileText(ObjectTexts(Bodies(team), 1))) ==
            if |Kept(team)| < NAME_LIMIT then Some(Document(6, 1, Bodies(team))) else None
    ensures Bodies(team)[3].Stream? && ShownStrings(Bodies(team)[3].data) == Some(Shown(Kept(team)))
  {
    SafeIsKept(team);
    BodiesWellFormed(team);
    FileReadsBack(Bodies(team));
    ResumeOffsets(team);
    ShortNamesFit(team);
    ContentShowsTeam(team);
  }

  function LongName(): string {
    seq(NAME_LIMIT, _ => 'a')
  }

  /** The shortest plain name whose file cannot be read. */
  lemma LongNameIsUnreadable()
    ensures Kept(LongName()) == LongName()
    ensures ReadFile(FileText(ObjectTexts(Bodies(LongName()), 1))) == None
  {
    PlainNameIsKept(LongName());
    LongKeptIsUnreadable(LongName());
  }

  lemma PlainNameIsKept(team: string)
    requires forall c :: c in team ==> c == 'a'
    ensures Kept(team) == team
  {
    SanitisedOnce(team);
    SafeIsKept(team);
  }

  lemma LongKeptIsUnreadable(team: string)
    requires |Kept(team)| >= NAME_LIMIT
    ensures ReadFile(FileText(ObjectTexts(Bodies(team), 1))) == None
  {
    ResumeReadsBack(team);
  }

  lemma ResumeOffsets(team: string)
    ensures Fits(Offsets(ObjectTexts(Bodies(team), 1))) <==> LastOffset(team) < Pow10(10)
  {
    var texts := ObjectTexts(Bodies(team), 1);
    ObjectTextsNonempty(Bodies(team));
    LastOffsetDecides(texts);
  }

  lemma ObjectTextsNonempty(bodies: seq<Body>)
    ensures forall text :: text in ObjectTexts(bodies, 1) ==> text != ""
  {
  }

  /** Writes the file. A reader of it finds what the name keeps. */
  method CreateResumePdf(team: string) returns (pdf: string)
    ensures pdf == FileText(ObjectTexts(Bodies(team), 1))
    ensures "%PDF-1.4\n" <= pdf
    ensures |Kept(team)| >= NAME_LIMIT ==> ReadFile(pdf) == None
    ensures |Kept(team)| < NAME_LIMIT ==>
              ReadFile(pdf).Some? && |ReadFile(pdf).value.bodies| == 5 && ReadFile(pdf).value.bodies[3].Stream? &&
              ShownStrings(ReadFile(pdf).value.bodies[3].data) == Some(Shown(Kept(team)))
  {
    var content := Content(team);
    var objects := [
      "1" + " 0 obj\n" + CATALOG + "\nendobj\n",
      "2" + " 0 obj\n" + PAGES + "\nendobj\n",
      "3" + " 0 obj\n" + PAGE + "\nendobj\n",
      "4" + " 0 obj\n" + LengthDictionary(|content|) + "\nstream\n" + content + "\nendstream\nendobj\n",
      "5" + " 0 obj\n" + FONT + "\nendobj\n"
    ];
    ObjectsAreRendered(CATALOG, PAGES, PAGE, content, FONT);
    pdf := WriteFile(objects);
    ResumeReadsBack(team);
  }

  // ----- How the objects hang together -----

  /** Somewhere in the dictionary the key stands before a reference to the object. */
  ghost predicate Refers(dictionary: string, key: string, number: nat) {
    exists front, back :: dictionary == front + (key + (Dec(number) + (" 0 R" + back)))
  }

  lemma RefersAt(dictionary: string, front: string, key: string, number: nat, back: string)
    requires dictionary == front + (key + (Dec(number) + (" 0 R" + back)))
    ensures Refers(dictionary, key, number)
  {
  }

  lemma CatalogRefers()
    ensures "<< /Type /Catalog" <= CATALOG && Refers(CATALOG, " /Pages ", 2)
  {
    SmallNumerals();
    assert " /Pages 2 0 R >>" == " /Pages " + ("2" + (" 0 R" + " >>"));
    RefersAt(CATALOG, "<< /Type /Catalog", " /Pages ", 2, " >>");
  }

  lemma PagesRefer()
    ensures "<< /Type /Pages" <= PAGES && Refers(PAGES, " /Kids [", 3)
  {
    SmallNumerals();
    assert " /Kids [3 0 R] /Count 1 >>" == " /Kids [" + ("3" + (" 0 R" + "] /Count 1 >>"));
    RefersAt(PAGES, "<< /Type /Pages", " /Kids [", 3, "] /Count 1 >>");
  }

  lemma PageRefersBack()
    ensures "<< /Type /Page" <= PAGE && Refers(PAGE, " /Parent ", 2)
  {
    SmallNumerals();
    var back := " /MediaBox [0 0 595 842]" + PAGE_BACK;
    assert "<< /Type /Page /Parent 2 0 R" == "<< /Type /Page" + (" /Parent " + ("2" + " 0 R"));
    Pieces("<< /Type /Page", " /Parent ", "2", " 0 R", " /MediaBox [0 0 595 842]", PAGE_BACK);
    RefersAt(PAGE, "<< /Type /Page", " /Parent ", 2, back);
  }

  lemma Pieces(a: string, b: string, c: string, d: string, e: string, f: string)
    ensures ((a + (b + (c + d))) + e) + f == a + (b + (c + (d + (e + f))))
    ensures a <= ((a + (b + (c + d))) + e) + f
  {
  }

  lemma PageRefersToFont()
    ensures Refers(PAGE, " << /F1 ", 5)
  {
    SmallNumerals();
    var front, back := PAGE_FRONT + " /Resources << /Font", " >> >>" + " /Contents 4 0 R >>";
    assert " << /F1 5 0 R >> >>" == " << /F1 " + ("5" + (" 0 R" + " >> >>"));
    Inner(PAGE_FRONT, " /Resources << /Font", " << /F1 ", "5", " 0 R", " >> >>", " /Contents 4 0 R >>");
    RefersAt(PAGE, front, " << /F1 ", 5, back);
  }

  lemma Inner(a: string, b: string, c: string, d: string, e: string, f: string, g: string)
    ensures a + (b + ((c + (d + (e + f))) + g)) == (a + b) + (c + (d + (e + (f + g))))
  {
  }

  lemma PageRefersToContents()
    ensures Refers(PAGE, " /Contents ", 4)
  {
    SmallNumerals();
    var front := PAGE_FRONT + " /Resources << /Font" + " << /F1 5 0 R >> >>";
    assert " /Contents 4 0 R >>" == " /Contents " + ("4" + (" 0 R" + " >>"));
    Last(PAGE_FRONT, " /Resources << /Font", " << /F1 5 0 R >> >>", " /Contents 4 0 R >>");
    RefersAt(PAGE, front, " /Contents ", 4, " >>");
  }

  lemma Last(a: string, b: string, c: string, d: string)
    ensures a + (b + (c + d)) == a + b + c + d
  {
  }

  /** From the root to the text: the catalog names the pages, these their one page, the page
      its parent, its font and its contents; each under the number that the object has. */
  lemma PageTreeHangsTogether(team: string)
    ensures var bodies := Bodies(team);
            && |bodies| == 5 && bodies[0].Plain? && bodies[1].Plain? && bodies[2].Plain? && bodies[4].Plain?
            && "<< /Type /Catalog" <= bodies[0].dictionary && Refers(bodies[0].dictionary, " /Pages ", 2)
            && "<< /Type /Pages" <= bodies[1].dictionary && Refers(bodies[1].dictionary, " /Kids [", 3)
            && "<< /Type /Page" <= bodies[2].dictionary && Refers(bodies[2].dictionary, " /Parent ", 2)
            && Refers(bodies[2].dictionary, " << /F1 ", 5) && Refers(bodies[2].dictionary, " /Contents ", 4)
            && bodies[3].Stream? && "<< /Type /Font" <= bodies[4].dictionary
  {
    CatalogRefers();
    PagesRefer();
    PageRefersBack();
    PageRefersToFont();
    PageRefersToContents();
    assert "<< /Type /Font" <= "<< /Type /Font /Subtype /Type1";
  }

  // ----- One byte a character -----

  lemma {:induction false} JoinIsAscii(parts: seq<string>, separator: string)
    requires Ascii(separator) && forall i :: 0 <= i < |parts| ==> Ascii(parts[i])
    ensures Ascii(Join(parts, separator))
  {
    if |parts| > 1 {
      JoinIsAscii(parts[1..], separator);
    }
  }

  lemma PrintableIsAscii(s: string)
    requires forall c :: c in s ==> Printable(c)
    ensures Ascii(s)
  {
    forall i | 0 <= i < |s|
      ensures s[i] < 128 as char
    {
      assert s[i] in s;
    }
  }

  lemma TeamIsAscii(team: string)
    ensures Ascii(ShownTeam(team))
  {
    PrintableIsAscii(SafeTeam(team));
    assert Ascii("Inviting team");
  }

  lemma ShownIsAscii(line: string)
    requires Ascii(line)
    ensures Ascii("(" + line + ") Tj")
  {
  }

  lemma ContentIsAscii(team: string)
    ensures Ascii(Content(team))
  {
    TeamIsAscii(team);
    ShownIsAscii(TITLE);
    NoteIsAscii();
    ShownIsAscii(NOTE);
    assert Ascii("(Team: " + ShownTeam(team) + ") Tj");
    JoinIsAscii(ContentLines(team), "\n");
  }

  lemma NoteIsAscii()
    ensures Ascii(NOTE)
  {
    assert Ascii("Demo resume generated ") && Ascii("from the Rahhal workspace.");
  }

  /** Every character of the file is one byte, so the recorded offsets are byte offsets. */
  lemma ResumeIsAscii(team: string)
    ensures Ascii(FileText(ObjectTexts(Bodies(team), 1)))
  {
    BodiesAreAscii(team);
    ObjectsAreAscii(Bodies(team));
    FileIsAscii(ObjectTexts(Bodies(team), 1));
  }

  lemma BodiesAreAscii(team: string)
    ensures forall i :: 0 <= i < 5 ==> AsciiBody(Bodies(team)[i])
  {
    DictionariesAreLines();
    ContentIsAscii(team);
  }

  lemma ObjectsAreAscii(bodies: seq<Body>)
    requires forall i :: 0 <= i < |bodies| ==> AsciiBody(bodies[i])
    ensures forall i :: 0 <= i < |bodies| ==> Ascii(ObjectTexts(bodies, 1)[i])
  {
    forall i | 0 <= i < |bodies|
      ensures Ascii(ObjectTexts(bodies, 1)[i])
    {
      ObjectIsAscii(1 + i, bodies[i]);
    }
  }
}
