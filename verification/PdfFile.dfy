/** The layout of a PDF file (ISO 32000-1, section 7.5): what a writer of numbered
    objects must put where, and a reader that starts, as section 7.5.5 prescribes,
    from the end of the file. */
module PdfFile {
  import opened Text
  import opened Decimal

  /** An indirect object's body: a dictionary alone, or stream data whose dictionary
      holds just its length. */
  datatype Body = Plain(dictionary: string) | Stream(data: string)

  predicate WellFormed(body: Body) {
    body.Plain? ==> '\n' !in body.dictionary
  }

  function BodyText(body: Body): string {
    match body
    case Plain(dictionary) => dictionary + "\nendobj\n"
    case Stream(data) => LengthDictionary(|data|) + ("\nstream\n" + (data + "\nendstream\nendobj\n"))
  }

  function LengthDictionary(length: nat): string {
    "<< /Length " + Dec(length) + " >>"
  }

  function ObjectText(number: nat, body: Body): string {
    Dec(number) + (" 0 obj\n" + BodyText(body))
  }

  /** The texts of objects first, first + 1, ... */
  function ObjectTexts(bodies: seq<Body>, first: nat): seq<string> {
    seq(|bodies|, i requires 0 <= i < |bodies| => ObjectText(first + i, bodies[i]))
  }

  function Concat(texts: seq<string>): string {
    if texts == [] then "" else texts[0] + Concat(texts[1..])
  }

  const HEADER := "%PDF-1.4\n"
  const FREE_ENTRY := "0000000000" + (" 65535" + " f \n")
  const ENTRY_WIDTH := 20

  /** Where text i starts, counted from the start of the file. */
  function Offset(texts: seq<string>, i: nat): nat
    requires i <= |texts|
  {
    |HEADER| + |Concat(texts[..i])|
  }

  function Offsets(texts: seq<string>): seq<nat> {
    seq(|texts|, i requires 0 <= i < |texts| => Offset(texts, i))
  }

  function EntryText(offset: nat): string {
    PadStart(Dec(offset), 10) + " 00000 n \n"
  }

  function EntryTexts(offsets: seq<nat>): string {
    if offsets == [] then "" else EntryText(offsets[0]) + EntryTexts(offsets[1..])
  }

  function Trailer(size: nat, xref: nat): string {
    ("trailer\n<< /Size " + (Dec(size) + " /Root 1 0 R >>\n")) + ("startxref" + ("\n" + (Dec(xref) + "\n%%EOF")))
  }

  function XrefSection(offsets: seq<nat>, xref: nat): string {
    "xref\n" + (Dec(0) + (" " + (Dec(|offsets| + 1) + ("\n" +
    (FREE_ENTRY + (EntryTexts(offsets) + Trailer(|offsets| + 1, xref)))))))
  }

  /** The whole file: header, objects, cross-reference table, trailer. */
  function FileText(texts: seq<string>): string {
    HEADER + (Concat(texts) + XrefSection(Offsets(texts), Offset(texts, |texts|)))
  }

  // ----- The reader -----

  datatype Entry = Entry(offset: nat, generation: nat, inUse: bool)

  datatype Document = Document(size: nat, root: nat, bodies: seq<Body>)

  /** The last position, at or before `from`, where `word` occurs in `s`. */
  function LastIndexOf(s: string, word: string, from: nat): (r: Option<nat>)
    requires from <= |s|
    ensures r.Some? ==> r.value <= from && word <= s[r.value..]
  {
    if word <= s[from..] then Some(from)
    else if from == 0 then None
    else LastIndexOf(s, word, from - 1)
  }

  /** One fixed-width entry of the table (section 7.5.4). */
  function ReadEntry(e: string): Option<Entry>
    requires |e| == ENTRY_WIDTH
  {
    if AllDigits(e[..10]) && e[10] == ' ' && AllDigits(e[11..16]) && e[16] == ' ' &&
       (e[17] == 'n' || e[17] == 'f') && (e[18..] == " \r" || e[18..] == " \n" || e[18..] == "\r\n")
    then Some(Entry(Value(e[..10]), Value(e[11..16]), e[17] == 'n'))
    else None
  }

  function ReadEntries(s: string, count: nat): Option<(seq<Entry>, string)> {
    if count == 0 then Some(([], s))
    else if |s| < ENTRY_WIDTH then None
    else
      var entry :- ReadEntry(s[..ENTRY_WIDTH]);
      var more :- ReadEntries(s[ENTRY_WIDTH..], count - 1);
      Some(([entry] + more.0, more.1))
  }

  /** The object at the front of `s`, which must carry the given number. */
  function ReadObject(s: string, number: nat): Option<Body> {
    var n :- ReadNat(s);
    var body :- Expect(n.1, " 0 obj\n");
    if n.0 == number then ReadBody(body) else None
  }

  /** A dictionary line, then either the end of the object or a stream. A stream's data
      is taken by its /Length, whatever the data contains. */
  function ReadBody(s: string): Option<Body> {
    var dictionary := Before(s, '\n');
    var after := s[|dictionary|..];
    if "\nendobj\n" <= after then Some(Plain(dictionary))
    else
      var data :- Expect(after, "\nstream\n");
      var length :- ReadLength(dictionary);
      ReadStreamData(data, length)
  }

  function ReadLength(dictionary: string): Option<nat> {
    var s1 :- Expect(dictionary, "<< /Length ");
    var length :- ReadNat(s1);
    if length.1 == " >>" then Some(length.0) else None
  }

  function ReadStreamData(s: string, length: nat): Option<Body> {
    if length <= |s| && "\nendstream\nendobj\n" <= s[length..] then Some(Stream(s[..length])) else None
  }

  /** The object with the given number, where its entry locates it. */
  function ReadAt(file: string, entry: Entry, number: nat): Option<Body> {
    if entry.inUse && entry.offset <= |file| then ReadObject(file[entry.offset..], number) else None
  }

  function ReadObjects(file: string, entries: seq<Entry>): Option<seq<Body>> {
    Collect(seq(|entries| , i requires 0 <= i < |entries| => ReadAt(file, entries[i], i + 1)))
  }

  /** All the values, when none is missing. */
  function Collect<T>(found: seq<Option<T>>): Option<seq<T>> {
    if found == [] then Some([])
    else
      var value :- found[0];
      var more :- Collect(found[1..]);
      Some([value] + more)
  }

  /** The table and the trailer dictionary, from the position `startxref` gives. */
  function ReadXref(s: string): (r: Option<(seq<Entry>, nat)>)
    ensures r.Some? ==> r.value.0 != []
  {
    var s1 :- Expect(s, "xref\n");
    var first :- ReadNat(s1);
    var s2 :- Expect(first.1, " ");
    var count :- ReadNat(s2);
    var s3 :- Expect(count.1, "\n");
    var table :- ReadEntries(s3, count.0);
    var s4 :- Expect(table.1, "trailer\n<< /Size ");
    var size :- ReadNat(s4);
    var s5 :- Expect(size.1, " /Root ");
    var root :- ReadNat(s5);
    if first.0 == 0 && size.0 == count.0 && " 0 R >>\n" <= root.1 && table.0 != [] && !table.0[0].inUse
    then Some((table.0, root.0))
    else None
  }

  /** The position that follows the last `startxref` of the file. */
  function ReadStart(file: string): (r: Option<nat>)
    ensures r.Some? ==> r.value <= |file|
  {
    var at :- LastIndexOf(file, "startxref", |file|);
    var s2 :- Expect(file[at + |"startxref"|..], "\n");
    var start :- ReadNat(s2);
    if start.1 == "\n%%EOF" && start.0 <= |file| then Some(start.0) else None
  }

  function ReadFile(file: string): Option<Document> {
    var start :- ReadStart(file);
    var xref :- ReadXref(file[start..]);
    var bodies :- ReadObjects(file, xref.0[1..]);
    Some(Document(|xref.0|, xref.1, bodies))
  }

  // ----- Reading undoes writing -----

  lemma {:induction false} NotAfter(s: string, word: string, at: nat, from: nat)
    requires at <= from <= |s| && word != "" && word <= s[at..]
    requires forall i :: at < i < |s| ==> s[i] != word[0]
    ensures LastIndexOf(s, word, from) == Some(at)
    decreases from
  {
    if at < from {
      if from < |s| {
        assert s[from..][0] == s[from] != word[0];
      }
      NotAfter(s, word, at, from - 1);
    }
  }

  lemma KeywordComesLast(front: string, end: string)
    requires 's' !in end
    ensures var file := front + ("startxref" + end);
            LastIndexOf(file, "startxref", |file|) == Some(|front|) && file[|front| + |"startxref"|..] == end
  {
    var file := front + ("startxref" + end);
    assert file[|front|..] == "startxref" + end;
    forall i | |front| < i < |file|
      ensures file[i] != 's'
    {
      assert file[i] == ("startxref" + end)[i - |front|];
    }
    NotAfter(file, "startxref", |front|, |file|);
  }

  lemma PositionIsNoKeyword(xref: nat)
    ensures 's' !in "\n" + (Dec(xref) + "\n%%EOF")
  {
    assert 's' !in "\n%%EOF" && 's' !in Dec(xref);
  }

  lemma StartReadsBack(front: string, xref: nat)
    requires xref <= |front|
    ensures ReadStart(front + ("startxref" + ("\n" + (Dec(xref) + "\n%%EOF")))) == Some(xref)
  {
    var position := Dec(xref) + "\n%%EOF";
    PositionIsNoKeyword(xref);
    ReadNatOfDec(xref, "\n%%EOF");
    PositionReadsBack(front, position, xref);
  }

  lemma PositionReadsBack(front: string, position: string, xref: nat)
    requires xref <= |front| && 's' !in "\n" + position && ReadNat(position) == Some((xref, "\n%%EOF"))
    ensures ReadStart(front + ("startxref" + ("\n" + position))) == Some(xref)
  {
    KeywordComesLast(front, "\n" + position);
    ExpectPrefix("\n", position);
  }

  lemma EntryReadsBack(offset: nat)
    requires offset < Pow10(10)
    ensures |EntryText(offset)| == ENTRY_WIDTH
    ensures ReadEntry(EntryText(offset)) == Some(Entry(offset, 0, true))
  {
    DecWidth(offset, 10);
    ValueOfPadded(offset, 10);
    var padded := PadStart(Dec(offset), 10);
    var e := EntryText(offset);
    assert e[..10] == padded;
    assert e[11..16] == Zeros(5);
    LeadingZeros(5, "");
    assert Zeros(5) + "" == Zeros(5);
    assert e[18..] == " \n";
  }

  /** An offset of more than ten digits leaves no entry of the prescribed width. */
  lemma WideEntryUnreadable(offset: nat, rest: string)
    requires offset >= Pow10(10)
    ensures |EntryText(offset)| > ENTRY_WIDTH
    ensures ReadEntry((EntryText(offset) + rest)[..ENTRY_WIDTH]) == None
  {
    DecWidth(offset, 10);
    var d := Dec(offset);
    assert (EntryText(offset) + rest)[..ENTRY_WIDTH][10] == d[10];
    assert d[10] in d;
  }

  predicate Fits(offsets: seq<nat>) {
    offsets != [] ==> offsets[0] < Pow10(10) && Fits(offsets[1..])
  }

  /** The entries that the table should yield for these offsets. */
  function EntriesFor(offsets: seq<nat>): (entries: seq<Entry>)
    ensures |entries| == |offsets|
    ensures forall i :: 0 <= i < |offsets| ==> entries[i] == Entry(offsets[i], 0, true)
  {
    if offsets == [] then [] else [Entry(offsets[0], 0, true)] + EntriesFor(offsets[1..])
  }

  lemma {:induction false} EntriesReadBack(offsets: seq<nat>, rest: string)
    ensures ReadEntries(EntryTexts(offsets) + rest, |offsets|) ==
            if Fits(offsets) then Some((EntriesFor(offsets), rest)) else None
  {
    if offsets == [] {
      assert EntryTexts(offsets) + rest == rest;
    } else {
      var tail := EntryTexts(offsets[1..]) + rest;
      assert EntryTexts(offsets) + rest == EntryText(offsets[0]) + tail;
      FirstEntryReadsBack(offsets[0], tail, |offsets|);
      EntriesReadBack(offsets[1..], rest);
    }
  }

  lemma FirstEntryReadsBack(offset: nat, tail: string, count: nat)
    requires count > 0
    ensures offset >= Pow10(10) ==> ReadEntries(EntryText(offset) + tail, count) == None
    ensures offset < Pow10(10) ==>
              ReadEntries(EntryText(offset) + tail, count) ==
              match ReadEntries(tail, count - 1)
              case None => None
              case Some((entries, rest)) => Some(([Entry(offset, 0, true)] + entries, rest))
  {
    var s := EntryText(offset) + tail;
    if offset < Pow10(10) {
      EntryReadsBack(offset);
      assert s[..ENTRY_WIDTH] == EntryText(offset) && s[ENTRY_WIDTH..] == tail;
    } else {
      WideEntryUnreadable(offset, tail);
    }
  }

  lemma XrefReadsBack(offsets: seq<nat>, xref: nat)
    ensures Fits(offsets) ==>
              ReadXref(XrefSection(offsets, xref)) == Some(([Entry(0, 65535, false)] + EntriesFor(offsets), 1))
    ensures !Fits(offsets) ==> ReadXref(XrefSection(offsets, xref)) == None
  {
    var size := |offsets| + 1;
    var trailer := Trailer(size, xref);
    var table := FREE_ENTRY + (EntryTexts(offsets) + trailer);
    TableReadsBack(offsets, trailer);
    ExpectPrefix("xref\n", Dec(0) + (" " + (Dec(size) + ("\n" + table))));
    ReadNatOfDec(0, " " + (Dec(size) + ("\n" + table)));
    ExpectPrefix(" ", Dec(size) + ("\n" + table));
    ReadNatOfDec(size, "\n" + table);
    ExpectPrefix("\n", table);
    if Fits(offsets) {
      TrailerReadsBack(size, xref);
    }
  }

  lemma TableReadsBack(offsets: seq<nat>, rest: string)
    ensures ReadEntries(FREE_ENTRY + (EntryTexts(offsets) + rest), |offsets| + 1) ==
            if Fits(offsets) then Some(([Entry(0, 65535, false)] + EntriesFor(offsets), rest)) else None
  {
    var more := EntryTexts(offsets) + rest;
    FreeEntryReadsBack();
    assert (FREE_ENTRY + more)[..ENTRY_WIDTH] == FREE_ENTRY;
    assert (FREE_ENTRY + more)[ENTRY_WIDTH..] == more;
    EntriesReadBack(offsets, rest);
  }

  lemma EntryParts(offset: string, generation: string, kind: char)
    requires |offset| == 10 && AllDigits(offset) && |generation| == 5 && AllDigits(generation) &&
             (kind == 'n' || kind == 'f')
    ensures ReadEntry(offset + (" " + (generation + (" " + ([kind] + " \n"))))) ==
            Some(Entry(Value(offset), Value(generation), kind == 'n'))
  {
    var e := offset + (" " + (generation + (" " + ([kind] + " \n"))));
    assert e[..10] == offset && e[11..16] == generation && e[18..] == " \n";
  }

  lemma FreeEntryReadsBack()
    ensures ReadEntry(FREE_ENTRY) == Some(Entry(0, 65535, false))
  {
    LeadingZeros(10, "");
    assert "0000000000" == Zeros(10) + "";
    assert "65535" == Dec(65535);
    ValueOfDec(65535);
    EntryParts("0000000000", "65535", 'f');
    assert FREE_ENTRY == "0000000000" + (" " + ("65535" + (" " + (['f'] + " \n"))));
  }

  lemma TrailerReadsBack(size: nat, xref: nat)
    ensures var s4 := Expect(Trailer(size, xref), "trailer\n<< /Size ");
            s4.Some? && var n := ReadNat(s4.value);
            n.Some? && n.value.0 == size && var s5 := Expect(n.value.1, " /Root ");
            s5.Some? && var root := ReadNat(s5.value);
            root.Some? && root.value.0 == 1 && " 0 R >>\n" <= root.value.1
  {
    var end := "startxref" + ("\n" + (Dec(xref) + "\n%%EOF"));
    assert Trailer(size, xref) == "trailer\n<< /Size " + (Dec(size) + (" /Root " + (Dec(1) + (" 0 R >>\n" + end))));
    ReadNatOfDec(size, " /Root " + (Dec(1) + (" 0 R >>\n" + end)));
    ReadNatOfDec(1, " 0 R >>\n" + end);
  }

  lemma PlainReadsBack(dictionary: string, rest: string)
    requires '\n' !in dictionary
    ensures ReadBody(dictionary + ("\nendobj\n" + rest)) == Some(Plain(dictionary))
  {
    BeforeIsLongest(dictionary + ("\nendobj\n" + rest), '\n', dictionary);
  }

  lemma StreamBodyReads(dictionary: string, length: nat, data: string)
    requires '\n' !in dictionary && ReadLength(dictionary) == Some(length)
    ensures ReadBody(dictionary + ("\nstream\n" + data)) == ReadStreamData(data, length)
  {
    var after := "\nstream\n" + data;
    BeforeIsLongest(dictionary + after, '\n', dictionary);
    assert (dictionary + after)[|dictionary|..] == after;
    assert after[1] == 's' != "\nendobj\n"[1];
    ExpectPrefix("\nstream\n", data);
  }

  lemma LengthDictionaryIsLine(length: nat)
    ensures '\n' !in LengthDictionary(length)
  {
  }

  lemma StreamReadsBack(data: string, rest: string)
    ensures ReadBody(LengthDictionary(|data|) + ("\nstream\n" + (data + ("\nendstream\nendobj\n" + rest)))) ==
            Some(Stream(data))
  {
    LengthDictionaryIsLine(|data|);
    LengthReadsBack(|data|);
    StreamBodyReads(LengthDictionary(|data|), |data|, data + ("\nendstream\nendobj\n" + rest));
    DataReadsBack(data, rest);
  }

  lemma LengthReadsBack(length: nat)
    ensures ReadLength(LengthDictionary(length)) == Some(length)
  {
    assert LengthDictionary(length) == "<< /Length " + (Dec(length) + " >>");
    ReadNatOfDec(length, " >>");
  }

  lemma DataReadsBack(data: string, rest: string)
    ensures ReadStreamData(data + ("\nendstream\nendobj\n" + rest), |data|) == Some(Stream(data))
  {
    var s := data + ("\nendstream\nendobj\n" + rest);
    assert s[|data|..] == "\nendstream\nendobj\n" + rest;
    assert s[..|data|] == data;
  }

  lemma BodyReadsBack(body: Body, rest: string)
    requires WellFormed(body)
    ensures ReadBody(BodyText(body) + rest) == Some(body)
  {
    match body
    case Plain(dictionary) =>
      assert BodyText(body) + rest == dictionary + ("\nendobj\n" + rest);
      PlainReadsBack(dictionary, rest);
    case Stream(data) =>
      assert (data + "\nendstream\nendobj\n") + rest == data + ("\nendstream\nendobj\n" + rest);
      assert BodyText(body) + rest ==
             LengthDictionary(|data|) + ("\nstream\n" + (data + ("\nendstream\nendobj\n" + rest)));
      StreamReadsBack(data, rest);
  }

  lemma ObjectReadsBack(number: nat, body: Body, rest: string)
    requires WellFormed(body)
    ensures ReadObject(ObjectText(number, body) + rest, number) == Some(body)
  {
    var after := BodyText(body) + rest;
    assert ObjectText(number, body) + rest == Dec(number) + (" 0 obj\n" + after);
    ReadNatOfDec(number, " 0 obj\n" + after);
    ExpectPrefix(" 0 obj\n", after);
    BodyReadsBack(body, rest);
  }

  lemma {:induction false} CollectsAll<T>(found: seq<Option<T>>, values: seq<T>)
    requires |found| == |values|
    requires forall i :: 0 <= i < |values| ==> found[i] == Some(values[i])
    ensures Collect(found) == Some(values)
  {
    if values != [] {
      CollectsAll(found[1..], values[1..]);
      assert values == [values[0]] + values[1..];
    }
  }

  lemma FirstObjectReadsBack(s: string, number: nat, body: Body)
    requires WellFormed(body) && ObjectText(number, body) <= s
    ensures ReadObject(s, number) == Some(body)
  {
    var text := ObjectText(number, body);
    assert s == text + s[|text|..];
    ObjectReadsBack(number, body, s[|text|..]);
  }

  lemma {:induction false} ConcatSplits(texts: seq<string>, i: nat)
    requires i <= |texts|
    ensures Concat(texts) == Concat(texts[..i]) + Concat(texts[i..])
  {
    if i == 0 {
      assert texts[i..] == texts;
    } else {
      ConcatSplits(texts[1..], i - 1);
      assert texts[..i][1..] == texts[1..][..i - 1];
      assert texts[i..] == texts[1..][i - 1..];
    }
  }

  lemma ConcatSnoc(texts: seq<string>, i: nat)
    requires i < |texts|
    ensures Concat(texts[..i + 1]) == Concat(texts[..i]) + texts[i]
  {
    var front := texts[..i + 1];
    ConcatSplits(front, i);
    assert front[..i] == texts[..i] && front[i..] == [texts[i]];
    assert [texts[i]][1..] == [] && Concat([texts[i]]) == texts[i] + Concat([texts[i]][1..]);
  }

  lemma ConcatAround(texts: seq<string>, i: nat)
    requires i < |texts|
    ensures Concat(texts) == Concat(texts[..i]) + (texts[i] + Concat(texts[i + 1..]))
    ensures Concat(texts[..i + 1]) == Concat(texts[..i]) + texts[i]
  {
    ConcatSnoc(texts, i);
    ConcatSplits(texts, i);
    assert texts[i..][1..] == texts[i + 1..];
  }

  /** Text i really starts at the offset recorded for it, and offsets grow by its length. */
  lemma OffsetLocates(texts: seq<string>, i: nat)
    requires i < |texts|
    ensures Offset(texts, i) <= |FileText(texts)|
    ensures texts[i] <= FileText(texts)[Offset(texts, i)..]
    ensures Offset(texts, i + 1) == Offset(texts, i) + |texts[i]|
  {
    ConcatAround(texts, i);
    var section := XrefSection(Offsets(texts), Offset(texts, |texts|));
    LocatedIn(HEADER, Concat(texts[..i]), texts[i], Concat(texts[i + 1..]), section);
  }

  lemma LocatedIn(header: string, before: string, text: string, after: string, section: string)
    ensures var file := header + ((before + (text + after)) + section);
            |header| + |before| <= |file| && text <= file[|header| + |before|..]
  {
    var file := header + ((before + (text + after)) + section);
    assert file == (header + before) + (text + (after + section));
    assert file[|header| + |before|..] == text + (after + section);
  }

  lemma SectionFollowsObjects(texts: seq<string>)
    ensures Offset(texts, |texts|) <= |FileText(texts)|
    ensures FileText(texts)[Offset(texts, |texts|)..] == XrefSection(Offsets(texts), Offset(texts, |texts|))
  {
    assert texts[..|texts|] == texts;
    assert FileText(texts) == (HEADER + Concat(texts)) + XrefSection(Offsets(texts), Offset(texts, |texts|));
  }

  lemma StartOfFile(texts: seq<string>)
    ensures ReadStart(FileText(texts)) == Some(Offset(texts, |texts|))
  {
    var xref := Offset(texts, |texts|);
    var offsets := Offsets(texts);
    var size := |offsets| + 1;
    assert texts[..|texts|] == texts;
    var upTo := "xref\n" + (Dec(0) + (" " + (Dec(size) + ("\n" + (FREE_ENTRY + (EntryTexts(offsets) +
                ("trailer\n<< /Size " + (Dec(size) + " /Root 1 0 R >>\n"))))))));
    var end := "startxref" + ("\n" + (Dec(xref) + "\n%%EOF"));
    assert XrefSection(offsets, xref) == upTo + end;
    var front := HEADER + (Concat(texts) + upTo);
    assert FileText(texts) == front + end;
    StartReadsBack(front, xref);
  }

  lemma LocatedObjectReadsBack(bodies: seq<Body>, i: nat)
    requires i < |bodies| && WellFormed(bodies[i])
    ensures var texts := ObjectTexts(bodies, 1);
            ReadAt(FileText(texts), EntriesFor(Offsets(texts))[i], i + 1) == Some(bodies[i])
  {
    var texts := ObjectTexts(bodies, 1);
    OffsetLocates(texts, i);
    FirstObjectReadsBack(FileText(texts)[Offset(texts, i)..], i + 1, bodies[i]);
  }

  lemma AllReadAt(file: string, entries: seq<Entry>, bodies: seq<Body>)
    requires |entries| == |bodies|
    requires forall i :: 0 <= i < |bodies| ==> ReadAt(file, entries[i], i + 1) == Some(bodies[i])
    ensures ReadObjects(file, entries) == Some(bodies)
  {
    CollectsAll(seq(|entries|, i requires 0 <= i < |entries| => ReadAt(file, entries[i], i + 1)), bodies);
  }

  lemma LocatedObjectsReadBack(bodies: seq<Body>, file: string, entries: seq<Entry>)
    requires forall body :: body in bodies ==> WellFormed(body)
    requires file == FileText(ObjectTexts(bodies, 1)) && entries == EntriesFor(Offsets(ObjectTexts(bodies, 1)))
    ensures ReadObjects(file, entries) == Some(bodies)
  {
    forall i | 0 <= i < |bodies|
      ensures ReadAt(file, entries[i], i + 1) == Some(bodies[i])
    {
      LocatedObjectReadsBack(bodies, i);
    }
    AllReadAt(file, entries, bodies);
  }

  lemma Assembles(file: string, start: nat, table: Option<(seq<Entry>, nat)>, bodies: seq<Body>)
    requires ReadStart(file) == Some(start) && ReadXref(file[start..]) == table
    requires table.Some? ==> ReadObjects(file, table.value.0[1..]) == Some(bodies)
    ensures ReadFile(file) ==
            if table.Some? then Some(Document(|table.value.0|, table.value.1, bodies)) else None
  {
  }

  /** A file of any number of well-formed objects reads back, and reads back to exactly
      those objects, if and only if every offset fits the ten digits of an entry. */
  lemma FileReadsBack(bodies: seq<Body>)
    requires forall body :: body in bodies ==> WellFormed(body)
    ensures var texts := ObjectTexts(bodies, 1);
            ReadFile(FileText(texts)) ==
            if Fits(Offsets(texts)) then Some(Document(|bodies| + 1, 1, bodies)) else None
  {
    var texts := ObjectTexts(bodies, 1);
    var offsets := Offsets(texts);
    var xref := Offset(texts, |texts|);
    var table := if Fits(offsets) then Some(([Entry(0, 65535, false)] + EntriesFor(offsets), 1)) else None;
    StartOfFile(texts);
    SectionFollowsObjects(texts);
    XrefReadsBack(offsets, xref);
    LocatedObjectsReadBack(bodies, FileText(texts), EntriesFor(offsets));
    assert ([Entry(0, 65535, false)] + EntriesFor(offsets))[1..] == EntriesFor(offsets);
    Assembles(FileText(texts), xref, table, bodies);
  }

  // ----- Shape of the table -----

  lemma {:induction false} OffsetsGrow(texts: seq<string>, i: nat, j: nat)
    requires i < j <= |texts| && forall text :: text in texts ==> text != ""
    ensures Offset(texts, i) < Offset(texts, j)
  {
    if i + 1 < j {
      OffsetsGrow(texts, i, j - 1);
    }
    ConcatAround(texts, j - 1);
    assert texts[j - 1] in texts;
  }

  /** Whether the table is readable is decided by its last offset alone. */
  lemma LastOffsetDecides(texts: seq<string>)
    requires texts != [] && forall text :: text in texts ==> text != ""
    ensures Fits(Offsets(texts)) <==> Offset(texts, |texts| - 1) < Pow10(10)
  {
    var offsets := Offsets(texts);
    var last := |texts| - 1;
    FitsPointwise(offsets);
    if offsets[last] < Pow10(10) {
      forall i | 0 <= i < last
        ensures offsets[i] < offsets[last]
      {
        OffsetsGrow(texts, i, last);
      }
    }
  }

  lemma {:induction false} FitsPointwise(offsets: seq<nat>)
    ensures Fits(offsets) <==> forall i :: 0 <= i < |offsets| ==> offsets[i] < Pow10(10)
  {
    if offsets != [] {
      FitsPointwise(offsets[1..]);
      assert forall i :: 1 <= i < |offsets| ==> offsets[i] == offsets[1..][i - 1];
    }
  }

  lemma EntryWidth(offset: nat)
    ensures |EntryText(offset)| == ENTRY_WIDTH <==> offset < Pow10(10)
  {
    DecWidth(offset, 10);
  }

  /** In a readable table, entry i + 1 is the twenty characters at 20 * i after the first. */
  lemma {:induction false} EntrySlot(offsets: seq<nat>, rest: string, i: nat)
    requires Fits(offsets) && i < |offsets|
    ensures ENTRY_WIDTH * i + ENTRY_WIDTH <= |EntryTexts(offsets) + rest|
    ensures (EntryTexts(offsets) + rest)[ENTRY_WIDTH * i..][..ENTRY_WIDTH] == EntryText(offsets[i])
  {
    var first, table := EntryText(offsets[0]), EntryTexts(offsets[1..]);
    EntryWidth(offsets[0]);
    assert EntryTexts(offsets) == first + table;
    if i == 0 {
      FirstSlot(first, table, rest);
    } else {
      EntrySlot(offsets[1..], rest, i - 1);
      LaterSlot(first, table, rest, ENTRY_WIDTH * (i - 1), EntryText(offsets[i]));
    }
  }

  lemma FirstSlot(first: string, table: string, rest: string)
    requires |first| == ENTRY_WIDTH
    ensures (first + table + rest)[0..][..ENTRY_WIDTH] == first
  {
  }

  lemma LaterSlot(first: string, table: string, rest: string, k: nat, slot: string)
    requires |first| == ENTRY_WIDTH && k + ENTRY_WIDTH <= |table + rest|
    requires (table + rest)[k..][..ENTRY_WIDTH] == slot
    ensures (first + table + rest)[ENTRY_WIDTH + k..][..ENTRY_WIDTH] == slot
  {
    assert (first + table + rest)[ENTRY_WIDTH + k..] == (table + rest)[k..];
  }

  /** The table's two header lines. */
  function TableHead(size: nat): string {
    "xref\n" + (Dec(0) + (" " + (Dec(size) + "\n")))
  }

  ghost predicate EntryAt(file: string, at: nat, offset: nat) {
    at + ENTRY_WIDTH <= |file| && file[at..at + ENTRY_WIDTH] == EntryText(offset)
  }

  /** Every entry of the file is at its fixed place: after the table's two header lines
      and the free entry, twenty characters for each earlier object. */
  lemma EntryOfFile(texts: seq<string>, i: nat)
    requires Fits(Offsets(texts)) && i < |texts|
    ensures EntryAt(FileText(texts), Offset(texts, |texts|) + |TableHead(|texts| + 1)| + ENTRY_WIDTH * (i + 1),
                    Offset(texts, i))
  {
    SectionParts(texts);
    SlotOfFile(FileText(texts), texts, i);
  }

  lemma SlotOfFile(file: string, texts: seq<string>, i: nat)
    requires Fits(Offsets(texts)) && i < |texts| && |FREE_ENTRY| == ENTRY_WIDTH
    requires Offset(texts, |texts|) <= |file|
    requires file[Offset(texts, |texts|)..] ==
             (TableHead(|texts| + 1) + FREE_ENTRY) +
             (EntryTexts(Offsets(texts)) + Trailer(|texts| + 1, Offset(texts, |texts|)))
    ensures EntryAt(file, Offset(texts, |texts|) + |TableHead(|texts| + 1)| + ENTRY_WIDTH * (i + 1), Offset(texts, i))
  {
    var xref := Offset(texts, |texts|);
    SlotOfSection(file, xref, TableHead(|texts| + 1), FREE_ENTRY, Offsets(texts), Trailer(|texts| + 1, xref), i);
  }

  lemma SectionParts(texts: seq<string>)
    ensures |FREE_ENTRY| == ENTRY_WIDTH
    ensures Offset(texts, |texts|) <= |FileText(texts)|
    ensures FileText(texts)[Offset(texts, |texts|)..] ==
            (TableHead(|texts| + 1) + FREE_ENTRY) +
            (EntryTexts(Offsets(texts)) + Trailer(|texts| + 1, Offset(texts, |texts|)))
  {
    SectionFollowsObjects(texts);
    SectionShape(Offsets(texts), Offset(texts, |texts|));
  }

  lemma SlotOfSection(file: string, start: nat, head: string, free: string, offsets: seq<nat>, trailer: string, i: nat)
    requires Fits(offsets) && i < |offsets| && |free| == ENTRY_WIDTH
    requires start <= |file| && file[start..] == (head + free) + (EntryTexts(offsets) + trailer)
    ensures EntryAt(file, start + |head| + ENTRY_WIDTH * (i + 1), offsets[i])
  {
    EntrySlot(offsets, trailer, i);
    SlotInFile(file, start, head, free, EntryTexts(offsets) + trailer, ENTRY_WIDTH * i, offsets[i]);
  }

  lemma SectionShape(offsets: seq<nat>, xref: nat)
    ensures XrefSection(offsets, xref) ==
            (TableHead(|offsets| + 1) + FREE_ENTRY) + (EntryTexts(offsets) + Trailer(|offsets| + 1, xref))
  {
    var size := |offsets| + 1;
    SectionSplits("xref\n", Dec(0), " ", Dec(size), "\n", FREE_ENTRY, EntryTexts(offsets) + Trailer(size, xref));
  }

  lemma SectionSplits(a: string, b: string, c: string, d: string, e: string, free: string, rest: string)
    ensures a + (b + (c + (d + (e + (free + rest))))) == ((a + (b + (c + (d + e)))) + free) + rest
  {
  }

  lemma SlotInFile(file: string, start: nat, head: string, free: string, table: string, k: nat, offset: nat)
    requires start <= |file| && file[start..] == (head + free) + table
    requires |free| == ENTRY_WIDTH && k + ENTRY_WIDTH <= |table| && table[k..][..ENTRY_WIDTH] == EntryText(offset)
    ensures EntryAt(file, start + |head| + (ENTRY_WIDTH + k), offset)
  {
    var at := start + |head| + (ENTRY_WIDTH + k);
    assert file[at..] == file[start..][|head| + ENTRY_WIDTH + k..] == table[k..];
    assert file[at..at + ENTRY_WIDTH] == file[at..][..ENTRY_WIDTH];
  }

  // ----- One byte a character -----

  predicate Ascii(s: string) {
    forall i :: 0 <= i < |s| ==> s[i] < 128 as char
  }

  lemma {:induction false} ConcatIsAscii(texts: seq<string>)
    requires forall i :: 0 <= i < |texts| ==> Ascii(texts[i])
    ensures Ascii(Concat(texts))
  {
    if texts != [] {
      ConcatIsAscii(texts[1..]);
    }
  }

  lemma DecIsAscii(n: nat)
    ensures Ascii(Dec(n))
  {
    forall i | 0 <= i < |Dec(n)|
      ensures Dec(n)[i] < 128 as char
    {
      assert Dec(n)[i] in Dec(n);
    }
  }

  lemma EntryIsAscii(offset: nat)
    ensures Ascii(EntryText(offset))
  {
    var padded := PadStart(Dec(offset), 10);
    forall i | 0 <= i < |padded|
      ensures padded[i] < 128 as char
    {
      assert padded[i] in padded;
    }
  }

  lemma {:induction false} TableIsAscii(offsets: seq<nat>)
    ensures Ascii(EntryTexts(offsets))
  {
    if offsets != [] {
      EntryIsAscii(offsets[0]);
      TableIsAscii(offsets[1..]);
    }
  }

  lemma TrailerIsAscii(size: nat, xref: nat)
    ensures Ascii(Trailer(size, xref))
  {
    DecIsAscii(size);
    DecIsAscii(xref);
  }

  lemma SectionIsAscii(offsets: seq<nat>, xref: nat)
    ensures Ascii(XrefSection(offsets, xref))
  {
    var size := |offsets| + 1;
    SectionShape(offsets, xref);
    HeadIsAscii(size);
    FreeEntryIsAscii();
    TableIsAscii(offsets);
    TrailerIsAscii(size, xref);
    AsciiParts(TableHead(size), FREE_ENTRY);
    AsciiParts(EntryTexts(offsets), Trailer(size, xref));
    AsciiParts(TableHead(size) + FREE_ENTRY, EntryTexts(offsets) + Trailer(size, xref));
  }

  lemma HeadIsAscii(size: nat)
    ensures Ascii(TableHead(size))
  {
    DecIsAscii(0);
    DecIsAscii(size);
    assert Ascii("xref\n");
  }

  lemma FreeEntryIsAscii()
    ensures Ascii(FREE_ENTRY)
  {
    assert Ascii("0000000000") && Ascii(" 65535" + " f \n");
  }

  /** A file of ASCII objects is ASCII, so that its character offsets are byte offsets. */
  lemma FileIsAscii(texts: seq<string>)
    requires forall i :: 0 <= i < |texts| ==> Ascii(texts[i])
    ensures Ascii(FileText(texts))
  {
    ConcatIsAscii(texts);
    SectionIsAscii(Offsets(texts), Offset(texts, |texts|));
    assert Ascii(HEADER);
  }

  predicate AsciiBody(body: Body) {
    Ascii(if body.Plain? then body.dictionary else body.data)
  }

  lemma AsciiParts(a: string, b: string)
    ensures Ascii(a + b) <==> Ascii(a) && Ascii(b)
  {
    assert Ascii(a + b) ==> forall i :: 0 <= i < |a| ==> a[i] == (a + b)[i];
    assert Ascii(a + b) ==> forall i :: 0 <= i < |b| ==> b[i] == (a + b)[|a| + i];
  }

  lemma EndingsAreAscii()
    ensures Ascii("\nendobj\n") && Ascii("\nstream\n") && Ascii("\nendstream" + "\nendobj\n")
    ensures Ascii("<< /Length ") && Ascii(" >>") && Ascii(" 0 obj\n")
  {
    assert Ascii("\nendstream");
  }

  lemma LengthDictionaryIsAscii(length: nat)
    ensures Ascii(LengthDictionary(length))
  {
    EndingsAreAscii();
    DecIsAscii(length);
    AsciiParts("<< /Length ", Dec(length));
    AsciiParts("<< /Length " + Dec(length), " >>");
  }

  lemma StreamTextIsAscii(dictionary: string, open: string, data: string, close: string)
    requires Ascii(dictionary) && Ascii(open) && Ascii(data) && Ascii(close)
    ensures Ascii(dictionary + (open + (data + close)))
  {
    AsciiParts(data, close);
    AsciiParts(open, data + close);
    AsciiParts(dictionary, open + (data + close));
  }

  lemma BodyIsAscii(body: Body)
    requires AsciiBody(body)
    ensures Ascii(BodyText(body))
  {
    EndingsAreAscii();
    match body
    case Plain(dictionary) =>
      AsciiParts(dictionary, "\nendobj\n");
    case Stream(data) =>
      LengthDictionaryIsAscii(|data|);
      assert "\nendstream" + "\nendobj\n" == "\nendstream\nendobj\n";
      StreamTextIsAscii(LengthDictionary(|data|), "\nstream\n", data, "\nendstream\nendobj\n");
  }

  lemma ObjectIsAscii(number: nat, body: Body)
    requires AsciiBody(body)
    ensures Ascii(ObjectText(number, body))
  {
    DecIsAscii(number);
    EndingsAreAscii();
    BodyIsAscii(body);
    AsciiParts(" 0 obj\n", BodyText(body));
    AsciiParts(Dec(number), " 0 obj\n" + BodyText(body));
  }
}
