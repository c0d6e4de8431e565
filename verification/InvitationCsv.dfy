/** The invitation export of components/organization-workspace.tsx, and a reader of
    comma-separated values (RFC 4180, section 2) with a line feed between records. */
module InvitationCsv {
  import opened Text

  datatype Offer = Offer(id: string, recipientName: string, project: string, state: string, updatedAt: string)

  // ----- The writer -----

  /** `value.replaceAll('"', '""')`. */
  function Doubled(value: string): string {
    if value == "" then ""
    else (if value[0] == '"' then "\"\"" else [value[0]]) + Doubled(value[1..])
  }

  function Quoted(value: string): string {
    "\"" + Doubled(value) + "\""
  }

  function Fields(offer: Offer): seq<string> {
    [offer.id, offer.recipientName, offer.project, offer.state, offer.updatedAt]
  }

  function Map<A, B>(f: A -> B, items: seq<A>): (r: seq<B>)
    ensures |r| == |items| && forall i :: 0 <= i < |items| ==> r[i] == f(items[i])
  {
    seq(|items|, i requires 0 <= i < |items| => f(items[i]))
  }

  function LineOf(fields: seq<string>): string {
    Join(Map(Quoted, fields), ",")
  }

  const HEADER := "id,recipient,challenge" + ",state,updatedAt"

  function Export(offers: seq<Offer>): string {
    Join([HEADER] + Map(LineOf, Map(Fields, offers)), "\n")
  }

  // ----- The reader -----

  /** Where the reader is: at the start of a field, inside a bare or a quoted one, or
      just after a quote that either closes its field or is the first of a pair. */
  datatype Mode = AtStart | InBare | InQuotes | AfterQuote

  /** Reads the rest of a file, given the field and the fields of the record read so far. */
  function ReadFrom(s: string, mode: Mode, field: string, fields: seq<string>): Option<seq<seq<string>>>
    decreases |s|, 0
  {
    if s == "" then
      if mode.InQuotes? then None else Some([fields + [field]])
    else
      var c, rest := s[0], s[1..];
      match mode
      case InQuotes =>
        if c == '"' then ReadFrom(rest, AfterQuote, field, fields)
        else ReadFrom(rest, InQuotes, field + [c], fields)
      case AfterQuote =>
        if c == '"' then ReadFrom(rest, InQuotes, field + ['"'], fields)
        else if c == ',' then ReadFrom(rest, AtStart, "", fields + [field])
        else if c == '\n' then
          EndRecord(rest, fields + [field])
        else None
      case _ =>
        if c == '"' then
          if mode.AtStart? then ReadFrom(rest, InQuotes, "", fields) else None
        else if c == ',' then ReadFrom(rest, AtStart, "", fields + [field])
        else if c == '\n' then
          EndRecord(rest, fields + [field])
        else ReadFrom(rest, InBare, field + [c], fields)
  }

  /** A record has ended with a line feed; the last one of a file may do so, too. */
  function EndRecord(rest: string, record: seq<string>): Option<seq<seq<string>>>
    decreases |rest|, 1
  {
    if rest == "" then Some([record])
    else
      var more :- ReadFrom(rest, AtStart, "", []);
      Some([record] + more)
  }

  /** The records of a file, or nothing when a quote is out of place. */
  function ReadCsv(s: string): Option<seq<seq<string>>> {
    ReadFrom(s, AtStart, "", [])
  }

  // ----- Reading undoes writing -----

  predicate Bare(value: string) {
    '"' !in value && ',' !in value && '\n' !in value
  }

  lemma {:induction false} BareFieldReads(value: string, rest: string, mode: Mode, field: string, fields: seq<string>)
    requires Bare(value) && value != "" && (mode.AtStart? || mode.InBare?)
    ensures ReadFrom(value + rest, mode, field, fields) == ReadFrom(rest, InBare, field + value, fields)
    decreases |value|
  {
    assert (value + rest)[1..] == value[1..] + rest;
    if |value| == 1 {
      assert value[1..] + rest == rest;
      assert field + [value[0]] == field + value;
    } else {
      BareFieldReads(value[1..], rest, InBare, field + [value[0]], fields);
      assert field + [value[0]] + value[1..] == field + value;
    }
  }

  lemma {:induction false} QuotedBodyReads(value: string, rest: string, field: string, fields: seq<string>)
    ensures ReadFrom(Doubled(value) + ("\"" + rest), InQuotes, field, fields) ==
            ReadFrom(rest, AfterQuote, field + value, fields)
    decreases |value|
  {
    var s := Doubled(value) + ("\"" + rest);
    if value == "" {
      assert s == "\"" + rest;
      assert s[1..] == rest;
      assert field + value == field;
    } else {
      var tail := Doubled(value[1..]) + ("\"" + rest);
      QuotedBodyReads(value[1..], rest, field + [value[0]], fields);
      assert field + [value[0]] + value[1..] == field + value;
      if value[0] == '"' {
        assert s == "\"\"" + tail;
        assert s[1..] == "\"" + tail;
        assert s[1..][1..] == tail;
      } else {
        assert s == [value[0]] + tail;
        assert s[1..] == tail;
      }
    }
  }

  lemma QuotedFieldReads(value: string, rest: string, fields: seq<string>)
    ensures ReadFrom(Quoted(value) + rest, AtStart, "", fields) == ReadFrom(rest, AfterQuote, value, fields)
  {
    var s := Quoted(value) + rest;
    assert s == "\"" + (Doubled(value) + ("\"" + rest));
    assert s[1..] == Doubled(value) + ("\"" + rest);
    QuotedBodyReads(value, rest, "", fields);
    assert "" + value == value;
  }

  /** What follows a complete record: the end of the file, or a line feed and more. */
  predicate RecordEnd(rest: string) {
    rest == "" || (|rest| > 1 && rest[0] == '\n')
  }

  /** The record, and those of the lines after it. */
  function AndThen(record: seq<string>, rest: string): Option<seq<seq<string>>>
    requires RecordEnd(rest)
  {
    if rest == "" then Some([record])
    else
      var more :- ReadCsv(rest[1..]);
      Some([record] + more)
  }

  lemma RecordEnds(rest: string, mode: Mode, field: string, fields: seq<string>)
    requires RecordEnd(rest) && (mode.InBare? || mode.AfterQuote?)
    ensures ReadFrom(rest, mode, field, fields) == AndThen(fields + [field], rest)
  {
  }

  lemma SeparatorReads(tail: string, field: string, fields: seq<string>)
    ensures ReadFrom("," + tail, AfterQuote, field, fields) == ReadFrom(tail, AtStart, "", fields + [field])
  {
    assert ("," + tail)[1..] == tail;
  }

  /** One line of quoted fields, then the end of the file or another record. */
  lemma {:induction false} LineReads(values: seq<string>, rest: string, fields: seq<string>)
    requires values != [] && RecordEnd(rest)
    ensures ReadFrom(LineOf(values) + rest, AtStart, "", fields) == AndThen(fields + values, rest)
    decreases |values|
  {
    LineSplits(values, rest);
    if |values| == 1 {
      QuotedFieldReads(values[0], rest, fields);
      RecordEnds(rest, AfterQuote, values[0], fields);
      assert fields + [values[0]] == fields + values;
    } else {
      var tail := LineOf(values[1..]) + rest;
      QuotedFieldReads(values[0], "," + tail, fields);
      SeparatorReads(tail, values[0], fields);
      LineReads(values[1..], rest, fields + [values[0]]);
      assert fields + [values[0]] + values[1..] == fields + values;
    }
  }

  lemma LineSplits(values: seq<string>, rest: string)
    requires values != []
    ensures LineOf(values) + rest ==
            Quoted(values[0]) + (if |values| == 1 then rest else "," + (LineOf(values[1..]) + rest))
  {
    var quoted := Map(Quoted, values);
    assert quoted[0] == Quoted(values[0]);
    assert quoted[1..] == Map(Quoted, values[1..]);
  }

  /** Any number of nonempty records of arbitrary strings, one to a line. */
  lemma {:induction false} LinesRead(records: seq<seq<string>>)
    requires records != [] && forall i :: 0 <= i < |records| ==> records[i] != []
    ensures ReadCsv(Join(Map(LineOf, records), "\n")) == Some(records)
  {
    var lines := Map(LineOf, records);
    assert lines[0] == LineOf(records[0]);
    if |records| == 1 {
      LineReads(records[0], "", []);
      assert LineOf(records[0]) + "" == LineOf(records[0]);
      assert [] + records[0] == records[0] && [records[0]] == records;
    } else {
      LinesRead(records[1..]);
      assert lines[1..] == Map(LineOf, records[1..]);
      var rest := "\n" + Join(lines[1..], "\n");
      assert Join(lines, "\n") == LineOf(records[0]) + rest;
      assert rest[1..] == Join(lines[1..], "\n");
      LineReads(records[0], rest, []);
      assert [] + records[0] == records[0] && [records[0]] + records[1..] == records;
    }
  }

  const HEADER_RECORD := ["id", "recipient", "challenge", "state", "updatedAt"]

  /** A bare field of the header, with the comma after it. */
  lemma HeaderFieldReads(value: string, rest: string, fields: seq<string>, more: seq<string>)
    requires Bare(value) && value != "" && more == fields + [value]
    ensures ReadFrom(value + ("," + rest), AtStart, "", fields) == ReadFrom(rest, AtStart, "", more)
  {
    BareFieldReads(value, "," + rest, AtStart, "", fields);
    assert "" + value == value;
    assert ("," + rest)[1..] == rest;
  }

  lemma HeaderSplits(rest: string)
    ensures HEADER + rest ==
            "id" + ("," + ("recipient" + ("," + ("challenge" + ("," + ("state" + ("," + ("updatedAt" + rest))))))))
  {
  }

  lemma HeaderReads(rest: string)
    requires RecordEnd(rest)
    ensures ReadCsv(HEADER + rest) == AndThen(HEADER_RECORD, rest)
  {
    var last := "updatedAt" + rest;
    var four := "state" + ("," + last);
    var three := "challenge" + ("," + four);
    var two := "recipient" + ("," + three);
    HeaderSplits(rest);
    HeaderFieldReads("id", two, [], ["id"]);
    HeaderFieldReads("recipient", three, ["id"], ["id", "recipient"]);
    HeaderFieldReads("challenge", four, ["id", "recipient"], ["id", "recipient", "challenge"]);
    HeaderFieldReads("state", last, ["id", "recipient", "challenge"], ["id", "recipient", "challenge", "state"]);
    LastHeaderFieldReads(rest, ["id", "recipient", "challenge", "state"]);
    assert ["id", "recipient", "challenge", "state"] + ["updatedAt"] == HEADER_RECORD;
  }

  lemma LastHeaderFieldReads(rest: string, fields: seq<string>)
    requires RecordEnd(rest)
    ensures ReadFrom("updatedAt" + rest, AtStart, "", fields) == AndThen(fields + ["updatedAt"], rest)
  {
    BareFieldReads("updatedAt", rest, AtStart, "", fields);
    assert "" + "updatedAt" == "updatedAt";
    RecordEnds(rest, InBare, "updatedAt", fields);
  }

  /** Whatever characters the offers contain, the file reads back as the header and then
      one record an offer, in order. */
  lemma ExportReadsBack(offers: seq<Offer>)
    ensures ReadCsv(Export(offers)) == Some([HEADER_RECORD] + Map(Fields, offers))
  {
    var records := Map(Fields, offers);
    var lines := Map(LineOf, records);
    if offers == [] {
      assert [HEADER] + lines == [HEADER];
      HeaderReads("");
      assert HEADER + "" == HEADER;
      assert [HEADER_RECORD] + records == [HEADER_RECORD];
    } else {
      LinesRead(records);
      assert ([HEADER] + lines)[1..] == lines;
      var rest := "\n" + Join(lines, "\n");
      assert Export(offers) == HEADER + rest;
      assert rest[1..] == Join(lines, "\n");
      HeaderReads(rest);
    }
  }

  /** Which column holds what, under the words of the header. */
  lemma ColumnsReadBack(offers: seq<Offer>)
    ensures ReadCsv(Export(offers)).Some? && |ReadCsv(Export(offers)).value| == |offers| + 1
    ensures ReadCsv(Export(offers)).value[0] == ["id", "recipient", "challenge", "state", "updatedAt"]
    ensures forall k :: 0 <= k < |offers| ==>
              ReadCsv(Export(offers)).value[k + 1] ==
              [offers[k].id, offers[k].recipientName, offers[k].project, offers[k].state, offers[k].updatedAt]
  {
    ExportReadsBack(offers);
    forall k | 0 <= k < |offers|
      ensures ([HEADER_RECORD] + Map(Fields, offers))[k + 1] ==
              [offers[k].id, offers[k].recipientName, offers[k].project, offers[k].state, offers[k].updatedAt]
    {
      assert Map(Fields, offers)[k] == Fields(offers[k]);
    }
  }

  /** No two lists of offers export to the same file. */
  lemma ExportInjective(offers: seq<Offer>, others: seq<Offer>)
    requires Export(offers) == Export(others)
    ensures offers == others
  {
    ExportReadsBack(offers);
    ExportReadsBack(others);
    var records, others' := Map(Fields, offers), Map(Fields, others);
    assert records == ([HEADER_RECORD] + records)[1..] == ([HEADER_RECORD] + others')[1..] == others';
    forall i | 0 <= i < |offers|
      ensures offers[i] == others[i]
    {
      assert Fields(offers[i]) == Fields(others[i]);
      assert Fields(offers[i])[0] == Fields(others[i])[0] && Fields(offers[i])[1] == Fields(others[i])[1];
      assert Fields(offers[i])[2] == Fields(others[i])[2] && Fields(offers[i])[3] == Fields(others[i])[3];
      assert Fields(offers[i])[4] == Fields(others[i])[4];
    }
  }
}
