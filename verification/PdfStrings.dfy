/** Literal strings of a content stream (ISO 32000-1, section 7.3.4.2) and the strings
    that it shows. */
module PdfStrings {
  import opened Text
  import opened Decimal

  predicate IsOctal(c: char) {
    '0' <= c <= '7'
  }

  /** How many of the first three characters form an octal code. */
  function OctalRun(s: string): (k: nat)
    ensures k <= |s| && k <= 3
  {
    if |s| >= 1 && IsOctal(s[0]) then
      if |s| >= 2 && IsOctal(s[1]) then
        if |s| >= 3 && IsOctal(s[2]) then 3 else 2
      else 1
    else 0
  }

  function OctalValue(s: string): nat
    requires forall c :: c in s ==> IsOctal(c)
  {
    if s == "" then 0
    else
      assert IsOctal(s[|s| - 1]);
      8 * OctalValue(s[..|s| - 1]) + DigitValue(s[|s| - 1])
  }

  /** What a backslash and the characters after it stand for, and how many they are. */
  function Escape(s: string): (r: (string, nat))
    requires s != ""
    ensures 1 <= r.1 <= |s|
  {
    var k := OctalRun(s);
    if k > 0 then ([(OctalValue(s[..k]) % 256) as char], k)
    else match s[0]
      case 'n' => ("\n", 1)
      case 'r' => ("\r", 1)
      case 't' => ("\t", 1)
      case 'b' => ([8 as char], 1)
      case 'f' => ([12 as char], 1)
      case '\n' => ("", 1)
      case '\r' => if |s| > 1 && s[1] == '\n' then ("", 2) else ("", 1)
      case c => ([c], 1)
  }

  /** The rest of a literal string whose opening parenthesis has been read, at the given
      nesting depth: its value and what follows the closing parenthesis. */
  function ReadLiteral(s: string, depth: nat): (r: Option<(string, string)>)
    ensures r.Some? ==> |r.value.1| < |s|
    decreases |s|
  {
    if s == "" then None
    else if s[0] == ')' && depth == 0 then Some(("", s[1..]))
    else if s[0] == '\\' then
      if |s| == 1 then None
      else
        var (value, k) := Escape(s[1..]);
        var more :- ReadLiteral(s[1 + k..], depth);
        Some((value + more.0, more.1))
    else
      var nested := if s[0] == '(' then depth + 1 else if s[0] == ')' then depth - 1 else depth;
      var more :- ReadLiteral(s[1..], nested);
      Some(([s[0]] + more.0, more.1))
  }

  /** The operands of the `Tj` operators of a content stream, in order; nothing when a
      string is not closed or is not shown. */
  function ShownStrings(s: string): Option<seq<string>>
    decreases |s|
  {
    if s == "" then Some([])
    else if s[0] != '(' then ShownStrings(s[1..])
    else
      var literal :- ReadLiteral(s[1..], 0);
      var after :- Expect(literal.1, " Tj");
      var more :- ShownStrings(after);
      Some([literal.0] + more)
  }

  predicate Bare(s: string) {
    '(' !in s && ')' !in s && '\\' !in s
  }

  lemma {:induction false} BareLiteralReads(value: string, rest: string)
    requires Bare(value)
    ensures ReadLiteral(value + (")" + rest), 0) == Some((value, rest))
  {
    if value == "" {
      assert value + (")" + rest) == ")" + rest;
    } else {
      assert (value + (")" + rest))[1..] == value[1..] + (")" + rest);
      BareLiteralReads(value[1..], rest);
      assert value == [value[0]] + value[1..];
    }
  }

  lemma {:induction false} SkipsOperators(operators: string, rest: string)
    requires '(' !in operators
    ensures ShownStrings(operators + rest) == ShownStrings(rest)
  {
    if operators == "" {
      assert operators + rest == rest;
    } else {
      assert (operators + rest)[1..] == operators[1..] + rest;
      SkipsOperators(operators[1..], rest);
    }
  }

  /** Operators, one shown string without delimiters, then more content. */
  lemma ShowsNext(operators: string, value: string, rest: string)
    requires '(' !in operators && Bare(value)
    ensures ShownStrings(operators + ("(" + (value + (")" + (" Tj" + rest))))) ==
            match ShownStrings(rest)
            case None => None
            case Some(more) => Some([value] + more)
  {
    var literal := value + (")" + (" Tj" + rest));
    SkipsOperators(operators, "(" + literal);
    assert ("(" + literal)[1..] == literal;
    BareLiteralReads(value, " Tj" + rest);
    ExpectPrefix(" Tj", rest);
  }

  /** A line of a content stream: operators without strings, or a string to show. */
  datatype Line = Operators(text: string) | Show(text: string) {
    function Text(): string {
      match this
      case Operators(text) => text
      case Show(text) => "(" + text + ") Tj"
    }

    predicate Valid() {
      match this
      case Operators(text) => '(' !in text
      case Show(text) => Bare(text)
    }
  }

  function Texts(lines: seq<Line>): (texts: seq<string>)
    ensures |texts| == |lines|
  {
    if lines == [] then [] else [lines[0].Text()] + Texts(lines[1..])
  }

  function ShownBy(lines: seq<Line>): seq<string> {
    if lines == [] then []
    else (if lines[0].Show? then [lines[0].text] else []) + ShownBy(lines[1..])
  }

  lemma LineShows(line: Line, rest: string, shown: seq<string>)
    requires line.Valid() && ShownStrings(rest) == Some(shown)
    ensures ShownStrings(line.Text() + rest) == Some((if line.Show? then [line.text] else []) + shown)
  {
    match line
    case Operators(text) =>
      SkipsOperators(text, rest);
      assert [] + shown == shown;
    case Show(text) =>
      ShowsNext("", text, rest);
      assert line.Text() + rest == "" + ("(" + (text + (")" + (" Tj" + rest))));
  }

  /** Joined lines show exactly the strings of their `Show` lines, in order. */
  lemma {:induction false} JoinedLinesShow(lines: seq<Line>)
    requires forall i :: 0 <= i < |lines| ==> lines[i].Valid()
    ensures ShownStrings(Join(Texts(lines), "\n")) == Some(ShownBy(lines))
  {
    if lines != [] {
      JoinedLinesShow(lines[1..]);
      var rest := if |lines| == 1 then "" else "\n" + Join(Texts(lines[1..]), "\n");
      assert Texts(lines)[1..] == Texts(lines[1..]);
      assert Join(Texts(lines), "\n") == lines[0].Text() + rest;
      if |lines| > 1 {
        SkipsOperators("\n", Join(Texts(lines[1..]), "\n"));
      }
      LineShows(lines[0], rest, ShownBy(lines[1..]));
    }
  }

  lemma ShownByCons(line: Line, rest: seq<Line>)
    ensures ShownBy([line] + rest) == (if line.Show? then [line.text] else []) + ShownBy(rest)
  {
    assert ([line] + rest)[1..] == rest;
  }
}
