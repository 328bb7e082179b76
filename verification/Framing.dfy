/** Framing of messages on a byte stream (src/pyflow/lsp/transport.py; Header Part
    of the Base Protocol, Language Server Protocol 3.17). A byte is written as the
    character with its code. */
module Framing {
  import opened Wrappers
  import opened Decimals

  type Bytes = seq<char>

  /** Digits as `int` reads them, with single underscores between digits. */
  function ParseDigits(s: Bytes): Option<nat> {
    if s == [] || !IsDigit(s[|s| - 1]) then None
    else
      var digit, before := DigitValue(s[|s| - 1]), s[..|s| - 1];
      if before == [] then Some(digit)
      else
        match ParseDigits(if before[|before| - 1] == '_' then before[..|before| - 1] else before)
        case None => None
        case Some(n) => Some(10 * n + digit)
  }

  function ParseInt(s: Bytes): Option<int> {
    if s != [] && s[0] == '-' then
      match ParseDigits(s[1..])
      case None => None
      case Some(n) => var m: int := n; Some(-m)
    else
      match ParseDigits(if s != [] && s[0] == '+' then s[1..] else s)
      case None => None
      case Some(n) => var m: int := n; Some(m)
  }

  lemma {:induction false} DecimalParses(n: nat)
    ensures ParseDigits(Decimal(n)) == Some(n)
  {
    if n >= 10 {
      DecimalParses(n / 10);
      var s := Decimal(n);
      assert s[..|s| - 1] == Decimal(n / 10);
      assert s[..|s| - 1][|s| - 2] in Decimal(n / 10);
    }
  }

  /** Digits with single underscores between them. */
  ghost predicate AreDigits(s: Bytes) {
    && s != [] && IsDigit(s[0]) && IsDigit(s[|s| - 1])
    && (forall i :: 0 <= i < |s| ==> IsDigit(s[i]) || s[i] == '_')
    && (forall i, j :: 0 <= i && j == i + 1 && j < |s| ==> s[i] != '_' || s[j] != '_')
  }

  /** Exactly which texts are read as a number, and that underscores do not count. */
  lemma {:induction false} DigitsAreRead(s: Bytes)
    ensures ParseDigits(s).Some? <==> AreDigits(s)
    decreases |s|
  {
    if s != [] && IsDigit(s[|s| - 1]) {
      var before := s[..|s| - 1];
      if before != [] {
        var shorter := if before[|before| - 1] == '_' then before[..|before| - 1] else before;
        DigitsAreRead(shorter);
        if AreDigits(shorter) {
          assert s[0] == shorter[0];
          forall i | 0 <= i < |s|
            ensures IsDigit(s[i]) || s[i] == '_'
          {
            assert i < |shorter| ==> s[i] == shorter[i];
          }
          forall i, j | 0 <= i && j == i + 1 && j < |s|
            ensures s[i] != '_' || s[j] != '_'
          {
            assert j < |shorter| ==> s[i] == shorter[i] && s[j] == shorter[j];
            assert j == |shorter| ==> s[i] == shorter[|shorter| - 1];
          }
        }
        if AreDigits(s) {
          assert shorter != [] && shorter[0] == s[0];
          assert IsDigit(shorter[|shorter| - 1]) by {
            assert before[|before| - 1] == '_' ==> s[|s| - 2] == '_' && s[|s| - 3] != '_';
          }
        }
      }
    }
  }

  lemma {:induction false} UnderscoresDoNotCount(s: Bytes, t: Bytes)
    requires AreDigits(s) && t != [] && forall c :: c in t ==> IsDigit(c)
    ensures ParseDigits(s + ['_'] + t) == ParseDigits(s + t)
    decreases |t|
  {
    var a, b, before := s + ['_'] + t, s + t, t[..|t| - 1];
    assert a[|a| - 1] == t[|t| - 1] == b[|b| - 1] && t[|t| - 1] in t;
    assert b[..|b| - 1] == s + before;
    if before == [] {
      assert a[..|a| - 1] == s + ['_'];
      assert (s + ['_'])[..|s|] == s && s + before == s;
    } else {
      assert a[..|a| - 1] == s + ['_'] + before;
      assert before[|before| - 1] in t;
      UnderscoresDoNotCount(s, before);
    }
  }

  /** A sign may stand in front. */
  lemma {:induction false} SignsAreRead(s: Bytes, n: nat)
    requires ParseDigits(s) == Some(n)
    ensures var m: int := n;
            ParseInt(s) == Some(m) && ParseInt(['+'] + s) == Some(m) && ParseInt(['-'] + s) == Some(-m)
  {
    DigitsAreRead(s);
    assert (['+'] + s)[1..] == s && (['-'] + s)[1..] == s;
  }

  // ------------------------------------------------------------ byte strings

  predicate IsSpace(c: char) { 9 <= c as int <= 13 || c == ' ' }

  lemma {:induction false} SpacesAre(c: char)
    ensures IsSpace(c) <==>
              || c == ' ' || c == '\t' || c == '\n' || c == '\r' || c as int == 11 || c as int == 12
  {
  }

  function StripLeft(s: Bytes): (r: Bytes)
    ensures |r| <= |s|
  {
    if s != [] && IsSpace(s[0]) then StripLeft(s[1..]) else s
  }

  function StripRight(s: Bytes): (r: Bytes)
    ensures |r| <= |s|
  {
    if s != [] && IsSpace(s[|s| - 1]) then StripRight(s[..|s| - 1]) else s
  }

  function Strip(s: Bytes): Bytes { StripRight(StripLeft(s)) }

  function LowerChar(c: char): char {
    if 'A' <= c <= 'Z' then (c as int + 32) as char else c
  }

  function Lower(s: Bytes): (r: Bytes)
    ensures |r| == |s|
  {
    seq(|s|, i requires 0 <= i < |s| => LowerChar(s[i]))
  }

  /** The end of the first line, its line feed included. */
  function LineEnd(s: Bytes): (n: nat)
    ensures n <= |s| && (s != [] ==> n > 0)
  {
    if s == [] then 0 else if s[0] == '\n' then 1 else 1 + LineEnd(s[1..])
  }

  function FirstColon(s: Bytes): (r: Option<nat>)
    ensures r.Some? ==> r.value < |s|
  {
    if s == [] then None
    else if s[0] == ':' then Some(0)
    else
      match FirstColon(s[1..])
      case None => None
      case Some(k) => Some(k + 1)
  }

  // ------------------------------------------------------------ the protocol

  /** What one header line says. */
  datatype Header = Blank | Malformed | BadLength | Length(n: int) | Other

  const CONTENT_LENGTH: Bytes := "content-length"

  function Classify(line: Bytes): Header {
    if Strip(line) == [] then Blank
    else
      match FirstColon(line)
      case None => Malformed
      case Some(k) =>
        if Lower(Strip(line[..k])) != CONTENT_LENGTH then Other
        else
          match ParseInt(Strip(line[k + 1..]))
          case None => BadLength
          case Some(n) => Length(n)
  }

  datatype Outcome = NoMessage | Message(body: Bytes) | ParseError | InvalidRequest | Truncated

  datatype HeaderPart = Ended(length: Option<int>) | Failed(outcome: Outcome)

  /** The header part, from a stream and the length found so far; the length
      before the blank line, or how reading ended, and what is left. */
  function ReadHeaders(s: Bytes, length: Option<int>): (r: (HeaderPart, Bytes))
    ensures |r.1| <= |s| && (s != [] ==> |r.1| < |s|)
  {
    var line, rest := s[..LineEnd(s)], s[LineEnd(s)..];
    if line == [] then (Failed(NoMessage), rest)
    else
      match Classify(line)
      case Blank => (Ended(length), rest)
      case Malformed => (Failed(ParseError), rest)
      case BadLength => (Failed(ParseError), rest)
      case Length(n) => ReadHeaders(rest, Some(n))
      case Other => ReadHeaders(rest, length)
  }

  /** One call of `_read_message` without its JSON decoding. */
  function Read(s: Bytes, max: nat): (r: (Outcome, Bytes))
    ensures |r.1| <= |s| && (s != [] ==> |r.1| < |s|)
  {
    match ReadHeaders(s, None)
    case (Failed(outcome), rest) => (outcome, rest)
    case (Ended(None), rest) => (ParseError, rest)
    case (Ended(Some(n)), rest) =>
      if n < 0 || n > max then (InvalidRequest, rest)
      else if n > |rest| then (Truncated, [])
      else (Message(rest[..n]), rest[n..])
  }

  /** The reader loop: every outcome until the stream ends. */
  function ReadAll(s: Bytes, max: nat): seq<Outcome>
    decreases |s|
  {
    if s == [] then []
    else
      var (outcome, rest) := Read(s, max);
      if outcome.Truncated? then []
      else (if outcome.NoMessage? then [] else [outcome]) + ReadAll(rest, max)
  }

  datatype Frame = Frame(body: Bytes, contentType: Bytes)

  const CRLF: Bytes := "\r\n"

  function HeaderLine(name: Bytes, value: Bytes): Bytes { name + [':', ' '] + value + CRLF }

  function LengthLine(n: nat): Bytes { HeaderLine("Content-Length", Decimal(n)) }

  function TypeLine(contentType: Bytes): Bytes { HeaderLine("Content-Type", contentType) }

  function HeaderLines(f: Frame): seq<Bytes> {
    [LengthLine(|f.body|)] + if f.contentType != [] then [TypeLine(f.contentType)] else []
  }

  function Joined(lines: seq<Bytes>): Bytes {
    if lines == [] then [] else lines[0] + Joined(lines[1..])
  }

  /** `_create_message` of an encoded body. */
  function Create(f: Frame): Bytes {
    Joined(HeaderLines(f)) + CRLF + f.body
  }

  function CreateAll(fs: seq<Frame>): Bytes {
    if fs == [] then [] else Create(fs[0]) + CreateAll(fs[1..])
  }

  /** A framed message, as section "Header Part" of the base protocol gives it. */
  lemma {:induction false} FrameIs(f: Frame)
    ensures Create(f) ==
              "Content-Length: " + Decimal(|f.body|) + "\r\n"
              + (if f.contentType == [] then [] else "Content-Type: " + f.contentType + "\r\n")
              + "\r\n" + f.body
  {
    var first, second := LengthLine(|f.body|), TypeLine(f.contentType);
    assert "Content-Length" + [':', ' '] == "Content-Length: ";
    assert "Content-Type" + [':', ' '] == "Content-Type: ";
    if f.contentType == [] {
      assert HeaderLines(f) == [first];
      assert Joined([first]) == first + Joined([first][1..]);
    } else {
      assert HeaderLines(f) == [first, second];
      assert [first, second][1..] == [second];
      assert Joined([second]) == second + Joined([second][1..]);
    }
  }

  // ------------------------------------------------------------- header lines

  lemma {:induction false} LineEndAt(line: Bytes, rest: Bytes)
    requires line != [] && line[|line| - 1] == '\n' && '\n' !in line[..|line| - 1]
    ensures LineEnd(line + rest) == |line|
    decreases |line|
  {
    if |line| > 1 {
      assert line[0] in line[..|line| - 1];
      assert (line + rest)[1..] == line[1..] + rest;
      assert line[1..][..|line[1..]| - 1] == line[..|line| - 1][1..];
      LineEndAt(line[1..], rest);
    }
  }

  /** A line with its line feed at its end and nowhere else. */
  predicate IsLine(line: Bytes) {
    line != [] && line[|line| - 1] == '\n' && '\n' !in line[..|line| - 1]
  }

  /** The length given by the last of some header lines that gives one. */
  function LastLength(lines: seq<Bytes>, length: Option<int>): Option<int> {
    if lines == [] then length
    else LastLength(lines[1..], if Classify(lines[0]).Length? then Some(Classify(lines[0]).n) else length)
  }

  lemma {:induction false} OneLine(line: Bytes, rest: Bytes, length: Option<int>)
    requires IsLine(line) && (Classify(line).Length? || Classify(line).Other?)
    ensures ReadHeaders(line + rest, length)
         == ReadHeaders(rest, if Classify(line).Length? then Some(Classify(line).n) else length)
  {
    LineEndAt(line, rest);
    assert (line + rest)[..|line|] == line && (line + rest)[|line|..] == rest;
  }

  /** A header part of well-formed lines gives the last Content-Length, whatever
      other headers there are, and ends after its blank line. */
  lemma {:induction false} LastLengthWins(lines: seq<Bytes>, blank: Bytes, rest: Bytes, length: Option<int>)
    requires forall line :: line in lines ==> IsLine(line) && (Classify(line).Length? || Classify(line).Other?)
    requires IsLine(blank) && Classify(blank).Blank?
    ensures ReadHeaders(Joined(lines) + blank + rest, length) == (Ended(LastLength(lines, length)), rest)
    decreases |lines|
  {
    if lines == [] {
      assert Joined(lines) + blank + rest == blank + rest;
      LineEndAt(blank, rest);
      assert (blank + rest)[..|blank|] == blank && (blank + rest)[|blank|..] == rest;
    } else {
      assert Joined(lines) + blank + rest == lines[0] + (Joined(lines[1..]) + blank + rest);
      OneLine(lines[0], Joined(lines[1..]) + blank + rest, length);
      var first := Classify(lines[0]);
      LastLengthWins(lines[1..], blank, rest, if first.Length? then Some(first.n) else length);
    }
  }

  /** What one header line says: one of blanks only ends the header part; one without
      a colon is malformed; the text before the colon, whatever its case, tells the
      length, which has to be a number; any other header is passed over. */
  lemma {:induction false} HeaderMeans(name: Bytes, value: Bytes)
    requires ':' !in name
    ensures var line := name + [':'] + value;
            var isLength := Lower(Strip(name)) == "content-length";
            && (!isLength ==> Classify(line) == Other)
            && (isLength && ParseInt(Strip(value)).Some? ==> Classify(line) == Length(ParseInt(Strip(value)).value))
            && (isLength && ParseInt(Strip(value)).None? ==> Classify(line) == BadLength)
    ensures Strip(name) == [] ==> Classify(name) == Blank
    ensures Strip(name) != [] ==> Classify(name) == Malformed
  {
    var line := name + [':'] + value;
    ColonAfter(name, value);
    assert line[..|name|] == name && line[|name| + 1..] == value;
    ColonIsKept(line, |name|);
    NoColon(name);
  }

  lemma {:induction false} NoColon(s: Bytes)
    requires ':' !in s
    ensures FirstColon(s) == None
  {
    if s != [] {
      NoColon(s[1..]);
    }
  }

  /** A text with a character that is no blank is not blank. */
  lemma {:induction false} ColonIsKept(s: Bytes, k: nat)
    requires k < |s| && !IsSpace(s[k])
    ensures Strip(s) != []
  {
    KeptOnTheLeft(s, k);
    var t := StripLeft(s);
    var j :| 0 <= j < |t| && !IsSpace(t[j]);
    KeptOnTheRight(t, j);
  }

  lemma {:induction false} KeptOnTheLeft(s: Bytes, k: nat)
    requires k < |s| && !IsSpace(s[k])
    ensures exists j :: 0 <= j < |StripLeft(s)| && !IsSpace(StripLeft(s)[j])
  {
    if IsSpace(s[0]) {
      KeptOnTheLeft(s[1..], k - 1);
      assert StripLeft(s) == StripLeft(s[1..]);
    } else {
      assert StripLeft(s)[k] == s[k];
    }
  }

  lemma {:induction false} KeptOnTheRight(s: Bytes, k: nat)
    requires k < |s| && !IsSpace(s[k])
    ensures StripRight(s) != []
  {
    if IsSpace(s[|s| - 1]) {
      KeptOnTheRight(s[..|s| - 1], k);
    }
  }

  predicate Passed(line: Bytes) {
    IsLine(line) && (Classify(line).Length? || Classify(line).Other?)
  }

  /** Header lines that are passed leave the rest of the stream to be read. */
  lemma {:induction false} PassedLines(lines: seq<Bytes>, rest: Bytes, length: Option<int>)
    requires forall line :: line in lines ==> Passed(line)
    ensures ReadHeaders(Joined(lines) + rest, length) == ReadHeaders(rest, LastLength(lines, length))
    decreases |lines|
  {
    if lines == [] {
      assert Joined(lines) + rest == rest;
    } else {
      assert Joined(lines) + rest == lines[0] + (Joined(lines[1..]) + rest);
      assert Passed(lines[0]);
      OneLine(lines[0], Joined(lines[1..]) + rest, length);
      var first := Classify(lines[0]);
      PassedLines(lines[1..], rest, if first.Length? then Some(first.n) else length);
    }
  }

  /** How reading ends behind some header lines: at the end of the stream without a
      message; at a line that is malformed or has no proper length with an error,
      and the stream continues behind that line. */
  lemma {:induction false} BadHeaders(lines: seq<Bytes>, bad: Bytes, rest: Bytes, max: nat)
    requires forall line :: line in lines ==> Passed(line)
    requires IsLine(bad) && (Classify(bad).Malformed? || Classify(bad).BadLength?)
    ensures Read(Joined(lines), max) == (NoMessage, [])
    ensures Read(Joined(lines) + (bad + rest), max) == (ParseError, rest)
    ensures ReadAll(Joined(lines) + (bad + rest), max) == [ParseError] + ReadAll(rest, max)
  {
    PassedLines(lines, [], None);
    assert Joined(lines) + [] == Joined(lines);
    PassedLines(lines, bad + rest, None);
    LineEndAt(bad, rest);
    assert (bad + rest)[..|bad|] == bad && (bad + rest)[|bad|..] == rest;
    assert Joined(lines) + (bad + rest) != [];
  }

  /** How a header part is followed: by an error when it gave no length, or one that
      is negative or too large; by nothing when the stream is cut off; and else by
      as many bytes as it said. Reading goes on behind what was read. */
  lemma {:induction false} HeadersAndBody(lines: seq<Bytes>, blank: Bytes, rest: Bytes, max: nat)
    requires forall line :: line in lines ==> Passed(line)
    requires IsLine(blank) && Classify(blank).Blank?
    ensures var s, length := Joined(lines) + (blank + rest), LastLength(lines, None);
            && (length.None? ==>
                  Read(s, max) == (ParseError, rest) && ReadAll(s, max) == [ParseError] + ReadAll(rest, max))
            && (length.Some? && !(0 <= length.value <= max) ==>
                  Read(s, max) == (InvalidRequest, rest) && ReadAll(s, max) == [InvalidRequest] + ReadAll(rest, max))
            && (length.Some? && 0 <= length.value <= max && length.value > |rest| ==>
                  Read(s, max) == (Truncated, []) && ReadAll(s, max) == [])
            && (length.Some? && 0 <= length.value <= max && length.value <= |rest| ==>
                  var n := length.value;
                  && Read(s, max) == (Message(rest[..n]), rest[n..])
                  && ReadAll(s, max) == [Message(rest[..n])] + ReadAll(rest[n..], max))
  {
    var s := Joined(lines) + (blank + rest);
    PassedLines(lines, blank + rest, None);
    LineEndAt(blank, rest);
    assert (blank + rest)[..|blank|] == blank && (blank + rest)[|blank|..] == rest;
    assert s != [];
  }

  // -------------------------------------------------- lines written are read

  lemma {:induction false} ColonAfter(name: Bytes, rest: Bytes)
    requires ':' !in name
    ensures FirstColon(name + [':'] + rest) == Some(|name|)
    decreases |name|
  {
    var s := name + [':'] + rest;
    if name != [] {
      assert s[1..] == name[1..] + [':'] + rest;
      ColonAfter(name[1..], rest);
    }
  }

  /** Stripping takes away exactly the blanks around a text without outer blanks. */
  lemma {:induction false} StripPadded(before: Bytes, s: Bytes, after: Bytes)
    requires s != [] && !IsSpace(s[0]) && !IsSpace(s[|s| - 1])
    requires forall c :: c in before + after ==> IsSpace(c)
    ensures Strip(before + s + after) == s
  {
    StripsLeft(before, s + after);
    assert before + s + after == before + (s + after);
    StripsRight(s, after);
  }

  lemma {:induction false} StripsLeft(before: Bytes, s: Bytes)
    requires s != [] && !IsSpace(s[0]) && forall c :: c in before ==> IsSpace(c)
    ensures StripLeft(before + s) == s
    decreases |before|
  {
    if before == [] {
      assert before + s == s;
    } else {
      assert before[0] in before;
      assert (before + s)[1..] == before[1..] + s;
      StripsLeft(before[1..], s);
    }
  }

  lemma {:induction false} StripsRight(s: Bytes, after: Bytes)
    requires s != [] && !IsSpace(s[|s| - 1]) && forall c :: c in after ==> IsSpace(c)
    ensures StripRight(s + after) == s
    decreases |after|
  {
    var t := s + after;
    if after == [] {
      assert t == s;
    } else {
      assert after[|after| - 1] in after;
      assert t[..|t| - 1] == s + after[..|after| - 1];
      StripsRight(s, after[..|after| - 1]);
    }
  }

  lemma {:induction false} HeaderLineIsLine(name: Bytes, value: Bytes)
    requires '\n' !in name && '\n' !in value
    ensures IsLine(HeaderLine(name, value))
  {
    var line := HeaderLine(name, value);
    assert line[..|line| - 1] == name + [':', ' '] + value + ['\r'];
  }

  /** Where the colon is, what is before it, and that the line is not blank. */
  lemma {:induction false} HeaderNameIsRead(name: Bytes, value: Bytes)
    requires name != [] && ':' !in name && !IsSpace(name[0]) && !IsSpace(name[|name| - 1])
    ensures var line := HeaderLine(name, value);
            && Strip(line) != [] && FirstColon(line) == Some(|name|)
            && Strip(line[..|name|]) == name && line[|name| + 1..] == [' '] + value + CRLF
  {
    var line := HeaderLine(name, value);
    assert line == name + [':'] + ([' '] + value + CRLF);
    ColonAfter(name, [' '] + value + CRLF);
    assert line[..|name|] == [] + name + [];
    StripPadded([], name, []);
    NotBlank(line);
  }

  lemma {:induction false} LengthLineIsRead(n: nat)
    ensures IsLine(LengthLine(n)) && Classify(LengthLine(n)) == Length(n)
  {
    var name: Bytes, digits := "Content-Length", Decimal(n);
    HeaderLineIsLine(name, digits);
    HeaderNameIsRead(name, digits);
    assert digits[0] in digits && digits[|digits| - 1] in digits;
    StripPadded([' '], digits, CRLF);
    DecimalParses(n);
    LengthName();
  }

  lemma {:induction false} LengthName()
    ensures Lower("Content-Length") == CONTENT_LENGTH
  {
  }

  lemma {:induction false} TypeLineIsRead(contentType: Bytes)
    requires '\n' !in contentType
    ensures IsLine(TypeLine(contentType)) && Classify(TypeLine(contentType)) == Other
  {
    var name: Bytes := "Content-Type";
    HeaderLineIsLine(name, contentType);
    HeaderNameIsRead(name, contentType);
    assert |Lower(name)| != |CONTENT_LENGTH|;
  }

  lemma {:induction false} NotBlank(s: Bytes)
    requires s != [] && !IsSpace(s[0])
    ensures Strip(s) != []
    decreases |s|
  {
    KeepsFirst(s);
  }

  lemma {:induction false} KeepsFirst(s: Bytes)
    requires s != [] && !IsSpace(s[0])
    ensures StripRight(s) != []
    decreases |s|
  {
    if IsSpace(s[|s| - 1]) {
      KeepsFirst(s[..|s| - 1]);
    }
  }

  /** A framed message within the size limit is read back, with or without a
      Content-Type, and exactly the bytes after it are left. */
  lemma {:induction false} FrameRoundTrip(f: Frame, rest: Bytes, max: nat)
    requires |f.body| <= max && '\n' !in f.contentType
    ensures Read(Create(f) + rest, max) == (Message(f.body), rest)
  {
    var lines := HeaderLines(f);
    HeaderLinesAreRead(f);
    assert Create(f) + rest == Joined(lines) + CRLF + (f.body + rest);
    BlankLine();
    LastLengthWins(lines, CRLF, f.body + rest, None);
    assert (f.body + rest)[..|f.body|] == f.body && (f.body + rest)[|f.body|..] == rest;
  }

  lemma {:induction false} BlankLine()
    ensures IsLine(CRLF) && Classify(CRLF).Blank?
  {
    assert CRLF[..|CRLF| - 1] == ['\r'];
    assert StripLeft(CRLF[1..]) == [];
  }

  lemma {:induction false} HeaderLinesAreRead(f: Frame)
    requires '\n' !in f.contentType
    ensures forall line :: line in HeaderLines(f) ==> IsLine(line) && (Classify(line).Length? || Classify(line).Other?)
    ensures LastLength(HeaderLines(f), None) == Some(|f.body|)
  {
    LengthLineIsRead(|f.body|);
    if f.contentType != [] {
      TypeLineIsRead(f.contentType);
      AddLine([TypeLine(f.contentType)], LengthLine(|f.body|), None);
      AloneLine(TypeLine(f.contentType), Some(|f.body|));
    } else {
      AloneLine(LengthLine(|f.body|), None);
    }
  }

  /** The reader loop on any concatenation of framed messages sees their bodies in
      order and then whatever follows them. */
  lemma {:induction false} FramesRoundTrip(fs: seq<Frame>, rest: Bytes, max: nat)
    requires forall f :: f in fs ==> |f.body| <= max && '\n' !in f.contentType
    ensures ReadAll(CreateAll(fs) + rest, max) == Bodies(fs) + ReadAll(rest, max)
    decreases |fs|
  {
    if fs == [] {
      assert CreateAll(fs) + rest == rest;
    } else {
      var after := CreateAll(fs[1..]) + rest;
      assert CreateAll(fs) + rest == Create(fs[0]) + after;
      FrameRoundTrip(fs[0], after, max);
      FramesRoundTrip(fs[1..], rest, max);
      assert Create(fs[0]) != [];
      assert [Message(fs[0].body)] + (Bodies(fs[1..]) + ReadAll(rest, max)) == Bodies(fs) + ReadAll(rest, max);
    }
  }

  function Bodies(fs: seq<Frame>): seq<Outcome> {
    if fs == [] then [] else [Message(fs[0].body)] + Bodies(fs[1..])
  }

  lemma {:induction false} AddLine(lines: seq<Bytes>, line: Bytes, length: Option<int>)
    ensures Joined([line] + lines) == line + Joined(lines)
    ensures LastLength([line] + lines, length)
         == LastLength(lines, if Classify(line).Length? then Some(Classify(line).n) else length)
  {
    assert ([line] + lines)[1..] == lines;
  }

  /** One header line. */
  lemma {:induction false} AloneLine(line: Bytes, length: Option<int>)
    ensures Joined([line]) == line
    ensures LastLength([line], length) == if Classify(line).Length? then Some(Classify(line).n) else length
  {
    AddLine([], line, length);
    assert [line] + [] == [line];
    assert line + [] == line;
  }

  // --------------------------------------------------------------- the reader

  /** A stream at whose end everything has arrived. */
  class StreamReader {
    var buffer: Bytes

    constructor (buffer: Bytes)
      ensures this.buffer == buffer
    {
      this.buffer := buffer;
    }

    method ReadLine() returns (line: Bytes)
      modifies this
      ensures line == old(buffer)[..LineEnd(old(buffer))] && buffer == old(buffer)[LineEnd(old(buffer))..]
    {
      var i, seen := 0, false;
      while i < |buffer| && !seen
        invariant i <= |buffer|
        invariant if seen then i == LineEnd(buffer) else LineEnd(buffer) == i + LineEnd(buffer[i..])
        decreases |buffer| - i, !seen
      {
        seen := buffer[i] == '\n';
        i := i + 1;
      }
      line := buffer[..i];
      buffer := buffer[i..];
    }

    method ReadExactly(n: nat) returns (data: Option<Bytes>)
      modifies this
      ensures data == if n > |old(buffer)| then None else Some(old(buffer)[..n])
      ensures buffer == if n > |old(buffer)| then [] else old(buffer)[n..]
    {
      if n > |buffer| {
        buffer := [];
        return None;
      }
      data := Some(buffer[..n]);
      buffer := buffer[n..];
    }
  }

  lemma {:induction false} ReadAllStep(s: Bytes, max: nat, outcome: Outcome, rest: Bytes)
    requires s != [] && Read(s, max) == (outcome, rest)
    ensures ReadAll(s, max)
         == if outcome.Truncated? then []
            else (if outcome.NoMessage? then [] else [outcome]) + ReadAll(rest, max)
  {
  }

  /** The header loop of `_read_message`. */
  method ReadHeaderPart(reader: StreamReader) returns (part: HeaderPart)
    modifies reader
    ensures (part, reader.buffer) == ReadHeaders(old(reader.buffer), None)
  {
    var length: Option<int> := None;
    while true
      invariant ReadHeaders(reader.buffer, length) == ReadHeaders(old(reader.buffer), None)
      decreases |reader.buffer|
    {
      var line := reader.ReadLine();
      if line == [] {
        return Failed(NoMessage);
      }
      match Classify(line)
      case Blank => return Ended(length);
      case Malformed => return Failed(ParseError);
      case BadLength => return Failed(ParseError);
      case Length(n) => length := Some(n);
      case Other =>
    }
  }

  /** `_read_message`. */
  method ReadMessage(reader: StreamReader, max: nat) returns (outcome: Outcome)
    modifies reader
    ensures (outcome, reader.buffer) == Read(old(reader.buffer), max)
  {
    var part := ReadHeaderPart(reader);
    if part.Failed? {
      return part.outcome;
    }
    if part.length.None? {
      return ParseError;
    }
    if part.length.value < 0 || part.length.value > max {
      return InvalidRequest;
    }
    var raw := reader.ReadExactly(part.length.value);
    outcome := if raw.None? then Truncated else Message(raw.value);
  }

  /** The loop of `run`: bodies to dispatch and errors to report, in order. */
  method Run(reader: StreamReader, max: nat) returns (seen: seq<Outcome>)
    modifies reader
    ensures seen == ReadAll(old(reader.buffer), max)
  {
    seen := [];
    while reader.buffer != []
      invariant seen + ReadAll(reader.buffer, max) == ReadAll(old(reader.buffer), max)
      decreases |reader.buffer|
    {
      ghost var was := reader.buffer;
      var outcome := ReadMessage(reader, max);
      ReadAllStep(was, max, outcome, reader.buffer);
      if outcome.Truncated? {
        return;
      }
      assert [] + ReadAll(reader.buffer, max) == ReadAll(reader.buffer, max);
      if !outcome.NoMessage? {
        assert seen + ([outcome] + ReadAll(reader.buffer, max)) == (seen + [outcome]) + ReadAll(reader.buffer, max);
        seen := seen + [outcome];
      }
    }
  }
}
