/** Parsing one RTSP message (RFC 2326, section 4) within fixed limits, and printing one. */
module Rtsp {
  import opened Decimal
  import opened RtspText
  import opened SessionState
  import Utf8

  const MAX_MESSAGE := 65_536
  const MAX_HEADERS := 64
  const MAX_START := 512
  const MAX_LINE := 8_192
  const MAX_CSEQ: nat := 0x7fff_ffff

  const CRLF := "\r\n"
  const BLANK := "\r\n\r\n"

  datatype Message = Message(start: string, headers: map<string, string>, body: string)

  datatype Field = Field(name: string, value: string)

  predicate NameChar(c: char) { 'A' <= c <= 'Z' || 'a' <= c <= 'z' || '0' <= c <= '9' || c == '-' }

  predicate HeaderName(s: string) {
    1 <= |s| <= 64 && forall k :: 0 <= k < |s| ==> NameChar(s[k])
  }

  predicate CleanValue(s: string) {
    forall k :: 0 <= k < |s| ==> (32 <= s[k] as int || s[k] == '\t') && s[k] as int != 127
  }

  predicate ShortDecimal(s: string) { 1 <= |s| <= 10 && AllDigits(s) }

  predicate IsResponse(start: string) { "RTSP/" <= start }

  predicate EndsWith(s: string, tail: string) { |tail| <= |s| && s[|s| - |tail|..] == tail }

  predicate StartLine(s: string) {
    |s| <= MAX_START && ("RTSP/1.0 " <= s || EndsWith(s, " RTSP/1.0"))
  }

  predicate HeadersOk(h: map<string, string>, body: string) {
    && "cseq" in h && ShortDecimal(h["cseq"]) && Value(h["cseq"], 10) <= MAX_CSEQ
    && ("content-length" in h ==>
          && ShortDecimal(h["content-length"]) && Value(h["content-length"], 10) <= MAX_MESSAGE
          && Value(h["content-length"], 10) == |Utf8.Encode(body)|)
  }

  predicate FitsMessage(raw: string) { |raw| <= MAX_MESSAGE && |Utf8.Encode(raw)| <= MAX_MESSAGE }

  function FieldOf(line: string): Option<Field> {
    var parts := Partition(line, ":");
    if parts.None? then None
    else
      var name, value := Strip(parts.value.0), Strip(parts.value.1);
      if HeaderName(name) && CleanValue(value) then Some(Field(LowerAll(name), value)) else None
  }

  function AddFields(h: map<string, string>, lines: seq<string>): Option<map<string, string>>
    decreases |lines|
  {
    if lines == [] then Some(h)
    else if |h| >= MAX_HEADERS || |lines[0]| > MAX_LINE then None
    else
      var f := FieldOf(lines[0]);
      if f.None? || f.value.name in h then None
      else AddFields(h[f.value.name := f.value.value], lines[1..])
  }

  /** The head and the body: a CRLF blank line is looked for first, wherever it is. */
  function Divide(raw: string): Option<(string, string)> {
    var crlf := Partition(raw, BLANK);
    if crlf.Some? then crlf else Partition(raw, "\n\n")
  }

  function Parse(raw: string): Option<Message> {
    var parts := Divide(raw);
    if !FitsMessage(raw) || parts.None? then None
    else
      var lines := SplitLines(Unfold(parts.value.0));
      if lines == [] || Strip(lines[0]) == "" || !StartLine(Strip(lines[0])) then None
      else
        var h := AddFields(map[], lines[1..]);
        if h.None? || !HeadersOk(h.value, parts.value.1) then None
        else Some(Message(Strip(lines[0]), h.value, parts.value.1))
  }

  method ParseRtspFixture(raw: string) returns (r: Option<Message>)
    ensures r == Parse(raw)
  {
    if |raw| > MAX_MESSAGE || |Utf8.Encode(raw)| > MAX_MESSAGE { return None; }
    var parts := Partition(raw, BLANK);
    if parts.None? { parts := Partition(raw, "\n\n"); }
    if parts.None? { return None; }
    var (head, body) := parts.value;
    var lines := SplitLines(Unfold(head));
    if lines == [] { return None; }
    var start := Strip(lines[0]);
    if start == "" || !StartLine(start) { return None; }
    var headers := ReadHeaders(lines[1..]);
    if headers.None? || !HeadersOk(headers.value, body) { return None; }
    return Some(Message(start, headers.value, body));
  }

  method ReadHeaders(lines: seq<string>) returns (r: Option<map<string, string>>)
    ensures r == AddFields(map[], lines)
  {
    var headers: map<string, string> := map[];
    for k := 0 to |lines|
      invariant AddFields(map[], lines) == AddFields(headers, lines[k..])
    {
      if |headers| >= MAX_HEADERS || |lines[k]| > MAX_LINE { return None; }
      var f := FieldOf(lines[k]);
      if f.None? || f.value.name in headers { return None; }
      headers := headers[f.value.name := f.value.value];
    }
    return Some(headers);
  }

  // ---- printing ----

  function LineOf(f: Field): string { f.name + ": " + f.value }

  function FieldLines(fields: seq<Field>): (lines: seq<string>)
    ensures |lines| == |fields|
  {
    if fields == [] then [] else [LineOf(fields[0])] + FieldLines(fields[1..])
  }

  function Join(lines: seq<string>): string
    requires lines != []
  {
    if |lines| == 1 then lines[0] else lines[0] + (CRLF + Join(lines[1..]))
  }

  function Print(start: string, fields: seq<Field>, body: string): string {
    Join([start] + FieldLines(fields)) + (BLANK + body)
  }

  /** The headers a message with these fields has. */
  function Merge(h: map<string, string>, fields: seq<Field>): map<string, string>
    decreases |fields|
  {
    if fields == [] then h else Merge(h[LowerAll(fields[0].name) := fields[0].value], fields[1..])
  }

  /** No two of the names, nor any of them and a key of `h`, are the same but for case. */
  predicate DistinctNames(h: map<string, string>, fields: seq<Field>) {
    && (forall i, j :: 0 <= i < j < |fields| ==> LowerAll(fields[i].name) != LowerAll(fields[j].name))
    && (forall i :: 0 <= i < |fields| ==> LowerAll(fields[i].name) !in h)
  }

  predicate WellFormedField(f: Field) {
    HeaderName(f.name) && Stripped(f.value) && CleanValue(f.value) && OneLine(f.value)
  }

  predicate WellFormedFields(fields: seq<Field>) {
    forall k :: 0 <= k < |fields| ==> WellFormedField(fields[k])
  }

  predicate WellFormedHead(start: string, fields: seq<Field>) {
    && start != "" && Stripped(start) && OneLine(start) && StartLine(start)
    && |fields| <= MAX_HEADERS && DistinctNames(map[], fields) && WellFormedFields(fields)
  }

  /** A message in good order; a body may contain anything, blank lines too. */
  predicate WellFormed(start: string, fields: seq<Field>, body: string) {
    WellFormedHead(start, fields) && HeadersOk(Merge(map[], fields), body)
  }

  /** No printed line and not the printed message as a whole is too long. */
  predicate Sized(start: string, fields: seq<Field>, body: string) {
    && (forall k :: 0 <= k < |fields| ==> |LineOf(fields[k])| <= MAX_LINE)
    && FitsMessage(Print(start, fields, body))
  }

  predicate PlainLines(lines: seq<string>) {
    lines != [] && forall k :: 0 <= k < |lines| ==> lines[k] != "" && OneLine(lines[k])
  }

  lemma JoinStarts(lines: seq<string>)
    requires PlainLines(lines)
    ensures Join(lines) != "" && Join(lines)[0] == lines[0][0] && Join(lines)[0] != '\r'
  {
    assert !IsBoundary(lines[0][0]);
  }

  /** No blank line, of either kind, starts inside a line. */
  lemma {:induction false} NoneInLine(line: string, rest: string, after: string, blank: string)
    requires OneLine(line) && blank != "" && IsBoundary(blank[0]) && NoneStarts(rest, after, blank)
    ensures NoneStarts(line + rest, after, blank)
    decreases |line|
  {
    if line == "" {
      assert line + rest == rest;
    } else {
      NoneInLine(line[1..], rest, after, blank);
      assert !IsBoundary(line[0]) && (line + rest + after)[0] == line[0];
      assert (line + rest)[1..] == line[1..] + rest;
    }
  }

  lemma NoneInCrlf(rest: string, after: string)
    requires rest != "" && rest[0] != '\r' && NoneStarts(rest, after, BLANK)
    ensures NoneStarts(CRLF + rest, after, BLANK)
  {
    var s := CRLF + rest;
    assert (s + after)[2] == rest[0] && (s[1..] + after)[0] == '\n';
    assert s[1..][1..] == rest;
  }

  /** The blank line that ends the head is the first one. */
  lemma {:induction false} NoBlankInside(lines: seq<string>, body: string)
    requires PlainLines(lines)
    ensures NoneStarts(Join(lines), BLANK + body, BLANK)
    decreases |lines|
  {
    var after := BLANK + body;
    if |lines| == 1 {
      NoneInLine(lines[0], "", after, BLANK);
      assert lines[0] + "" == lines[0];
    } else {
      var more := Join(lines[1..]);
      JoinStarts(lines[1..]);
      NoBlankInside(lines[1..], body);
      NoneInCrlf(more, after);
      NoneInLine(lines[0], CRLF + more, after, BLANK);
    }
  }

  function JoinLf(lines: seq<string>): string
    requires lines != []
  {
    if |lines| == 1 then lines[0] else lines[0] + ("\n" + JoinLf(lines[1..]))
  }

  lemma {:induction false} UnfoldPlain(line: string, rest: string)
    requires OneLine(line)
    ensures Unfold(line + rest) == line + Unfold(rest)
    decreases |line|
  {
    if line == "" {
      assert line + rest == rest;
    } else {
      assert !IsBoundary(line[0]);
      UnfoldPlain(line[1..], rest);
      assert (line + rest)[1..] == line[1..] + rest;
    }
  }

  lemma {:induction false} UnfoldJoin(lines: seq<string>)
    requires PlainLines(lines)
    ensures Unfold(Join(lines)) == JoinLf(lines)
    decreases |lines|
  {
    if |lines| == 1 {
      UnfoldPlain(lines[0], "");
      assert lines[0] + "" == lines[0];
    } else {
      UnfoldPlain(lines[0], CRLF + Join(lines[1..]));
      UnfoldJoin(lines[1..]);
      assert (CRLF + Join(lines[1..]))[2..] == Join(lines[1..]);
    }
  }

  lemma {:induction false} LineLengthPlain(line: string, rest: string)
    requires OneLine(line)
    ensures LineLength(line + rest) == |line| + LineLength(rest)
    decreases |line|
  {
    if line == "" {
      assert line + rest == rest;
    } else {
      assert !IsBoundary(line[0]);
      LineLengthPlain(line[1..], rest);
      assert (line + rest)[1..] == line[1..] + rest;
    }
  }

  lemma SplitFirst(line: string, rest: string)
    requires OneLine(line)
    ensures SplitLines(line + ("\n" + rest)) == [line] + SplitLines(rest)
  {
    var s := line + ("\n" + rest);
    LineLengthPlain(line, "\n" + rest);
    assert LineLength(s) == |line| && s[|line|] == '\n';
    assert s[..|line|] == line && s[|line| + 1..] == rest;
  }

  lemma SplitFirstCrlf(line: string, rest: string)
    requires OneLine(line)
    ensures SplitLines(line + (CRLF + rest)) == [line] + SplitLines(rest)
  {
    var s := line + (CRLF + rest);
    LineLengthPlain(line, CRLF + rest);
    assert LineLength(s) == |line| && s[|line|] == '\r' && s[|line| + 1] == '\n';
    assert s[..|line|] == line && s[|line| + 2..] == rest;
  }

  lemma SplitOnly(line: string)
    requires OneLine(line) && line != ""
    ensures SplitLines(line) == [line]
  {
    LineLengthPlain(line, "");
    assert line + "" == line;
  }

  lemma {:induction false} SplitJoin(lines: seq<string>)
    requires PlainLines(lines)
    ensures SplitLines(JoinLf(lines)) == lines
    decreases |lines|
  {
    if |lines| == 1 {
      SplitOnly(lines[0]);
    } else {
      SplitJoin(lines[1..]);
      SplitFirst(lines[0], JoinLf(lines[1..]));
    }
  }

  lemma {:induction false} NoColonIn(name: string, rest: string)
    requires forall k :: 0 <= k < |name| ==> name[k] != ':'
    ensures NoneStarts(name, ":" + rest, ":")
    decreases |name|
  {
    if name != "" {
      NoColonIn(name[1..], rest);
      assert (name + (":" + rest))[0] == name[0];
    }
  }

  lemma LineSplits(f: Field)
    requires forall k :: 0 <= k < |f.name| ==> f.name[k] != ':'
    ensures Partition(LineOf(f), ":") == Some((f.name, " " + f.value))
  {
    var rest := " " + f.value;
    NoColonIn(f.name, rest);
    assert LineOf(f) == f.name + (":" + rest);
    FindsFirst(f.name, ":", rest);
  }

  lemma LineIsPlain(f: Field)
    requires WellFormedField(f)
    ensures LineOf(f) != "" && OneLine(LineOf(f))
  {
  }

  lemma LeadingSpaceStrips(s: string)
    requires Stripped(s)
    ensures Strip(" " + s) == s
  {
    assert (" " + s)[1..] == s;
    StripKeeps(s);
  }

  lemma FieldRoundTrip(f: Field)
    requires WellFormedField(f)
    ensures FieldOf(LineOf(f)) == Some(Field(LowerAll(f.name), f.value))
  {
    StripKeeps(f.name);
    LeadingSpaceStrips(f.value);
    LineSplits(f);
  }

  /** White space around a name and around a value does not count. */
  lemma PaddedField(f: Field, a: string, b: string, c: string, d: string)
    requires HeaderName(f.name) && Stripped(f.value) && CleanValue(f.value)
    requires Blank(a) && Blank(b) && Blank(c) && Blank(d)
    ensures FieldOf((a + f.name + b) + (":" + (c + f.value + d))) == Some(Field(LowerAll(f.name), f.value))
  {
    var name, value := a + f.name + b, c + f.value + d;
    NoColonIn(name, value);
    FindsFirst(name, ":", value);
    StripPadded(a, f.name, b);
    StripPadded(c, f.value, d);
  }

  lemma {:induction false} FieldLinesAdd(h: map<string, string>, fields: seq<Field>)
    requires WellFormedFields(fields) && DistinctNames(h, fields) && |h| + |fields| <= MAX_HEADERS
    requires forall k :: 0 <= k < |fields| ==> |LineOf(fields[k])| <= MAX_LINE
    ensures AddFields(h, FieldLines(fields)) == Some(Merge(h, fields))
    decreases |fields|
  {
    if fields != [] {
      FieldRoundTrip(fields[0]);
      FieldLinesAdd(h[LowerAll(fields[0].name) := fields[0].value], fields[1..]);
      assert FieldLines(fields)[1..] == FieldLines(fields[1..]);
    }
  }

  lemma {:induction false} FieldLinesPlain(fields: seq<Field>)
    requires WellFormedFields(fields)
    ensures forall k :: 0 <= k < |fields| ==> FieldLines(fields)[k] != "" && OneLine(FieldLines(fields)[k])
    decreases |fields|
  {
    if fields != [] {
      LineIsPlain(fields[0]);
      FieldLinesPlain(fields[1..]);
    }
  }

  lemma HeadRoundTrip(lines: seq<string>, body: string)
    requires PlainLines(lines)
    ensures Divide(Join(lines) + (BLANK + body)) == Some((Join(lines), body))
    ensures SplitLines(Unfold(Join(lines))) == lines
  {
    NoBlankInside(lines, body);
    FindsFirst(Join(lines), BLANK, body);
    UnfoldJoin(lines);
    SplitJoin(lines);
  }

  /**
   * A message that ends its head with an LF blank line is divided there exactly when there is no CRLF blank line in
   * it at all; one in the body would be taken for the end of the head.
   */
  lemma LfBlankLine(head: string, body: string)
    requires NoneStarts(head, "\n\n" + body, "\n\n")
    ensures Divide(head + ("\n\n" + body)) == Some((head, body)) <==> Find(head + ("\n\n" + body), BLANK).None?
  {
    var raw := head + ("\n\n" + body);
    FindsFirst(head, "\n\n", body);
    var at := Find(raw, BLANK);
    if at.Some? {
      FoundOccurs(raw, BLANK);
      assert raw[at.value] == '\r' && raw[|head|] == '\n';
      assert |raw[..at.value]| == at.value;
    }
  }

  lemma {:induction false} LongLineIsRefused(h: map<string, string>, lines: seq<string>, k: nat)
    requires k < |lines| && |lines[k]| > MAX_LINE
    ensures AddFields(h, lines).None?
    decreases k
  {
    if k > 0 && AddFields(h, lines).Some? {
      var f := FieldOf(lines[0]).value;
      LongLineIsRefused(h[f.name := f.value], lines[1..], k - 1);
    }
  }

  /** What is printed with a good head is read as it was, and accepted if its headers are. */
  lemma PrintIsRead(start: string, fields: seq<Field>, body: string)
    requires WellFormedHead(start, fields) && Sized(start, fields, body)
    ensures Parse(Print(start, fields, body)) ==
            if HeadersOk(Merge(map[], fields), body) then Some(Message(start, Merge(map[], fields), body)) else None
  {
    var lines := [start] + FieldLines(fields);
    FieldLinesPlain(fields);
    HeadRoundTrip(lines, body);
    StripKeeps(start);
    FieldLinesAdd(map[], fields);
    assert lines[1..] == FieldLines(fields);
  }

  // ---- heads ended by LF ----

  lemma NoneInLf(rest: string, after: string)
    requires rest != "" && rest[0] != '\n' && NoneStarts(rest, after, "\n\n")
    ensures NoneStarts("\n" + rest, after, "\n\n")
  {
    var s := "\n" + rest;
    assert (s + after)[1] == rest[0];
    assert s[1..] == rest;
  }

  lemma {:induction false} NoLfBlankInside(lines: seq<string>, body: string)
    requires PlainLines(lines)
    ensures NoneStarts(JoinLf(lines), "\n\n" + body, "\n\n")
    decreases |lines|
  {
    var after := "\n\n" + body;
    if |lines| == 1 {
      NoneInLine(lines[0], "", after, "\n\n");
      assert lines[0] + "" == lines[0];
    } else {
      var more := JoinLf(lines[1..]);
      assert lines[1] != "" && !IsBoundary(lines[1][0]) && more[0] == lines[1][0];
      NoLfBlankInside(lines[1..], body);
      NoneInLf(more, after);
      NoneInLine(lines[0], "\n" + more, after, "\n\n");
    }
  }

  lemma {:induction false} UnfoldLf(lines: seq<string>)
    requires PlainLines(lines)
    ensures Unfold(JoinLf(lines)) == JoinLf(lines)
    decreases |lines|
  {
    if |lines| == 1 {
      UnfoldPlain(lines[0], "");
      assert lines[0] + "" == lines[0];
    } else {
      var more := JoinLf(lines[1..]);
      UnfoldPlain(lines[0], "\n" + more);
      UnfoldLf(lines[1..]);
      assert ("\n" + more)[1..] == more;
    }
  }

  function PrintLf(start: string, fields: seq<Field>, body: string): string {
    JoinLf([start] + FieldLines(fields)) + ("\n\n" + body)
  }

  /** A message with LF line ends is read like one with CRLF, unless a CRLF blank line occurs in it. */
  lemma LfIsRead(start: string, fields: seq<Field>, body: string)
    requires WellFormedHead(start, fields) && forall k :: 0 <= k < |fields| ==> |LineOf(fields[k])| <= MAX_LINE
    requires FitsMessage(PrintLf(start, fields, body)) && Find(PrintLf(start, fields, body), BLANK).None?
    ensures Parse(PrintLf(start, fields, body)) ==
            if HeadersOk(Merge(map[], fields), body) then Some(Message(start, Merge(map[], fields), body)) else None
  {
    var lines := [start] + FieldLines(fields);
    FieldLinesPlain(fields);
    NoLfBlankInside(lines, body);
    LfBlankLine(JoinLf(lines), body);
    UnfoldLf(lines);
    SplitJoin(lines);
    StripKeeps(start);
    FieldLinesAdd(map[], fields);
    assert lines[1..] == FieldLines(fields);
  }

  /** Printing and parsing give a well-formed message back. */
  lemma PrintParses(start: string, fields: seq<Field>, body: string)
    requires WellFormed(start, fields, body) && Sized(start, fields, body)
    ensures Parse(Print(start, fields, body)) == Some(Message(start, Merge(map[], fields), body))
  {
    PrintIsRead(start, fields, body);
  }

  /** Every field, and nothing else, is in the headers. */
  lemma {:induction false} MergeExactly(h: map<string, string>, fields: seq<Field>)
    requires DistinctNames(h, fields)
    ensures var m := Merge(h, fields);
            && (forall k :: 0 <= k < |fields| ==>
                  LowerAll(fields[k].name) in m && m[LowerAll(fields[k].name)] == fields[k].value)
            && (forall n :: n in h ==> n in m && m[n] == h[n])
            && forall n :: n in m ==> n in h || exists k :: 0 <= k < |fields| && n == LowerAll(fields[k].name)
    decreases |fields|
  {
    if fields != [] {
      MergeExactly(h[LowerAll(fields[0].name) := fields[0].value], fields[1..]);
    }
  }

  lemma LowerTwice(s: string)
    ensures LowerAll(LowerAll(s)) == LowerAll(s)
    ensures HeaderName(s) ==> HeaderName(LowerAll(s))
  {
  }

  lemma AcceptedField(line: string)
    requires OneLine(line) && FieldOf(line).Some?
    ensures WellFormedField(FieldOf(line).value) && LowerAll(FieldOf(line).value.name) == FieldOf(line).value.name
  {
    var parts := Partition(line, ":").value;
    StripStrips(parts.1);
    LowerTwice(Strip(parts.0));
  }

  lemma {:induction false} AcceptedFields(h: map<string, string>, lines: seq<string>) returns (fields: seq<Field>)
    requires |h| <= MAX_HEADERS && AddFields(h, lines).Some? && forall k :: 0 <= k < |lines| ==> OneLine(lines[k])
    ensures AddFields(h, lines) == Some(Merge(h, fields))
    ensures WellFormedFields(fields) && DistinctNames(h, fields) && |h| + |fields| <= MAX_HEADERS
    decreases |lines|
  {
    if lines == [] { return []; }
    var f := FieldOf(lines[0]).value;
    AcceptedField(lines[0]);
    var more := AcceptedFields(h[f.name := f.value], lines[1..]);
    fields := [f] + more;
    assert fields[1..] == more;
  }

  /** Whatever is accepted is well formed, and printing it gives it back unless it no longer fits the limits. */
  lemma AcceptedIsWellFormed(raw: string) returns (fields: seq<Field>)
    requires Parse(raw).Some?
    ensures var m := Parse(raw).value;
            && m.headers == Merge(map[], fields) && WellFormed(m.start, fields, m.body)
            && (Sized(m.start, fields, m.body) ==> Parse(Print(m.start, fields, m.body)) == Some(m))
  {
    var m, lines := Parse(raw).value, SplitLines(Unfold(Divide(raw).value.0));
    StripStrips(lines[0]);
    fields := AcceptedFields(map[], lines[1..]);
    if Sized(m.start, fields, m.body) { PrintParses(m.start, fields, m.body); }
  }
}
