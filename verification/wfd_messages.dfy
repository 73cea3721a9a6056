/** The messages of the handshake as a sink writes them: which are accepted, and in which place. */
module WfdMessages {
  import opened Decimal
  import opened Handshake
  import opened Rtsp
  import opened RtspText
  import opened SessionState
  import opened WfdHandshake
  import Utf8

  /** The two headers every message of the handshake has. */
  function HeadersOf(cseq: nat, length: nat): seq<Field> {
    [Field("CSeq", Digits(cseq)), Field("Content-Length", Digits(length))]
  }

  /** What those two become when they are read. */
  function ReadHeadersOf(cseq: nat, length: nat): map<string, string> {
    map["cseq" := Digits(cseq), "content-length" := Digits(length)]
  }

  function Printed(start: string, cseq: nat, length: nat, body: string): string {
    Print(start, HeadersOf(cseq, length), body)
  }

  lemma LowerNames()
    ensures LowerAll("CSeq") == "cseq" && LowerAll("Content-Length") == "content-length"
  {
  }

  lemma HeadersMerge(cseq: nat, length: nat)
    ensures Merge(map[], HeadersOf(cseq, length)) == ReadHeadersOf(cseq, length)
    ensures DistinctNames(map[], HeadersOf(cseq, length)) && WellFormedFields(HeadersOf(cseq, length))
  {
    LowerNames();
    DigitsArePlain(cseq);
    DigitsArePlain(length);
    var fields := HeadersOf(cseq, length);
    var first := map["cseq" := Digits(cseq)];
    assert fields[1..] == [Field("Content-Length", Digits(length))];
    assert Merge(map[], fields) == Merge(first, fields[1..]);
    assert Merge(first, fields[1..]) == first["content-length" := Digits(length)];
  }

  lemma DigitsArePlain(n: nat)
    ensures Stripped(Digits(n)) && CleanValue(Digits(n)) && OneLine(Digits(n))
  {
  }

  lemma SmallNumber(n: nat)
    requires n <= MAX_CSEQ
    ensures ShortDecimal(Digits(n)) && Value(Digits(n), 10) == n
  {
    DigitsRoundTrip(n);
    PowerTen();
    DigitsLength(n, 10);
  }

  lemma PowerTen()
    ensures Power(10) == 1_00_0000_0000
  {
    assert Power(5) == 10_0000;
    assert Power(6) == 100_0000;
    assert Power(7) == 1000_0000;
    assert Power(8) == 1_0000_0000;
    assert Power(9) == 10_0000_0000;
  }

  predicate GoodStart(start: string) {
    start != "" && Stripped(start) && OneLine(start) && StartLine(start)
  }

  /** The length that is declared must be that of the encoded body, whatever else the body contains. */
  lemma DeclaredLengthDecides(start: string, cseq: nat, length: nat, body: string)
    requires GoodStart(start) && cseq <= MAX_CSEQ && Sized(start, HeadersOf(cseq, length), body)
    ensures Parse(Printed(start, cseq, length, body)) ==
            if length == |Utf8.Encode(body)| && length <= MAX_MESSAGE
            then Some(Message(start, ReadHeadersOf(cseq, length), body)) else None
  {
    HeadersMerge(cseq, length);
    SmallNumber(cseq);
    DigitsRoundTrip(length);
    if length <= MAX_MESSAGE { SmallNumber(length); }
    PrintIsRead(start, HeadersOf(cseq, length), body);
  }

  /** The text of such a message. */
  lemma PrintedText(start: string, cseq: nat, length: nat, body: string)
    ensures Printed(start, cseq, length, body) ==
            start + "\r\nCSeq: " + Digits(cseq) + "\r\nContent-Length: " + Digits(length) + "\r\n\r\n" + body
  {
    var fields := HeadersOf(cseq, length);
    var one, two := LineOf(fields[0]), LineOf(fields[1]);
    assert fields[1..][1..] == [];
    assert FieldLines(fields[1..]) == [two];
    assert FieldLines(fields) == [one, two];
    assert [start] + FieldLines(fields) == [start, one, two];
    JoinThree(start, one, two);
    assert one == "CSeq: " + Digits(cseq) && two == "Content-Length: " + Digits(length);
    HeadText(start, Digits(cseq), Digits(length), body);
  }

  lemma JoinThree(a: string, b: string, c: string)
    ensures Join([a, b, c]) == a + (CRLF + (b + (CRLF + c)))
  {
    var lines := [a, b, c];
    assert lines[1..] == [b, c] && lines[1..][1..] == [c];
    assert Join(lines[1..][1..]) == c;
    assert Join(lines[1..]) == b + (CRLF + c);
  }

  lemma HeadText(start: string, cseq: string, length: string, body: string)
    ensures start + (CRLF + (("CSeq: " + cseq) + (CRLF + ("Content-Length: " + length)))) + (BLANK + body) ==
            start + "\r\nCSeq: " + cseq + "\r\nContent-Length: " + length + "\r\n\r\n" + body
  {
    assert CRLF + "CSeq: " == "\r\nCSeq: " && CRLF + "Content-Length: " == "\r\nContent-Length: ";
  }

  lemma AsciiMessage(start: string, cseq: nat, length: nat, body: string)
    requires Utf8.Ascii(start) && Utf8.Ascii(body)
    ensures Utf8.Ascii(Printed(start, cseq, length, body))
  {
    PrintedText(start, cseq, length, body);
    assert Utf8.Ascii(Digits(cseq)) && Utf8.Ascii(Digits(length));
  }

  /** The line that declares the length is too long. */
  lemma LongLine(start: string, cseq: nat, length: nat, body: string)
    requires GoodStart(start) && cseq <= MAX_CSEQ && |LineOf(HeadersOf(cseq, length)[1])| > MAX_LINE
    ensures Parse(Printed(start, cseq, length, body)).None?
  {
    var fields := HeadersOf(cseq, length);
    var lines := [start] + FieldLines(fields);
    HeadersMerge(cseq, length);
    FieldLinesPlain(fields);
    HeadRoundTrip(lines, body);
    StripKeeps(start);
    assert lines[1..] == FieldLines(fields);
    assert FieldLines(fields)[1] == LineOf(fields[1]) by { assert FieldLines(fields)[1..] == FieldLines(fields[1..]); }
    LongLineIsRefused(map[], lines[1..], 1);
  }

  lemma ShortLine(cseq: nat, length: nat)
    requires cseq <= MAX_CSEQ
    ensures |LineOf(HeadersOf(cseq, length)[0])| <= MAX_LINE
  {
    SmallNumber(cseq);
  }

  /** An ASCII message within the limit is accepted exactly when it declares the number of characters of its body. */
  lemma AsciiLengthDecides(start: string, cseq: nat, length: nat, body: string)
    requires GoodStart(start) && cseq <= MAX_CSEQ && Utf8.Ascii(start) && Utf8.Ascii(body)
    ensures var raw := Printed(start, cseq, length, body);
      Parse(raw) == if length == |body| && |raw| <= MAX_MESSAGE
                    then Some(Message(start, ReadHeadersOf(cseq, length), body)) else None
  {
    var raw := Printed(start, cseq, length, body);
    AsciiMessage(start, cseq, length, body);
    Utf8.AsciiIsItself(raw);
    Utf8.AsciiIsItself(body);
    ShortLine(cseq, length);
    if |LineOf(HeadersOf(cseq, length)[1])| > MAX_LINE {
      if length == |body| { LengthIsShort(start, cseq, body); }
      LongLine(start, cseq, length, body);
    } else if |raw| <= MAX_MESSAGE {
      DeclaredLengthDecides(start, cseq, length, body);
    }
  }

  /** A message whose length is declared right has no long line unless it is too long itself. */
  lemma LengthIsShort(start: string, cseq: nat, body: string)
    requires |LineOf(HeadersOf(cseq, |body|)[1])| > MAX_LINE
    ensures |Printed(start, cseq, |body|, body)| > MAX_MESSAGE
  {
    if |body| <= MAX_MESSAGE { SmallNumber(|body|); }
  }

  // ---- acknowledgements ----

  const OK := "RTSP/1.0 200 OK"

  function Ok(cseq: nat, body: string): string { Printed(OK, cseq, |body|, body) }

  predicate Within(raw: string) { |raw| <= MAX_MESSAGE }

  lemma OkIsRead(cseq: nat, body: string)
    requires cseq <= MAX_CSEQ && Utf8.Ascii(body) && Within(Ok(cseq, body))
    ensures Parse(Ok(cseq, body)) == Some(Message(OK, ReadHeadersOf(cseq, |body|), body))
    ensures IsResponse(OK) && Contains(OK, "200")
  {
    AsciiLengthDecides(OK, cseq, |body|, body);
    assert "200" <= OK[9..];
    FindExactly(OK, "200");
  }

  lemma SameNumber(n: nat, k: nat)
    ensures Digits(n) == Digits(k) <==> n == k
  {
    DigitsRoundTrip(n);
    DigitsRoundTrip(k);
  }

  /** M1, M4 and M5 are acknowledged by the sequence number alone: 1, 3 and 4. */
  lemma AcknowledgedExactly(k: nat, cseq: nat, body: string)
    requires k == 0 || k == 2 || k == 3
    requires cseq <= MAX_CSEQ && Utf8.Ascii(body) && Within(Ok(cseq, body))
    ensures Guard(k, Ok(cseq, body)) <==> cseq == k + 1
  {
    OkIsRead(cseq, body);
    SameNumber(cseq, k + 1);
    assert Digits(k + 1) == [CharOf(k + 1)];
  }

  // ---- the parameters of M3 ----

  const RTP_UDP := "RTP/AVP/UDP;unicast"

  predicate GoodParameter(p: Field) {
    && (forall k :: 0 <= k < |p.name| ==> p.name[k] != ':')
    && Stripped(p.name) && OneLine(p.name) && Stripped(p.value) && OneLine(p.value)
  }

  predicate GoodParameters(ps: seq<Field>) { forall k :: 0 <= k < |ps| ==> GoodParameter(ps[k]) }

  function BodyOf(ps: seq<Field>): string {
    if ps == [] then "" else LineOf(ps[0]) + (CRLF + BodyOf(ps[1..]))
  }

  lemma {:induction false} BodySplits(ps: seq<Field>)
    requires GoodParameters(ps)
    ensures SplitLines(BodyOf(ps)) == FieldLines(ps)
    ensures forall k :: 0 <= k < |ps| ==> FieldLines(ps)[k] == LineOf(ps[k])
  {
    if ps != [] {
      BodySplits(ps[1..]);
      SplitFirstCrlf(LineOf(ps[0]), BodyOf(ps[1..]));
    }
  }

  /** The last line that sets the parameter counts; without one it is empty. */
  predicate Sets(ps: seq<Field>, k: nat, name: string) {
    && k <= |ps| && (k < |ps| ==> LowerAll(ps[k].name) == name)
    && (forall j :: k < j < |ps| ==> LowerAll(ps[j].name) != name)
    && (k == |ps| ==> forall j :: 0 <= j < |ps| ==> LowerAll(ps[j].name) != name)
  }

  function ValueAt(ps: seq<Field>, k: nat): string { if k < |ps| then ps[k].value else "" }

  lemma ParameterLine(p: Field)
    requires GoodParameter(p)
    ensures var parts := Partition(LineOf(p), ":");
      parts.Some? && Strip(parts.value.0) == p.name && Strip(parts.value.1) == p.value
  {
    LineSplits(p);
    StripKeeps(p.name);
    LeadingSpaceStrips(p.value);
  }

  lemma ParameterOn(front: seq<string>, p: Field, lines: seq<string>, name: string)
    requires GoodParameter(p) && lines == front + [LineOf(p)]
    ensures Parameter(lines, name) == if LowerAll(p.name) == name then p.value else Parameter(front, name)
  {
    ParameterLine(p);
    assert lines[..|lines| - 1] == front && lines[|lines| - 1] == LineOf(p);
  }

  lemma {:induction false} ParameterInLines(lines: seq<string>, ps: seq<Field>, k: nat, name: string)
    requires GoodParameters(ps) && Sets(ps, k, name)
    requires |lines| == |ps| && forall i :: 0 <= i < |ps| ==> lines[i] == LineOf(ps[i])
    ensures Parameter(lines, name) == ValueAt(ps, k)
    decreases |lines|
  {
    if lines != [] {
      var last := |lines| - 1;
      var front := lines[..last];
      ParameterOn(front, ps[last], lines, name);
      if k != last { ParameterInLines(front, ps[..last], if k < last then k else last, name); }
    }
  }

  /** A parameter is read as it was written, whatever the case of its name. */
  lemma ParameterExactly(ps: seq<Field>, k: nat, name: string)
    requires GoodParameters(ps) && Sets(ps, k, name)
    ensures Parameter(SplitLines(BodyOf(ps)), name) == ValueAt(ps, k)
  {
    BodySplits(ps);
    ParameterInLines(FieldLines(ps), ps, k, name);
  }

  /** M3 is answered by sequence number 2, a video format other than `none` and a port line for unicast RTP over UDP. */
  lemma AnsweredExactly(cseq: nat, ps: seq<Field>, video: nat, ports: nat)
    requires GoodParameters(ps) && Sets(ps, video, "wfd_video_formats") && Sets(ps, ports, "wfd_client_rtp_ports")
    requires cseq <= MAX_CSEQ && Utf8.Ascii(BodyOf(ps)) && Within(Ok(cseq, BodyOf(ps)))
    ensures var (v, p) := (ValueAt(ps, video), ValueAt(ps, ports));
      Guard(1, Ok(cseq, BodyOf(ps))) <==>
        && cseq == 2 && v != "" && LowerAll(v) != "none"
        && exists i :: 0 <= i <= |p| && RTP_UDP <= p[i..]
  {
    OkIsRead(cseq, BodyOf(ps));
    SameNumber(cseq, 2);
    assert Digits(2) == [CharOf(2)];
    ParameterExactly(ps, video, "wfd_video_formats");
    ParameterExactly(ps, ports, "wfd_client_rtp_ports");
    FindExactly(ValueAt(ps, ports), RTP_UDP);
  }

  // ---- requests ----

  predicate Word(s: string) {
    s != "" && Utf8.Ascii(s) && forall k :: 0 <= k < |s| ==> !IsSpace(s[k]) && !IsBoundary(s[k]) && s[k] != '/'
  }

  function RequestLine(verb: string, uri: string): string { verb + (" " + uri + " RTSP/1.0") }

  function Ask(verb: string, uri: string, cseq: nat): string { Printed(RequestLine(verb, uri), cseq, 0, "") }

  lemma {:induction false} FirstWordIs(word: string, rest: string)
    requires forall k :: 0 <= k < |word| ==> !IsSpace(word[k])
    ensures FirstWord(word + (" " + rest)) == word
  {
    if word != "" {
      FirstWordIs(word[1..], rest);
      assert (word + (" " + rest))[1..] == word[1..] + (" " + rest);
    }
  }

  lemma RequestIsNoResponse(verb: string, uri: string)
    requires Word(verb)
    ensures !IsResponse(RequestLine(verb, uri)) && FirstWord(RequestLine(verb, uri)) == verb
  {
    var start, rest := RequestLine(verb, uri), uri + " RTSP/1.0";
    assert start == verb + (" " + rest);
    FirstWordIs(verb, rest);
    var at := if |verb| <= 4 then |verb| else 4;
    assert start[at] != "RTSP/"[at];
  }

  lemma RequestIsGood(verb: string, uri: string)
    requires Word(verb) && OneLine(uri) && Utf8.Ascii(uri) && |RequestLine(verb, uri)| <= MAX_START
    ensures GoodStart(RequestLine(verb, uri)) && Utf8.Ascii(RequestLine(verb, uri))
  {
    var start, tail := RequestLine(verb, uri), " RTSP/1.0";
    var front := verb + (" " + uri);
    assert start == front + tail;
    assert start[|front|..] == tail;
    assert OneLine(tail) && Utf8.Ascii(tail) && OneLine(front) && Utf8.Ascii(front);
  }

  /** The two requests are told by their method alone. */
  lemma AskedExactly(k: nat, verb: string, uri: string, cseq: nat)
    requires k == 4 || k == 5
    requires Word(verb) && OneLine(uri) && Utf8.Ascii(uri) && |RequestLine(verb, uri)| <= MAX_START
    requires cseq <= MAX_CSEQ && Within(Ask(verb, uri, cseq))
    ensures Guard(k, Ask(verb, uri, cseq)) <==> verb == if k == 4 then "SETUP" else "PLAY"
  {
    RequestIsGood(verb, uri);
    RequestIsNoResponse(verb, uri);
    AsciiLengthDecides(RequestLine(verb, uri), cseq, 0, "");
  }

  // ---- a whole handshake ----

  const FORMATS := "wfd_video_formats"
  const CODECS := "wfd_audio_codecs"
  const RTP_PORTS := "wfd_client_rtp_ports"

  predicate PlainName(name: string) {
    && Stripped(name) && OneLine(name) && Utf8.Ascii(name) && LowerAll(name) == name
    && forall k :: 0 <= k < |name| ==> name[k] != ':'
  }

  lemma FormatsIsPlain()
    ensures PlainName(FORMATS) && |FORMATS| == 17
  {
  }

  lemma CodecsIsPlain()
    ensures PlainName(CODECS) && |CODECS| == 16
  {
  }

  lemma RtpPortsIsPlain()
    ensures PlainName(RTP_PORTS) && |RTP_PORTS| == 20
  {
  }

  predicate PlainValue(s: string) { Stripped(s) && OneLine(s) && Utf8.Ascii(s) }

  /** What a sink offers in its answer to M3. */
  datatype Offer = Offer(video: string, audio: string, ports: string)

  predicate PlainOffer(o: Offer) { PlainValue(o.video) && PlainValue(o.audio) && PlainValue(o.ports) }

  function ParametersOf(o: Offer): seq<Field> {
    [Field(FORMATS, o.video), Field(CODECS, o.audio), Field(RTP_PORTS, o.ports)]
  }

  predicate Offers(o: Offer) {
    o.video != "" && LowerAll(o.video) != "none" && exists i :: 0 <= i <= |o.ports| && RTP_UDP <= o.ports[i..]
  }

  lemma OfferIsGood(o: Offer)
    requires PlainOffer(o)
    ensures GoodParameters(ParametersOf(o))
    ensures Sets(ParametersOf(o), 0, FORMATS) && Sets(ParametersOf(o), 1, CODECS) && Sets(ParametersOf(o), 2, RTP_PORTS)
  {
    FormatsIsPlain(); CodecsIsPlain(); RtpPortsIsPlain();
  }

  lemma LineIsAscii(f: Field)
    requires Utf8.Ascii(f.name) && Utf8.Ascii(f.value)
    ensures Utf8.Ascii(LineOf(f))
  {
    assert Utf8.Ascii(": ");
  }

  lemma {:induction false} BodyIsAscii(ps: seq<Field>)
    requires forall k :: 0 <= k < |ps| ==> Utf8.Ascii(ps[k].name) && Utf8.Ascii(ps[k].value)
    ensures Utf8.Ascii(BodyOf(ps))
  {
    if ps != [] {
      var line, more := LineOf(ps[0]), BodyOf(ps[1..]);
      LineIsAscii(ps[0]);
      BodyIsAscii(ps[1..]);
      assert Utf8.Ascii(CRLF);
      assert BodyOf(ps) == line + (CRLF + more);
    }
  }

  lemma OfferIsAscii(o: Offer)
    requires PlainOffer(o)
    ensures Utf8.Ascii(BodyOf(ParametersOf(o)))
  {
    FormatsIsPlain(); CodecsIsPlain(); RtpPortsIsPlain();
    BodyIsAscii(ParametersOf(o));
  }

  lemma EmptyIsShort(start: string, cseq: nat)
    requires |start| <= MAX_START && cseq <= MAX_CSEQ
    ensures Within(Printed(start, cseq, 0, ""))
  {
    PrintedText(start, cseq, 0, "");
    SmallNumber(cseq);
    SmallNumber(0);
  }

  function OfferMessage(o: Offer): string { Ok(2, BodyOf(ParametersOf(o))) }

  /** Such an answer is accepted exactly when a usable video format and the ports for unicast RTP are offered. */
  lemma OfferIsJudged(o: Offer)
    requires PlainOffer(o) && Within(OfferMessage(o))
    ensures Guard(1, OfferMessage(o)) <==> Offers(o)
  {
    var ps := ParametersOf(o);
    OfferIsGood(o);
    OfferIsAscii(o);
    AnsweredExactly(2, ps, 0, 2);
    assert ValueAt(ps, 0) == o.video && ValueAt(ps, 2) == o.ports;
  }

  /** Audio is advertised exactly when a codec other than `none` is offered. */
  lemma AudioIsJudged(o: Offer)
    requires PlainOffer(o) && Within(OfferMessage(o))
    ensures AudioIn(OfferMessage(o)) <==> o.audio != "" && LowerAll(o.audio) != "none"
  {
    var ps := ParametersOf(o);
    OfferIsGood(o);
    OfferIsAscii(o);
    OkIsRead(2, BodyOf(ps));
    ParameterExactly(ps, 1, CODECS);
  }

  lemma EmptyAcknowledgement(k: nat)
    requires k == 0 || k == 2 || k == 3
    ensures Guard(k, Ok(k + 1, ""))
  {
    EmptyIsShort(OK, k + 1);
    AcknowledgedExactly(k, k + 1, "");
  }

  lemma VerbsAreWords()
    ensures Word("SETUP") && Word("PLAY")
  {
  }

  /** A request line may have 512 characters. */
  predicate PlainRequest(verb: string, uri: string, cseq: nat) {
    OneLine(uri) && Utf8.Ascii(uri) && |RequestLine(verb, uri)| <= MAX_START && cseq <= MAX_CSEQ
  }

  lemma RequestIsAccepted(k: nat, uri: string, cseq: nat)
    requires (k == 4 || k == 5) && PlainRequest(if k == 4 then "SETUP" else "PLAY", uri, cseq)
    ensures Guard(k, Ask(if k == 4 then "SETUP" else "PLAY", uri, cseq))
  {
    var verb := if k == 4 then "SETUP" else "PLAY";
    VerbsAreWords();
    EmptyIsShort(RequestLine(verb, uri), cseq);
    AskedExactly(k, verb, uri, cseq);
  }

  /** The six messages of a sink, with any offer and any two requests. */
  function SinkSide(o: Offer, setup: (string, nat), play: (string, nat)): seq<string> {
    [Ok(1, ""), OfferMessage(o), Ok(3, ""), Ok(4, ""),
     Ask("SETUP", setup.0, setup.1), Ask("PLAY", play.0, play.1)]
  }

  lemma SinkAnswer(o: Offer, k: nat, raw: string)
    requires PlainOffer(o) && Within(OfferMessage(o)) && k < 4
    requires if k == 1 then raw == OfferMessage(o) else raw == Ok(k + 1, "")
    ensures Guard(k, raw) <==> (k == 1 ==> Offers(o))
  {
    if k == 1 { OfferIsJudged(o); } else { EmptyAcknowledgement(k); }
  }

  lemma SinkRequest(o: Offer, setup: (string, nat), play: (string, nat), k: nat)
    requires PlainRequest("SETUP", setup.0, setup.1) && PlainRequest("PLAY", play.0, play.1)
    requires k == 4 || k == 5
    ensures Guard(k, SinkSide(o, setup, play)[k])
  {
    if k == 4 { RequestIsAccepted(4, setup.0, setup.1); } else { RequestIsAccepted(5, play.0, play.1); }
  }

  lemma SinkMessage(o: Offer, setup: (string, nat), play: (string, nat), k: nat)
    requires PlainOffer(o) && Within(OfferMessage(o))
    requires PlainRequest("SETUP", setup.0, setup.1) && PlainRequest("PLAY", play.0, play.1)
    requires k < LAST
    ensures Guard(k, SinkSide(o, setup, play)[k]) <==> (k == 1 ==> Offers(o))
  {
    if k < 4 { SinkAnswer(o, k, SinkSide(o, setup, play)[k]); } else { SinkRequest(o, setup, play, k); }
  }

  /** A well-behaved sink completes the handshake when its offer is usable and is refused at its offer otherwise. */
  lemma HandshakeOfSink(o: Offer, setup: (string, nat), play: (string, nat), more: seq<string>, n: nat)
    requires PlainOffer(o) && Within(OfferMessage(o))
    requires PlainRequest("SETUP", setup.0, setup.1) && PlainRequest("PLAY", play.0, play.1)
    requires Stops(Guard, SinkSide(o, setup, play) + more, n)
    ensures n == if Offers(o) then LAST else 1
  {
    var t := SinkSide(o, setup, play);
    var k := if n < LAST then n else 1;
    assert (t + more)[k] == t[k] && (t + more)[1] == t[1];
    SinkMessage(o, setup, play, k);
    SinkMessage(o, setup, play, 1);
  }
}
