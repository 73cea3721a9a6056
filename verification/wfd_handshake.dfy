/** The source side of the Wi-Fi Display handshake, driven over recorded messages. */
module WfdHandshake {
  import opened Handshake
  import opened Rtsp
  import opened RtspText
  import opened SessionState

  predicate Contains(s: string, part: string) { Find(s, part).Some? }

  function FirstWord(s: string): string {
    if s == "" || IsSpace(s[0]) then "" else [s[0]] + FirstWord(s[1..])
  }

  /** The value of the last line of the body that sets the parameter; "" when none does. */
  function Parameter(lines: seq<string>, name: string): string {
    if lines == [] then ""
    else
      var parts := Partition(lines[|lines| - 1], ":");
      if parts.Some? && LowerAll(Strip(parts.value.0)) == name then Strip(parts.value.1)
      else Parameter(lines[..|lines| - 1], name)
  }

  predicate Usable(value: string) { value != "" && LowerAll(value) != "none" }

  function ParameterOf(m: Message, name: string): string { Parameter(SplitLines(m.body), name) }

  predicate Acknowledges(m: Message, cseq: string) {
    IsResponse(m.start) && "cseq" in m.headers && m.headers["cseq"] == cseq && Contains(m.start, "200")
  }

  predicate Requests(m: Message, name: string) {
    !IsResponse(m.start) && FirstWord(m.start) == name
  }

  /** What the handshake asks of its k-th message. */
  predicate GuardHolds(k: nat, m: Message) {
    match k
    case 0 => Acknowledges(m, "1")
    case 1 =>
      && Acknowledges(m, "2")
      && Contains(ParameterOf(m, "wfd_client_rtp_ports"), "RTP/AVP/UDP;unicast")
      && Usable(ParameterOf(m, "wfd_video_formats"))
    case 2 => Acknowledges(m, "3")
    case 3 => Acknowledges(m, "4")
    case 4 => Requests(m, "SETUP")
    case 5 => Requests(m, "PLAY")
    case _ => false
  }

  predicate Guard(k: nat, raw: string) {
    Parse(raw).Some? && GuardHolds(k, Parse(raw).value)
  }

  predicate AudioIn(raw: string) {
    Parse(raw).Some? && Usable(ParameterOf(Parse(raw).value, "wfd_audio_codecs"))
  }

  /** M3 was answered and lists a usable audio codec. */
  predicate Audio(t: seq<string>, n: nat)
    requires n <= |t|
  {
    n >= 2 && AudioIn(t[1])
  }

  /** The handshake stops after the first `n` messages, and its result follows from that alone. */
  method RunWfdFixture(transcript: seq<string>) returns (r: Result, n: nat)
    ensures Stops(Guard, transcript, n) && r == Ended(n, |transcript|, Audio(transcript, n))
  {
    r, n := Drive(Guard, AudioIn, transcript);
  }

  /** Completed exactly when the first six messages pass the six guards in order. */
  lemma CompletedExactly(t: seq<string>, n: nat)
    requires Stops(Guard, t, n)
    ensures var s := Ended(n, |t|, Audio(t, n)).status;
            && (s == Completed <==> |t| >= LAST && forall k :: 0 <= k < LAST ==> Guard(k, t[k]))
            && (s == Timeout <==> |t| < LAST && forall k :: 0 <= k < |t| ==> Guard(k, t[k]))
  {
    StatusExactly(Guard, t, n, Audio(t, n));
  }
}
