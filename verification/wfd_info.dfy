/** The subelement walk of the Wi-Fi Display Technical Specification, section 5.1.2 (device information). */
module WfdInfo {
  import opened ByteTail
  import opened SessionState

  type Word = w: int | 0 <= w < 0x1_0000

  datatype Info = Info(device: Word, port: Word, throughput: Word)

  datatype Element = Element(id: Byte, body: Bytes)

  predicate Encodable(e: Element) { |e.body| < 0x1_0000 }

  function Big(hi: Byte, lo: Byte): (w: Word) { hi * 256 + lo }

  function WordBytes(w: Word): (b: Bytes)
    ensures |b| == 2 && Big(b[0], b[1]) == w
  {
    [w / 256, w % 256]
  }

  function InfoBytes(i: Info): (b: Bytes)
    ensures |b| == 6
  {
    WordBytes(i.device) + WordBytes(i.port) + WordBytes(i.throughput)
  }

  function Encode(e: Element): (b: Bytes)
    requires Encodable(e)
    ensures |b| == 3 + |e.body|
  {
    [e.id] + WordBytes(|e.body|) + e.body
  }

  predicate Others(es: seq<Element>) {
    forall k :: 0 <= k < |es| ==> Encodable(es[k]) && es[k].id != 0
  }

  function EncodeAll(es: seq<Element>): Bytes
    requires Others(es)
  {
    if es == [] then [] else Encode(es[0]) + EncodeAll(es[1..])
  }

  /** The walk as a recursion over what is left. */
  function Lookup(s: Bytes): Option<Info>
    decreases |s|
  {
    if |s| < 3 || |s| < 3 + Big(s[1], s[2]) then None
    else if s[0] != 0 then Lookup(s[3 + Big(s[1], s[2])..])
    else if Big(s[1], s[2]) != 6 then None
    else Some(Info(Big(s[3], s[4]), Big(s[5], s[6]), Big(s[7], s[8])))
  }

  method DeviceInfo(values: Bytes) returns (r: Option<Info>)
    ensures r == Lookup(values)
    ensures |values| >= 9 && values[..3] == [0, 0, 6] ==>
              && r.Some? && r.value.device == 256 * (values[3] as int) + values[4]
              && r.value.port == 256 * (values[5] as int) + values[6]
              && r.value.throughput == 256 * (values[7] as int) + values[8]
  {
    assert |values| >= 3 ==> values[..3] == [values[0], values[1], values[2]];
    var offset := 0;
    while offset + 3 <= |values|
      invariant offset <= |values| && Lookup(values) == Lookup(values[offset..])
      decreases |values| - offset
    {
      var id, length := values[offset], Big(values[offset + 1], values[offset + 2]);
      var end := offset + 3 + length;
      if end > |values| { return None; }
      if id == 0 {
        if length != 6 { return None; }
        return Some(Info(Big(values[offset + 3], values[offset + 4]), Big(values[offset + 5], values[offset + 6]),
                         Big(values[offset + 7], values[offset + 8])));
      }
      assert values[offset..][3 + length..] == values[end..];
      offset := end;
    }
    return None;
  }

  lemma LookupPast(e: Element, rest: Bytes)
    requires Encodable(e) && e.id != 0
    ensures Lookup(Encode(e) + rest) == Lookup(rest)
  {
    var s := Encode(e) + rest;
    assert s[1] == WordBytes(|e.body|)[0] && s[2] == WordBytes(|e.body|)[1];
    assert s[3 + |e.body|..] == rest;
  }

  /** Subelements with other ids do not change what is found. */
  lemma {:induction false} OthersAreSkipped(es: seq<Element>, rest: Bytes)
    requires Others(es)
    ensures Lookup(EncodeAll(es) + rest) == Lookup(rest)
    decreases |es|
  {
    if es == [] {
      assert EncodeAll(es) + rest == rest;
    } else {
      OthersAreSkipped(es[1..], rest);
      LookupPast(es[0], EncodeAll(es[1..]) + rest);
      assert EncodeAll(es) + rest == Encode(es[0]) + (EncodeAll(es[1..]) + rest);
    }
  }

  lemma HeaderRoundTrip(hi: Byte, lo: Byte)
    ensures WordBytes(Big(hi, lo)) == [hi, lo]
  {
  }

  lemma InfoOfBody(body: Bytes)
    requires |body| == 6
    ensures InfoBytes(Info(Big(body[0], body[1]), Big(body[2], body[3]), Big(body[4], body[5]))) == body
  {
    HeaderRoundTrip(body[0], body[1]);
    HeaderRoundTrip(body[2], body[3]);
    HeaderRoundTrip(body[4], body[5]);
  }

  lemma ZeroDecides(body: Bytes, rest: Bytes)
    requires |body| < 0x1_0000
    ensures var found := Lookup(Encode(Element(0, body)) + rest);
            if |body| == 6 then found.Some? && InfoBytes(found.value) == body else found == None
  {
    var s := Encode(Element(0, body)) + rest;
    assert s[1] == WordBytes(|body|)[0] && s[2] == WordBytes(|body|)[1];
    if |body| == 6 {
      assert s[3] == body[0] && s[4] == body[1] && s[5] == body[2];
      assert s[6] == body[3] && s[7] == body[4] && s[8] == body[5];
      InfoOfBody(body);
    }
  }

  /** The first id-0 subelement decides, by its length alone. */
  lemma FirstZeroDecides(es: seq<Element>, body: Bytes, rest: Bytes)
    requires Others(es) && |body| < 0x1_0000
    ensures var found := Lookup(EncodeAll(es) + (Encode(Element(0, body)) + rest));
            if |body| == 6 then found.Some? && InfoBytes(found.value) == body else found == None
  {
    OthersAreSkipped(es, Encode(Element(0, body)) + rest);
    ZeroDecides(body, rest);
  }

  predicate Holds(s: Bytes, i: Info, es: seq<Element>, rest: Bytes) {
    Others(es) && s == EncodeAll(es) + (Encode(Element(0, InfoBytes(i))) + rest)
  }

  lemma InfoBytesInjective(i: Info, j: Info)
    requires InfoBytes(i) == InfoBytes(j)
    ensures i == j
  {
    var a, b := InfoBytes(i), InfoBytes(j);
    assert a[0] == b[0] && a[1] == b[1] && a[2] == b[2] && a[3] == b[3] && a[4] == b[4] && a[5] == b[5];
    assert Big(a[0], a[1]) == i.device && Big(a[2], a[3]) == i.port && Big(a[4], a[5]) == i.throughput;
    assert Big(b[0], b[1]) == j.device && Big(b[2], b[3]) == j.port && Big(b[4], b[5]) == j.throughput;
  }

  function Head(s: Bytes): (e: Element)
    requires |s| >= 3 && |s| >= 3 + Big(s[1], s[2])
    ensures Encodable(e)
  {
    Element(s[0], s[3..3 + Big(s[1], s[2])])
  }

  lemma HeadSplits(s: Bytes)
    requires |s| >= 3 && |s| >= 3 + Big(s[1], s[2])
    ensures s == Encode(Head(s)) + s[3 + Big(s[1], s[2])..]
  {
    HeaderRoundTrip(s[1], s[2]);
  }

  lemma {:induction false} FoundIsEncoded(s: Bytes) returns (es: seq<Element>, rest: Bytes)
    requires Lookup(s).Some?
    ensures Holds(s, Lookup(s).value, es, rest)
    decreases |s|
  {
    HeadSplits(s);
    var more := s[3 + Big(s[1], s[2])..];
    if s[0] == 0 {
      InfoOfBody(Head(s).body);
      es, rest := [], more;
    } else {
      var later;
      later, rest := FoundIsEncoded(more);
      es := [Head(s)] + later;
      PrependHolds(Head(s), more, s, Lookup(s).value, later, rest);
    }
  }

  lemma PrependHolds(e: Element, more: Bytes, s: Bytes, i: Info, es: seq<Element>, rest: Bytes)
    requires Encodable(e) && e.id != 0 && Holds(more, i, es, rest) && s == Encode(e) + more
    ensures Holds(s, i, [e] + es, rest)
  {
    assert ([e] + es)[1..] == es;
    assert EncodeAll([e] + es) == Encode(e) + EncodeAll(es);
  }

  /** Something is found exactly where it was encoded: after other subelements only, and followed by anything. */
  lemma LookupExactly(s: Bytes, i: Info)
    ensures Lookup(s) == Some(i) <==> exists es: seq<Element>, rest: Bytes :: Holds(s, i, es, rest)
  {
    if Lookup(s) == Some(i) {
      var es, rest := FoundIsEncoded(s);
      assert Holds(s, i, es, rest);
    }
    forall es: seq<Element>, rest: Bytes | Holds(s, i, es, rest) ensures Lookup(s) == Some(i) {
      FirstZeroDecides(es, InfoBytes(i), rest);
      InfoBytesInjective(Lookup(s).value, i);
    }
  }

  // ---- the bytes by their place value ----

  /** The length of an element is written high byte first. */
  lemma EncodedByPlace(e: Element, hi: Byte, lo: Byte)
    requires |e.body| == 256 * hi + lo
    ensures Encodable(e) && Encode(e) == [e.id, hi, lo] + e.body
  {
    assert (256 * hi + lo) / 256 == hi;
  }

  /** Other elements, whatever they hold, then the nine bytes of the device information: each word is 256 times its
      first byte plus its second. */
  lemma FoundByPlace(es: seq<Element>, device: (Byte, Byte), port: (Byte, Byte), throughput: (Byte, Byte), rest: Bytes)
    requires Others(es)
    ensures var bytes: Bytes := [0, 0, 6, device.0, device.1, port.0, port.1, throughput.0, throughput.1];
      var found := Lookup(EncodeAll(es) + (bytes + rest));
      && found.Some? && found.value.device == 256 * device.0 + device.1
      && found.value.port == 256 * port.0 + port.1
      && found.value.throughput == 256 * throughput.0 + throughput.1
  {
    var bytes: Bytes := [0, 0, 6, device.0, device.1, port.0, port.1, throughput.0, throughput.1];
    OthersAreSkipped(es, bytes + rest);
  }

  /** An element that is skipped takes three bytes and the 256 times high plus low of its length. */
  lemma SkippedByPlace(id: Byte, hi: Byte, lo: Byte, body: Bytes, rest: Bytes)
    requires id != 0 && |body| == 256 * hi + lo
    ensures Lookup(([id, hi, lo] + body) + rest) == Lookup(rest)
  {
    EncodedByPlace(Element(id, body), hi, lo);
    LookupPast(Element(id, body), rest);
  }

  /** An element that says it is longer than what is left ends the walk. */
  lemma TooLongByPlace(id: Byte, hi: Byte, lo: Byte, body: Bytes)
    requires |body| < 256 * hi + lo
    ensures Lookup([id, hi, lo] + body) == None
  {
  }
}
