/** UTF-8 (RFC 3629, section 3): the bytes of a string, and a decoder that knows nothing of the encoder. */
module Utf8 {
  import opened SessionState

  function BytesOf(c: char): (b: seq<int>)
    ensures |b| == if c as int < 0x80 then 1 else if c as int < 0x800 then 2 else if c as int < 0x1_0000 then 3 else 4
    ensures forall k :: 0 <= k < |b| ==> 0 <= b[k] < 0x100
  {
    var n := c as int;
    if n < 0x80 then [n]
    else if n < 0x800 then [0xc0 + n / 0x40, 0x80 + n % 0x40]
    else if n < 0x1_0000 then [0xe0 + n / 0x1000, 0x80 + n / 0x40 % 0x40, 0x80 + n % 0x40]
    else [0xf0 + n / 0x4_0000, 0x80 + n / 0x1000 % 0x40, 0x80 + n / 0x40 % 0x40, 0x80 + n % 0x40]
  }

  /** Each character in turn, by any coding of characters. */
  function Coded(code: char -> seq<int>, s: string): seq<int> {
    if s == "" then [] else code(s[0]) + Coded(code, s[1..])
  }

  function Encode(s: string): seq<int> { Coded(BytesOf, s) }

  predicate Continues(b: int) { 0x80 <= b < 0xc0 }

  /** How many bytes the character that starts with `b` has; 0 when none starts so. */
  function Width(b: int): nat {
    if 0 <= b < 0x80 then 1 else if 0xc0 <= b < 0xe0 then 2 else if 0xe0 <= b < 0xf0 then 3
    else if 0xf0 <= b < 0xf8 then 4 else 0
  }

  /** The code point of the first `w` bytes: the low bits of the first, then six of each that continues it. */
  function CodePoint(b: seq<int>, w: nat): int
    requires 1 <= w <= 4 && w <= |b|
  {
    if w == 1 then b[0]
    else if w == 2 then (b[0] - 0xc0) * 0x40 + (b[1] - 0x80)
    else if w == 3 then ((b[0] - 0xe0) * 0x40 + (b[1] - 0x80)) * 0x40 + (b[2] - 0x80)
    else (((b[0] - 0xf0) * 0x40 + (b[1] - 0x80)) * 0x40 + (b[2] - 0x80)) * 0x40 + (b[3] - 0x80)
  }

  function Decode(b: seq<int>): Option<seq<int>>
    decreases |b|
  {
    if b == [] then Some([])
    else
      var w := Width(b[0]);
      if w == 0 || w > |b| || exists k :: 1 <= k < w && !Continues(b[k]) then None
      else
        var later := Decode(b[w..]);
        if later.None? then None else Some([CodePoint(b, w)] + later.value)
  }

  function CodePoints(s: string): seq<int> { seq(|s|, k requires 0 <= k < |s| => s[k] as int) }

  lemma CharDecodes(c: char, more: seq<int>)
    ensures var b := BytesOf(c) + more;
      && Width(b[0]) == |BytesOf(c)| && CodePoint(b, |BytesOf(c)|) == c as int
      && forall k :: 1 <= k < |BytesOf(c)| ==> Continues(b[k])
  {
    var n := c as int;
    assert n == n / 0x40 * 0x40 + n % 0x40;
    assert n / 0x40 == n / 0x40 / 0x40 * 0x40 + n / 0x40 % 0x40 && n / 0x40 / 0x40 == n / 0x1000;
    assert n / 0x1000 == n / 0x1000 / 0x40 * 0x40 + n / 0x1000 % 0x40 && n / 0x1000 / 0x40 == n / 0x4_0000;
  }

  lemma DecodesOne(b: seq<int>, w: nat, n: int)
    requires 1 <= w <= 4 && w <= |b| && Width(b[0]) == w && CodePoint(b, w) == n
    requires forall k :: 1 <= k < w ==> Continues(b[k])
    ensures var later := Decode(b[w..]);
      Decode(b) == if later.None? then None else Some([n] + later.value)
  {}

  lemma DecodesChar(c: char, more: seq<int>)
    ensures var later := Decode(more);
      Decode(BytesOf(c) + more) == if later.None? then None else Some([c as int] + later.value)
  {
    var b := BytesOf(c);
    CharDecodes(c, more);
    DecodesOne(b + more, |b|, c as int);
    assert (b + more)[|b|..] == more;
  }

  /** The decoder gives the characters back. */
  lemma {:induction false} DecodesBack(s: string)
    ensures Decode(Encode(s)) == Some(CodePoints(s))
  {
    if s == "" {
      assert CodePoints(s) == [];
    } else {
      DecodesBack(s[1..]);
      DecodesChar(s[0], Encode(s[1..]));
      assert CodePoints(s) == [s[0] as int] + CodePoints(s[1..]);
    }
  }

  lemma {:induction false} CodedJoins(code: char -> seq<int>, a: string, b: string)
    ensures Coded(code, a + b) == Coded(code, a) + Coded(code, b)
  {
    if a == "" {
      assert a + b == b;
    } else {
      CodedJoins(code, a[1..], b);
      assert (a + b)[1..] == a[1..] + b;
    }
  }

  /** Encoding goes by pieces. */
  lemma EncodeJoins(a: string, b: string)
    ensures Encode(a + b) == Encode(a) + Encode(b)
  {
    CodedJoins(BytesOf, a, b);
  }

  predicate Ascii(s: string) { forall k :: 0 <= k < |s| ==> s[k] as int < 0x80 }

  /** ASCII text is its own encoding. */
  lemma {:induction false} AsciiIsItself(s: string)
    requires Ascii(s)
    ensures Encode(s) == CodePoints(s) && |Encode(s)| == |s|
  {
    if s != "" {
      AsciiIsItself(s[1..]);
      assert CodePoints(s) == [s[0] as int] + CodePoints(s[1..]);
    }
  }
}
