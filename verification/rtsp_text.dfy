/** The text operations the RTSP parser is written in, with the meaning the language's standard library gives them. */
module RtspText {
  import opened SessionState

  /** Characters `strip` removes and `split` splits at. */
  predicate IsSpace(c: char) {
    var n := c as int;
    9 <= n <= 13 || 28 <= n <= 32 || n == 0x85 || n == 0xa0 || n == 0x1680 || 0x2000 <= n <= 0x200a
    || n == 0x2028 || n == 0x2029 || n == 0x202f || n == 0x205f || n == 0x3000
  }

  /** Characters `splitlines` ends a line at. */
  predicate IsBoundary(c: char) {
    var n := c as int;
    10 <= n <= 13 || 28 <= n <= 30 || n == 0x85 || n == 0x2028 || n == 0x2029
  }

  predicate OneLine(s: string) {
    forall k :: 0 <= k < |s| ==> !IsBoundary(s[k])
  }

  function Find(s: string, part: string): (at: Option<nat>)
    ensures at.Some? ==> at.value + |part| <= |s|
  {
    if part <= s then Some(0)
    else if s == "" then None
    else
      var later := Find(s[1..], part);
      if later.Some? then Some(later.value + 1) else None
  }

  lemma {:induction false} FoundOccurs(s: string, part: string)
    requires Find(s, part).Some?
    ensures part <= s[Find(s, part).value..]
  {
    if part <= s {
      assert s[0..] == s;
    } else {
      var later := Find(s[1..], part).value;
      FoundOccurs(s[1..], part);
      assert s[1..][later..] == s[later + 1..];
    }
  }

  /** Something is found exactly when `part` occurs somewhere. */
  lemma {:induction false} FindExactly(s: string, part: string)
    ensures Find(s, part).Some? <==> exists i :: 0 <= i <= |s| && part <= s[i..]
  {
    assert s[0..] == s;
    if s != "" && !(part <= s) {
      FindExactly(s[1..], part);
      forall i | 0 < i <= |s| ensures s[i..] == s[1..][i - 1..] {}
      if Find(s[1..], part).Some? {
        var i :| 0 <= i <= |s[1..]| && part <= s[1..][i..];
        assert s[i + 1..] == s[1..][i..];
      }
    }
  }

  function Partition(s: string, separator: string): Option<(string, string)> {
    var at := Find(s, separator);
    if at.Some? then Some((s[..at.value], s[at.value + |separator|..])) else None
  }

  /** An occurrence of `part` starts at no position of `before` in before + after. */
  predicate NoneStarts(before: string, after: string, part: string)
    decreases |before|
  {
    before == "" || (!(part <= before + after) && NoneStarts(before[1..], after, part))
  }

  lemma FindOneOn(c: char, rest: string, part: string)
    requires !(part <= [c] + rest) && Find(rest, part).Some?
    ensures Find([c] + rest, part) == Some(1 + Find(rest, part).value)
  {
    assert ([c] + rest)[1..] == rest;
  }

  lemma {:induction false} FindSkips(before: string, after: string, part: string)
    requires NoneStarts(before, after, part) && Find(after, part).Some?
    ensures Find(before + after, part) == Some(|before| + Find(after, part).value)
    decreases |before|
  {
    if before == "" {
      assert before + after == after;
    } else {
      var rest := before[1..] + after;
      FindSkips(before[1..], after, part);
      assert before + after == [before[0]] + rest;
      FindOneOn(before[0], rest, part);
    }
  }

  lemma FindHere(part: string, rest: string)
    ensures Find(part + rest, part) == Some(0)
  {
    assert part <= part + rest;
  }

  lemma CutAround(before: string, part: string, rest: string)
    ensures (before + (part + rest))[..|before|] == before
    ensures (before + (part + rest))[|before| + |part|..] == rest
  {
  }

  /** An occurrence with none before it is the one that is found. */
  lemma FindsFirst(before: string, part: string, rest: string)
    requires NoneStarts(before, part + rest, part)
    ensures Partition(before + (part + rest), part) == Some((before, rest))
  {
    FindHere(part, rest);
    FindSkips(before, part + rest, part);
    CutAround(before, part, rest);
  }

  function StripLeft(s: string): (r: string) {
    if s != "" && IsSpace(s[0]) then StripLeft(s[1..]) else s
  }

  function StripRight(s: string): (r: string) {
    if s != "" && IsSpace(s[|s| - 1]) then StripRight(s[..|s| - 1]) else s
  }

  function Strip(s: string): string { StripRight(StripLeft(s)) }

  predicate Stripped(s: string) {
    s != "" ==> !IsSpace(s[0]) && !IsSpace(s[|s| - 1])
  }

  lemma {:induction false} StripLeftStrips(s: string)
    ensures StripLeft(s) != "" ==> !IsSpace(StripLeft(s)[0])
    ensures OneLine(s) ==> OneLine(StripLeft(s))
  {
    if s != "" && IsSpace(s[0]) { StripLeftStrips(s[1..]); }
  }

  lemma {:induction false} StripRightStrips(s: string)
    ensures StripRight(s) <= s
    ensures StripRight(s) != "" ==> !IsSpace(StripRight(s)[|StripRight(s)| - 1])
  {
    if s != "" && IsSpace(s[|s| - 1]) { StripRightStrips(s[..|s| - 1]); }
  }

  lemma StripStrips(s: string)
    ensures Stripped(Strip(s)) && (OneLine(s) ==> OneLine(Strip(s)))
  {
    StripLeftStrips(s);
    StripRightStrips(StripLeft(s));
  }

  predicate Blank(s: string) { forall k :: 0 <= k < |s| ==> IsSpace(s[k]) }

  lemma {:induction false} StripLeftSkips(pad: string, s: string)
    requires Blank(pad)
    ensures StripLeft(pad + s) == StripLeft(s)
    decreases |pad|
  {
    if pad == "" {
      assert pad + s == s;
    } else {
      StripLeftSkips(pad[1..], s);
      assert (pad + s)[1..] == pad[1..] + s;
    }
  }

  lemma {:induction false} StripRightSkips(s: string, pad: string)
    requires Blank(pad)
    ensures StripRight(s + pad) == StripRight(s)
    decreases |pad|
  {
    if pad == "" {
      assert s + pad == s;
    } else {
      var front := pad[..|pad| - 1];
      StripRightSkips(s, front);
      assert (s + pad)[..|s + pad| - 1] == s + front;
    }
  }

  lemma StripPadded(a: string, s: string, b: string)
    requires Blank(a) && Stripped(s) && Blank(b)
    ensures Strip(a + s + b) == s
  {
    assert a + s + b == a + (s + b);
    StripLeftSkips(a, s + b);
    if s == "" {
      StripLeftSkips(b, "");
      assert s + b == b + "";
    } else {
      assert (s + b)[0] == s[0];
      StripRightSkips(s, b);
    }
  }

  lemma StripKeeps(s: string)
    requires Stripped(s)
    ensures Strip(s) == s
  {
  }

  /** Every CRLF becomes a single LF. */
  function Unfold(s: string): string {
    if s == "" then ""
    else if |s| >= 2 && s[0] == '\r' && s[1] == '\n' then "\n" + Unfold(s[2..])
    else [s[0]] + Unfold(s[1..])
  }

  function LineLength(s: string): (n: nat)
    ensures n <= |s| && OneLine(s[..n])
    ensures n < |s| ==> IsBoundary(s[n])
  {
    if s == "" || IsBoundary(s[0]) then 0
    else
      assert s[..LineLength(s[1..]) + 1] == [s[0]] + s[1..][..LineLength(s[1..])];
      1 + LineLength(s[1..])
  }

  function SplitLines(s: string): (lines: seq<string>)
    ensures forall k :: 0 <= k < |lines| ==> OneLine(lines[k])
    decreases |s|
  {
    if s == "" then []
    else
      var n := LineLength(s);
      if n == |s| then [s]
      else [s[..n]] + SplitLines(s[if n + 1 < |s| && s[n] == '\r' && s[n + 1] == '\n' then n + 2 else n + 1..])
  }

  function Lower(c: char): char {
    if 'A' <= c <= 'Z' then (c as int + 32) as char else c
  }

  function LowerAll(s: string): (r: string)
    ensures |r| == |s|
    ensures forall k :: 0 <= k < |s| ==> r[k] == Lower(s[k])
  {
    seq(|s|, k requires 0 <= k < |s| => Lower(s[k]))
  }
}
