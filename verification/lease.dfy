/** The heartbeat file: how it is renewed and how it is read. */
module Lease {
  import opened ByteTail
  import opened Decimal
  import opened SessionState

  const READ_LIMIT := 32
  const MAX_DIGITS := 12

  function Encode(value: nat): (s: string) {
    Digits(value) + "\n"
  }

  // ---- the writer: one renewal is a truncation followed by writes of any size ----

  datatype Writer = Resting | Encoded(value: nat) | Writing(value: nat, offset: nat)

  /** `owner` is the value of the last renewal that truncated the file. */
  datatype State = State(content: string, writer: Writer, owner: Option<nat>)

  datatype Action = Begin(value: nat) | Truncate | Write(count: nat) | Finish | GiveUp

  function Step(s: State, a: Action): (r: Option<State>) {
    match a
    case Begin(value) => if s.writer.Resting? then Some(s.(writer := Encoded(value))) else None
    case Truncate =>
      if s.writer.Encoded? then Some(State("", Writing(s.writer.value, 0), Some(s.writer.value))) else None
    case Write(count) =>
      if s.writer.Writing? && 0 < count <= |Encode(s.writer.value)| - s.writer.offset && s.writer.offset <= |s.content|
      then
        var view := Encode(s.writer.value)[s.writer.offset..][..count];
        Some(s.(content := Overwritten(s.content, view, s.writer.offset),
                writer := Writing(s.writer.value, s.writer.offset + count)))
      else None
    case Finish =>
      if s.writer.Writing? && s.writer.offset == |Encode(s.writer.value)| <= |s.content|
      then Some(s.(content := s.content[..s.writer.offset], writer := Resting))
      else None
    case GiveUp => if s.writer.Resting? then None else Some(s.(writer := Resting))
  }

  /** The state after a run of the writer; None when some action was not possible. */
  function After(content: string, actions: seq<Action>): Option<State> {
    if actions == [] then Some(State(content, Resting, None))
    else
      var s := After(content, actions[..|actions| - 1]);
      if s.Some? then Step(s.value, actions[|actions| - 1]) else None
  }

  predicate Inv(s: State) {
    && (s.owner.Some? ==> s.content <= Encode(s.owner.value))
    && (s.writer.Writing? ==>
          s.owner == Some(s.writer.value) && |s.content| == s.writer.offset <= |Encode(s.writer.value)|)
  }

  lemma StepKeepsInv(s: State, a: Action)
    requires Inv(s) && Step(s, a).Some?
    ensures Inv(Step(s, a).value)
  {
    if a.Write? {
      var whole := Encode(s.writer.value);
      assert whole[..s.writer.offset] + whole[s.writer.offset..][..a.count] == whole[..s.writer.offset + a.count];
    }
  }

  lemma {:induction false} RunKeepsInv(content: string, actions: seq<Action>)
    requires After(content, actions).Some?
    ensures Inv(After(content, actions).value)
  {
    if actions != [] {
      RunKeepsInv(content, actions[..|actions| - 1]);
      StepKeepsInv(After(content, actions[..|actions| - 1]).value, actions[|actions| - 1]);
    }
  }

  lemma OneMore(content: string, actions: seq<Action>, a: Action)
    requires After(content, actions).Some?
    ensures After(content, actions + [a]) == Step(After(content, actions).value, a)
  {
    assert (actions + [a])[..|actions|] == actions;
  }

  lemma WriteAppends(value: nat, offset: nat, count: nat)
    requires 0 < count && offset + count <= |Encode(value)|
    ensures var (whole, content) := (Encode(value), Encode(value)[..offset]);
            && Overwritten(content, whole[offset..][..count], offset) == whole[..offset + count]
            && Step(State(content, Writing(value, offset), Some(value)), Write(count)) ==
               Some(State(whole[..offset + count], Writing(value, offset + count), Some(value)))
  {
    var whole := Encode(value);
    assert whole[..offset] + whole[offset..][..count] == whole[..offset + count];
  }

  class SessionLease {
    var content: string

    constructor (content: string)
      ensures this.content == content
    {
      this.content := content;
    }

    /**
     * One renewal: any write may store part of what it was given, and any call may fail; it succeeds when none does.
     * `actions` are its steps, so a reader in between two of them sees what the step machine says.
     */
    method Renew(value: nat, calls: Calls) returns (ok: bool, ghost actions: seq<Action>)
      modifies this
      ensures After(old(content), actions).Some?
      ensures After(old(content), actions).value.content == content
      ensures After(old(content), actions).value.writer == Resting
      ensures if ok then content == Encode(value) else content == old(content) || content <= Encode(value)
      ensures NothingFails(calls) ==> ok
      ensures ok ==> calls.opens && calls.trims
    {
      ghost var first := content;
      actions := [Begin(value)];
      OneMore(first, [], Begin(value));
      assert [] + [Begin(value)] == actions;
      if !calls.opens {
        OneMore(first, actions, GiveUp);
        return false, actions + [GiveUp];
      }
      OneMore(first, actions, Truncate);
      content, actions := "", actions + [Truncate];
      ok, actions := WriteWhole(value, calls, first, actions);
    }

    /** The write loop and the last truncation. */
    method WriteWhole(value: nat, calls: Calls, ghost first: string, ghost before: seq<Action>)
      returns (ok: bool, ghost actions: seq<Action>)
      requires After(first, before) == Some(State(content, Writing(value, 0), Some(value))) && content == ""
      modifies this
      ensures After(first, actions) == Some(State(content, Resting, Some(value)))
      ensures if ok then content == Encode(value) else content <= Encode(value)
      ensures NothingFails(calls) ==> ok
      ensures ok ==> calls.trims
    {
      actions := before;
      var encoded := Encode(value);
      var view, offset, k := encoded, 0, 0;
      while view != ""
        invariant offset <= |encoded| && view == encoded[offset..] && content == encoded[..offset]
        invariant After(first, actions) == Some(State(content, Writing(value, offset), Some(value)))
        decreases |view|
      {
        var written := Stored(calls, k, |view|);
        if written <= 0 {
          OneMore(first, actions, GiveUp);
          return false, actions + [GiveUp];
        }
        WriteAppends(value, offset, written);
        OneMore(first, actions, Write(written));
        content, actions := Overwritten(content, view[..written], offset), actions + [Write(written)];
        offset, view, k := offset + written, view[written..], k + 1;
      }
      if !calls.trims {
        OneMore(first, actions, GiveUp);
        return false, actions + [GiveUp];
      }
      OneMore(first, actions, Finish);
      content, actions := content[..|encoded|], actions + [Finish];
      return true, actions;
    }
  }

  // ---- the reader: one bounded read of the first line ----

  function LineLength(s: string): (n: nat)
    ensures n <= |s|
  {
    if s == "" || s[0] == '\n' then 0 else 1 + LineLength(s[1..])
  }

  /** What the shell's `read -n 32` leaves in its variable; None when it reports the end of the file. */
  function ReadLine(content: string): Option<string> {
    var n := LineLength(content);
    if n < |content| && n < READ_LIMIT then Some(content[..n])
    else if |content| >= READ_LIMIT then Some(content[..READ_LIMIT])
    else None
  }

  /** Shell arithmetic takes a numeral with a leading zero as octal. */
  function ShellNumber(s: string): Option<nat>
    requires AllDigits(s) && s != []
  {
    if s[0] != '0' || |s| == 1 then Some(Value(s, 10))
    else if forall k :: 0 <= k < |s| ==> s[k] <= '7' then Some(Value(s, 8))
    else None
  }

  /** A reader's verdict when its clock shows `now` seconds. */
  predicate Accepts(content: string, now: nat, lease: nat) {
    var line := ReadLine(content);
    && line.Some?
    && 1 <= |line.value| <= MAX_DIGITS && AllDigits(line.value)
    && ShellNumber(line.value).Some?
    && ShellNumber(line.value).value <= now <= ShellNumber(line.value).value + lease
  }

  lemma {:induction false} LineLengthOfDigits(digits: string, rest: string)
    requires AllDigits(digits)
    ensures LineLength(digits + rest) == |digits| + LineLength(rest)
  {
    if digits == "" {
      assert digits + rest == rest;
    } else {
      LineLengthOfDigits(digits[1..], rest);
      assert (digits + rest)[1..] == digits[1..] + rest;
    }
  }

  lemma PrefixVerdict(content: string, value: nat, now: nat, lease: nat)
    requires content <= Encode(value)
    ensures Accepts(content, now, lease) <==>
            content == Encode(value) && value < Power(MAX_DIGITS) && value <= now <= value + lease
  {
    var digits := Digits(value);
    DigitsRoundTrip(value);
    DigitsLength(value, MAX_DIGITS);
    if content == Encode(value) {
      LineLengthOfDigits(digits, "\n");
      assert content[..|digits|] == digits;
      if |digits| >= READ_LIMIT { assert |content[..READ_LIMIT]| == READ_LIMIT; }
    } else {
      assert content == digits[..|content|];
      LineLengthOfDigits(content, "");
      assert content + "" == content;
    }
  }

  /**
   * However the writer was interrupted, once a renewal has truncated the file a reader accepts it exactly when it
   * holds one whole renewal, newline included, and that renewal is neither ahead of the clock nor too old.
   */
  lemma AcceptedIsOneWholeRenewal(content: string, actions: seq<Action>, now: nat, lease: nat)
    requires After(content, actions).Some? && After(content, actions).value.owner.Some?
    ensures var s := After(content, actions).value;
            var value := s.owner.value;
            Accepts(s.content, now, lease) <==>
            s.content == Encode(value) && value < Power(MAX_DIGITS) && value <= now <= value + lease
  {
    RunKeepsInv(content, actions);
    PrefixVerdict(After(content, actions).value.content, After(content, actions).value.owner.value, now, lease);
  }

  /** A look between the truncation and the last byte of a renewal ends the lease, however recent the one before. */
  lemma LookDuringRenewalExpires(content: string, actions: seq<Action>, now: nat, lease: nat)
    requires After(content, actions).Some?
    requires After(content, actions).value.writer.Writing?
    requires After(content, actions).value.writer.offset < |Encode(After(content, actions).value.writer.value)|
    ensures !Accepts(After(content, actions).value.content, now, lease)
  {
    RunKeepsInv(content, actions);
    AcceptedIsOneWholeRenewal(content, actions, now, lease);
  }

  function Renewal(value: nat): (actions: seq<Action>) {
    [Begin(value), Truncate, Write(|Encode(value)|), Finish]
  }

  /** Such a look is possible in the middle of a renewal that follows an earlier, still fresh one. */
  lemma LookDuringRenewalHappens(value: nat, now: nat, lease: nat)
    requires value <= now <= value + lease && now < Power(MAX_DIGITS)
    ensures var before := After("", Renewal(value));
            var during := After("", Renewal(value) + [Begin(now), Truncate]);
            && before.Some? && Accepts(before.value.content, now, lease)
            && during.Some? && !Accepts(during.value.content, now, lease)
  {
    var r := Renewal(value);
    RenewalCompletes(value);
    RunKeepsInv("", r);
    PrefixVerdict(Encode(value), value, now, lease);
    var r1, r2 := r + [Begin(now)], r + [Begin(now), Truncate];
    assert r1[..|r1| - 1] == r && r2[..|r2| - 1] == r1;
    LookDuringRenewalExpires("", r2, now, lease);
  }

  lemma RenewalCompletes(value: nat)
    ensures After("", Renewal(value)) == Some(State(Encode(value), Resting, Some(value)))
  {
    var r, whole := Renewal(value), Encode(value);
    var r1, r2, r3 := r[..1], r[..2], r[..3];
    assert r1[..0] == [] && r2[..1] == r1 && r3[..2] == r2 && r[..3] == r3;
    assert After("", r1[..0]) == Some(State("", Resting, None));
    assert After("", r1) == Some(State("", Encoded(value), None));
    assert After("", r2) == Some(State("", Writing(value, 0), Some(value)));
    assert whole[0..][..|whole|] == whole && Overwritten("", whole, 0) == whole;
    assert After("", r3) == Some(State(whole, Writing(value, |whole|), Some(value)));
    assert whole[..|whole|] == whole;
  }
}
