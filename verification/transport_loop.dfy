/** The supervision loop of a guarded transport run: connect, stream, and when to leave. */
module TransportLoop {
  import opened Decimal
  import opened Liveness
  import opened SessionState

  const CONNECT_SECONDS: real := 75.0
  const CAPTURE_SECONDS: real := 30.0
  const MAX_FRAME: nat := 0x7fff_ffff_ffff_ffff

  // ---- the media progress log ----

  /** A line of the log: `key=value`, stripped, or a line without `=`. */
  datatype Entry = Field(key: string, value: string) | Noise

  predicate IsFrame(e: Entry) { e.Field? && e.key == "frame" }

  predicate EndsRecord(e: Entry) { e.Field? && e.key == "progress" }

  predicate PositiveFrame(value: string) {
    1 <= |value| <= 20 && AllDigits(value) && 0 < Value(value, 10) <= MAX_FRAME
  }

  /** The last completed record ends at `p`, its frame count is the one at `f`, and that is positive. */
  predicate LastRecordHasFrame(log: seq<Entry>, f: nat, p: nat) {
    && f < p < |log|
    && EndsRecord(log[p]) && (forall k :: p < k < |log| ==> !EndsRecord(log[k]))
    && IsFrame(log[f]) && (forall k :: f < k < p ==> !IsFrame(log[k]) && !EndsRecord(log[k]))
    && PositiveFrame(log[f].value)
  }

  ghost predicate MediaStarted(log: seq<Entry>) {
    exists f: nat, p: nat :: LastRecordHasFrame(log, f, p)
  }

  /** `at` is the last frame line of the record log[from..to], if it has one. */
  ghost predicate FrameOf(log: seq<Entry>, from: nat, to: nat, at: Option<nat>)
    requires from <= to <= |log|
  {
    && (forall k :: from <= k < to ==> !EndsRecord(log[k]))
    && (at.Some? ==> from <= at.value < to && IsFrame(log[at.value]))
    && forall k :: (if at.Some? then at.value + 1 else from) <= k < to ==> !IsFrame(log[k])
  }

  method MediaStartedText(log: seq<Entry>) returns (started: bool)
    ensures started <==> MediaStarted(log)
  {
    var record: Option<nat> := None;
    var completed: Option<nat> := None;
    ghost var from := 0;
    ghost var last: Option<(nat, nat)> := None;   // the last completed record
    for k := 0 to |log|
      invariant from <= k && FrameOf(log, from, k, record)
      invariant if last.None? then from == 0 && completed == None
                else LastRecord(log, last.value, from) && FrameOf(log, last.value.0, last.value.1, completed)
    {
      if IsFrame(log[k]) { record := Some(k); }
      if EndsRecord(log[k]) {
        last, completed, from := Some((from, k)), record, k + 1;
        record := None;
      }
    }
    started := completed.Some? && PositiveFrame(log[completed.value].value);
    if started { assert LastRecordHasFrame(log, completed.value, last.value.1); }
    if MediaStarted(log) {
      var f: nat, p: nat :| LastRecordHasFrame(log, f, p);
      assert last.Some? && p == last.value.1;
      assert completed == Some(f);
    }
  }

  predicate LastRecord(log: seq<Entry>, record: (nat, nat), next: nat) {
    && record.0 <= record.1 < |log| && next == record.1 + 1
    && EndsRecord(log[record.1])
    && (record.0 == 0 || EndsRecord(log[record.0 - 1]))
  }

  // ---- the loop ----

  /**
   * What one iteration sees.  `exited` and `clock` are the loop's guard, `exitedAfter` the second poll after the loop;
   * `raises` is the stage callback failing.
   */
  datatype Look = Look(
    exited: bool, exitedAfter: bool, clock: real, cancelled: bool, now: real, rtsp: Option<bool>,
    progress: seq<Entry>, group: Option<bool>, raises: bool)

  datatype Code = NoCode | PairingLost | NegotiationTimeout | CaptureFailed | EngineFailed

  datatype Ended = Completed | Cancelled | TimedOut | Failed(code: Code) | Raised

  /** `deadline` is None for an unbounded session; `exitCode` is the engine's. */
  datatype Plan = Plan(start: real, deadline: Option<real>, exitCode: int)

  datatype Stage = ConnectingStage | StreamingStage

  predicate RtspUp(l: Look) { l.rtsp.Some? && l.rtsp.value }

  /** What the loop has established: `streaming` was reported, and when the RTSP socket was seen. */
  datatype Progress = Progress(streaming: bool, rtspReadyAt: Option<real>)

  ghost function Advance(before: Progress, l: Look): Progress {
    var ready := if before.rtspReadyAt.None? && RtspUp(l) then Some(l.now) else before.rtspReadyAt;
    Progress(before.streaming || (ready.Some? && MediaStarted(l.progress)), ready)
  }

  ghost function ProgressOf(looks: seq<Look>): Progress {
    if looks == [] then Progress(false, None) else Advance(ProgressOf(looks[..|looks| - 1]), looks[|looks| - 1])
  }

  /** `r` is the first look that saw this engine's established RTSP socket. */
  predicate FirstRtsp(looks: seq<Look>, r: nat) {
    r < |looks| && RtspUp(looks[r]) && forall k :: 0 <= k < r ==> !RtspUp(looks[k])
  }

  /** A positive completed frame record was seen at or after the RTSP connection. */
  ghost predicate StreamSeen(looks: seq<Look>, i: nat, j: nat) {
    i <= j < |looks| && RtspUp(looks[i]) && MediaStarted(looks[j].progress)
  }

  lemma {:induction false} RtspExactly(looks: seq<Look>, r: nat)
    ensures FirstRtsp(looks, r) ==> ProgressOf(looks).rtspReadyAt == Some(looks[r].now)
    ensures ProgressOf(looks).rtspReadyAt.None? <==> forall k :: 0 <= k < |looks| ==> !RtspUp(looks[k])
  {
    if looks != [] {
      var earlier := looks[..|looks| - 1];
      RtspExactly(earlier, r);
      if r < |earlier| { assert FirstRtsp(looks, r) <==> FirstRtsp(earlier, r); }
    }
  }

  lemma {:induction false} StreamingExactly(looks: seq<Look>)
    ensures ProgressOf(looks).streaming <==> exists i: nat, j: nat :: StreamSeen(looks, i, j)
  {
    if looks != [] {
      var earlier, last := looks[..|looks| - 1], |looks| - 1;
      StreamingExactly(earlier);
      RtspExactly(looks, 0);
      if ProgressOf(earlier).streaming {
        var i: nat, j: nat :| StreamSeen(earlier, i, j);
        assert StreamSeen(looks, i, j);
      } else if ProgressOf(looks).streaming {
        var i :| 0 <= i < |looks| && RtspUp(looks[i]);
        assert StreamSeen(looks, i, last);
      }
      forall i: nat, j: nat | StreamSeen(looks, i, j) ensures ProgressOf(looks).streaming {
        if j < last { assert StreamSeen(earlier, i, j); }
      }
    }
  }

  function Observed(looks: seq<Look>): (h: seq<Observation>) {
    if looks == [] then []
    else Observed(looks[..|looks| - 1]) + [Observation(looks[|looks| - 1].group, looks[|looks| - 1].now)]
  }

  /** The engine was running and the session's time not up when the look began. */
  predicate Enters(l: Look, plan: Plan) {
    !l.exited && (plan.deadline.None? || l.clock < plan.deadline.value)
  }

  /** How a look ends the loop, if it does. */
  function Judge(l: Look, plan: Plan, before: Progress, after: Progress, lost: bool): Option<Ended> {
    if !Enters(l, plan) then
      if l.exited || l.exitedAfter then Some(if plan.exitCode == 0 then Completed else Failed(EngineFailed))
      else if before.streaming then Some(TimedOut)
      else Some(Failed(if before.rtspReadyAt.None? then NegotiationTimeout else CaptureFailed))
    else if l.cancelled then Some(Cancelled)
    else if after.streaming && !before.streaming && l.raises then Some(Raised)
    else if lost then Some(if after.streaming then Completed else Failed(PairingLost))
    else if after.rtspReadyAt.None? && l.now >= plan.start + CONNECT_SECONDS then Some(Failed(NegotiationTimeout))
    else if !after.streaming && after.rtspReadyAt.Some? && l.now - after.rtspReadyAt.value >= CAPTURE_SECONDS then
      Some(Failed(CaptureFailed))
    else None
  }

  /** How the last of these looks ends the loop, if it does. */
  ghost function Verdict(looks: seq<Look>, plan: Plan): Option<Ended>
    requires looks != []
  {
    Judge(looks[|looks| - 1], plan, ProgressOf(looks[..|looks| - 1]), ProgressOf(looks), Lost(Observed(looks)))
  }

  /** The loop goes on after every one of these looks. */
  ghost predicate GoesOn(looks: seq<Look>, plan: Plan) {
    forall k :: 0 < k <= |looks| ==> Verdict(looks[..k], plan) == None
  }

  /** `streaming` is reported at a look that is entered and not cancelled, even when the report then fails. */
  ghost predicate Reported(looks: seq<Look>, plan: Plan) {
    && looks != []
    && var l := looks[|looks| - 1];
       if Enters(l, plan) && !l.cancelled then ProgressOf(looks).streaming
       else ProgressOf(looks[..|looks| - 1]).streaming
  }

  function AfterLoop(exited: bool, exitCode: int, streaming: bool, rtspReadyAt: Option<real>): Ended {
    if exited then if exitCode == 0 then Completed else Failed(EngineFailed)
    else if streaming then TimedOut
    else Failed(if rtspReadyAt.None? then NegotiationTimeout else CaptureFailed)
  }

  /** One iteration of the loop, with the liveness detector it updates. */
  method Iterate(l: Look, plan: Plan, before: Progress, p2p: P2PGroupLiveness)
    returns (after: Progress, e: Option<Ended>)
    requires p2p.Valid()
    modifies p2p
    ensures var seen := old(p2p.history) + [Observation(l.group, l.now)];
            && e == Judge(l, plan, before, Advance(before, l), Lost(seen))
            && (e.None? ==> p2p.Valid() && p2p.history == seen)
    ensures after == if Enters(l, plan) && !l.cancelled then Advance(before, l) else before
    ensures before.streaming ==> after.streaming
  {
    var streaming, rtspReadyAt := before.streaming, before.rtspReadyAt;
    if !Enters(l, plan) {
      return before, Some(AfterLoop(l.exited || l.exitedAfter, plan.exitCode, streaming, rtspReadyAt));
    }
    if l.cancelled { return before, Some(Cancelled); }
    if rtspReadyAt.None? && RtspUp(l) { rtspReadyAt := Some(l.now); }
    if !streaming && rtspReadyAt.Some? {
      var started := MediaStartedText(l.progress);
      if started {
        streaming := true;
        if l.raises { return Progress(streaming, rtspReadyAt), Some(Raised); }
      }
    }
    after := Progress(streaming, rtspReadyAt);
    var lost := p2p.Observe(l.group, l.now);
    if lost { return after, Some(if streaming then Completed else Failed(PairingLost)); }
    if rtspReadyAt.None? && l.now >= plan.start + CONNECT_SECONDS { return after, Some(Failed(NegotiationTimeout)); }
    if !streaming && rtspReadyAt.Some? && l.now - rtspReadyAt.value >= CAPTURE_SECONDS {
      return after, Some(Failed(CaptureFailed));
    }
    e := None;
  }

  /** The same, in terms of everything seen since the loop began. */
  method IterateNext(looks: seq<Look>, n: nat, plan: Plan, before: Progress, p2p: P2PGroupLiveness)
    returns (after: Progress, e: Option<Ended>)
    requires n < |looks| && p2p.Valid()
    requires p2p.history == Observed(looks[..n]) && before == ProgressOf(looks[..n]) && GoesOn(looks[..n], plan)
    modifies p2p
    ensures e == Verdict(looks[..n + 1], plan) && after.streaming == Reported(looks[..n + 1], plan)
    ensures before.streaming ==> after.streaming
    ensures e.None? ==>
              && p2p.Valid() && p2p.history == Observed(looks[..n + 1])
              && after == ProgressOf(looks[..n + 1]) && GoesOn(looks[..n + 1], plan)
  {
    OneMore(looks[..n], looks[n], looks[..n + 1], plan);
    after, e := Iterate(looks[n], plan, before, p2p);
    if e.None? { GoesOnStep(looks[..n], looks[n], looks[..n + 1], plan); }
  }

  /**
   * Runs until a look ends the loop or the looks run out.  The stages reported are `connecting` and, exactly when a
   * positive frame followed the RTSP connection before the loop ended, `streaming`.
   */
  method RunLoop(looks: seq<Look>, plan: Plan) returns (stages: seq<Stage>, e: Option<Ended>, n: nat)
    ensures n <= |looks| && (e.None? ==> n == |looks| && GoesOn(looks, plan))
    ensures e.Some? ==> n > 0 && GoesOn(looks[..n - 1], plan) && Verdict(looks[..n], plan) == e
    ensures stages == if Reported(looks[..n], plan) then [ConnectingStage, StreamingStage] else [ConnectingStage]
  {
    stages := [ConnectingStage];
    var now := Progress(false, None);
    var p2p := new P2PGroupLiveness();
    n := 0;
    while n < |looks|
      invariant n <= |looks| && p2p.Valid() && fresh(p2p)
      invariant p2p.history == Observed(looks[..n]) && now == ProgressOf(looks[..n])
      invariant GoesOn(looks[..n], plan) && now.streaming == Reported(looks[..n], plan)
      invariant stages == if now.streaming then [ConnectingStage, StreamingStage] else [ConnectingStage]
    {
      var was := now.streaming;
      now, e := IterateNext(looks, n, plan, now, p2p);
      n := n + 1;
      if now.streaming && !was { stages := stages + [StreamingStage]; }
      if e.Some? { return; }
    }
    assert looks[..n] == looks;
    e := None;
  }

  lemma OneMore(before: seq<Look>, l: Look, seen: seq<Look>, plan: Plan)
    requires seen == before + [l]
    ensures ProgressOf(seen) == Advance(ProgressOf(before), l)
    ensures Observed(seen) == Observed(before) + [Observation(l.group, l.now)]
    ensures Verdict(seen, plan) == Judge(l, plan, ProgressOf(before), ProgressOf(seen), Lost(Observed(seen)))
    ensures Reported(seen, plan) ==
            (if Enters(l, plan) && !l.cancelled then ProgressOf(seen) else ProgressOf(before)).streaming
    ensures seen[..|seen| - 1] == before
  {
    assert seen[..|seen| - 1] == before && seen[|seen| - 1] == l;
  }

  lemma GoesOnStep(before: seq<Look>, l: Look, seen: seq<Look>, plan: Plan)
    requires seen == before + [l] && GoesOn(before, plan) && Verdict(seen, plan) == None
    ensures GoesOn(seen, plan)
  {
    forall k | 0 < k <= |seen| ensures Verdict(seen[..k], plan) == None {
      if k <= |before| { assert seen[..k] == before[..k]; } else { assert seen[..k] == seen; }
    }
  }

  // ---- how the loop ends, by what was observed ----

  predicate RtspSeen(looks: seq<Look>) { exists k :: 0 <= k < |looks| && RtspUp(looks[k]) }

  ghost predicate Streamed(looks: seq<Look>) { exists i: nat, j: nat :: StreamSeen(looks, i, j) }

  /** The session's time was up when the look began. */
  predicate TimeUp(l: Look, plan: Plan) { plan.deadline.Some? && plan.deadline.value <= l.clock }

  predicate EngineGone(l: Look, plan: Plan) { l.exited || (TimeUp(l, plan) && l.exitedAfter) }

  predicate OutOfTime(l: Look, plan: Plan) { TimeUp(l, plan) && !l.exited && !l.exitedAfter }

  /** The engine runs, there is time, nobody asked to stop and no report of a stage fails. */
  ghost predicate Watches(earlier: seq<Look>, looks: seq<Look>, l: Look, plan: Plan) {
    && !l.exited && !TimeUp(l, plan) && !l.cancelled
    && !(l.raises && Streamed(looks) && !Streamed(earlier))
  }

  /** The last of these looks ends the loop with `e`: what must have been observed by then. */
  ghost predicate Ends(looks: seq<Look>, plan: Plan, e: Ended)
    requires looks != []
  {
    var earlier, l := looks[..|looks| - 1], looks[|looks| - 1];
    var watches, lost := Watches(earlier, looks, l, plan), Lost(Observed(looks));
    match e
    case Cancelled => !l.exited && !TimeUp(l, plan) && l.cancelled
    case TimedOut => OutOfTime(l, plan) && Streamed(earlier)
    case Completed => (EngineGone(l, plan) && plan.exitCode == 0) || (watches && lost && Streamed(looks))
    case Raised => !l.exited && !TimeUp(l, plan) && !l.cancelled && l.raises && Streamed(looks) && !Streamed(earlier)
    case Failed(EngineFailed) => EngineGone(l, plan) && plan.exitCode != 0
    case Failed(PairingLost) => watches && lost && !Streamed(looks)
    case Failed(NegotiationTimeout) =>
      || (OutOfTime(l, plan) && !RtspSeen(earlier))
      || (watches && !lost && !RtspSeen(looks) && l.now >= plan.start + 75.0)
    case Failed(CaptureFailed) =>
      || (OutOfTime(l, plan) && RtspSeen(earlier) && !Streamed(earlier))
      || (watches && !lost && !Streamed(looks) && exists r: nat :: FirstRtsp(looks, r) && l.now - looks[r].now >= 30.0)
    case Failed(NoCode) => false
  }

  lemma ProgressExactly(looks: seq<Look>)
    ensures var p := ProgressOf(looks);
      && (p.streaming <==> Streamed(looks)) && (p.rtspReadyAt.Some? <==> RtspSeen(looks))
      && (Streamed(looks) ==> RtspSeen(looks))
      && (RtspSeen(looks) ==> exists r: nat :: FirstRtsp(looks, r))
      && forall r: nat :: FirstRtsp(looks, r) ==> p.rtspReadyAt == Some(looks[r].now)
  {
    StreamingExactly(looks);
    RtspExactly(looks, 0);
    if Streamed(looks) {
      var i: nat, j: nat :| StreamSeen(looks, i, j);
      assert RtspUp(looks[i]);
    }
    if RtspSeen(looks) { var _ := First(looks); }
    forall r: nat | FirstRtsp(looks, r) ensures ProgressOf(looks).rtspReadyAt == Some(looks[r].now) {
      RtspExactly(looks, r);
    }
  }

  /** The verdict is exactly what the observations say. */
  lemma VerdictExactly(looks: seq<Look>, plan: Plan, e: Ended)
    requires looks != []
    ensures Verdict(looks, plan) == Some(e) <==> Ends(looks, plan, e)
  {
    ProgressExactly(looks[..|looks| - 1]);
    ProgressExactly(looks);
  }

  /** `streaming` is reported exactly when an established RTSP socket and, then or later, a positive frame were seen by
      the last look that got as far as looking. */
  lemma ReportIsEarned(looks: seq<Look>, plan: Plan)
    requires looks != []
    ensures var l := looks[|looks| - 1];
      Reported(looks, plan) <==>
        Streamed(if !l.exited && !TimeUp(l, plan) && !l.cancelled then looks else looks[..|looks| - 1])
  {
    StreamingExactly(looks);
    StreamingExactly(looks[..|looks| - 1]);
  }

  /** The loop goes on up to look `n`, and that one ends it. */
  ghost predicate EndsAt(looks: seq<Look>, plan: Plan, n: nat, e: Ended) {
    0 < n <= |looks| && GoesOn(looks[..n - 1], plan) && Ends(looks[..n], plan, e)
  }

  /** A loop ends once, in one way. */
  lemma EndsOnce(looks: seq<Look>, plan: Plan, n: nat, e: Ended, k: nat, d: Ended)
    requires EndsAt(looks, plan, n, e) && EndsAt(looks, plan, k, d)
    ensures n == k && e == d
  {
    VerdictExactly(looks[..n], plan, e);
    VerdictExactly(looks[..k], plan, d);
    if n < k { NoneBefore(looks, plan, n, k); }
    if k < n { NoneBefore(looks, plan, k, n); }
  }

  lemma NoneBefore(looks: seq<Look>, plan: Plan, n: nat, k: nat)
    requires 0 < n < k <= |looks| && GoesOn(looks[..k - 1], plan)
    ensures Verdict(looks[..n], plan) == None
  {
    assert looks[..k - 1][..n] == looks[..n];
  }

  lemma GoesOnNeverEnds(looks: seq<Look>, plan: Plan, n: nat, e: Ended)
    requires GoesOn(looks, plan)
    ensures !EndsAt(looks, plan, n, e)
  {
    if EndsAt(looks, plan, n, e) { VerdictExactly(looks[..n], plan, e); }
  }

  predicate PolledWithin(looks: seq<Look>, start: real, slack: real) {
    && (looks != [] ==> looks[0].now <= start + slack)
    && forall k :: 0 < k < |looks| ==> looks[k].now - looks[k - 1].now <= slack
  }

  /** A run that never streams is not still in the loop after both bounds and one poll interval ... */
  lemma {:induction false} NeverStreamingGoesOnBriefly(looks: seq<Look>, plan: Plan, slack: real)
    requires looks != [] && PolledWithin(looks, plan.start, slack) && slack >= 0.0
    requires GoesOn(looks, plan) && !ProgressOf(looks).streaming
    ensures looks[|looks| - 1].now < plan.start + 105.0 + slack
  {
    assert looks[..|looks|] == looks;
    RtspExactly(looks, 0);
    if ProgressOf(looks).rtspReadyAt.Some? {
      var r := First(looks);
      RtspExactly(looks, r);
      if r > 0 {
        var before := looks[..r];
        assert Verdict(before, plan) == None && before[r - 1] == looks[r - 1];
        RtspExactly(before, 0);
      }
    }
  }

  lemma {:induction false} First(looks: seq<Look>) returns (r: nat)
    requires exists k :: 0 <= k < |looks| && RtspUp(looks[k])
    ensures FirstRtsp(looks, r)
  {
    r := 0;
    while !RtspUp(looks[r])
      invariant r < |looks| && forall k :: 0 <= k < r ==> !RtspUp(looks[k])
      decreases |looks| - r
    {
      r := r + 1;
    }
  }

  /** ... so it has left at most one more poll interval later. */
  lemma {:induction false} NeverStreamingLeavesInTime(looks: seq<Look>, plan: Plan, slack: real)
    requires looks != [] && PolledWithin(looks, plan.start, slack) && slack >= 0.0
    requires GoesOn(looks[..|looks| - 1], plan) && !ProgressOf(looks).streaming
    ensures looks[|looks| - 1].now < plan.start + 105.0 + 2.0 * slack
  {
    var earlier := looks[..|looks| - 1];
    if earlier != [] { NeverStreamingGoesOnBriefly(earlier, plan, slack); }
  }
}
