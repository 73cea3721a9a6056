/** The guarded transport run: what its `finally` demands before a result may be returned. */
module TransportRun {
  import opened GuardHost
  import opened GuardProtocol
  import opened GuardTheorems
  import opened TransportLoop
  import SS = SessionSupervisor
  import opened ST = SessionState

  /** What one poll of the root-owned status file gives: an unsafe file, or the status the guard's world shows. */
  datatype Poll = Unsafe | Shows(guard: State)

  predicate Waits(p: Poll) { p.Shows? && p.guard.w.status in {NoStatus, Ready, Active} }

  /** The first poll that ends the wait. */
  predicate FirstTerminal(polls: seq<Poll>, k: nat) {
    k < |polls| && !Waits(polls[k]) && forall j :: 0 <= j < k ==> Waits(polls[j])
  }

  predicate ShowsCleaned(p: Poll) { p.Shows? && p.guard.w.status == Cleaned }

  /** `_wait_cleanup_status`, until its deadline.  `acked`: the acknowledgement marker could be written. */
  method WaitCleanupStatus(polls: seq<Poll>, acked: bool) returns (confirmed: bool)
    ensures confirmed <==> acked && exists k: nat :: FirstTerminal(polls, k) && ShowsCleaned(polls[k])
  {
    var next := 0;
    while next < |polls|
      invariant next <= |polls| && forall j :: 0 <= j < next ==> Waits(polls[j])
    {
      if polls[next].Unsafe? { return false; }
      var status := polls[next].guard.w.status;
      if status !in {NoStatus, Ready, Active} {
        assert FirstTerminal(polls, next);
        return acked && status == Cleaned;
      }
      next := next + 1;
    }
    return false;
  }

  /** How `_read_ready` ends. */
  datatype Authorization = BecameReady | StoppedBefore | Refused

  /** The setup before the loop completes, or raises before or after `connecting` was reported. */
  datatype Setup = SetUp | RaisesEarly | RaisesAfterConnecting

  /** The environment of one run. */
  datatype Environment = Environment(
    authorization: Authorization, setup: Setup, looks: seq<Look>, plan: Plan,
    finallyRaises: bool, polls: seq<Poll>, acked: bool)

  /** The run returned a result, raised, or was still in its loop when the observations ended. */
  datatype Outcome = Result(ended: Ended) | Exception | Running

  /** Poll `k` ended the wait with a `cleaned`, and that was acknowledged. */
  predicate Confirmed(env: Environment, k: nat) {
    env.acked && FirstTerminal(env.polls, k) && ShowsCleaned(env.polls[k])
  }

  predicate StageFails(env: Environment) {
    exists k :: 0 <= k < |env.looks| && env.looks[k].raises
  }

  function OutcomeOf(e: Ended): Outcome { if e == Raised then Exception else Result(e) }

  /** The loop is reached. */
  predicate Loops(env: Environment) { env.authorization == BecameReady && env.setup == SetUp }

  /** However the looks end the loop, that is the outcome. */
  ghost predicate EndsAs(env: Environment, o: Outcome) {
    forall n, e :: EndsAt(env.looks, env.plan, n, e) ==> o == OutcomeOf(e)
  }

  /** The stages that were reported when they ended it. */
  ghost predicate Stages(env: Environment, stages: seq<Stage>) {
    forall n: nat, e :: EndsAt(env.looks, env.plan, n, e) ==>
      stages == if Reported(env.looks[..n], env.plan) then [ConnectingStage, StreamingStage] else [ConnectingStage]
  }

  /** The body of the `try`: its outcome is how the looks end the loop. */
  method Attempt(env: Environment) returns (ready: bool, stages: seq<Stage>, o: Outcome)
    ensures ready <==> env.authorization == BecameReady
    ensures o == Running <==> Loops(env) && GoesOn(env.looks, env.plan)
    ensures Loops(env) ==> EndsAs(env, o) && Stages(env, stages)
    ensures Loops(env) && o != Running ==> exists n, e :: EndsAt(env.looks, env.plan, n, e)
    ensures [] <= stages <= [ConnectingStage, StreamingStage]
    ensures !ready ==> o == (if env.authorization == Refused then Exception else Result(Cancelled))
    ensures ready && env.setup != SetUp ==>
              o == Exception && stages == if env.setup == RaisesEarly then [] else [ConnectingStage]
    ensures ready && env.setup == SetUp ==> ConnectingStage in stages && (o == Exception ==> StageFails(env))
  {
    ready, stages := false, [];
    match env.authorization
    case Refused => o := Exception;
    case StoppedBefore => o := Result(Cancelled);
    case BecameReady =>
      ready := true;
      if env.setup == RaisesEarly { return ready, stages, Exception; }
      if env.setup == RaisesAfterConnecting { return ready, [ConnectingStage], Exception; }
      var e, n;
      stages, e, n := RunLoop(env.looks, env.plan);
      LoopEnds(env, e, n);
      if e == Some(Raised) {
        assert env.looks[..n][n - 1] == env.looks[n - 1];
        return ready, stages, Exception;
      }
      o := if e.None? then Running else Result(e.value);
  }

  lemma LoopEnds(env: Environment, e: Option<Ended>, n: nat)
    requires n <= |env.looks| && (e.None? ==> GoesOn(env.looks, env.plan))
    requires e.Some? ==> n > 0 && GoesOn(env.looks[..n - 1], env.plan) && Verdict(env.looks[..n], env.plan) == e
    ensures e.Some? <==> exists k, d :: EndsAt(env.looks, env.plan, k, d)
    ensures forall k, d :: EndsAt(env.looks, env.plan, k, d) ==> e == Some(d) && k == n
    ensures e.Some? ==> !GoesOn(env.looks, env.plan)
  {
    if e.Some? {
      VerdictExactly(env.looks[..n], env.plan, e.value);
      assert EndsAt(env.looks, env.plan, n, e.value);
      forall k, d | EndsAt(env.looks, env.plan, k, d) ensures e == Some(d) && k == n {
        EndsOnce(env.looks, env.plan, n, e.value, k, d);
      }
    } else {
      forall k, d ensures !EndsAt(env.looks, env.plan, k, d) { GoesOnNeverEnds(env.looks, env.plan, k, d); }
    }
  }

  /**
   * `run`: once the guard was ready, a result needs a `cleaned` status that was read and acknowledged, and only that
   * or a failing call keeps a finished run from returning one.  The result is the one way the looks end the loop.
   */
  method Run(env: Environment) returns (ready: bool, stages: seq<Stage>, o: Outcome)
    ensures ready <==> env.authorization == BecameReady
    ensures [] <= stages <= [ConnectingStage, StreamingStage]
    ensures o == Running <==> Loops(env) && GoesOn(env.looks, env.plan)
    ensures Loops(env) ==> Stages(env, stages)
    ensures o.Result? && ready ==>
              && (exists k: nat :: Confirmed(env, k))
              && exists n: nat :: EndsAt(env.looks, env.plan, n, o.ended)
    ensures Loops(env) && !env.finallyRaises && (exists k: nat :: Confirmed(env, k)) ==> EndsAs(env, o)
    ensures o.Result? && !ready ==> o.ended == Cancelled
    ensures env.authorization == StoppedBefore && !env.finallyRaises ==> o == Result(Cancelled)
    ensures env.authorization == Refused || (ready && env.setup != SetUp) ==> o == Exception
    ensures o == Exception && ready ==>
              env.setup != SetUp || StageFails(env) || env.finallyRaises || !exists k: nat :: Confirmed(env, k)
  {
    ready, stages, o := Attempt(env);
    if o == Running { return; }
    if env.finallyRaises { return ready, stages, Exception; }
    if ready {
      var confirmed := WaitCleanupStatus(env.polls, env.acked);
      if !confirmed { return ready, stages, Exception; }
      ghost var k: nat :| FirstTerminal(env.polls, k) && ShowsCleaned(env.polls[k]);
      assert Confirmed(env, k);
    }
  }

  /** From a `cleaned` that was read on, the host is restored at every later moment of the guard protocol. */
  lemma CleanedLasts(s: State, run: seq<Action>, t: State)
    requires Reachable(s) && s.w.status == Cleaned && Leads(s, run, t) && !t.h.lateApply
    ensures HostRestored(t.w)
    ensures t.w.backend == Direct && !t.h.lateClient ==> t.w.p2p.clients == []
  {
    CleanedIsTrue(s);
    GoneForGood(s, run, t);
    ReachAlong(s, run, t);
    NoTokenMeansRestored(t);
  }

  function EndingOf(o: Outcome, transportError: bool): SS.Ending {
    match o
    case Result(ended) => SS.Returns(!ended.Failed?)
    case Exception => if transportError then SS.RaisesTransportError else SS.RaisesOther
    case Running => SS.RaisesOther      // whatever cuts it off there is not a transport error
  }

  function PhasesOf(stages: seq<Stage>): seq<ST.Phase> {
    seq(|stages|, k requires 0 <= k < |stages| =>
      if stages[k] == ConnectingStage then ST.Connecting else ST.Streaming)
  }

  /** The host is restored in every state that can follow `s` while recovery and the guard do not overlap. */
  ghost predicate RestoredFrom(s: State) {
    forall run, t :: Leads(s, run, t) && !t.h.lateApply ==>
      HostRestored(t.w) && (t.w.backend == Direct && !t.h.lateClient ==> t.w.p2p.clients == [])
  }

  lemma CleanedIsForGood(s: State)
    requires Reachable(s) && s.w.status == Cleaned
    ensures RestoredFrom(s)
  {
    forall run, t | Leads(s, run, t) && !t.h.lateApply
      ensures HostRestored(t.w) && (t.w.backend == Direct && !t.h.lateClient ==> t.w.p2p.clients == [])
    {
      CleanedLasts(s, run, t);
    }
  }

  /** The phases of an ordinary session, before and after its stages. */
  ghost predicate Persists(before: seq<ST.Phase>, after: seq<ST.Phase>, stages: seq<ST.Phase>, last: ST.Phase) {
    && stages <= [ST.Connecting, ST.Streaming]
    && after == before + ([ST.Checking, ST.Discovering, ST.Preparing] + stages
                          + if last == ST.Idle then [ST.Stopping, ST.Idle] else [ST.Error])
  }

  lemma OrdinaryEnd(before: seq<ST.Phase>, after: seq<ST.Phase>, stages: seq<ST.Phase>, ending: SS.Ending)
    requires stages <= [ST.Connecting, ST.Streaming] && !ending.RaisesOther?
    requires after == before + SS.PhasesOfRun(stages, ending)
    ensures after != [] && after[|after| - 1] == (if ending == SS.Returns(true) then ST.Idle else ST.Error)
    ensures Persists(before, after, stages, after[|after| - 1])
  {
    SS.OrdinaryPhases(stages, ending == SS.Returns(true));
  }

  /** The session supervisor over an adapter that reported `stages` and ended with `o`. */
  method Supervise(session: SS.Session, sid: nat, stages: seq<Stage>, masks: bool, o: Outcome, transportError: bool)
    requires session.Valid() && session.disk.phase == ST.Idle && stages <= [ConnectingStage, StreamingStage]
    modifies session
    ensures session.Valid()
    ensures session.disk.phase == ST.Idle && |session.log| > |old(session.log)| ==> o.Result? && !o.ended.Failed?
    ensures session.Fine() && (o.Result? || (o == Exception && transportError)) ==>
              && session.stop == ST.None
              && session.disk.phase == (if o.Result? && !o.ended.Failed? then ST.Idle else ST.Error)
              && Persists(old(SS.Phases(session.log)), SS.Phases(session.log), PhasesOf(stages), session.disk.phase)
  {
    var ending := EndingOf(o, transportError);
    var _ := session.Run(sid, PhasesOf(stages), masks, ending);
    if session.Fine() && !ending.RaisesOther? {
      ghost var after := SS.Phases(session.log);
      OrdinaryEnd(old(SS.Phases(session.log)), after, PhasesOf(stages), ending);
      assert after[|after| - 1] == session.disk.phase;
    }
  }

  /**
   * A production session over a guarded run, both with arbitrary failures: if the guard became ready and the session
   * persisted `idle` again, then the guard's terminal `cleaned` was read, the host is restored from there on, and the
   * way the looks ended the loop was no failure.  When no call of the session fails, it ends in `error` exactly where
   * the run failed or raised its own error.
   */
  method ProductionSession(session: SS.Session, sid: nat, env: Environment, masks: bool, transportError: bool)
    returns (ready: bool, stages: seq<Stage>, o: Outcome)
    requires session.Valid() && session.disk.phase == ST.Idle
    requires forall k :: 0 <= k < |env.polls| && env.polls[k].Shows? ==> Reachable(env.polls[k].guard)
    modifies session
    ensures session.Valid() && (ready <==> env.authorization == BecameReady) && (Loops(env) ==> Stages(env, stages))
    ensures ready && session.disk.phase == ST.Idle && |session.log| > |old(session.log)| ==>
              && (exists k: nat :: Confirmed(env, k) && RestoredFrom(env.polls[k].guard))
              && exists n: nat, e :: EndsAt(env.looks, env.plan, n, e) && o == Result(e) && !e.Failed?
    ensures Loops(env) && !env.finallyRaises && (exists k: nat :: Confirmed(env, k)) ==> EndsAs(env, o)
    ensures session.Fine() && (o.Result? || (o == Exception && transportError)) ==>
              && session.stop == ST.None
              && session.disk.phase == (if o.Result? && !o.ended.Failed? then ST.Idle else ST.Error)
              && Persists(old(SS.Phases(session.log)), SS.Phases(session.log), PhasesOf(stages), session.disk.phase)
  {
    ready, stages, o := Run(env);
    Supervise(session, sid, stages, masks, o, transportError);
    if o.Result? && ready {
      ghost var k: nat :| Confirmed(env, k);
      CleanedIsForGood(env.polls[k].guard);
    }
  }
}
