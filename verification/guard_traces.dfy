/**
 Runs that show what the premises are for, and two states the scripts can get into without breaking
 any premise.  All of them use the direct backend.
 */
module GuardTraces {
  import opened GuardHost
  import opened GuardProtocol
  import opened GuardControl
  import opened GuardEvidence
  import opened GuardTheorems
  import opened GuardConvergence

  const QUIET_FILES := Loose(false, false, false, false)

  const BLANK := World(Direct, Untouched, Untouched, Untouched, Untouched, Networkd(false, false, false, false),
                       P2p([], false, Missing), false, false, QUIET_FILES, false, false, NoStatus)

  /** The world once recovery has acknowledged the session. */
  const ACKNOWLEDGED := BLANK.(token := true, ready := true, p2p := P2p([], false, Lines([], true)))

  /** The world once the guard has published `ready`; the network root existed before. */
  const PREPARED := World(Direct, Untouched, Untouched, Untouched, Untouched, Networkd(false, true, false, false),
                          P2p([], false, Lines([], true)), true, true, Loose(false, false, false, true),
                          true, true, Ready)

  const ACKED := History(true, true, false, false, false, false, false)

  const NO_BROKER := Broker(false, false, false)

  function Starting(w: World, line: Apply, rec: RecoveryAt, tokenMade: bool): State {
    State(w, Applying(line, false, false), rec, NO_BROKER,
          History(tokenMade, false, false, false, false, false, false))
  }

  function Serving(w: World, line: Apply, started: bool): State {
    State(w, Applying(line, started, started && line > PUBLISH_READY), Watching, NO_BROKER, ACKED)
  }

  lemma Go(s: State, a: Action, t: State)
    requires Reachable(s) && Enabled(s, a) && t == Step(s, a)
    ensures Reachable(t)
  {
    ReachStep(s, a);
  }

  lemma ReachToken()
    ensures Reachable(Starting(BLANK.(token := true), MAKE_RECORD, Unlaunched, true))
  {
    var s0 := Starting(BLANK, MAKE_TOKEN, Unlaunched, false);
    assert Leads(s0, [], s0) && Init(s0);
    Go(s0, GuardLine(Done), Starting(BLANK.(token := true), MAKE_RECORD, Unlaunched, true));
  }

  lemma ReachLaunch()
    ensures Reachable(Starting(ACKNOWLEDGED.(ready := false), LAUNCH, Unlaunched, true))
  {
    ReachToken();
    var s1 := Starting(BLANK.(token := true), MAKE_RECORD, Unlaunched, true);
    var w := ACKNOWLEDGED.(ready := false);
    var s2 := Starting(w, VERIFY, Unlaunched, true);
    Go(s1, GuardLine(Done), s2);
    Go(s2, GuardLine(Done), Starting(w, LAUNCH, Unlaunched, true));
  }

  lemma ReachSetup()
    ensures Reachable(Serving(ACKNOWLEDGED, MARK_ROOT, false))
  {
    ReachLaunch();
    var s3 := Starting(ACKNOWLEDGED.(ready := false), LAUNCH, Unlaunched, true);
    var s4 := Starting(ACKNOWLEDGED.(ready := false), AWAIT_READY, Announcing, true);
    Go(s3, GuardLine(Done), s4);
    var s5 := Starting(ACKNOWLEDGED, AWAIT_READY, Watching, true);
    Go(s4, Announce(true), s5);
    Go(s5, GuardLine(Done), Serving(ACKNOWLEDGED, MARK_ROOT, false));
  }

  lemma ReachNetworkd()
    ensures Reachable(Serving(ACKNOWLEDGED.(networkd := Networkd(false, true, false, false)), WRITE_NETWORK, false))
  {
    ReachSetup();
    var s1 := Serving(ACKNOWLEDGED, SNAPSHOT_UNITS, false);
    Go(Serving(ACKNOWLEDGED, MARK_ROOT, false), GuardLine(Skips), s1);
    var s2 := Serving(ACKNOWLEDGED.(networkd := Networkd(false, false, true, false)), COMMIT_UNITS, false);
    Go(s1, GuardLine(Done), s2);
    var w := ACKNOWLEDGED.(networkd := Networkd(false, true, false, false));
    Go(s2, GuardLine(Done), Serving(w, WRITE_NETWORK, false));
  }

  lemma ReachBroker()
    ensures Reachable(Serving(PREPARED.(status := NoStatus), NOTE_BROKER, false))
  {
    ReachNetworkd();
    var w := ACKNOWLEDGED.(networkd := Networkd(false, true, false, false));
    var s3 := Serving(w, WRITE_NETWORK, false);
    var s4 := Serving(w.(networkFile := true), START_BROKER, false);
    Go(s3, GuardLine(Done), s4);
    Go(s4, GuardLine(Done), Serving(PREPARED.(status := NoStatus), NOTE_BROKER, false));
  }

  lemma ReachReady()
    ensures Reachable(Serving(PREPARED, AWAIT_TRIGGER, true))
  {
    ReachBroker();
    var s1 := Serving(PREPARED.(status := NoStatus), PUBLISH_READY, true);
    Go(Serving(PREPARED.(status := NoStatus), NOTE_BROKER, false), GuardLine(Done), s1);
    Go(s1, GuardLine(Done), Serving(PREPARED, AWAIT_TRIGGER, true));
  }

  lemma ReachPause()
    ensures Reachable(Serving(PREPARED, MARK_PAUSE, true))
  {
    ReachReady();
    var s2 := Serving(PREPARED, AWAIT_TRIGGER, true);
    var w := PREPARED.(loose := Loose(true, false, false, true));
    var s3 := Serving(w, AWAIT_TRIGGER, true);
    Go(s2, UserFiles(true, false, false), s3);
    var s4 := Serving(w, TAKE_TRIGGER, true);
    Go(s3, GuardLine(Done), s4);
    Go(s4, GuardLine(Done), Serving(PREPARED, MARK_PAUSE, true));
  }

  /** With `lateApply`: recovery runs to the end while the guard stalls before the pause; the guard then
      pauses NetworkManager, finds its token gone and publishes `cleaned`. */
  lemma LateApplyBreaksSafety()
    ensures exists t :: Reachable(t) && !t.h.lateClient && t.w.status == Cleaned && !t.w.token && t.w.nm.dirty
  {
    ReachPause();
    var s := Step(Serving(PREPARED, MARK_PAUSE, true), Enter);
    Go(Serving(PREPARED, MARK_PAUSE, true), Enter, s);
    var good: Oracle := _ => true;
    RecoveryConverges(PREPARED, good, 0);
    var run, t := FinishIsARun(s, good, 0);
    ReachAlong(s, run, t);
    LatePause(t);
  }

  /** The guard paused NetworkManager after its token had gone. */
  ghost predicate PausedLate(s: State, c: Cleaner) {
    && Reachable(s) && s.guard == Cleaning(c) && s.w.nm.dirty && !s.w.token && !s.h.lateClient
  }

  lemma LatePause(s: State)
    requires Reachable(s) && s.guard == Applying(MARK_PAUSE, true, true) && s.w == CleanWorld(PREPARED)
    requires !s.h.lateClient && s.h.entered
    ensures exists t :: Reachable(t) && !t.h.lateClient && t.w.status == Cleaned && !t.w.token && t.w.nm.dirty
  {
    var s1 := Step(s, GuardLine(Done));
    Go(s, GuardLine(Done), s1);
    assert s1.guard == Applying(STOP_NM, true, true);
    var s2 := Step(s1, GuardLine(Done));
    Go(s1, GuardLine(Done), s2);
    assert s2.guard == Applying(BASELINE, true, true) && s2.w.nm.dirty && !s2.w.token;
    var s3 := Step(s2, GuardLine(Fails));
    Go(s2, GuardLine(Fails), s3);
    LatePauseConfirmed(s3);
  }

  lemma LatePauseConfirmed(s: State)
    requires PausedLate(s, Fresh(OWN_CHECK, true, true))
    ensures exists t :: Reachable(t) && !t.h.lateClient && t.w.status == Cleaned && !t.w.token && t.w.nm.dirty
  {
    var s1 := Step(s, GuardLine(Done));
    Go(s, GuardLine(Done), s1);
    assert s1.guard == Cleaning(Fresh(PUBLISH, true, true));
    var s2 := Step(s1, GuardLine(Done));
    Go(s1, GuardLine(Done), s2);
  }

  // ----- Cleanup of an armed session whose broker does not stop -----

  /** The guard is cleaning up after arming; the broker saw the marker and is still running. */
  ghost predicate MidCleanup(s: State) {
    && s.rec == Watching && s.b.sawArmed && !s.h.lateApply && !s.h.lateClient
    && s.w.backend == Direct && s.w.token && s.w.brokerActive && s.w.p2p == P2p([], true, Lines([], true))
    && s.guard.Cleaning?
    && var c := s.guard.c;
       && OWN_CHECK <= c.at <= RM_ARMED && c.f.ifOk && c.brokerStarted
       && (c.at > STOP_BROKER ==> !c.f.ok) && (c.at > LIST_CLIENTS ==> s.h.listed)
       && !(RM_SOCKET <= c.at <= DROP_ACTIVATION)
       && (c.at == APPEND_CLIENT ==> c.walk.listed == [])
       && (c.at == REMOVE_CLIENT ==> c.walk.left == [] && c.walk.allRemoved)
  }

  function MidLine(s: State): Action
    requires s.guard.Cleaning?
  {
    GuardLine(if s.guard.c.at == STOP_BROKER then Fails else Done)
  }

  lemma MidCleanupGoesOn(s: State)
    requires Ctl(s) && MidCleanup(s) && s.guard.c.at < RM_ARMED
    ensures Enabled(s, MidLine(s)) && MidCleanup(Step(s, MidLine(s)))
    ensures Step(s, MidLine(s)).guard.c.at > s.guard.c.at
  {}

  lemma {:induction false} CleanupGetsToArmed(s: State) returns (t: State)
    requires Reachable(s) && MidCleanup(s)
    ensures Reachable(t) && MidCleanup(t) && t.guard.c.at == RM_ARMED && Evidence(t.w)
    decreases RM_ARMED - s.guard.c.at
  {
    ReachableInv(s);
    if s.guard.c.at == RM_ARMED { t := s; }
    else {
      MidCleanupGoesOn(s);
      Go(s, MidLine(s), Step(s, MidLine(s)));
      t := CleanupGetsToArmed(Step(s, MidLine(s)));
    }
  }

  lemma ReachArm()
    ensures Reachable(Serving(PREPARED.(nm := Marked(true, true)), ARM, true))
  {
    ReachPause();
    var s := Serving(PREPARED, MARK_PAUSE, true);
    var s1 := Serving(PREPARED.(nm := Marked(false, true)), STOP_NM, true);
    Go(s, GuardLine(Done), s1);
    var s2 := Serving(PREPARED.(nm := Marked(true, true)), BASELINE, true);
    Go(s1, GuardLine(Done), s2);
    Go(s2, GuardLine(Done), Serving(PREPARED.(nm := Marked(true, true)), ARM, true));
  }

  lemma ReachCleanup() returns (t: State)
    ensures Reachable(t) && MidCleanup(t)
  {
    ReachArm();
    var s := Serving(PREPARED.(nm := Marked(true, true)), ARM, true);
    var s1 := Step(s, GuardLine(Done));
    Go(s, GuardLine(Done), s1);
    var s2 := Step(s1, BrokerSees);
    Go(s1, BrokerSees, s2);
    t := Step(s2, Interrupt);
    Go(s2, Interrupt, t);
  }

  lemma ReachDisarmed() returns (t: State)
    ensures Reachable(t) && t.rec == Watching && !t.h.lateApply && Evidence(t.w) && t.guard.Cleaning?
    ensures t.w.token && t.w.brokerActive && t.w.backend == Direct && t.b.sawArmed && t.h.listed
    ensures !t.w.p2p.armed && t.w.p2p.clients == []
  {
    var s := ReachCleanup();
    s := CleanupGetsToArmed(s);
    t := Step(s, GuardLine(Done));
    Go(s, GuardLine(Done), t);
  }

  /** The guard drops `p2p-armed` although the broker runs on, dies, and then a client appears. */
  lemma ReachLateClient() returns (t: State)
    ensures Reachable(t) && t.rec == Watching && !t.h.lateApply && Evidence(t.w)
    ensures t.w.token && t.w.brokerActive && t.w.backend == Direct && !t.w.p2p.armed && t.w.p2p.clients == [1]
  {
    var s := ReachDisarmed();
    var s1 := Step(s, KillGuard);
    Go(s, KillGuard, s1);
    t := Step(s1, NewClient(1));
    Go(s1, NewClient(1), t);
  }

  /** With `lateClient`: recovery, which does not overlap the guard, gives up the token with that client still there. */
  lemma LateClientBreaksSafety()
    ensures exists t :: Reachable(t) && !t.h.lateApply && !t.w.token
                        && t.w.backend == Direct && t.w.p2p.clients == [1]
  {
    var s := ReachLateClient();
    var s1 := Step(s, Enter);
    Go(s, Enter, s1);
    var good: Oracle := _ => true;
    RecoveryConverges(s.w, good, 0);
    var run, t := FinishIsARun(s1, good, 0);
    ReachAlong(s1, run, t);
    assert t.w == CleanWorld(s.w);
  }

  /** Both premises kept: unlinking `p2p-armed` fails, unlinking `p2p-interfaces` succeeds, and from
      then on recovery can never finish. */
  lemma WedgeIsReachable()
    ensures exists t :: Reachable(t) && !t.h.lateApply && !t.h.lateClient && Wedged(t.w)
  {
    var s := ReachFailedUnlink();
    Go(s, GuardLine(Done), Step(s, GuardLine(Done)));
  }

  lemma ReachFailedUnlink() returns (t: State)
    ensures Reachable(t) && !t.h.lateApply && !t.h.lateClient && t.guard.Cleaning? && t.guard.c.at == RM_RECORD
    ensures t.w.token && t.w.backend == Direct && t.w.p2p.armed
  {
    var s := ReachCleanup();
    s := CleanupGetsToArmed(s);
    t := Step(s, GuardLine(Fails));
    Go(s, GuardLine(Fails), t);
  }

  // ----- A signal between `systemd-run` and `broker_started=true` -----

  ghost predicate Forgotten(s: State) {
    && !s.h.lateApply && !s.h.lateClient && s.w.brokerActive && s.guard.Cleaning? && s.w.backend == Direct
    && s.h.tokenMade && !s.w.p2p.armed
    && var c := s.guard.c;
       && !c.brokerStarted && c.f == Flags(true, true, true, true, true) && c.at <= PUBLISH
       && !(READ_RECORD <= c.at <= REMOVE_CLIENT) && (c.at <= RM_TOKEN <==> s.w.token)
  }

  lemma {:induction false} ForgottenEnds(s: State)
    requires Reachable(s) && Forgotten(s)
    ensures exists t :: Reachable(t) && !t.h.lateApply && !t.h.lateClient && TokenGone(t) && t.w.brokerActive
    decreases PUBLISH - s.guard.c.at
  {
    if s.guard.c.at < PUBLISH {
      var u := Step(s, GuardLine(Done));
      Go(s, GuardLine(Done), u);
      ForgottenEnds(u);
    }
  }

  /** The guard believes it started no broker, so the token goes while the broker's unit still runs. */
  lemma SignalForgetsBroker()
    ensures exists t :: Reachable(t) && !t.h.lateApply && !t.h.lateClient && TokenGone(t) && t.w.brokerActive
  {
    ReachBroker();
    var s := Serving(PREPARED.(status := NoStatus), NOTE_BROKER, false);
    var t := Step(s, Interrupt);
    Go(s, Interrupt, t);
    ForgottenEnds(t);
  }
}
