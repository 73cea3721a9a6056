/** Stop requests: which session they stop, and when one can be lost. */
module SessionStop {
  import opened SessionState
  import opened SessionProtocol
  import opened SessionSafety

  /** Along `run` some requester read the state while session `sid` owned it. */
  ghost predicate ReadBy(s: State, run: seq<Action>, sid: nat)
    decreases |run|
  {
    && run != [] && Enabled(s, run[0])
    && ((run[0].ReqRead? && s.disk.phase != Idle && s.disk.sid == Some(sid))
        || ReadBy(Step(s, run[0]), run[1..], sid))
  }

  lemma {:induction false} AskedAlong(s: State, run: seq<Action>, t: State, sid: nat)
    requires Leads(s, run, t) && sid in t.asked
    ensures sid in s.asked || ReadBy(s, run, sid)
    decreases |run|
  {
    if run != [] { AskedAlong(Step(s, run[0]), run[1..], t, sid); }
  }

  /** A supervisor of session B sees a stop request only if some requester read a state that B owned. */
  lemma StopIsolation(s: State, run: seq<Action>, t: State, sid: nat)
    requires Init(s) && Leads(s, run, t) && StopRequested(t, sid)
    ensures ReadBy(s, run, sid)
  {
    InvAlong(s, run, t);
    AskedAlong(s, run, t, sid);
  }

  /** A requester that is not interrupted stops the running session, and no other. */
  lemma StopArrives(s: State, id: nat)
    requires Reachable(s) && s.disk.phase != Idle && id !in s.pending
    ensures Enabled(s, ReqRead(id)) && Enabled(Step(s, ReqRead(id)), ReqInstall(id))
    ensures var t := Step(Step(s, ReqRead(id)), ReqInstall(id));
      && t.disk == s.disk && t.actor == s.actor && t.pending == s.pending
      && forall sid: nat :: StopRequested(t, sid) <==> s.disk.sid == Some(sid)
  {
    ReachableInv(s);
    assert s.pending[id := s.disk.sid.value] - {id} == s.pending;
  }

  // ----- Durability -----

  /** No step of `run` unlinks the marker. */
  ghost predicate NoClear(s: State, run: seq<Action>)
    decreases |run|
  {
    run != [] && Enabled(s, run[0]) ==> !Clears(s, run[0]) && NoClear(Step(s, run[0]), run[1..])
  }

  /** What is on disk, or what the lock holder may still write over an idle state, belongs to `sid`. */
  ghost predicate Current(s: State, sid: nat) {
    if s.disk.phase != Idle then s.disk.sid == Some(sid)
    else s.actor.Supervisor? ==>
      && (s.actor.pc == FirstWrite || s.actor.pc == ExceptWrite ==> s.actor.next.sid == Some(sid))
      && (s.actor.pc == Except || s.actor.pc.Append? ==> s.actor.mem.phase == Idle || s.actor.mem.sid == Some(sid))
  }

  /** No requester that read another session is still before its replace. */
  ghost predicate NoStaleRequester(s: State, sid: nat) {
    forall id :: id in s.pending ==> s.pending[id] == sid
  }

  ghost predicate Kept(s: State, sid: nat) {
    Inv(s) && StopRequested(s, sid) && Current(s, sid) && NoStaleRequester(s, sid)
  }

  lemma KeptStep(s: State, a: Action, sid: nat)
    requires Kept(s, sid) && Enabled(s, a) && !Clears(s, a)
    ensures Kept(Step(s, a), sid)
  {
    InvStep(s, a);
    if a.Run? && s.actor.Supervisor? { CurrentKept(s, a.o, a.now, sid); }
  }

  lemma CurrentKept(s: State, o: Outcome, now: nat, sid: nat)
    requires Inv(s) && Current(s, sid) && s.actor.Supervisor? && s.actor.pc != Adapter
    requires s.actor.pc != FirstClear && s.actor.pc != FinalClear
    ensures Current(SupervisorLine(s, o, now), sid) && SupervisorLine(s, o, now).stop == s.stop
  {}

  lemma {:induction false} KeptAlong(s: State, run: seq<Action>, t: State, sid: nat)
    requires Kept(s, sid) && Leads(s, run, t) && NoClear(s, run)
    ensures StopRequested(t, sid)
    decreases |run|
  {
    if run != [] {
      KeptStep(s, run[0], sid);
      KeptAlong(Step(s, run[0]), run[1..], t, sid);
    }
  }

  ghost predicate SurvivesUntilCleared(s: State, sid: nat) {
    forall run, t :: Leads(s, run, t) && NoClear(s, run) ==> StopRequested(t, sid)
  }

  /** An installed request of the running session survives every run without an unlink if and only if
      no requester of another session is still before its replace. */
  lemma StopDurability(s: State, sid: nat)
    requires Reachable(s) && StopRequested(s, sid) && s.disk.phase != Idle && s.disk.sid == Some(sid)
    ensures NoStaleRequester(s, sid) <==> SurvivesUntilCleared(s, sid)
  {
    ReachableInv(s);
    if NoStaleRequester(s, sid) {
      forall run, t | Leads(s, run, t) && NoClear(s, run) ensures StopRequested(t, sid) {
        KeptAlong(s, run, t, sid);
      }
    } else {
      var id :| id in s.pending && s.pending[id] != sid;
      var a := ReqInstall(id);
      var t := Step(s, a);
      assert [a][1..] == [];
      assert t.stop == Some(s.pending[id]) && !StopRequested(t, sid);
      assert Leads(t, [], t) && NoClear(t, []);
      assert Leads(s, [a], t) && NoClear(s, [a]);
    }
  }

  /** While a supervisor is past its first unlink and before its last, only a requester changes the marker. */
  lemma OnlyTheEndsClear(s: State, a: Action)
    requires Enabled(s, a) && s.actor.Supervisor? && s.actor.pc != FirstClear && s.actor.pc != FinalClear
    ensures Step(s, a).stop == (if a.ReqInstall? then Some(s.pending[a.id]) else s.stop)
  {}

  // ----- Reachable trouble -----

  lemma Go(s: State, a: Action, t: State)
    requires Reachable(s) && Enabled(s, a) && t == Step(s, a)
    ensures Reachable(t)
  {
    var s0, run :| Init(s0) && Leads(s0, run, s);
    Extend(s0, run, s, a);
  }

  function Holding(disk: SState, style: Style, pc: Pc, mem: SState, next: SState): State {
    State(disk, None, Supervisor(style, 7, pc, mem, next), map[], {})
  }

  function Phased(p: Phase): SState {
    if p == Idle then IDLE_STATE else SState(p, Some(7), Some(0), false, false)
  }

  lemma ReachAdapter()
    ensures Reachable(Holding(Phased(Checking), DiskFirst, Adapter, Phased(Checking), Phased(Checking)))
  {
    var s0 := State(IDLE_STATE, None, Free, map[], {});
    assert Leads(s0, [], s0) && Init(s0);
    var s1 := Holding(IDLE_STATE, DiskFirst, FirstClear, IDLE_STATE, IDLE_STATE);
    Go(s0, Start(DiskFirst, 7), s1);
    var c := Phased(Checking);
    var s2 := Holding(IDLE_STATE, DiskFirst, FirstWrite, c, c);
    Go(s1, Run(Ok, 0), s2);
    var s3 := Holding(c, DiskFirst, FirstAppend, c, c);
    Go(s2, Run(Ok, 0), s3);
    Go(s3, Run(Ok, 0), Holding(c, DiskFirst, Adapter, c, c));
  }

  /** A stop request was there at the first check, so the phase loop went straight to `stopping`. */
  lemma ReachStopping()
    ensures Reachable(Holding(Phased(Stopping), DiskFirst, Adapter, Phased(Stopping), Phased(Stopping)))
  {
    ReachAdapter();
    var c, d := Phased(Checking), Phased(Stopping);
    var s1 := Holding(c, DiskFirst, Enter(Stopping, NO_UPDATES, ThenAdapter), c, c);
    Go(Holding(c, DiskFirst, Adapter, c, c), Choose(Stage(Stopping)), s1);
    var s2 := Holding(c, DiskFirst, Write(ThenAdapter), c, d);
    Go(s1, Run(Ok, 0), s2);
    var s3 := Holding(d, DiskFirst, Append(ThenAdapter), c, d);
    Go(s2, Run(Ok, 0), s3);
    Go(s3, Run(Ok, 0), Holding(d, DiskFirst, Adapter, d, d));
  }

  /** The exception in `PersistedStatesAreLegal` does occur: the directory fsync of the write of `idle`
      fails after the replace, and the handler persists `error` over `idle`. */
  lemma ErrorOverIdleIsReachable()
    ensures exists t, a :: Reachable(t) && Enabled(t, a) && WritesOverIdle(t, a)
  {
    ReachStopping();
    var c := Phased(Stopping);
    var s1 := Holding(c, DiskFirst, Enter(Idle, NO_UPDATES, ThenAdapter), c, c);
    Go(Holding(c, DiskFirst, Adapter, c, c), Choose(Stage(Idle)), s1);
    var s2 := Holding(c, DiskFirst, Write(ThenAdapter), c, IDLE_STATE);
    Go(s1, Run(Ok, 0), s2);
    var s3 := Holding(IDLE_STATE, DiskFirst, Except, c, IDLE_STATE);
    Go(s2, Run(FailAfter, 0), s3);
    var s4 := Step(s3, Run(Ok, 0));
    Go(s3, Run(Ok, 0), s4);
    assert WritesOverIdle(s4, Run(Ok, 0));
  }

  /** Without any crash the transport supervisor can release the lock with an active phase on disk. */
  lemma ActivePhaseLeftBehind()
    ensures exists t :: Reachable(t) && t.actor == Free && t.disk.phase == Checking
  {
    var s0 := State(IDLE_STATE, None, Free, map[], {});
    assert Leads(s0, [], s0) && Init(s0);
    var s1 := Holding(IDLE_STATE, MemoryFirst, FirstClear, IDLE_STATE, IDLE_STATE);
    Go(s0, Start(MemoryFirst, 7), s1);
    var c := Phased(Checking);
    var s2 := Holding(IDLE_STATE, MemoryFirst, FirstWrite, c, c);
    Go(s1, Run(Ok, 0), s2);
    var s3 := Holding(c, MemoryFirst, FirstAppend, c, c);
    Go(s2, Run(Ok, 0), s3);
    Go(s3, Run(FailBefore, 0), State(c, None, Free, map[], {}));
  }
}
