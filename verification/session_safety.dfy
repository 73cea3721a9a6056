/** What every run of the session protocol keeps. */
module SessionSafety {
  import opened SessionState
  import opened SessionProtocol

  ghost predicate SameSession(x: SState, y: SState) { x.sid == y.sid && x.startedAt == y.startedAt }

  predicate EdgeOrSame(p: Phase, q: Phase) { p == q || Edge(p, q) }

  /** `m` is what a checked transition may make of `x`. */
  ghost predicate Near(x: SState, m: SState) {
    x == m || (x.phase != Idle && EdgeOrSame(x.phase, m.phase) && (m.phase != Idle ==> SameSession(x, m)))
  }

  ghost predicate SupervisorInv(disk: SState, a: Actor)
    requires a.Supervisor?
  {
    && ValidState(a.mem) && ValidState(a.next)
    && match a.pc
       case FirstClear => disk.phase == Idle
       case FirstWrite => disk.phase == Idle && a.next.phase == Checking && a.mem == a.next
       case FirstAppend => disk == a.mem
       case Enter(_, u, _) => disk == a.mem && u.sid.None?
       case Adapter => disk == a.mem
       case Result(_) => disk == a.mem
       case Write(_) => Near(disk, a.next) && a.mem == (if a.style == MemoryFirst then a.next else disk)
       case Append(_) => disk == a.next && (if a.style == MemoryFirst then a.mem == disk else Near(a.mem, disk))
       case Except =>
         if a.style == MemoryFirst then Near(disk, a.mem) else Near(a.mem, disk)
       case ExceptWrite =>
         && a.next.phase == Error && (disk.phase != Idle ==> SameSession(disk, a.next))
         && (a.style == MemoryFirst ==> disk.phase != Idle)
       case ExceptAppend => true
       case FinalClear => true
  }

  ghost predicate RecoveryInv(disk: SState, a: Actor)
    requires a.Recoverer?
  {
    && ValidState(a.rmem)
    && match a.rpc
       case RAppend => a.rmem == disk && disk.phase != Idle
       case RWrite => a.rmem.phase in {Stopping, Recovering} && Near(disk, a.rmem) && disk.phase != Idle
       case RIdle => a.rmem == disk && disk.phase in {Checking, Stopping, Recovering}
       case RFinish => disk.phase == Idle
       case RClear => disk.phase == Idle
  }

  ghost predicate Inv(s: State) {
    && ValidState(s.disk)
    && (s.actor.Supervisor? ==> SupervisorInv(s.disk, s.actor))
    && (s.actor.Recoverer? ==> RecoveryInv(s.disk, s.actor))
    && (forall id :: id in s.pending ==> s.pending[id] in s.asked)
    && (s.stop.Some? ==> s.stop.value in s.asked)
  }

  lemma SupervisorKeeps(s: State, o: Outcome, now: nat)
    requires Inv(s) && s.actor.Supervisor? && s.actor.pc != Adapter
    ensures Inv(SupervisorLine(s, o, now))
  {}

  lemma InvStep(s: State, a: Action)
    requires Inv(s) && Enabled(s, a)
    ensures Inv(Step(s, a))
  {
    if a.Run? && s.actor.Supervisor? { SupervisorKeeps(s, a.o, a.now); }
  }

  // ----- Persisted phases -----

  /** Consecutive persisted states: a table edge or none, and one session while it stays active. */
  ghost predicate LegalWrite(x: SState, y: SState) {
    EdgeOrSame(x.phase, y.phase) && (x.phase != Idle && y.phase != Idle ==> SameSession(x, y))
  }

  /** The one way out of the table: a simulated or dry-run supervisor whose write of `idle` was replaced
      but reported as failed writes `error` over it. */
  predicate WritesOverIdle(s: State, a: Action) {
    && a.Run? && Lands(a.o) && s.actor.Supervisor? && s.actor.style == DiskFirst
    && s.actor.pc == ExceptWrite && s.disk.phase == Idle
  }

  lemma WritesAreLegal(s: State, a: Action)
    requires Inv(s) && Enabled(s, a)
    ensures LegalWrite(s.disk, Step(s, a).disk) <==> !WritesOverIdle(s, a)
  {}

  // ----- Runs -----

  ghost predicate Leads(s: State, run: seq<Action>, t: State)
    decreases |run|
  {
    if run == [] then s == t
    else Enabled(s, run[0]) && Leads(Step(s, run[0]), run[1..], t)
  }

  lemma {:induction false} Extend(s: State, run: seq<Action>, t: State, a: Action)
    requires Leads(s, run, t) && Enabled(t, a)
    ensures Leads(s, run + [a], Step(t, a))
    decreases |run|
  {
    if run == [] {
      assert [a][1..] == [];
    } else {
      Extend(Step(s, run[0]), run[1..], t, a);
      assert (run + [a])[1..] == run[1..] + [a];
    }
  }

  ghost predicate Reachable(t: State) {
    exists s, run :: Init(s) && Leads(s, run, t)
  }

  lemma {:induction false} InvAlong(s: State, run: seq<Action>, t: State)
    requires Inv(s) && Leads(s, run, t)
    ensures Inv(t)
    decreases |run|
  {
    if run != [] {
      InvStep(s, run[0]);
      InvAlong(Step(s, run[0]), run[1..], t);
    }
  }

  lemma ReachableInv(t: State)
    requires Reachable(t)
    ensures Inv(t)
  {
    var s, run :| Init(s) && Leads(s, run, t);
    InvAlong(s, run, t);
  }

  /** Whatever crashed or failed before, the next persisted state is legal, with that one exception. */
  lemma PersistedStatesAreLegal(t: State, a: Action)
    requires Reachable(t) && Enabled(t, a)
    ensures LegalWrite(t.disk, Step(t, a).disk) <==> !WritesOverIdle(t, a)
  {
    ReachableInv(t);
    WritesAreLegal(t, a);
  }

  ghost predicate BusyAlong(s: State, run: seq<Action>)
    decreases |run|
  {
    s.disk.phase != Idle && (run != [] && Enabled(s, run[0]) ==> BusyAlong(Step(s, run[0]), run[1..]))
  }

  /** From `checking` to the next `idle` the session id and the start time on disk do not change. */
  lemma {:induction false} SessionConstant(s: State, run: seq<Action>, t: State)
    requires Reachable(s) && Leads(s, run, t) && BusyAlong(s, run)
    ensures SameSession(s.disk, t.disk)
  {
    ReachableInv(s);
    ConstantAlong(s, run, t);
  }

  lemma {:induction false} ConstantAlong(s: State, run: seq<Action>, t: State)
    requires Inv(s) && Leads(s, run, t) && BusyAlong(s, run)
    ensures SameSession(s.disk, t.disk)
    decreases |run|
  {
    if run != [] {
      var u := Step(s, run[0]);
      InvStep(s, run[0]);
      WritesAreLegal(s, run[0]);
      ConstantAlong(u, run[1..], t);
      assert u.disk.phase != Idle;
    }
  }

  /** Under the free lock a recovery whose writes succeed takes every reachable state to `idle` and
      leaves no stop marker. */
  lemma RecoveryReachesIdle(s: State, now: nat) returns (run: seq<Action>, t: State)
    requires Reachable(s) && s.actor == Free && s.disk.phase != Idle
    ensures Leads(s, run, t) && t.disk == IDLE_STATE && t.actor == Free && t.stop == None
    ensures forall a :: a in run ==> a == StartRecovery || a == Run(Ok, now)
  {
    ReachableInv(s);
    var go := Run(Ok, now);
    var s1 := Step(s, StartRecovery);
    var s2 := Step(s1, go);
    assert s2.actor.Recoverer?;
    if s2.actor.rpc == RIdle {
      run, t := RecoveryFinishes(s2, now);
      run := [StartRecovery, go] + run;
      assert run[1..][1..] == run[2..];
    } else {
      var s3 := Step(s2, go);
      run, t := RecoveryFinishes(s3, now);
      run := [StartRecovery, go, go] + run;
      assert run[1..][1..][1..] == run[3..];
    }
  }

  lemma RecoveryFinishes(s: State, now: nat) returns (run: seq<Action>, t: State)
    requires Inv(s) && s.actor.Recoverer? && s.actor.rpc == RIdle
    ensures Leads(s, run, t) && t.disk == IDLE_STATE && t.actor == Free && t.stop == None
    ensures run == [Run(Ok, now), Run(Ok, now), Run(Ok, now)]
  {
    var go := Run(Ok, now);
    var s1 := Step(s, go);
    var s2 := Step(s1, go);
    t := Step(s2, go);
    run := [go, go, go];
    assert run[1..] == [go, go] && run[1..][1..] == [go] && run[1..][1..][1..] == [];
    assert Leads(s2, [go], t);
    assert Leads(s1, [go, go], t);
  }
}
