/** When the transport supervisor releases the lock with an active phase on disk although nothing crashed. */
module SessionRelease {
  import opened SessionState
  import opened SessionProtocol
  import opened SessionSafety

  predicate Active(x: SState) { x.phase != Idle && x.phase != Error }

  predicate IsTransport(s: State) { s.actor.Supervisor? && s.actor.style == MemoryFirst }

  /** The supervisor will write nothing any more, or only an `error` that its memory already holds. */
  predicate Stranded(s: State) {
    && IsTransport(s) && Active(s.disk)
    && var a := s.actor;
       a.pc == FinalClear || a.pc == ExceptAppend || (a.pc == Except && a.mem.phase in {Idle, Error})
  }

  /** The failing calls that strand the session.  A failed write of a phase that is neither `idle` nor `error`, and an
      event failure that the adapter's own error replaces, are handled and do not. */
  predicate Strands(s: State, a: Action) {
    && IsTransport(s)
    && var (pc, next) := (s.actor.pc, s.actor.next);
       if a.Choose? then a.c == Abort && Active(s.disk)
       else
         && a.Run?
         && match pc
            case FirstWrite => a.o == FailAfter
            case FirstAppend => a.o != Ok
            case Write(_) => !Lands(a.o) && Active(s.disk) && (a.o == Uncaught || next.phase in {Idle, Error})
            case Append(after) => a.o != Ok && Active(s.disk) && !(after == ThenAdapter && a.o == FailAfter)
            case Result(_) => a.o != Ok && Active(s.disk)
            case ExceptWrite => !Lands(a.o) && Active(s.disk)
            case _ => false
  }

  /** The phases that go with each place in the supervisor. */
  ghost predicate Placed(s: State) {
    && Inv(s) && IsTransport(s)
    && var a := s.actor;
       match a.pc
       case FirstAppend => s.disk.phase == Checking
       case Enter(to, _, after) => after == ThenDone ==> to in {Idle, Error}
       case Write(after) => after == ThenDone ==> a.next.phase in {Idle, Error}
       case Append(after) => after == ThenDone ==> a.next.phase in {Idle, Error}
       case _ => true
  }

  /** What one step that is no crash does: it goes on or releases the lock, and strands the session in the listed ways
      only. */
  ghost predicate StrandsAsListed(s: State, a: Action, t: State) {
    if t.actor.Supervisor? then Placed(t) && (Stranded(t) <==> Stranded(s) || Strands(s, a))
    else t.actor == Free && (Active(t.disk) <==> Stranded(s) || Strands(s, a))
  }

  lemma LineStrands(s: State, o: Outcome, now: nat)
    requires Placed(s) && s.actor.pc != Adapter
    ensures StrandsAsListed(s, Run(o, now), SupervisorLine(s, o, now))
  {
    SupervisorKeeps(s, o, now);
  }

  lemma StepStrands(s: State, a: Action)
    requires Placed(s) && Enabled(s, a) && a != Crash
    ensures StrandsAsListed(s, a, Step(s, a))
  {
    InvStep(s, a);
    if a.Run? { LineStrands(s, a.o, a.now); }
  }

  /** The supervisor holds the lock throughout the run, and nothing crashes it. */
  ghost predicate HoldsLock(s: State, run: seq<Action>)
    decreases |run|
  {
    run == [] || (IsTransport(s) && Enabled(s, run[0]) && run[0] != Crash && HoldsLock(Step(s, run[0]), run[1..]))
  }

  lemma {:induction false} HoldsOn(s: State, run: seq<Action>, t: State, a: Action)
    requires Leads(s, run, t) && HoldsLock(s, run)
    requires IsTransport(t) && Enabled(t, a) && a != Crash
    ensures HoldsLock(s, run + [a])
    decreases |run|
  {
    if run == [] {
      assert [a][1..] == [];
    } else {
      HoldsOn(Step(s, run[0]), run[1..], t, a);
      assert (run + [a])[1..] == run[1..] + [a];
    }
  }

  /** Some call along the run strands the session. */
  ghost predicate StrandsAlong(s: State, run: seq<Action>)
    decreases |run|
  {
    run != [] && Enabled(s, run[0]) && (Strands(s, run[0]) || StrandsAlong(Step(s, run[0]), run[1..]))
  }

  lemma {:induction false} ReleasedAlong(s: State, run: seq<Action>, t: State)
    requires Placed(s) && Leads(s, run, t) && HoldsLock(s, run) && t.actor == Free
    ensures Active(t.disk) <==> Stranded(s) || StrandsAlong(s, run)
    decreases |run|
  {
    if run != [] {
      var u := Step(s, run[0]);
      StepStrands(s, run[0]);
      if u.actor.Supervisor? { ReleasedAlong(u, run[1..], t); } else { assert run[1..] == []; }
    }
  }

  /** A transport session that no crash ends releases the lock with an active phase on disk if and only if one of the
      listed calls failed in it. */
  lemma ActivePhaseLeftExactly(s: State, sid: nat, run: seq<Action>, t: State)
    requires Reachable(s) && s.actor == Supervisor(MemoryFirst, sid, FirstClear, IDLE_STATE, IDLE_STATE)
    requires Leads(s, run, t) && HoldsLock(s, run) && t.actor == Free
    ensures Active(t.disk) <==> StrandsAlong(s, run)
  {
    ReachableInv(s);
    ReleasedAlong(s, run, t);
  }
}
