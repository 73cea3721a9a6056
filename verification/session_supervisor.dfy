/**
 `TransportTestSupervisor.run` and `recover_stale_session` as they run under the lock.  A ghost copy of the session
 machine takes one step for every line, so that what is proved of the machine's runs holds of these programs.
 */
module SessionSupervisor {
  import opened SessionState
  import opened SessionProtocol
  import opened SessionSafety
  import opened SessionRelease

  /** How the injected adapter leaves its `run`. */
  datatype Ending = Returns(good: bool) | RaisesTransportError | RaisesOther

  datatype Raised = Nothing | Handled | Escapes

  /** Every persisted state follows from the one before it by a legal write. */
  ghost predicate Chain(log: seq<SState>) {
    forall i :: 0 <= i < |log| - 1 ==> LegalWrite(log[i], log[i + 1])
  }

  function Phases(log: seq<SState>): seq<Phase> {
    seq(|log|, i requires 0 <= i < |log| => log[i].phase)
  }

  /** A stage the adapter may report next: neither `error` nor `recovering`, which a stage gives no error for. */
  predicate FitsNext(p: Phase, q: Phase) { EdgeOrSame(p, q) && q != Error && q != Recovering }

  /** How many of the stages are accepted, from phase `p` on. */
  function Fits(p: Phase, stages: seq<Phase>): (k: nat)
    ensures k <= |stages|
    decreases |stages|
  {
    if stages == [] || !FitsNext(p, stages[0]) then 0 else 1 + Fits(stages[0], stages[1..])
  }

  /** The phase after these stages. */
  function Reached(stages: seq<Phase>): Phase {
    if stages == [] then Preparing else stages[|stages| - 1]
  }

  /** The phases that are persisted after the stages. */
  function Closing(p: Phase, ending: Ending): seq<Phase> {
    match ending
    case Returns(good) => if !good then [Error] else if p == Stopping then [Idle] else [Stopping, Idle]
    case RaisesTransportError => [Error]
    case RaisesOther => []
  }

  /** What a run in which no call fails persists once it is preparing: an unacceptable stage is answered with
      `error`. */
  function AfterPreparing(stages: seq<Phase>, ending: Ending): seq<Phase> {
    var k := Fits(Preparing, stages);
    stages[..k] + if k < |stages| then [Error] else Closing(Reached(stages), ending)
  }

  function PhasesOfRun(stages: seq<Phase>, ending: Ending): seq<Phase> {
    [Checking, Discovering, Preparing] + AfterPreparing(stages, ending)
  }

  /** The stages of an ordinary session. */
  lemma OrdinaryPhases(stages: seq<Phase>, good: bool)
    requires stages <= [Connecting, Streaming]
    ensures PhasesOfRun(stages, Returns(good)) ==
            [Checking, Discovering, Preparing] + stages + if good then [Stopping, Idle] else [Error]
    ensures PhasesOfRun(stages, RaisesTransportError) == [Checking, Discovering, Preparing] + stages + [Error]
  {
    assert |stages| <= 2 && (|stages| > 0 ==> stages[0] == Connecting) && (|stages| > 1 ==> stages[1] == Streaming);
    assert |stages| == 2 ==> Fits(Connecting, stages[1..]) == 1;
    assert stages[..|stages|] == stages;
  }

  lemma FitsFrom(stages: seq<Phase>, i: nat, p: Phase)
    requires i < |stages|
    ensures Fits(p, stages[i..]) == if FitsNext(p, stages[i]) then 1 + Fits(stages[i], stages[i + 1..]) else 0
  {
    assert stages[i..][1..] == stages[i + 1..];
  }

  /** Accepted stages stay between `preparing` and `stopping`. */
  lemma {:induction false} FitsStages(p: Phase, stages: seq<Phase>)
    requires p in {Preparing, Connecting, Streaming, Stopping} && Idle !in stages
    ensures var k := Fits(p, stages);
      k > 0 ==> stages[k - 1] in {Preparing, Connecting, Streaming, Stopping}
    decreases |stages|
  {
    if Fits(p, stages) > 0 { FitsStages(stages[0], stages[1..]); }
  }

  lemma PhasesOn(a: seq<SState>, x: SState)
    ensures Phases(a + [x]) == Phases(a) + [x.phase]
  {}

  // ----- The machine beside the program -----

  /** A step of the lock holder that is no crash. */
  ghost predicate Moves(s: State, a: Action, t: State) {
    s.actor != Free && a != Crash && Enabled(s, a) && t == Step(s, a)
  }

  ghost predicate Trail(first: State, run: seq<Action>, m: State, trail: seq<State>) {
    && |trail| == |run| + 1 && trail[0] == first && trail[|run|] == m
    && forall i :: 0 <= i < |run| ==> Moves(trail[i], run[i], trail[i + 1])
  }

  lemma TrailGrows(first: State, run: seq<Action>, m: State, trail: seq<State>, a: Action)
    requires Trail(first, run, m, trail) && m.actor != Free && a != Crash && Enabled(m, a)
    ensures Trail(first, run + [a], Step(m, a), trail + [Step(m, a)])
  {}

  lemma {:induction false} TrailLeads(first: State, run: seq<Action>, m: State, trail: seq<State>)
    requires Trail(first, run, m, trail)
    ensures Leads(first, run, m) && (IsTransport(first) ==> HoldsLock(first, run))
    decreases |run|
  {
    if run != [] {
      assert Moves(trail[0], run[0], trail[1]);
      TrailLeads(trail[1], run[1..], m, trail[1..]);
      if IsTransport(first) { TransportGoesOn(first, run, m, trail); }
    }
  }

  lemma TransportGoesOn(first: State, run: seq<Action>, m: State, trail: seq<State>)
    requires Trail(first, run, m, trail) && run != [] && IsTransport(first)
    ensures IsTransport(trail[1]) || run[1..] == []
  {
    assert Moves(trail[0], run[0], trail[1]);
    if |run| > 1 { assert Moves(trail[1], run[1], trail[2]); }
  }

  /** A transport session that nothing crashed: what it left on disk, and why. */
  lemma TrailReleases(first: State, sid: nat, run: seq<Action>, m: State, trail: seq<State>)
    requires Trail(first, run, m, trail) && Inv(first) && m.actor == Free
    requires first.actor == Supervisor(MemoryFirst, sid, FirstClear, IDLE_STATE, IDLE_STATE)
    ensures Leads(first, run, m) && HoldsLock(first, run)
    ensures Active(m.disk) <==> StrandsAlong(first, run)
  {
    TrailLeads(first, run, m, trail);
    ReleasedAlong(first, run, m);
  }

  class Session {
    var disk: SState
    var stop: Option<nat>
    var mem: SState
    var tick: nat                        // how many fallible calls were made
    const oracle: nat -> Outcome         // how each of them ends
    const now: nat
    ghost var log: seq<SState>           // what was on disk, oldest first
    ghost var first: State               // the machine when it started,
    ghost var run: seq<Action>           // the steps it took
    ghost var trail: seq<State>          // the states it went through,
    ghost var m: State                   // and the last of them

    constructor (disk: SState, stop: Option<nat>, oracle: nat -> Outcome, now: nat)
      requires ValidState(disk)
      ensures Valid() && this.disk == disk && this.stop == stop && log == [disk] && tick == 0
      ensures this.oracle == oracle && this.now == now
    {
      this.disk, this.stop, this.oracle, this.now := disk, stop, oracle, now;
      mem, tick, log := disk, 0, [disk];
    }

    ghost predicate Valid()
      reads this
    {
      ValidState(disk) && ValidState(mem) && log != [] && log[|log| - 1] == disk && Chain(log)
    }

    /** The writer's memory is the persisted state or one legal write ahead of it. */
    ghost predicate InStep()
      reads this
    {
      Valid() && Near(disk, mem)
    }

    /** No call fails, from the `t`th on. */
    ghost predicate FineFrom(t: nat) {
      forall k :: t <= k ==> oracle(k) == Ok
    }

    ghost predicate Fine() { FineFrom(0) }

    /** The machine took these steps and has the same files. */
    ghost predicate Traced()
      reads this
    {
      Trail(first, run, m, trail) && m.disk == disk && m.stop == stop
    }

    /** The machine's supervisor is at `pc` with the same memory. */
    ghost predicate At(pc: Pc)
      reads this
    {
      Traced() && m.actor.Supervisor? && m.actor == Supervisor(MemoryFirst, m.actor.sid, pc, mem, mem)
    }

    ghost predicate Released()
      reads this
    {
      Traced() && m.actor == Free
    }

    ghost method Follow(s: State)
      requires s.disk == disk && s.stop == stop
      modifies this`first, this`run, this`trail, this`m
      ensures Traced() && first == m == s
    {
      first, run, trail, m := s, [], [s], s;
    }

    ghost method Take(a: Action)
      requires Trail(first, run, m, trail) && m.actor != Free && Enabled(m, a) && a != Crash
      modifies this`run, this`trail, this`m
      ensures Trail(first, run, m, trail) && m == Step(old(m), a)
    {
      TrailGrows(first, run, m, trail, a);
      m, run, trail := Step(m, a), run + [a], trail + [Step(m, a)];
    }

    method Attempt() returns (o: Outcome)
      modifies this`tick
      ensures o == oracle(old(tick)) && tick == old(tick) + 1
    {
      o := oracle(tick);
      tick := tick + 1;
    }

    /** `write_state(state)`: replaces the file, or fails before or after doing so. */
    method WriteState() returns (e: Raised, o: Outcome)
      requires Valid() && LegalWrite(disk, mem)
      modifies this`disk, this`tick, this`log
      ensures Valid() && tick == old(tick) + 1 && o == oracle(old(tick))
      ensures disk == (if Lands(o) then mem else old(disk))
      ensures log == (if Lands(o) then old(log) + [mem] else old(log))
      ensures e == (if o == Ok then Nothing else if o == Uncaught then Escapes else Handled)
    {
      o := Attempt();
      if Lands(o) {
        disk := mem;
        log := log + [disk];
      }
      e := if o == Ok then Nothing else if o == Uncaught then Escapes else Handled;
    }

    /** `append_event`: a SessionError is not caught here. */
    method AppendEvent() returns (e: Raised)
      modifies this`tick
      ensures tick == old(tick) + 1 && e == (if oracle(old(tick)) == Ok then Nothing else Escapes)
    {
      var o := Attempt();
      e := if o == Ok then Nothing else Escapes;
    }

    method ClearStopRequest() returns (e: Raised, o: Outcome)
      modifies this`stop, this`tick
      ensures tick == old(tick) + 1 && o == oracle(old(tick)) && e == (if o == Ok then Nothing else Escapes)
      ensures stop == (if Lands(o) then None else old(stop))
    {
      o := Attempt();
      if Lands(o) { stop := None; }
      e := if o == Ok then Nothing else Escapes;
    }

    /** `move`: the memory advances before the write.  `masks`: an exception is replaced by the adapter's own. */
    method Move(p: Phase, u: Updates, ghost after: After, ghost masks: bool) returns (e: Raised)
      requires Valid() && mem == disk && u.sid.None? && At(Enter(p, u, after)) && (masks ==> after == ThenAdapter)
      modifies this`disk, this`mem, this`tick, this`log, this`run, this`trail, this`m
      ensures InStep() && first == old(first)
      ensures At(if e == Nothing then Following(after) else if e == Handled || masks then Except else FinalClear)
      ensures e == Nothing ==> mem == disk && log == old(log) + [mem]
      ensures log == old(log) || log == old(log) + [mem]
      ensures var n := old(Transition(mem, p, u, now));
              if n.None? then e == Handled && mem == disk == old(disk) && log == old(log)
              else mem == n.value && (old(FineFrom(tick)) ==> e == Nothing)
    {
      var n := Transition(mem, p, u, now);
      Take(Action.Run(Ok, now));
      if n.None? { return Handled; }
      mem := n.value;
      e := Persist(after, masks);
    }

    method Persist(ghost after: After, ghost masks: bool) returns (e: Raised)
      requires InStep() && At(Write(after)) && (masks ==> after == ThenAdapter)
      modifies this`disk, this`tick, this`log, this`run, this`trail, this`m
      ensures InStep() && first == old(first)
      ensures At(if e == Nothing then Following(after) else if e == Handled || masks then Except else FinalClear)
      ensures e == Nothing ==> mem == disk && log == old(log) + [mem]
      ensures log == old(log) || log == old(log) + [mem]
      ensures old(FineFrom(tick)) ==> e == Nothing
    {
      var o;
      e, o := WriteState();
      Take(Action.Run(if masks && o == Uncaught then FailBefore else o, now));
      if e == Nothing {
        e := AppendEvent();
        Take(Action.Run(if e == Nothing then Ok else if masks then FailAfter else FailBefore, now));
      }
    }

    predicate Plain()
      reads this
    {
      !mem.reason && !mem.error
    }

    /** The stage callback. */
    method ReportStage(p: Phase, ghost masks: bool) returns (e: Raised)
      requires Valid() && mem == disk && disk.phase != Idle && p != Idle && At(Adapter)
      modifies this`disk, this`mem, this`tick, this`log, this`run, this`trail, this`m
      ensures InStep() && old(log) <= log && disk.phase != Idle && first == old(first)
      ensures At(if e == Nothing then Adapter else if e == Handled || masks then Except else FinalClear)
      ensures e == Nothing ==> mem == disk && mem.phase == p && Phases(log) == old(Phases(log)) + [p]
      ensures Fine() && old(Plain()) ==>
                if FitsNext(old(mem.phase), p) then e == Nothing && Plain()
                else e == Handled && mem == disk == old(disk) && log == old(log)
    {
      Take(Choose(Stage(p)));
      e := Move(p, NO_UPDATES, ThenAdapter, masks);
      if e == Nothing { PhasesOn(old(log), mem); }
    }

    /** The stages the adapter reports, until one of them raises. */
    method Stages(stages: seq<Phase>, ghost masks: bool) returns (e: Raised)
      requires Valid() && mem == disk && Idle !in stages && disk.phase != Idle && At(Adapter)
      modifies this`disk, this`mem, this`tick, this`log, this`run, this`trail, this`m
      ensures InStep() && old(log) <= log && disk.phase != Idle && first == old(first)
      ensures At(if e == Nothing then Adapter else if e == Handled || masks then Except else FinalClear)
      ensures e == Nothing ==> mem == disk
      ensures Fine() && old(mem.phase == Preparing && Plain()) ==>
                var k := Fits(Preparing, stages);
                && Phases(log) == old(Phases(log)) + stages[..k] && mem == disk && Plain()
                && mem.phase == Reached(stages[..k]) && e == (if k < |stages| then Handled else Nothing)
    {
      e := Nothing;
      var i := 0;
      while i < |stages|
        invariant i <= |stages| && e == Nothing
        invariant Valid() && mem == disk && old(log) <= log && disk.phase != Idle
        invariant At(Adapter) && first == old(first)
        invariant Fine() && old(mem.phase == Preparing && Plain()) ==>
                    && Fits(Preparing, stages) == i + Fits(mem.phase, stages[i..]) && Plain()
                    && Phases(log) == old(Phases(log)) + stages[..i] && mem.phase == Reached(stages[..i])
      {
        FitsFrom(stages, i, mem.phase);
        e := ReportStage(stages[i], masks);
        if e != Nothing { return; }
        assert stages[..i + 1] == stages[..i] + [stages[i]];
        i := i + 1;
      }
      assert stages[..i] == stages;
    }

    /** After the adapter returned a result. */
    method Settle(good: bool) returns (e: Raised)
      requires Valid() && mem == disk && disk.phase != Idle && At(Result(good))
      modifies this`disk, this`mem, this`tick, this`log, this`run, this`trail, this`m
      ensures InStep() && old(log) <= log && (disk.phase == Idle ==> good) && first == old(first)
      ensures At(if e == Handled then Except else FinalClear)
      ensures e == Nothing ==> disk.phase == (if good then Idle else Error)
      ensures Fine() && old(mem.phase in {Preparing, Connecting, Streaming, Stopping} && Plain()) ==>
                e == Nothing && Phases(log) == old(Phases(log)) + Closing(old(mem.phase), Returns(good))
    {
      e := NoteResult(good);
      if e != Nothing { return; }
      if good {
        e := MoveToIdle();
      } else {
        e := Move(Error, Updates(None, false, true), ThenDone, false);
      }
      if e == Nothing { e := AppendEvent(); }
    }

    method NoteResult(good: bool) returns (e: Raised)
      requires At(Result(good))
      modifies this`tick, this`run, this`trail, this`m
      ensures e == (if oracle(old(tick)) == Ok then Nothing else Escapes) && first == old(first)
      ensures At(if e != Nothing then FinalClear
                 else if !good then Enter(Error, Updates(None, false, true), ThenDone)
                 else if mem.phase == Stopping then Enter(Idle, NO_UPDATES, ThenDone)
                 else Enter(Stopping, Updates(None, true, false), ThenIdle))
    {
      e := AppendEvent();
      Take(Action.Run(if e == Nothing then Ok else FailBefore, now));
    }

    method MoveToIdle() returns (e: Raised)
      requires Valid() && mem == disk && disk.phase != Idle
      requires if mem.phase == Stopping then At(Enter(Idle, NO_UPDATES, ThenDone))
               else At(Enter(Stopping, Updates(None, true, false), ThenIdle))
      modifies this`disk, this`mem, this`tick, this`log, this`run, this`trail, this`m
      ensures InStep() && old(log) <= log && first == old(first)
      ensures At(if e == Handled then Except else FinalClear)
      ensures e == Nothing ==> disk.phase == Idle
      ensures e == Nothing ==> Phases(log) == old(Phases(log)) + Closing(old(mem.phase), Returns(true))
      ensures Fine() && old(mem.phase in {Preparing, Connecting, Streaming, Stopping} && Plain()) ==> e == Nothing
    {
      if mem.phase != Stopping {
        e := Move(Stopping, Updates(None, true, false), ThenIdle, false);
        if e != Nothing { return; }
      }
      e := Move(Idle, NO_UPDATES, ThenDone, false);
    }

    /** The two phases before the adapter runs. */
    method Approach() returns (e: Raised)
      requires Valid() && mem == disk && disk.phase == Checking && At(Enter(Discovering, NO_UPDATES, ThenPreparing))
      modifies this`disk, this`mem, this`tick, this`log, this`run, this`trail, this`m
      ensures InStep() && old(log) <= log && first == old(first) && disk.phase != Idle
      ensures At(if e == Nothing then Adapter else if e == Handled then Except else FinalClear)
      ensures e == Nothing ==> mem == disk
      ensures Fine() && old(Plain()) ==> e == Nothing && disk.phase == Preparing && Plain()
      ensures e == Nothing ==> Phases(log) == old(Phases(log)) + [Discovering, Preparing]
    {
      e := Move(Discovering, NO_UPDATES, ThenPreparing, false);
      if e != Nothing { return; }
      PhasesOn(old(log), mem);
      ghost var before := log;
      e := Move(Preparing, NO_UPDATES, ThenAdapter, false);
      if e == Nothing { PhasesOn(before, mem); }
    }

    /** The adapter is done with its stages. */
    method Conclude(ending: Ending) returns (e: Raised)
      requires Valid() && mem == disk && disk.phase != Idle && At(Adapter)
      modifies this`disk, this`mem, this`tick, this`log, this`run, this`trail, this`m
      ensures InStep() && old(log) <= log && first == old(first)
      ensures disk.phase == Idle ==> ending == Returns(true)
      ensures e == Nothing ==> ending.Returns? && disk.phase == (if ending.good then Idle else Error)
      ensures At(if e == Handled then Except else FinalClear)
      ensures Fine() && old(mem.phase in {Preparing, Connecting, Streaming, Stopping} && Plain()) ==>
                if ending.Returns?
                then e == Nothing && Phases(log) == old(Phases(log)) + Closing(old(mem.phase), ending)
                else mem == disk == old(disk) && log == old(log)
                     && e == (if ending.RaisesTransportError? then Handled else Escapes)
    {
      match ending
      case Returns(good) =>
        Take(Choose(Finish(good)));
        e := Settle(good);
      case RaisesTransportError =>
        Take(Choose(Raise));
        e := Handled;
      case RaisesOther =>
        Take(Choose(Abort));
        e := Escapes;
    }

    /** The body of the `try`.  `masks`: the adapter's own `finally` raises in place of a stage's error. */
    method Body(stages: seq<Phase>, masks: bool, ending: Ending) returns (e: Raised)
      requires Valid() && mem == disk && disk.phase == Checking && Idle !in stages
      requires At(Enter(Discovering, NO_UPDATES, ThenPreparing))
      modifies this`disk, this`mem, this`tick, this`log, this`run, this`trail, this`m
      ensures InStep() && old(log) <= log && first == old(first)
      ensures disk.phase == Idle ==> ending == Returns(true)
      ensures e == Nothing ==> ending.Returns? && disk.phase == (if ending.good then Idle else Error)
      ensures At(if e == Handled then Except else FinalClear)
      ensures Fine() && old(Plain()) ==>
                && (e == Handled ==> mem == disk && mem.phase !in {Idle, Error})
                && e == (if Fits(Preparing, stages) < |stages| || ending.RaisesTransportError? then Handled
                         else if ending.RaisesOther? then Escapes else Nothing)
                && Phases(log) + (if e == Handled then [Error] else []) ==
                   old(Phases(log)) + [Discovering, Preparing] + AfterPreparing(stages, ending)
    {
      e := Approach();
      if e != Nothing { return; }
      e := Stages(stages, masks);
      if e != Nothing {
        if masks { e := Handled; }
        return;
      }
      FitsStages(Preparing, stages);
      e := Conclude(ending);
    }

    /** `except (TransportError, StateError)`: any phase but `idle` and `error` is left in `error` when its calls
        succeed. */
    method HandleError()
      requires InStep() && At(Except)
      modifies this`disk, this`mem, this`tick, this`log, this`run, this`trail, this`m
      ensures Valid() && old(log) <= log && (disk.phase == Idle <==> old(disk.phase) == Idle)
      ensures At(FinalClear) && first == old(first)
      ensures old(mem.phase) in {Idle, Error} ==> log == old(log)
      ensures old(FineFrom(tick) && mem.phase !in {Idle, Error}) ==>
                disk.phase == Error && SameSession(disk, old(mem)) && log == old(log) + [disk]
    {
      Take(Action.Run(Ok, now));
      if mem.phase == Idle { return; }
      if mem.phase != Error {
        var n := Transition(mem, Error, Updates(None, false, true), now);
        if n.None? { return; }
        mem := n.value;
        var e := PersistError();
        if e != Nothing { return; }
      }
      NoteError();
    }

    method PersistError() returns (e: Raised)
      requires Valid() && mem.phase == Error && LegalWrite(disk, mem) && At(ExceptWrite)
      modifies this`disk, this`tick, this`log, this`run, this`trail, this`m
      ensures Valid() && first == old(first) && At(if e == Nothing then ExceptAppend else FinalClear)
      ensures if disk == old(disk) && log == old(log) then e != Nothing else disk == mem && log == old(log) + [mem]
      ensures oracle(old(tick)) == Ok ==> e == Nothing
    {
      var o;
      e, o := WriteState();
      Take(Action.Run(o, now));
    }

    method NoteError()
      requires At(ExceptAppend)
      modifies this`tick, this`run, this`trail, this`m
      ensures At(FinalClear) && first == old(first)
    {
      var e := AppendEvent();
      Take(Action.Run(if e == Nothing then Ok else FailBefore, now));
    }

    /** What comes before the `try`. */
    method Begin(sid: nat) returns (e: Raised)
      requires Valid() && disk.phase == Idle
      requires m == first && Traced() && m.actor == Supervisor(MemoryFirst, sid, FirstClear, disk, disk)
      modifies this
      ensures Valid() && old(log) <= log && (disk.phase == Idle ==> log == old(log)) && first == old(first)
      ensures |log| > |old(log)| ==> log == old(log) + [SState(Checking, Some(sid), Some(now), false, false)]
      ensures |log| > |old(log)| ==> Phases(log) == old(Phases(log)) + [Checking]
      ensures if e == Nothing then At(Enter(Discovering, NO_UPDATES, ThenPreparing)) else Released()
      ensures e == Nothing ==> mem == disk && disk.phase == Checking && Plain() && |log| == |old(log)| + 1
      ensures Fine() ==> e == Nothing
    {
      var o;
      e, o := ClearStopRequest();
      Take(Action.Run(o, now));
      if e != Nothing { return; }
      mem := Transition(IDLE_STATE, Checking, Updates(Some(sid), false, false), now).value;
      e, o := WriteState();
      Take(Action.Run(o, now));
      if e == Nothing { e := NoteStart(); }
    }

    method NoteStart() returns (e: Raised)
      requires At(FirstAppend)
      modifies this`tick, this`run, this`trail, this`m
      ensures e == (if oracle(old(tick)) == Ok then Nothing else Escapes) && first == old(first)
      ensures if e == Nothing then At(Enter(Discovering, NO_UPDATES, ThenPreparing)) else Released()
    {
      e := AppendEvent();
      Take(Action.Run(if e == Nothing then Ok else FailBefore, now));
    }

    /** The whole `try` statement. */
    method TryBody(stages: seq<Phase>, masks: bool, ending: Ending) returns (ok: bool)
      requires Valid() && mem == disk && disk.phase == Checking && Idle !in stages
      requires At(Enter(Discovering, NO_UPDATES, ThenPreparing))
      modifies this`disk, this`stop, this`mem, this`tick, this`log, this`run, this`trail, this`m
      ensures Valid() && old(log) <= log && first == old(first) && Released()
      ensures disk.phase == Idle ==> ending == Returns(true)
      ensures ok ==> ending.Returns? && disk.phase == (if ending.good then Idle else Error)
      ensures Fine() && old(Plain()) ==>
                && Phases(log) == old(Phases(log)) + [Discovering, Preparing] + AfterPreparing(stages, ending)
                && stop == None && (ok <==> ending.Returns? && Fits(Preparing, stages) == |stages|)
    {
      var e := Body(stages, masks, ending);
      ok := e == Nothing;
      if e == Handled {
        ghost var before := log;
        HandleError();
        if Fine() && old(Plain()) { PhasesOn(before, disk); }
      }
      e := Finally();
      ok := ok && e == Nothing;
    }

    method Finally() returns (e: Raised)
      requires At(FinalClear)
      modifies this`stop, this`tick, this`run, this`trail, this`m
      ensures first == old(first) && Released()
      ensures e == (if oracle(old(tick)) == Ok then Nothing else Escapes) && (e == Nothing ==> stop == None)
    {
      var o;
      e, o := ClearStopRequest();
      Take(Action.Run(o, now));
    }

    /** Under the lock, from an idle state.  Whatever fails, the persisted states form a legal chain, and this run
        persists `idle` again only after the adapter returned a good result.  When nothing fails it persists exactly
        `PhasesOfRun`.  It is a run of the machine, so it leaves an active phase behind exactly when a call strands
        it. */
    method Run(sid: nat, stages: seq<Phase>, masks: bool, ending: Ending) returns (ok: bool)
      requires Valid() && disk.phase == Idle && Idle !in stages
      modifies this
      ensures Valid() && old(log) <= log
      ensures disk.phase == Idle && |log| > |old(log)| ==> ending == Returns(true)
      ensures |log| > |old(log)| ==> log[|old(log)|] == SState(Checking, Some(sid), Some(now), false, false)
      ensures ok ==> ending.Returns? && disk.phase == (if ending.good then Idle else Error)
      ensures Fine() ==>
                && Phases(log) == old(Phases(log)) + PhasesOfRun(stages, ending) && stop == None
                && (ok <==> ending.Returns? && Fits(Preparing, stages) == |stages|)
      ensures first.actor == Supervisor(MemoryFirst, sid, FirstClear, IDLE_STATE, IDLE_STATE)
      ensures first.disk == old(disk) && first.stop == old(stop) && Inv(first)
      ensures Leads(first, run, m) && HoldsLock(first, run) && Released()
      ensures Active(disk) <==> StrandsAlong(first, run)
    {
      ghost var asked := if stop.Some? then {stop.value} else {};
      Follow(State(disk, stop, Supervisor(MemoryFirst, sid, FirstClear, disk, disk), map[], asked));
      ok := RunLocked(sid, stages, masks, ending);
      TrailReleases(first, sid, run, m, trail);
    }

    method RunLocked(sid: nat, stages: seq<Phase>, masks: bool, ending: Ending) returns (ok: bool)
      requires Valid() && disk.phase == Idle && Idle !in stages
      requires m == first && Traced() && m.actor == Supervisor(MemoryFirst, sid, FirstClear, disk, disk)
      modifies this
      ensures Valid() && old(log) <= log && first == old(first) && Released()
      ensures disk.phase == Idle && |log| > |old(log)| ==> ending == Returns(true)
      ensures |log| > |old(log)| ==> log[|old(log)|] == SState(Checking, Some(sid), Some(now), false, false)
      ensures ok ==> ending.Returns? && disk.phase == (if ending.good then Idle else Error)
      ensures Fine() ==>
                && Phases(log) == old(Phases(log)) + PhasesOfRun(stages, ending) && stop == None
                && (ok <==> ending.Returns? && Fits(Preparing, stages) == |stages|)
    {
      var e := Begin(sid);
      if e == Nothing { ok := TryBody(stages, masks, ending); } else { ok := false; }
    }

    /** The machine's recovery is at `rpc` with the same memory. */
    ghost predicate RecoveryAt(rpc: RecoveryPc)
      reads this
    {
      Traced() && m.actor == Recoverer(rpc, mem)
    }

    /** What recovery writes before `idle`; a checking, stopping or recovering state it takes as it is. */
    static function Stopover(p: Phase): seq<Phase> {
      if p == Error then [Recovering]
      else if p in {Discovering, Preparing, Connecting, Streaming} then [Stopping]
      else []
    }

    /** A legal chain whatever fails, and a run of the machine.  When nothing fails it persists exactly the stopover
        and `idle`, and no stop marker is left. */
    method RecoverStaleSession() returns (e: Raised)
      requires Valid()
      modifies this
      ensures Valid() && old(log) <= log
      ensures old(disk.phase) == Idle ==> e == Nothing && disk == old(disk) && stop == old(stop) && log == old(log)
      ensures e == Nothing ==> disk.phase == Idle && (old(disk.phase) != Idle ==> stop == None)
      ensures old(FineFrom(tick) && disk.phase != Idle) ==>
                e == Nothing && Phases(log) == old(Phases(log)) + Stopover(old(disk.phase)) + [Idle]
      ensures old(disk.phase) != Idle ==>
                && first == State(old(disk), old(stop), Recoverer(RAppend, old(disk)), map[], {})
                && Leads(first, run, m) && Released()
    {
      mem := disk;
      if disk.phase == Idle { return Nothing; }
      Follow(State(disk, stop, Recoverer(RAppend, disk), map[], {}));
      e := AppendEvent();
      Take(Action.Run(if e == Nothing then Ok else FailBefore, now));
      if e == Nothing { e := RecoverFirst(); }
      if e == Nothing { e := RecoverToIdle(); }
      TrailLeads(first, run, m, trail);
    }

    method RecoverFirst() returns (e: Raised)
      requires Valid() && mem == disk && disk.phase != Idle && Traced()
      requires first.actor == Recoverer(RAppend, disk) && m.actor == RecoveryLine(first, Ok, now).actor
      modifies this`disk, this`mem, this`tick, this`log, this`run, this`trail, this`m
      ensures Valid() && old(log) <= log && first == old(first) && tick >= old(tick)
      ensures if e == Nothing then RecoveryAt(RIdle) && mem == disk && disk.phase in {Checking, Stopping, Recovering}
              else Released()
      ensures old(FineFrom(tick)) ==> e == Nothing && Phases(log) == old(Phases(log)) + Stopover(old(disk.phase))
    {
      if disk.phase == Error {
        mem := Transition(disk, Recovering, NO_UPDATES, now).value;
      } else if disk.phase in {Discovering, Preparing, Connecting, Streaming} {
        mem := Transition(disk, Stopping, Updates(None, true, false), now).value;
      } else {
        return Nothing;
      }
      e := RecoverWrite();
    }

    method RecoverWrite() returns (e: Raised)
      requires InStep() && RecoveryAt(RWrite)
      modifies this`disk, this`tick, this`log, this`run, this`trail, this`m
      ensures Valid() && old(log) <= log && first == old(first) && tick >= old(tick)
      ensures if e == Nothing then RecoveryAt(RIdle) && mem == disk else Released()
      ensures old(FineFrom(tick)) ==> e == Nothing && Phases(log) == old(Phases(log)) + [mem.phase]
    {
      var o;
      e, o := WriteState();
      Take(Action.Run(o, now));
    }

    method RecoverToIdle() returns (e: Raised)
      requires Valid() && mem == disk && disk.phase in {Checking, Stopping, Recovering} && RecoveryAt(RIdle)
      modifies this`disk, this`stop, this`mem, this`tick, this`log, this`run, this`trail, this`m
      ensures Valid() && old(log) <= log && first == old(first) && Released()
      ensures e == Nothing ==> disk.phase == Idle && stop == None
      ensures old(FineFrom(tick)) ==> e == Nothing && Phases(log) == old(Phases(log)) + [Idle]
    {
      mem := Transition(mem, Idle, NO_UPDATES, now).value;
      var o;
      e, o := WriteState();
      Take(Action.Run(o, now));
      if e == Nothing { e := RecoverFinally(); }
    }

    /** The last event and the stop marker. */
    method RecoverFinally() returns (e: Raised)
      requires Traced() && m.actor.Recoverer? && m.actor.rpc == RFinish
      modifies this`stop, this`tick, this`run, this`trail, this`m
      ensures first == old(first) && Released() && (e == Nothing ==> stop == None)
      ensures old(FineFrom(tick)) ==> e == Nothing
    {
      e := AppendEvent();
      Take(Action.Run(if e == Nothing then Ok else FailBefore, now));
      if e != Nothing { return; }
      var o;
      e, o := ClearStopRequest();
      Take(Action.Run(o, now));
    }
  }
}
