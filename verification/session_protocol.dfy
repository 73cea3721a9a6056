/**
 Supervisors, the recoverer, any number of stop requesters and crashes, interleaved over
 `state.json`, `stop-request.json` and the session lock.  Only the holder of the lock writes the
 state; requesters take no lock.
 */
module SessionProtocol {
  import opened SessionState

  /** The transport supervisor assigns its state before it writes it, the simulated and dry-run ones after. */
  datatype Style = MemoryFirst | DiskFirst

  datatype After = ThenPreparing | ThenAdapter | ThenIdle | ThenDone

  datatype Pc =
    | FirstClear | FirstWrite | FirstAppend            // before the `try`
    | Enter(to: Phase, u: Updates, after: After)         // the checked transition
    | Write(after: After) | Append(after: After)
    | Adapter                                          // inside adapter.run, or the phase loop
    | Result(good: bool)
    | Except | ExceptWrite | ExceptAppend
    | FinalClear                                       // `finally`, then the lock is released

  datatype RecoveryPc = RAppend | RWrite | RIdle | RFinish | RClear

  datatype Actor =
    | Free
    | Supervisor(style: Style, sid: nat, pc: Pc, mem: SState, next: SState)
    | Recoverer(rpc: RecoveryPc, rmem: SState)

  datatype State = State(
    disk: SState,
    stop: Option<nat>,              // the session named by stop-request.json
    actor: Actor,                   // the holder of the lock
    pending: map<nat, nat>,         // requesters between their read and their replace
    asked: set<nat>)                // history: sessions whose own state some requester read

  /** A write may fail before the replace or, at the directory fsync, after it; or with an exception
      that the transport supervisor does not catch. */
  datatype Outcome = Ok | FailBefore | FailAfter | Uncaught

  datatype Choice = Stage(p: Phase) | Raise | Abort | Finish(good: bool)

  datatype Action =
    | Start(style: Style, sid: nat)
    | Run(o: Outcome, now: nat)
    | Choose(c: Choice)
    | StartRecovery
    | Crash
    | ReqRead(id: nat) | ReqInstall(id: nat) | ReqDie(id: nat)

  ghost predicate Init(s: State) {
    s.disk == IDLE_STATE && s.stop == None && s.actor == Free && s.pending == map[] && s.asked == {}
  }

  predicate Enabled(s: State, a: Action) {
    match a
    case Start(_, _) => s.actor == Free && s.disk.phase == Idle
    case Run(_, _) => s.actor != Free && (s.actor.Supervisor? ==> s.actor.pc != Adapter)
    case Choose(_) => s.actor.Supervisor? && s.actor.pc == Adapter
    case StartRecovery => s.actor == Free && s.disk.phase != Idle
    case Crash => s.actor != Free
    case ReqRead(id) => s.disk.phase != Idle && s.disk.sid.Some? && id !in s.pending
    case ReqInstall(id) => id in s.pending
    case ReqDie(id) => id in s.pending
  }

  predicate Lands(o: Outcome) { o == Ok || o == FailAfter }

  function GoTo(s: State, pc: Pc): State
    requires s.actor.Supervisor?
  {
    s.(actor := s.actor.(pc := pc))
  }

  /** The `except` clauses: the transport supervisor leaves an idle or an error state alone. */
  function Handle(a: Actor, now: nat): Actor
    requires a.Supervisor?
  {
    if a.style == MemoryFirst && a.mem.phase == Idle then a.(pc := FinalClear)
    else if a.style == MemoryFirst && a.mem.phase == Error then a.(pc := ExceptAppend)
    else
      var e := Transition(a.mem, Error, Updates(None, false, true), now);
      if e.None? then a.(pc := FinalClear)
      else a.(pc := ExceptWrite, mem := if a.style == MemoryFirst then e.value else a.mem, next := e.value)
  }

  function EnterPhase(a: Actor, now: nat): Actor
    requires a.Supervisor? && a.pc.Enter?
  {
    var n := Transition(a.mem, a.pc.to, a.pc.u, now);
    if n.None? then a.(pc := Except)
    else a.(pc := Write(a.pc.after), next := n.value, mem := if a.style == MemoryFirst then n.value else a.mem)
  }

  function Following(after: After): Pc {
    match after
    case ThenPreparing => Enter(Preparing, NO_UPDATES, ThenAdapter)
    case ThenAdapter => Adapter
    case ThenIdle => Enter(Idle, NO_UPDATES, ThenDone)
    case ThenDone => FinalClear
  }

  /** After the event of a phase was appended. */
  function Appended(a: Actor): Actor
    requires a.Supervisor? && a.pc.Append?
  {
    a.(pc := Following(a.pc.after), mem := a.next)
  }

  function AfterResult(a: Actor): Actor
    requires a.Supervisor? && a.pc.Result?
  {
    if !a.pc.good then a.(pc := Enter(Error, Updates(None, false, true), ThenDone))
    else if a.mem.phase == Stopping then a.(pc := Enter(Idle, NO_UPDATES, ThenDone))
    else a.(pc := Enter(Stopping, Updates(None, true, false), ThenIdle))
  }

  function SupervisorLine(s: State, o: Outcome, now: nat): State
    requires s.actor.Supervisor? && s.actor.pc != Adapter
  {
    var a := s.actor;
    match a.pc
    case FirstClear =>
      var c := Transition(IDLE_STATE, Checking, Updates(Some(a.sid), false, false), now);
      s.(stop := if Lands(o) then None else s.stop,
         actor := if o != Ok || c.None? then Free else a.(pc := FirstWrite, mem := c.value, next := c.value))
    case FirstWrite =>
      s.(disk := if Lands(o) then a.next else s.disk, actor := if o == Ok then a.(pc := FirstAppend) else Free)
    case FirstAppend =>
      if o != Ok then s.(actor := Free)
      else GoTo(s, if a.style == MemoryFirst then Enter(Discovering, NO_UPDATES, ThenPreparing) else Adapter)
    case Enter(_, _, _) => s.(actor := EnterPhase(a, now))
    case Write(after) =>
      var wrote := if a.next.phase == Idle && o == Ok then a.(mem := a.next) else a;
      s.(disk := if Lands(o) then a.next else s.disk,
         actor := wrote.(pc := if o == Ok then Append(after)
                               else if o == Uncaught && a.style == MemoryFirst then FinalClear
                               else Except))
    case Append(after) =>
      if o == Ok then s.(actor := Appended(a))
      // a SessionError is caught by `except Exception`, or replaced by the adapter's own error
      else GoTo(s, if a.style == DiskFirst || (after == ThenAdapter && o == FailAfter) then Except else FinalClear)
    case Result(_) => if o == Ok then s.(actor := AfterResult(a)) else GoTo(s, FinalClear)
    case Except => s.(actor := Handle(a, now))
    case ExceptWrite =>
      s.(disk := if Lands(o) then a.next else s.disk,
         actor := a.(pc := if o == Ok then ExceptAppend else FinalClear))
    case ExceptAppend => GoTo(s, FinalClear)
    case FinalClear => s.(stop := if Lands(o) then None else s.stop, actor := Free)
    case Adapter => s
  }

  function AdapterChoice(a: Actor, c: Choice): Actor
    requires a.Supervisor?
  {
    match c
    case Stage(p) => a.(pc := Enter(p, NO_UPDATES, ThenAdapter))
    case Raise => a.(pc := Except)
    case Abort => a.(pc := if a.style == DiskFirst then Except else FinalClear)
    case Finish(good) => a.(pc := if a.style == DiskFirst then FinalClear else Result(good))
  }

  function RecoveryLine(s: State, o: Outcome, now: nat): State
    requires s.actor.Recoverer?
  {
    var a, m := s.actor, s.actor.rmem;
    match a.rpc
    case RAppend =>
      if o != Ok then s.(actor := Free)
      else
        var n := if m.phase == Error then Transition(m, Recovering, NO_UPDATES, now)
                 else if m.phase in {Discovering, Preparing, Connecting, Streaming}
                 then Transition(m, Stopping, Updates(None, true, false), now)
                 else Some(m);
        if n.None? then s.(actor := Free)
        else s.(actor := Recoverer(if n.value == m then RIdle else RWrite, n.value))
    case RWrite => s.(disk := if Lands(o) then m else s.disk, actor := if o == Ok then a.(rpc := RIdle) else Free)
    case RIdle =>
      var n := Transition(m, Idle, NO_UPDATES, now);
      if n.None? then s.(actor := Free)
      else s.(disk := if Lands(o) then n.value else s.disk,
              actor := if o == Ok then Recoverer(RFinish, n.value) else Free)
    case RFinish => s.(actor := if o == Ok then a.(rpc := RClear) else Free)
    case RClear => s.(stop := if Lands(o) then None else s.stop, actor := Free)
  }

  function Step(s: State, a: Action): State
    requires Enabled(s, a)
  {
    match a
    case Start(style, sid) => s.(actor := Supervisor(style, sid, FirstClear, IDLE_STATE, IDLE_STATE))
    case Run(o, now) => if s.actor.Supervisor? then SupervisorLine(s, o, now) else RecoveryLine(s, o, now)
    case Choose(c) => s.(actor := AdapterChoice(s.actor, c))
    case StartRecovery => s.(actor := Recoverer(RAppend, s.disk))
    case Crash => s.(actor := Free)
    case ReqRead(id) =>
      s.(pending := s.pending[id := s.disk.sid.value], asked := s.asked + {s.disk.sid.value})
    case ReqInstall(id) => s.(stop := Some(s.pending[id]), pending := s.pending - {id})
    case ReqDie(id) => s.(pending := s.pending - {id})
  }

  /** `_stop_requested`. */
  predicate StopRequested(s: State, sid: nat) { s.stop == Some(sid) }

  /** The steps that unlink the stop marker: a supervisor's first and last, and recovery's. */
  predicate Clears(s: State, a: Action) {
    a.Run? && ((s.actor.Supervisor? && (s.actor.pc == FirstClear || s.actor.pc == FinalClear))
               || (s.actor.Recoverer? && s.actor.rpc == RClear))
  }
}
