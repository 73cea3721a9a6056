/** The persisted session state and its checked transitions. */
module SessionState {

  datatype Option<T> = None | Some(value: T)

  datatype Phase =
    | Idle | Checking | Discovering | Preparing | Connecting | Streaming | Stopping | Error | Recovering

  /** The transition table. */
  predicate Edge(p: Phase, q: Phase) {
    match p
    case Idle => q in {Checking, Discovering, Recovering}
    case Checking => q in {Idle, Discovering, Stopping, Error}
    case Discovering => q in {Idle, Preparing, Error, Stopping}
    case Preparing => q in {Connecting, Error, Stopping}
    case Connecting => q in {Streaming, Error, Stopping}
    case Streaming => q in {Stopping, Error}
    case Stopping => q in {Idle, Error}
    case Error => q in {Idle, Recovering}
    case Recovering => q in {Idle, Error}
  }

  /** `reason` and `error` stand for the presence of those fields. */
  datatype SState = SState(phase: Phase, sid: Option<nat>, startedAt: Option<nat>, reason: bool, error: bool)

  const IDLE_STATE := SState(Idle, None, None, false, false)

  predicate ValidState(s: SState) {
    && (s.phase == Idle <==> s.sid.None?)
    && (s.phase == Idle <==> s.startedAt.None?)
    && (s.reason ==> s.phase in {Stopping, Error, Recovering})
    && (s.error <==> s.phase in {Error, Recovering})
  }

  /** The keyword updates of a transition. */
  datatype Updates = Updates(sid: Option<nat>, reason: bool, error: bool)

  const NO_UPDATES := Updates(None, false, false)

  function Transition(s: SState, p: Phase, u: Updates, now: nat): (r: Option<SState>)
    ensures r.Some? ==> ValidState(r.value) && r.value.phase == p && (p == s.phase || Edge(s.phase, p))
    ensures r.Some? && s.phase != Idle && p != Idle && u.sid.None? ==>
              r.value.sid == s.sid && r.value.startedAt == s.startedAt
  {
    if !ValidState(s) || (p != s.phase && !Edge(s.phase, p)) then None
    else
      var next :=
        if p == Idle then IDLE_STATE
        else SState(p, if u.sid.Some? then u.sid else s.sid,
                    if s.phase == Idle then Some(now) else s.startedAt,
                    s.reason || u.reason, s.error || u.error);
      if ValidState(next) then Some(next) else None
  }
}
