/**
 The guard, the recovery worker, the broker and the kernel as one interleaved state machine.  Either
 process may be killed between any two lines and every external command may fail.

 Two scheduling premises are not enforced by the scripts.  They are history bits here, so that the
 theorems can say what holds without them and what does not:
   lateApply   the guard went on applying changes after recovery had entered `recover_session`;
   lateClient  a P2P client appeared after a cleaner had listed the clients.
 */
module GuardProtocol {
  import opened GuardHost

  /** The lines of `prepare` up to the serving loop, numbered in script order. */
  type Apply = nat

  const MAKE_TOKEN: Apply := 0
  const MAKE_RECORD: Apply := 1
  const VERIFY: Apply := 2
  const LAUNCH: Apply := 3
  const AWAIT_READY: Apply := 4
  const MARK_ROOT: Apply := 5
  const SNAPSHOT_UNITS: Apply := 6
  const COMMIT_UNITS: Apply := 7
  const WRITE_NETWORK: Apply := 8
  const START_BROKER: Apply := 9
  const NOTE_BROKER: Apply := 10
  const PUBLISH_READY: Apply := 11
  const AWAIT_TRIGGER: Apply := 12
  const TAKE_TRIGGER: Apply := 13
  const MARK_PORT: Apply := 14
  const OPEN_PORT: Apply := 15
  const MARK_PAUSE: Apply := 16
  const STOP_NM: Apply := 17
  const BASELINE: Apply := 18
  const ARM: Apply := 19
  const START_NETWORKD: Apply := 20
  const PUBLISH_ACTIVE: Apply := 21
  const SERVE: Apply := 22

  /** The lines that change the host or leave evidence of such a change. */
  predicate Mutates(l: Apply) { MARK_ROOT <= l <= START_BROKER || MARK_PORT <= l <= START_NETWORKD }

  datatype GuardAt =
    | Applying(line: Apply, brokerStarted: bool, mayConfirm: bool)
    | Cleaning(c: Cleaner)
    | GuardGone

  datatype RecoveryAt = Unlaunched | Announcing | Watching | Recovering(c: Cleaner) | RecoveryGone

  /** What the broker has seen or written. */
  datatype Broker = Broker(sawArmed: bool, marked: bool, recorded: bool)

  datatype History = History(
    tokenMade: bool, acked: bool, armedEver: bool, listed: bool, entered: bool,
    lateApply: bool, lateClient: bool)

  datatype State = State(w: World, guard: GuardAt, rec: RecoveryAt, b: Broker, h: History)

  /** A command succeeds, fails, or its `if` skips it. */
  datatype Outcome = Done | Fails | Skips

  datatype Action =
    | GuardLine(o: Outcome)
    | Interrupt                 // HUP, INT or TERM: the trap exits and cleanup starts
    | KillGuard | KillRecovery
    | Announce(good: bool) | Enter | StandDown | RecoveryLine(good: bool)
    | BrokerSees | BrokerMarks | BrokerSetsWfd | BrokerClearsWfd | BrokerUnmarks
    | BrokerRecords | BrokerActivates | BrokerDeactivates | BrokerForgets | BrokerDies
    | NewClient(name: nat) | LostClient(name: nat)
    | UserFiles(trigger: bool, heartbeat: bool, stop: bool)

  const Untouched := Marked(false, false)

  ghost predicate Init(s: State) {
    && s.w.nm == s.w.port == s.w.wfd == s.w.activation == Untouched
    && s.w.networkd == Networkd(false, false, false, false)
    && (s.w.backend == Direct ==> s.w.p2p.clients == []) && !s.w.p2p.armed && s.w.p2p.record == Missing
    && !s.w.networkFile && !s.w.brokerActive && s.w.loose == Loose(false, false, false, false)
    && !s.w.ready && !s.w.token && s.w.status == NoStatus
    && s.guard == Applying(MAKE_TOKEN, false, false) && s.rec == Unlaunched
    && s.b == Broker(false, false, false)
    && s.h == History(false, false, false, false, false, false, false)
  }

  // ----- One line of `prepare` -----

  predicate LineSucceeds(l: Apply, o: Outcome) {
    o == Done || (o == Skips && (l == MARK_ROOT || l == MARK_PORT))
  }

  function NextApply(b: Backend, l: Apply, o: Outcome): Apply {
    if l == AWAIT_READY && b == NetworkManager then START_BROKER
    else if l == TAKE_TRIGGER && b == Direct then MARK_PAUSE
    else if l == OPEN_PORT || (l == MARK_PORT && o == Skips) then ARM
    else if l == ARM && b == NetworkManager then PUBLISH_ACTIVE
    else l + 1
  }

  /** A failing line, an interrupt and the end of serving all run the EXIT trap. */
  function GuardNext(w: World, g: GuardAt, o: Outcome): GuardAt
    requires g.Applying?
  {
    var started := g.brokerStarted || g.line == NOTE_BROKER;
    var confirm := g.mayConfirm || g.line == PUBLISH_READY;
    if LineSucceeds(g.line, o) && g.line != SERVE
    then Applying(NextApply(w.backend, g.line, o), started, confirm)
    else Cleaning(Fresh(OWN_CHECK, started, confirm))
  }

  /** Evidence first, then the change; when the change fails its evidence is removed again, if it can be. */
  function MarkedApply(m: Marked, marks: bool, changes: bool, o: Outcome): Marked {
    if marks then Marked(m.dirty, m.marker || o == Done)
    else if changes then Marked(m.dirty || o == Done, m.marker && o != Fails)
    else m
  }

  function NetworkdApply(n: Networkd, l: Apply, o: Outcome): Networkd {
    if l == MARK_ROOT && o == Done then n.(rootMarker := true)
    else if l == SNAPSHOT_UNITS && o == Done then n.(pending := true)
    else if l == COMMIT_UNITS && o == Done then n.(pending := false, units := true)
    else if l == START_NETWORKD then n.(touched := true)
    else n
  }

  function StatusApply(st: Status, l: Apply, o: Outcome): Status {
    if l == PUBLISH_READY && o == Done then Ready
    else if l == PUBLISH_ACTIVE && o == Done then Active
    else if (l == AWAIT_TRIGGER || l == TAKE_TRIGGER) && o != Done then Failed
    else st
  }

  function ApplyWorld(w: World, l: Apply, o: Outcome): World {
    World(w.backend,
          MarkedApply(w.nm, l == MARK_PAUSE, l == STOP_NM, o),
          MarkedApply(w.port, l == MARK_PORT, l == OPEN_PORT, o),
          w.wfd, w.activation,
          NetworkdApply(w.networkd, l, o),
          if l == MAKE_RECORD && o == Done then w.p2p.(record := Lines([], true))
          else if l == ARM && o == Done then w.p2p.(armed := true)
          else w.p2p,
          w.networkFile || l == WRITE_NETWORK,      // a redirection that fails may still have made the file
          w.brokerActive || (l == START_BROKER && o == Done),
          if l == START_BROKER && o == Done then w.loose.(socket := true)
          else if l == TAKE_TRIGGER then w.loose.(trigger := false)
          else w.loose,
          w.ready,
          w.token || l == MAKE_TOKEN,
          StatusApply(w.status, l, o))
  }

  function ApplyHistory(h: History, l: Apply, o: Outcome): History {
    h.(tokenMade := h.tokenMade || l == MAKE_TOKEN,
       acked := h.acked || (l == AWAIT_READY && o == Done),
       armedEver := h.armedEver || (l == ARM && o == Done),
       lateApply := h.lateApply || (h.entered && Mutates(l)))
  }

  // ----- The machine -----

  predicate GuardEnabled(s: State, o: Outcome) {
    match s.guard
    case GuardGone => false
    case Cleaning(c) => c.at != EXITED && o != Skips
    case Applying(l, _, _) =>
      && (l == MAKE_TOKEN ==> o == Done)
      && (l == AWAIT_READY && o == Done ==> s.w.ready && s.rec != RecoveryGone)
      && (l == AWAIT_TRIGGER && o == Done ==> s.w.loose.trigger)
      && (l == BASELINE && o == Done ==> s.w.p2p.clients == [])
  }

  predicate Enabled(s: State, a: Action) {
    match a
    case GuardLine(o) => GuardEnabled(s, o)
    case Interrupt => s.guard.Applying? && s.guard.line != MAKE_TOKEN
    case KillGuard => true
    case KillRecovery => s.rec != Unlaunched
    case Announce(_) => s.rec == Announcing
    case Enter => s.rec == Watching && s.w.token
    case StandDown => s.rec == Watching && !s.w.token
    case RecoveryLine(_) => s.rec.Recovering? && s.rec.c.at != EXITED
    case BrokerSees => s.w.brokerActive && s.w.p2p.armed
    case BrokerMarks => s.w.brokerActive && s.b.sawArmed && s.w.backend == Direct && s.w.wfd == Untouched
    case BrokerSetsWfd => s.w.brokerActive && s.b.marked
    case BrokerClearsWfd => s.w.brokerActive && s.b.marked
    case BrokerUnmarks => s.w.brokerActive && s.b.marked && !s.w.wfd.dirty
    case BrokerRecords => s.w.brokerActive && s.b.sawArmed && s.w.backend == NetworkManager
    case BrokerActivates => s.w.brokerActive && s.b.recorded
    case BrokerDeactivates => s.w.brokerActive && s.b.recorded
    case BrokerForgets => s.w.brokerActive && s.b.recorded && !s.w.activation.dirty
    case BrokerDies => s.w.brokerActive
    case NewClient(x) => s.w.backend == Direct && s.b.sawArmed && x !in s.w.p2p.clients
    case LostClient(x) => x in s.w.p2p.clients
    case UserFiles(_, _, _) => s.h.tokenMade
  }

  /** The actions of the guard and recovery processes other than their lines. */
  predicate IsControl(a: Action) {
    a.Interrupt? || a.KillGuard? || a.KillRecovery? || a.Announce? || a.Enter? || a.StandDown?
  }

  /** The actions of the broker, the kernel and the user. */
  predicate IsOutside(a: Action) { !a.GuardLine? && !a.RecoveryLine? && !IsControl(a) }

  function Noted(h: History, c: Cleaner, good: bool): History {
    h.(listed := h.listed || (c.at == LIST_CLIENTS && good))
  }

  function GuardStep(s: State, o: Outcome): State
    requires GuardEnabled(s, o)
  {
    if s.guard.Applying? then
      var l := s.guard.line;
      State(ApplyWorld(s.w, l, o), GuardNext(s.w, s.guard, o),
            if l == LAUNCH && o == Done then Announcing else s.rec, s.b, ApplyHistory(s.h, l, o))
    else
      var c, good := s.guard.c, o == Done;
      State(ExecWorld(Guard, s.w, c, good), Cleaning(ExecCleaner(Guard, s.w, c, good)),
            s.rec, s.b, Noted(s.h, c, good))
  }

  function RecoveryStep(s: State, good: bool): State
    requires s.rec.Recovering?
  {
    var c := s.rec.c;
    State(ExecWorld(Recovery, s.w, c, good), s.guard, Recovering(ExecCleaner(Recovery, s.w, c, good)),
          s.b, Noted(s.h, c, good))
  }

  function Step(s: State, a: Action): State
    requires Enabled(s, a)
  {
    match a
    case GuardLine(o) => GuardStep(s, o)
    case Interrupt => s.(guard := Cleaning(Fresh(OWN_CHECK, s.guard.brokerStarted, s.guard.mayConfirm)))
    case KillGuard => s.(guard := GuardGone)
    case KillRecovery => s.(rec := RecoveryGone)
    case Announce(good) =>
      if good && s.w.token && !s.w.ready then s.(w := s.w.(ready := true), rec := Watching)
      else s.(rec := RecoveryGone)
    case Enter => s.(rec := Recovering(Fresh(STOP_BROKER, true, true)), h := s.h.(entered := true))
    case StandDown => s.(rec := RecoveryGone)
    case RecoveryLine(good) => RecoveryStep(s, good)
    case BrokerSees => s.(b := s.b.(sawArmed := true))
    case BrokerMarks => s.(w := s.w.(wfd := Marked(false, true)), b := s.b.(marked := true))
    case BrokerSetsWfd => s.(w := s.w.(wfd := s.w.wfd.(dirty := true)))
    case BrokerClearsWfd => s.(w := s.w.(wfd := s.w.wfd.(dirty := false)))
    case BrokerUnmarks => s.(w := s.w.(wfd := Untouched), b := s.b.(marked := false))
    case BrokerRecords =>
      s.(w := s.w.(activation := s.w.activation.(marker := true)), b := s.b.(recorded := true))
    case BrokerActivates => s.(w := s.w.(activation := s.w.activation.(dirty := true)))
    case BrokerDeactivates => s.(w := s.w.(activation := s.w.activation.(dirty := false)))
    case BrokerForgets => s.(w := s.w.(activation := Untouched), b := s.b.(recorded := false))
    case BrokerDies => s.(w := s.w.(brokerActive := false))
    case NewClient(x) =>
      s.(w := s.w.(p2p := s.w.p2p.(clients := s.w.p2p.clients + [x])),
         h := s.h.(lateClient := s.h.lateClient || s.h.listed))
    case LostClient(x) => s.(w := s.w.(p2p := s.w.p2p.(clients := Without(s.w.p2p.clients, x))))
    case UserFiles(t, h, st) =>
      s.(w := s.w.(loose := s.w.loose.(trigger := t, heartbeat := h, stop := st)))
  }
}
