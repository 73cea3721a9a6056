/** Control invariants of the guard protocol: who may still act, and who owns the token. */
module GuardControl {
  import opened GuardHost
  import opened GuardProtocol

  /** The broker may change the host only once it can have seen `p2p-armed`. */
  ghost predicate BrokerCanAct(s: State) { s.w.brokerActive && s.h.armedEver }

  ghost predicate NothingYet(s: State) {
    && !s.w.token && s.rec == Unlaunched && !s.h.entered && !s.h.armedEver
    && (s.guard == Applying(MAKE_TOKEN, false, false) || s.guard == GuardGone)
    && !s.w.nm.dirty && !s.w.port.dirty && !s.w.wfd.dirty && !s.w.activation.dirty
    && !s.w.networkd.touched && !s.w.networkFile && (s.w.backend == Direct ==> s.w.p2p.clients == [])
    && !s.w.brokerActive && s.w.status == NoStatus
  }

  ghost predicate Shape(who: Who, w: World, c: Cleaner) {
    && (c.f.ok ==> c.f.brokerOk && c.f.netdOk)
    && (c.at <= STOP_BROKER ==> c.f.ok)
    && (RM_SOCKET <= c.at <= DROP_ACTIVATION ==> c.f.brokerOk)
    && (c.at == RM_UNITS || c.at == RM_ROOT_MARKER ==> c.f.netdOk)
    && (c.at == RM_RECORD ==> c.f.ifOk)
    && (who == Recovery && c.at >= RM_READY && c.f.ok ==> c.f.ifOk)
    && (who == Recovery ==> c.at != OWN_CHECK && c.brokerStarted && c.mayConfirm)
    && (c.at > RM_TOKEN && AllOk(who, c.f) ==> !w.token)
  }

  ghost predicate GuardShape(s: State) {
    match s.guard
    case Applying(l, started, _) =>
      && (l == MAKE_TOKEN <==> !s.h.tokenMade)
      && (l <= LAUNCH ==> s.rec == Unlaunched)
      && (l > AWAIT_READY ==> s.h.acked)
      && (l <= ARM ==> !s.h.armedEver)
      && (!started ==> l <= NOTE_BROKER)
    case Cleaning(c) => Shape(Guard, s.w, c) && (!c.brokerStarted ==> !s.h.armedEver)
    case GuardGone => true
  }

  ghost predicate Ctl(s: State) {
    && (!s.h.tokenMade ==> NothingYet(s))
    && GuardShape(s)
    && (s.rec.Recovering? ==> Shape(Recovery, s.w, s.rec.c) && s.h.entered)
    && (s.rec.Unlaunched? || s.rec.Announcing? || s.rec.Watching? ==> !s.h.entered)
    && (s.b.sawArmed || s.w.p2p.armed ==> s.h.armedEver)
    && (s.b.marked || s.b.recorded ==> s.b.sawArmed)
    && (s.h.armedEver ==> s.h.acked)
    && (s.w.status == Cleaned ==> s.h.tokenMade && !s.w.token)
  }

  /** A cleaner that stopped the broker stopped it for good. */
  ghost predicate BrokerPast(s: State, c: Cleaner) {
    c.at > STOP_BROKER && c.f.brokerOk ==> !BrokerCanAct(s)
  }

  /** While the guard applies and recovery has not entered, the token is there. */
  ghost predicate Owned(s: State) {
    s.h.lateApply ||
    (&& (s.guard.Applying? && s.h.tokenMade && !s.h.entered ==> s.w.token)
     && (s.guard.Cleaning? ==> BrokerPast(s, s.guard.c))
     && (s.rec.Recovering? ==> BrokerPast(s, s.rec.c))
     && (s.h.tokenMade && !s.w.token ==> !BrokerCanAct(s)))
  }

  lemma CtlInit(s: State)
    requires Init(s)
    ensures Ctl(s) && Owned(s)
  {}

  lemma ShapeKeptEarly(who: Who, w: World, c: Cleaner, good: bool)
    requires Shape(who, w, c) && c.at < RESTORE_NETWORKD
    ensures var w' := ExecWorld(who, w, c, good); w'.token == w.token && w'.status == w.status
    ensures Shape(who, ExecWorld(who, w, c, good), ExecCleaner(who, w, c, good))
  {}

  lemma ShapeKept(who: Who, w: World, c: Cleaner, good: bool)
    requires Shape(who, w, c)
    ensures var (w', c') := (ExecWorld(who, w, c, good), ExecCleaner(who, w, c, good));
      Shape(who, w', c') && (w'.token ==> w.token)
      && (w'.status == Cleaned ==> w.status == Cleaned || !w.token)
  {
    if c.at < RESTORE_NETWORKD { ShapeKeptEarly(who, w, c, good); }
  }

  lemma CtlApply(s: State, o: Outcome)
    requires Ctl(s) && s.guard.Applying? && GuardEnabled(s, o)
    ensures Ctl(GuardStep(s, o))
  {}

  lemma CtlClean(s: State, a: Action)
    requires Ctl(s) && Enabled(s, a)
    requires (a.GuardLine? && s.guard.Cleaning?) || a.RecoveryLine?
    ensures Ctl(Step(s, a))
  {
    if a.GuardLine? { ShapeKept(Guard, s.w, s.guard.c, a.o == Done); }
    else { ShapeKept(Recovery, s.w, s.rec.c, a.good); }
  }

  lemma CtlControl(s: State, a: Action)
    requires Ctl(s) && Enabled(s, a) && IsControl(a)
    ensures Ctl(Step(s, a))
  {}

  /** What the broker, the kernel and the user leave alone. */
  ghost predicate OutsideFrame(s: State, t: State) {
    && t.guard == s.guard && t.rec == s.rec && t.h.(lateClient := s.h.lateClient) == s.h
    && (s.h.lateClient ==> t.h.lateClient)
    && t.w.backend == s.w.backend && t.w.nm == s.w.nm && t.w.port == s.w.port && t.w.networkd == s.w.networkd
    && t.w.networkFile == s.w.networkFile && t.w.token == s.w.token && t.w.ready == s.w.ready
    && t.w.status == s.w.status && t.w.p2p.armed == s.w.p2p.armed && t.w.p2p.record == s.w.p2p.record
  }

  lemma KernelKeeps(s: State, a: Action)
    requires Enabled(s, a) && (a.NewClient? || a.LostClient? || a.UserFiles?)
    ensures OutsideFrame(s, Step(s, a))
  {}

  lemma OutsideKeeps(s: State, a: Action)
    requires Enabled(s, a) && IsOutside(a)
    ensures OutsideFrame(s, Step(s, a))
  {
    if a.NewClient? || a.LostClient? || a.UserFiles? { KernelKeeps(s, a); }
  }

  lemma CtlOutside(s: State, a: Action)
    requires Ctl(s) && Enabled(s, a) && IsOutside(a)
    ensures Ctl(Step(s, a))
  {
    OutsideKeeps(s, a);
  }

  lemma CtlStep(s: State, a: Action)
    requires Ctl(s) && Enabled(s, a)
    ensures Ctl(Step(s, a))
  {
    if IsControl(a) { CtlControl(s, a); }
    else if IsOutside(a) { CtlOutside(s, a); }
    else if a.GuardLine? && s.guard.Applying? { CtlApply(s, a.o); }
    else { CtlClean(s, a); }
  }

  lemma OwnedStep(s: State, a: Action)
    requires Ctl(s) && Owned(s) && Enabled(s, a)
    ensures Owned(Step(s, a))
  {}
}
