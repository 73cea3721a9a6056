/**
 One invariant a resource: the host change implies its evidence, a cleaner that is past the
 resource with its flag intact has undone it, and once the token is gone it is undone.
 */
module GuardEvidence {
  import opened GuardHost
  import opened GuardProtocol
  import opened GuardControl

  /** A cleaner about to drop the evidence, or past it with its flag intact, has undone the change. */
  ghost predicate Past(m: Marked, at: Line, unmark: Line, flag: bool) {
    && (at == unmark ==> !m.dirty)
    && (at > unmark && flag ==> !m.dirty)
  }

  ghost predicate TokenGone(s: State) { s.h.tokenMade && !s.w.token }

  // ----- NetworkManager and the firewalld port -----

  ghost predicate NetworkPast(who: Who, w: World, c: Cleaner) {
    && Past(w.nm, c.at, RM_RESUME, NmFlag(who, c.f))
    && Past(w.port, c.at, RM_PORT_MARKER, c.f.ok)
  }

  ghost predicate NetworkApplying(s: State, l: Apply) {
    && (l <= STOP_NM ==> !s.w.nm.dirty)
    && (l <= OPEN_PORT ==> !s.w.port.dirty)
    && (l == STOP_NM && !s.h.entered ==> s.w.nm.marker)
    && (l == OPEN_PORT && !s.h.entered ==> s.w.port.marker)
  }

  ghost predicate NetworkInv(s: State) {
    s.h.lateApply ||
    (&& (s.w.nm.dirty ==> s.w.nm.marker)
     && (s.w.port.dirty ==> s.w.port.marker)
     && (s.guard.Applying? ==> NetworkApplying(s, s.guard.line))
     && (s.guard.Cleaning? ==> NetworkPast(Guard, s.w, s.guard.c))
     && (s.rec.Recovering? ==> NetworkPast(Recovery, s.w, s.rec.c))
     && (TokenGone(s) ==> !s.w.nm.dirty && !s.w.port.dirty))
  }

  lemma NetworkExec(who: Who, w: World, c: Cleaner, good: bool)
    requires (w.nm.dirty ==> w.nm.marker && w.token) && (w.port.dirty ==> w.port.marker && w.token)
    requires NetworkPast(who, w, c)
    ensures var w' := ExecWorld(who, w, c, good);
      && (w'.nm.dirty ==> w.nm.dirty && w'.nm.marker && w'.token)
      && (w'.port.dirty ==> w.port.dirty && w'.port.marker && w'.token)
      && NetworkPast(who, w', ExecCleaner(who, w, c, good))
  {}

  lemma NetworkGuard(s: State, o: Outcome)
    requires Ctl(s) && Owned(s) && NetworkInv(s) && s.guard.Cleaning? && GuardEnabled(s, o)
    ensures NetworkInv(GuardStep(s, o))
  {
    if !s.h.lateApply { NetworkExec(Guard, s.w, s.guard.c, o == Done); }
  }

  lemma NetworkRecovery(s: State, good: bool)
    requires Ctl(s) && Owned(s) && NetworkInv(s) && s.rec.Recovering?
    ensures NetworkInv(RecoveryStep(s, good))
  {
    if !s.h.lateApply { NetworkExec(Recovery, s.w, s.rec.c, good); }
  }

  lemma NetworkApply(s: State, o: Outcome)
    requires Ctl(s) && Owned(s) && NetworkInv(s) && s.guard.Applying? && GuardEnabled(s, o)
    ensures NetworkInv(GuardStep(s, o))
  {}

  lemma NetworkOther(s: State, a: Action)
    requires Ctl(s) && Owned(s) && NetworkInv(s) && Enabled(s, a) && (IsControl(a) || IsOutside(a))
    ensures NetworkInv(Step(s, a))
  {}

  lemma NetworkStep(s: State, a: Action)
    requires Ctl(s) && Owned(s) && NetworkInv(s) && Enabled(s, a)
    ensures NetworkInv(Step(s, a))
  {
    if IsControl(a) || IsOutside(a) { NetworkOther(s, a); }
    else if a.RecoveryLine? { NetworkRecovery(s, a.good); }
    else if s.guard.Cleaning? { NetworkGuard(s, a.o); }
    else { NetworkApply(s, a.o); }
  }

  // ----- What the broker did: WFD elements and the NetworkManager activation -----

  ghost predicate BrokerWorkPast(w: World, c: Cleaner) {
    && Past(w.wfd, c.at, WFD_UNMARK, c.f.ok)
    && (c.at > DROP_ACTIVATION && c.f.ok ==> !w.activation.dirty)
  }

  ghost predicate BrokerWorkInv(s: State) {
    s.h.lateApply ||
    (&& (s.w.wfd.dirty ==> s.w.wfd.marker)
     && (s.w.activation.dirty ==> s.w.activation.marker)
     && (s.w.backend == Direct ==> s.w.activation == Untouched && !s.b.recorded)
     && (s.w.brokerActive && s.b.marked ==> s.w.wfd.marker)
     && (s.w.brokerActive && s.b.recorded ==> s.w.activation.marker)
     && (s.guard.Cleaning? ==> BrokerWorkPast(s.w, s.guard.c))
     && (s.rec.Recovering? ==> BrokerWorkPast(s.w, s.rec.c))
     && (TokenGone(s) ==> !s.w.wfd.dirty && !s.w.activation.dirty))
  }

  /** The lines after those for the broker leave its work alone. */
  lemma BrokerWorkLeftAlone(who: Who, w: World, c: Cleaner, good: bool)
    requires Shape(who, w, c) && c.at > DROP_ACTIVATION
    ensures var w' := ExecWorld(who, w, c, good);
      && w'.wfd == w.wfd && w'.activation == w.activation
      && (ExecCleaner(who, w, c, good).f.ok ==> c.f.ok) && ExecCleaner(who, w, c, good).at > DROP_ACTIVATION
      && (!w'.token && w.token ==> AllOk(who, c.f))
  {}

  lemma BrokerWorkExec(who: Who, w: World, c: Cleaner, good: bool)
    requires Shape(who, w, c)
    requires w.wfd.dirty ==> w.wfd.marker && w.token
    requires w.activation.dirty ==> w.activation.marker && w.token
    requires w.backend == Direct ==> w.activation == Untouched
    requires BrokerWorkPast(w, c)
    ensures var w' := ExecWorld(who, w, c, good);
      && (w'.wfd.dirty ==> w.wfd.dirty && w'.wfd.marker && w'.token)
      && (w'.activation.dirty ==> w.activation.dirty && w'.activation.marker && w'.token)
      && (w.wfd.marker && c.at != WFD_UNMARK ==> w'.wfd.marker)
      && (w.activation.marker && c.at != DROP_ACTIVATION ==> w'.activation.marker)
      && BrokerWorkPast(w', ExecCleaner(who, w, c, good))
  {
    if c.at > DROP_ACTIVATION { BrokerWorkLeftAlone(who, w, c, good); }
  }

  lemma BrokerWorkGuard(s: State, o: Outcome)
    requires Ctl(s) && Owned(s) && BrokerWorkInv(s) && s.guard.Cleaning? && GuardEnabled(s, o)
    ensures BrokerWorkInv(GuardStep(s, o))
  {
    if !s.h.lateApply { BrokerWorkExec(Guard, s.w, s.guard.c, o == Done); }
  }

  lemma BrokerWorkRecovery(s: State, good: bool)
    requires Ctl(s) && Owned(s) && BrokerWorkInv(s) && s.rec.Recovering?
    ensures BrokerWorkInv(RecoveryStep(s, good))
  {
    if !s.h.lateApply { BrokerWorkExec(Recovery, s.w, s.rec.c, good); }
  }

  lemma BrokerWorkApply(s: State, o: Outcome)
    requires Ctl(s) && Owned(s) && BrokerWorkInv(s) && s.guard.Applying? && GuardEnabled(s, o)
    ensures BrokerWorkInv(GuardStep(s, o))
  {}

  lemma BrokerWorkOther(s: State, a: Action)
    requires Ctl(s) && Owned(s) && BrokerWorkInv(s) && Enabled(s, a) && (IsControl(a) || IsOutside(a))
    ensures BrokerWorkInv(Step(s, a))
  {}

  lemma BrokerWorkStep(s: State, a: Action)
    requires Ctl(s) && Owned(s) && BrokerWorkInv(s) && Enabled(s, a)
    ensures BrokerWorkInv(Step(s, a))
  {
    if IsControl(a) || IsOutside(a) { BrokerWorkOther(s, a); }
    else if a.RecoveryLine? { BrokerWorkRecovery(s, a.good); }
    else if s.guard.Cleaning? { BrokerWorkGuard(s, a.o); }
    else { BrokerWorkApply(s, a.o); }
  }

  // ----- systemd-networkd and the .network file -----

  ghost predicate NetworkdPast(w: World, c: Cleaner) {
    && (c.at == RM_UNITS ==> !w.networkd.touched)
    && (c.at > RESTORE_NETWORKD && c.f.netdOk ==> !w.networkd.touched)
    && (c.at > RM_NETWORK_FILE && c.f.ok ==> !w.networkFile)
  }

  ghost predicate NetworkdInv(s: State) {
    s.h.lateApply ||
    (&& (s.w.networkd.touched ==> s.w.networkd.units)
     && (s.guard.Applying? && s.guard.line <= START_NETWORKD ==> !s.w.networkd.touched)
     && (s.guard.Applying? && COMMIT_UNITS < s.guard.line && !s.h.entered && s.w.backend == Direct ==>
           s.w.networkd.units)
     && (s.guard.Applying? && s.guard.line == START_NETWORKD ==> s.w.backend == Direct)
     && (s.guard.Cleaning? ==> NetworkdPast(s.w, s.guard.c))
     && (s.rec.Recovering? ==> NetworkdPast(s.w, s.rec.c))
     && (TokenGone(s) ==> !s.w.networkd.touched && !s.w.networkFile))
  }

  lemma NetworkdExec(who: Who, w: World, c: Cleaner, good: bool)
    requires Shape(who, w, c) && NetworkdPast(w, c)
    requires (w.networkd.touched ==> w.networkd.units && w.token) && (w.networkFile ==> w.token)
    ensures var w' := ExecWorld(who, w, c, good);
      && (w'.networkd.touched ==> w.networkd.touched && w'.networkd.units && w'.token)
      && (w'.networkFile ==> w.networkFile && w'.token)
      && NetworkdPast(w', ExecCleaner(who, w, c, good))
  {}

  lemma NetworkdGuard(s: State, o: Outcome)
    requires Ctl(s) && Owned(s) && NetworkdInv(s) && s.guard.Cleaning? && GuardEnabled(s, o)
    ensures NetworkdInv(GuardStep(s, o))
  {
    if !s.h.lateApply { NetworkdExec(Guard, s.w, s.guard.c, o == Done); }
  }

  lemma NetworkdRecovery(s: State, good: bool)
    requires Ctl(s) && Owned(s) && NetworkdInv(s) && s.rec.Recovering?
    ensures NetworkdInv(RecoveryStep(s, good))
  {
    if !s.h.lateApply { NetworkdExec(Recovery, s.w, s.rec.c, good); }
  }

  lemma NetworkdApply(s: State, o: Outcome)
    requires Ctl(s) && Owned(s) && NetworkdInv(s) && s.guard.Applying? && GuardEnabled(s, o)
    ensures NetworkdInv(GuardStep(s, o))
  {}

  lemma NetworkdOther(s: State, a: Action)
    requires Ctl(s) && Owned(s) && NetworkdInv(s) && Enabled(s, a) && (IsControl(a) || IsOutside(a))
    ensures NetworkdInv(Step(s, a))
  {}

  lemma NetworkdStep(s: State, a: Action)
    requires Ctl(s) && Owned(s) && NetworkdInv(s) && Enabled(s, a)
    ensures NetworkdInv(Step(s, a))
  {
    if IsControl(a) || IsOutside(a) { NetworkdOther(s, a); }
    else if a.RecoveryLine? { NetworkdRecovery(s, a.good); }
    else if s.guard.Cleaning? { NetworkdGuard(s, a.o); }
    else { NetworkdApply(s, a.o); }
  }

  // ----- P2P clients -----

  /** No client is left and, unless the premise about late clients fails, none can appear any more. */
  ghost predicate Sealed(s: State) {
    s.w.p2p.clients == [] && (s.h.listed || (!s.w.p2p.armed && !s.b.sawArmed))
  }

  ghost predicate InRecord(s: State, seen: set<nat>) {
    Sealed(s) || (s.w.p2p.record.Lines? && forall x :: x in seen ==> x in s.w.p2p.record.names)
  }

  ghost predicate WalkPast(s: State, c: Cleaner) {
    var p, k := s.w.p2p, c.walk;
    c.f.ifOk ==>
      && (c.at == LIST_CLIENTS ==> InRecord(s, k.seen))
      && (c.at == APPEND_CLIENT ==>
            s.h.listed && InRecord(s, k.seen) && forall x :: x in p.clients ==> x in k.seen || x in k.listed)
      && (c.at == CHECK_RECORD || c.at == OPEN_RECORD ==>
            s.h.listed && forall x :: x in p.clients ==> p.record.Lines? && x in p.record.names)
      && (c.at == REMOVE_CLIENT && k.allRemoved ==>
            s.h.listed && forall x :: x in p.clients ==> x in k.left)
      && (c.at > REMOVE_CLIENT ==> Sealed(s))
  }

  ghost predicate ClientsExempt(s: State) {
    s.h.lateApply || s.h.lateClient || s.w.backend == NetworkManager
  }

  ghost predicate ClientsInv(s: State) {
    ClientsExempt(s) ||
    (&& (s.w.p2p.armed || Sealed(s))
     && (s.guard.Cleaning? ==> WalkPast(s, s.guard.c))
     && (s.rec.Recovering? ==> WalkPast(s, s.rec.c))
     && (TokenGone(s) ==> Sealed(s)))
  }

  /** What every action may do to a walk it does not belong to. */
  ghost predicate Calmer(s: State, t: State) {
    && (Sealed(s) ==> Sealed(t))
    && (s.h.listed ==> t.h.listed && forall x :: x in t.w.p2p.clients ==> x in s.w.p2p.clients)
    && (Sealed(t) || (s.w.p2p.record.Lines? ==>
          t.w.p2p.record.Lines? && forall x :: x in s.w.p2p.record.names ==> x in t.w.p2p.record.names))
  }

  lemma WalkUndisturbed(s: State, t: State, c: Cleaner)
    requires WalkPast(s, c) && Calmer(s, t)
    ensures WalkPast(t, c)
  {}

  /** The state after one line of a cleaner, whichever of the two it is. */
  function AfterLine(s: State, who: Who, c: Cleaner, good: bool): State {
    s.(w := ExecWorld(who, s.w, c, good), h := Noted(s.h, c, good))
  }

  ghost predicate WalkReady(s: State, who: Who, c: Cleaner) {
    && s.w.backend == Direct && Shape(who, s.w, c) && WalkPast(s, c)
    && (s.w.p2p.armed || Sealed(s)) && (s.w.token || Sealed(s))
  }

  lemma WalkWalks(s: State, who: Who, c: Cleaner, good: bool)
    requires WalkReady(s, who, c) && c.at <= REMOVE_CLIENT
    ensures var t := AfterLine(s, who, c, good);
      && WalkPast(t, ExecCleaner(who, s.w, c, good)) && Calmer(s, t)
      && (t.w.p2p.armed || Sealed(t)) && (t.w.token || Sealed(t))
  {
    assert s.w.p2p.clients != [] ==> s.w.p2p.clients[0] in s.w.p2p.clients;
  }

  lemma WalkAdvances(s: State, who: Who, c: Cleaner, good: bool)
    requires WalkReady(s, who, c)
    ensures var t := AfterLine(s, who, c, good);
      && WalkPast(t, ExecCleaner(who, s.w, c, good)) && Calmer(s, t)
      && (t.w.p2p.armed || Sealed(t)) && (t.w.token || Sealed(t))
  {
    if c.at <= REMOVE_CLIENT { WalkWalks(s, who, c, good); }
  }

  /** The invariant of a state from what is known of its world, whoever is in which line. */
  lemma ClientsFrom(s: State, t: State)
    requires t.w == s.w && t.h == s.h && t.b == s.b && !ClientsExempt(s)
    requires (s.w.p2p.armed || Sealed(s)) && (s.w.token || Sealed(s))
    requires t.guard.Cleaning? ==> WalkPast(s, t.guard.c)
    requires t.rec.Recovering? ==> WalkPast(s, t.rec.c)
    ensures ClientsInv(t)
  {}

  lemma ClientsGuard(s: State, o: Outcome)
    requires Ctl(s) && Owned(s) && ClientsInv(s) && s.guard.Cleaning? && GuardEnabled(s, o)
    ensures ClientsInv(GuardStep(s, o))
  {
    if !ClientsExempt(s) {
      var t := AfterLine(s, Guard, s.guard.c, o == Done);
      assert Calmer(s, t) && WalkPast(t, ExecCleaner(Guard, s.w, s.guard.c, o == Done))
             && (t.w.p2p.armed || Sealed(t)) && (t.w.token || Sealed(t)) by {
        WalkAdvances(s, Guard, s.guard.c, o == Done);
      }
      if s.rec.Recovering? { WalkUndisturbed(s, t, s.rec.c); }
      ClientsFrom(t, GuardStep(s, o));
    }
  }

  lemma ClientsRecovery(s: State, good: bool)
    requires Ctl(s) && Owned(s) && ClientsInv(s) && s.rec.Recovering?
    ensures ClientsInv(RecoveryStep(s, good))
  {
    if !ClientsExempt(s) {
      var t := AfterLine(s, Recovery, s.rec.c, good);
      assert Calmer(s, t) && WalkPast(t, ExecCleaner(Recovery, s.w, s.rec.c, good))
             && (t.w.p2p.armed || Sealed(t)) && (t.w.token || Sealed(t)) by {
        WalkAdvances(s, Recovery, s.rec.c, good);
      }
      if s.guard.Cleaning? { WalkUndisturbed(s, t, s.guard.c); }
      ClientsFrom(t, RecoveryStep(s, good));
    }
  }

  lemma ClientsApply(s: State, o: Outcome)
    requires Ctl(s) && Owned(s) && ClientsInv(s) && s.guard.Applying? && GuardEnabled(s, o)
    ensures ClientsInv(GuardStep(s, o))
  {}

  lemma ClientsControl(s: State, a: Action)
    requires Ctl(s) && ClientsInv(s) && Enabled(s, a) && IsControl(a)
    ensures ClientsInv(Step(s, a))
  {}

  lemma ClientsOutside(s: State, a: Action)
    requires Ctl(s) && Owned(s) && ClientsInv(s) && Enabled(s, a) && IsOutside(a)
    ensures ClientsInv(Step(s, a))
  {
    if !ClientsExempt(s) {
      var t := Step(s, a);
      if s.rec.Recovering? && Calmer(s, t) { WalkUndisturbed(s, t, s.rec.c); }
      if s.guard.Cleaning? && Calmer(s, t) { WalkUndisturbed(s, t, s.guard.c); }
    }
  }

  lemma ClientsStep(s: State, a: Action)
    requires Ctl(s) && Owned(s) && ClientsInv(s) && Enabled(s, a)
    ensures ClientsInv(Step(s, a))
  {
    if IsControl(a) { ClientsControl(s, a); }
    else if IsOutside(a) { ClientsOutside(s, a); }
    else if a.RecoveryLine? { ClientsRecovery(s, a.good); }
    else if s.guard.Cleaning? { ClientsGuard(s, a.o); }
    else { ClientsApply(s, a.o); }
  }
}
