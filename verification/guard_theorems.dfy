/** What every run of the guard protocol keeps, whoever is killed and whatever fails. */
module GuardTheorems {
  import opened GuardHost
  import opened GuardProtocol
  import opened GuardControl
  import opened GuardEvidence

  ghost predicate Leads(s: State, run: seq<Action>, t: State)
    decreases |run|
  {
    if run == [] then s == t
    else Enabled(s, run[0]) && Leads(Step(s, run[0]), run[1..], t)
  }

  ghost predicate Reachable(t: State) {
    exists s, run :: Init(s) && Leads(s, run, t)
  }

  lemma {:induction false} Extend(s: State, run: seq<Action>, t: State, a: Action)
    requires Leads(s, run, t) && Enabled(t, a)
    ensures Leads(s, run + [a], Step(t, a))
    decreases |run|
  {
    if run == [] {
      assert ([a])[1..] == [];
    } else {
      Extend(Step(s, run[0]), run[1..], t, a);
      assert (run + [a])[1..] == run[1..] + [a];
    }
  }

  lemma ReachStep(t: State, a: Action)
    requires Reachable(t) && Enabled(t, a)
    ensures Reachable(Step(t, a))
  {
    var s, run :| Init(s) && Leads(s, run, t);
    Extend(s, run, t, a);
  }

  lemma {:induction false} ReachAlong(s: State, run: seq<Action>, t: State)
    requires Reachable(s) && Leads(s, run, t)
    ensures Reachable(t)
    decreases |run|
  {
    if run != [] {
      ReachStep(s, run[0]);
      ReachAlong(Step(s, run[0]), run[1..], t);
    }
  }

  /** Before recovery acknowledged the session nothing on the host was touched. */
  ghost predicate Touched(w: World) {
    || w.nm.dirty || w.port.dirty || w.wfd.dirty || w.activation.dirty || w.networkd.touched
    || w.networkFile || w.brokerActive || (w.backend == Direct && w.p2p.clients != [])
  }

  ghost predicate Inv(s: State) {
    && Ctl(s) && Owned(s) && NetworkInv(s) && BrokerWorkInv(s) && NetworkdInv(s) && ClientsInv(s)
    && (Touched(s.w) ==> s.h.acked)
  }

  lemma LinesOnlyUndo(who: Who, w: World, c: Cleaner, good: bool)
    requires !Touched(w)
    ensures !Touched(ExecWorld(who, w, c, good))
  {}

  lemma AckStep(s: State, a: Action)
    requires Ctl(s) && (Touched(s.w) ==> s.h.acked) && Enabled(s, a)
    ensures Touched(Step(s, a).w) ==> Step(s, a).h.acked
  {
    if !Touched(s.w) {
      if a.GuardLine? && s.guard.Cleaning? { LinesOnlyUndo(Guard, s.w, s.guard.c, a.o == Done); }
      if a.RecoveryLine? { LinesOnlyUndo(Recovery, s.w, s.rec.c, a.good); }
    }
  }

  lemma InvStep(s: State, a: Action)
    requires Inv(s) && Enabled(s, a)
    ensures Inv(Step(s, a))
  {
    CtlStep(s, a); OwnedStep(s, a);
    NetworkStep(s, a); BrokerWorkStep(s, a); NetworkdStep(s, a); ClientsStep(s, a);
    AckStep(s, a);
  }

  lemma {:induction false} InvAlong(s: State, run: seq<Action>, t: State)
    requires Inv(s) && Leads(s, run, t)
    ensures Inv(t)
    decreases |run|
  {
    if run != [] {
      InvStep(s, run[0]);
      InvAlong(Step(s, run[0]), run[1..], t);
    }
  }

  lemma ReachableInv(t: State)
    requires Reachable(t)
    ensures Inv(t)
  {
    var s, run :| Init(s) && Leads(s, run, t);
    CtlInit(s);
    InvAlong(s, run, t);
  }

  ghost predicate HostRestored(w: World) {
    && !w.nm.dirty && !w.port.dirty && !w.wfd.dirty && !w.activation.dirty
    && !w.networkd.touched && !w.networkFile
  }

  /** Once there has been a token, its absence means that every change to the host was undone. */
  lemma NoTokenMeansRestored(t: State)
    requires Reachable(t) && t.h.tokenMade && !t.w.token && !t.h.lateApply
    ensures HostRestored(t.w)
    ensures t.w.backend == Direct && !t.h.lateClient ==> t.w.p2p.clients == []
  {
    ReachableInv(t);
  }

  /** A published `cleaned`, also the guard's early one when it no longer owns the token, is true. */
  lemma CleanedIsTrue(t: State)
    requires Reachable(t) && t.w.status == Cleaned
    ensures t.h.tokenMade && !t.w.token
    ensures !t.h.lateApply ==> HostRestored(t.w)
    ensures !t.h.lateApply && !t.h.lateClient && t.w.backend == Direct ==> t.w.p2p.clients == []
  {
    ReachableInv(t);
  }

  /** The token never comes back, so a restored host stays restored along every later run. */
  lemma {:induction false} GoneForGood(s: State, run: seq<Action>, t: State)
    requires Reachable(s) && TokenGone(s) && Leads(s, run, t)
    ensures TokenGone(t) && (!t.h.lateApply ==> HostRestored(t.w))
    decreases |run|
  {
    ReachableInv(s);
    if run != [] {
      var a := run[0];
      if a.RecoveryLine? { ShapeKept(Recovery, s.w, s.rec.c, a.good); }
      else if a.GuardLine? && s.guard.Cleaning? { ShapeKept(Guard, s.w, s.guard.c, a.o == Done); }
      ReachStep(s, a);
      GoneForGood(Step(s, a), run[1..], t);
    }
  }

  /** At every moment a change to the host has its evidence and the token beside it. */
  lemma WriteAhead(t: State)
    requires Reachable(t) && !t.h.lateApply
    ensures t.w.nm.dirty ==> t.w.nm.marker && t.w.token
    ensures t.w.port.dirty ==> t.w.port.marker && t.w.token
    ensures t.w.wfd.dirty ==> t.w.wfd.marker && t.w.token
    ensures t.w.activation.dirty ==> t.w.activation.marker && t.w.token
    ensures t.w.networkd.touched ==> t.w.networkd.units && t.w.token
    ensures t.w.networkFile ==> t.w.token
    ensures t.w.backend == Direct && !t.h.lateClient && t.w.p2p.clients != [] ==> t.w.p2p.armed && t.w.token
  {
    ReachableInv(t);
  }

  /** No change to the host precedes recovery's acknowledgement, premises or not. */
  lemma AcknowledgedFirst(t: State)
    requires Reachable(t) && Touched(t.w)
    ensures t.h.acked && t.h.tokenMade
  {
    ReachableInv(t);
  }
}
