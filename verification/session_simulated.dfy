/** The simulated and dry-run supervisors, which write before they remember: a session in which nothing fails. */
module SessionSimulated {
  import opened SessionState
  import opened SessionProtocol
  import opened SessionSafety

  /** Between two phases: what is remembered is on disk. */
  function Resting(s: State, sid: nat, x: SState): State {
    s.(disk := x, stop := None, actor := Supervisor(DiskFirst, sid, Adapter, x, x))
  }

  lemma FourSteps(s: State, a: Action, s1: State, b: Action, s2: State, s3: State, t: State)
    requires Enabled(s, a) && s1 == Step(s, a) && Enabled(s1, b) && s2 == Step(s1, b)
    requires Enabled(s2, b) && s3 == Step(s2, b) && Enabled(s3, b) && t == Step(s3, b)
    ensures Leads(s, [a, b, b, b], t)
  {
    assert [a, b, b, b][1..] == [b, b, b] && [b, b, b][1..] == [b, b] && [b, b][1..] == [b] && [b][1..] == [];
    assert Leads(s3, [b], t);
    assert Leads(s2, [b, b], t);
    assert Leads(s1, [b, b, b], t);
  }

  /** The lines of one phase. */
  function Lines(p: Phase, now: nat): seq<Action> { [Choose(Stage(p)), Run(Ok, now), Run(Ok, now), Run(Ok, now)] }

  /** They persist it. */
  lemma StagePersists(s: State, sid: nat, x: SState, p: Phase, now: nat) returns (y: SState)
    requires s == Resting(s, sid, x) && Transition(x, p, NO_UPDATES, now).Some?
    ensures Leads(s, Lines(p, now), Resting(s, sid, y)) && Some(y) == Transition(x, p, NO_UPDATES, now)
  {
    y := Transition(x, p, NO_UPDATES, now).value;
    var go := Run(Ok, now);
    var s1 := Step(s, Choose(Stage(p)));
    var s2 := Step(s1, go);
    var s3 := Step(s2, go);
    FourSteps(s, Choose(Stage(p)), s1, go, s2, s3, Step(s3, go));
  }

  /** The phases can be persisted one after the other, from `x` on, and end in `y`. */
  ghost predicate Persists(s: State, sid: nat, x: SState, phases: seq<Phase>, y: SState)
    decreases |phases|
  {
    if phases == [] then x == y
    else exists z, now ::
      && Leads(Resting(s, sid, x), Lines(phases[0], now), Resting(s, sid, z))
      && z.phase == phases[0] && Persists(s, sid, z, phases[1..], y)
  }

  predicate PlainState(x: SState, sid: nat) {
    ValidState(x) && !x.reason && !x.error && (x.phase != Idle ==> x.sid == Some(sid))
  }

  predicate FitsAll(p: Phase, phases: seq<Phase>)
    decreases |phases|
  {
    phases == [] || (EdgeOrSame(p, phases[0]) && p != Idle && phases[0] !in {Error, Recovering}
                     && FitsAll(phases[0], phases[1..]))
  }

  lemma {:induction false} PhasesPersist(s: State, sid: nat, x: SState, phases: seq<Phase>, now: nat)
    returns (y: SState)
    requires PlainState(x, sid) && FitsAll(x.phase, phases)
    ensures Persists(s, sid, x, phases, y) && PlainState(y, sid)
    ensures y.phase == if phases == [] then x.phase else phases[|phases| - 1]
    decreases |phases|
  {
    if phases == [] { return x; }
    var r := Resting(s, sid, x);
    var z := StagePersists(r, sid, x, phases[0], now);
    assert Resting(r, sid, z) == Resting(s, sid, z);
    y := PhasesPersist(s, sid, z, phases[1..], now);
  }

  /** Before the phases: the stop marker goes and `checking` is persisted. */
  lemma SimulationStarts(s: State, sid: nat, now: nat) returns (run: seq<Action>, x: SState)
    requires s.actor == Free && s.disk == IDLE_STATE
    ensures Leads(s, run, Resting(s, sid, x)) && x == SState(Checking, Some(sid), Some(now), false, false)
  {
    var go, a := Run(Ok, now), Start(DiskFirst, sid);
    x := Transition(IDLE_STATE, Checking, Updates(Some(sid), false, false), now).value;
    var s1 := Step(s, a);
    var s2 := Step(s1, go);
    var s3 := Step(s2, go);
    run := [a, go, go, go];
    FourSteps(s, a, s1, go, s2, s3, Step(s3, go));
  }

  /** After them: the stop marker goes and the lock is released. */
  lemma SimulationEnds(s: State, sid: nat, x: SState, now: nat) returns (run: seq<Action>, t: State)
    ensures Leads(Resting(s, sid, x), run, t) && t == s.(disk := x, stop := None, actor := Free)
  {
    var r := Resting(s, sid, x);
    var c, go := Choose(Finish(true)), Run(Ok, now);
    var s1 := Step(r, c);
    t := Step(s1, go);
    run := [c, go];
    assert run[1..] == [go] && [go][1..] == [];
    assert Leads(s1, [go], t);
  }

  /** A simulated session in which nothing fails persists these phases in order and releases the lock idle. */
  lemma SimulatedSession(s: State, sid: nat, now: nat)
    returns (first: seq<Action>, x: SState, last: seq<Action>, t: State)
    requires s.actor == Free && s.disk == IDLE_STATE
    ensures Leads(s, first, Resting(s, sid, x)) && x.phase == Checking
    ensures Persists(s, sid, x, [Discovering, Preparing, Connecting, Streaming, Stopping, Idle], IDLE_STATE)
    ensures Leads(Resting(s, sid, IDLE_STATE), last, t) && t == s.(stop := None)
  {
    first, x := SimulationStarts(s, sid, now);
    var phases := [Discovering, Preparing, Connecting, Streaming, Stopping, Idle];
    FitsInOrder();
    var y := PhasesPersist(s, sid, x, phases, now);
    last, t := SimulationEnds(s, sid, y, now);
  }

  lemma FitsInOrder()
    ensures FitsAll(Checking, [Discovering, Preparing, Connecting, Streaming, Stopping, Idle])
  {
    var a := [Discovering, Preparing, Connecting, Streaming, Stopping, Idle];
    var b := [Preparing, Connecting, Streaming, Stopping, Idle];
    var c := [Connecting, Streaming, Stopping, Idle];
    assert a[1..] == b && b[1..] == c && c[1..] == [Streaming, Stopping, Idle];
    assert c[1..][1..] == [Stopping, Idle] && c[1..][1..][1..] == [Idle] && c[1..][1..][1..][1..] == [];
    assert FitsAll(Stopping, [Idle]);
    assert FitsAll(Streaming, [Stopping, Idle]);
    assert FitsAll(Connecting, c[1..]);
    assert FitsAll(Preparing, c);
    assert FitsAll(Discovering, b);
  }

  /** One that raises in a phase is left in `error`, without a stop marker. */
  lemma SimulationRaises(s: State, sid: nat, x: SState, c: Choice, now: nat) returns (run: seq<Action>, t: State)
    requires PlainState(x, sid) && x.phase != Idle && (c == Raise || c == Abort)
    ensures Leads(Resting(s, sid, x), run, t) && t.actor == Free && t.stop == None
    ensures t.disk.phase == Error && SameSession(x, t.disk)
  {
    var r, go := Resting(s, sid, x), Run(Ok, now);
    var s1 := Step(r, Choose(c));
    var s2 := Step(s1, go);
    var s3 := Step(s2, go);
    var s4 := Step(s3, go);
    t := Step(s4, go);
    run := [Choose(c), go, go, go, go];
    assert run[1..] == [go, go, go, go];
    FourSteps(s1, go, s2, go, s3, s4, t);
  }
}
