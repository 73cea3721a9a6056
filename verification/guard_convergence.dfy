/**
 One uninterrupted cleanup, of the guard or of recovery: when it restores everything and gives up the
 token, what it publishes, and when no number of attempts can.
 */
module GuardConvergence {
  import opened GuardHost
  import opened GuardProtocol
  import opened GuardTheorems

  /** How the commands of a run end, in the order in which its lines are executed. */
  type Oracle = nat -> bool

  ghost predicate NothingFails(good: Oracle) { forall n :: good(n) }

  /** A moment of an uninterrupted cleanup that has executed `n` lines. */
  datatype Point = Point(w: World, c: Cleaner, n: nat)

  function Onward(who: Who, p: Point, good: Oracle): Point {
    Point(ExecWorld(who, p.w, p.c, good(p.n)), ExecCleaner(who, p.w, p.c, good(p.n)), p.n + 1)
  }

  /** The world a cleanup ends in and what its status file shows in turn. */
  datatype End = End(w: World, shown: seq<Status>)

  /** A cleaner runs on to the end.  A loop asks anew for every iteration. */
  ghost function RunOn(who: Who, p: Point, good: Oracle): End
    decreases EXITED - p.c.at, |p.c.walk.listed| + |p.c.walk.left|
  {
    if p.c.at >= EXITED then End(p.w, [])
    else
      var q := Onward(who, p, good);
      var end := RunOn(who, q, good);
      if p.c.at == PUBLISH && good(p.n) then End(end.w, [q.w.status] + end.shown) else end
  }

  ghost function Finish(who: Who, p: Point, good: Oracle): World { RunOn(who, p, good).w }

  ghost function Shown(who: Who, p: Point, good: Oracle): seq<Status> { RunOn(who, p, good).shown }

  function RecoveryStart(w: World, n: nat): Point { Point(w, Fresh(STOP_BROKER, true, true), n) }

  /** The EXIT trap, by a guard that knows what `prepare` told it. */
  function TrapStart(w: World, started: bool, confirm: bool, n: nat): Point {
    Point(w, Fresh(OWN_CHECK, started, confirm), n)
  }

  ghost function Recovered(w: World, good: Oracle, n: nat): World {
    Finish(Recovery, RecoveryStart(w, n), good)
  }

  /** Everything the session owned is gone.  Clients are the session's only where `p2p-armed` says so. */
  function CleanWorld(w: World): World {
    World(w.backend, Untouched, Untouched, Untouched, Untouched, Networkd(false, false, false, false),
          P2p(if w.backend == Direct && w.p2p.armed then [] else w.p2p.clients, false, Missing),
          false, false, Loose(false, false, false, false), false, false, NoStatus)
  }

  /** A guard that was told of no broker leaves one that runs. */
  function LeftBy(who: Who, w: World, started: bool): World {
    CleanWorld(w).(brokerActive := w.brokerActive && who == Guard && !started)
  }

  function Elems(s: seq<nat>): set<nat> { set x | x in s }

  /** How many names of `listed` have yet to be appended to the record. */
  function Unrecorded(listed: seq<nat>, seen: set<nat>): nat {
    if listed == [] then 0
    else if listed[0] in seen then Unrecorded(listed[1..], seen)
    else 1 + Unrecorded(listed[1..], seen + {listed[0]})
  }

  /** The record is usable and has room for every client that is still to be written to it. */
  predicate RecordFits(p: P2p) {
    RecordValid(p.record)
    && |p.record.names| + Unrecorded(p.clients, Elems(p.record.names)) <= MAX_P2P_INTERFACES
  }

  /** What a cleaner can check before it starts: the interface walk can succeed. */
  predicate CanConverge(w: World) {
    w.backend == Direct && w.p2p.armed ==> RecordFits(w.p2p)
  }

  // ----- Success -----

  /** What every reachable world satisfies under the first premise. */
  ghost predicate Evidence(w: World) {
    && (w.nm.dirty ==> w.nm.marker) && (w.port.dirty ==> w.port.marker) && (w.wfd.dirty ==> w.wfd.marker)
    && (w.networkd.touched ==> w.networkd.units)
    && (w.backend == Direct ==> w.activation == Untouched)
  }

  ghost predicate WalkOnTrack(w: World, c: Cleaner) {
    var p, k := w.p2p, c.walk;
    && (READ_RECORD <= c.at <= REMOVE_CLIENT ==> w.backend == Direct && p.armed)
    && (c.at < READ_RECORD ==> CanConverge(w))
    && (c.at == READ_RECORD ==> RecordFits(p))
    && (c.at == LIST_CLIENTS ==> RecordFits(p) && k.seen == Elems(p.record.names))
    && (c.at == APPEND_CLIENT ==>
          RecordValid(p.record) && k.seen == Elems(p.record.names)
          && |p.record.names| + Unrecorded(k.listed, k.seen) <= MAX_P2P_INTERFACES
          && forall x :: x in p.clients ==> x in k.seen || x in k.listed)
    && (c.at == CHECK_RECORD || c.at == OPEN_RECORD ==>
          RecordValid(p.record) && |p.record.names| <= MAX_P2P_INTERFACES
          && forall x :: x in p.clients ==> x in p.record.names)
    && (c.at == REMOVE_CLIENT ==> k.allRemoved && forall x :: x in p.clients ==> x in k.left)
  }

  /** The lines before `at` have done their work in `w`; `w0` is the world the cleanup started from. */
  ghost predicate OnTrack(who: Who, w0: World, w: World, c: Cleaner) {
    var at := c.at;
    && 1 <= at <= EXITED && c.f == Flags(true, true, true, true, true)
    && Evidence(w) && w.backend == w0.backend
    && (at <= RM_ARMED ==> w.p2p.armed == w0.p2p.armed)
    && (if w.backend == Direct && w0.p2p.armed then at > REMOVE_CLIENT ==> w.p2p.clients == []
        else w.p2p.clients == w0.p2p.clients)
    && WalkOnTrack(w, c)
    && w.brokerActive == (w0.brokerActive && (at <= STOP_BROKER || (who == Guard && !c.brokerStarted)))
    && (at > RM_SOCKET ==> !w.loose.socket)
    && (at == WFD_UNMARK ==> !w.wfd.dirty) && (at > WFD_UNMARK ==> w.wfd == Untouched)
    && (at > DROP_ACTIVATION ==> w.activation == Untouched)
    && (at == RM_RESUME ==> !w.nm.dirty) && (at > RM_RESUME ==> w.nm == Untouched)
    && (at == RM_PORT_MARKER ==> !w.port.dirty) && (at > RM_PORT_MARKER ==> w.port == Untouched)
    && (at > RM_NETWORK_FILE ==> !w.networkFile)
    && (at > RM_TRIGGER ==> !w.loose.trigger)
    && (at > RM_HEARTBEAT ==> !w.loose.heartbeat)
    && (at > RM_STOP ==> !w.loose.stop)
    && (at > RESTORE_NETWORKD ==> !w.networkd.touched)
    && (at > RM_PENDING ==> !w.networkd.pending)
    && (at > RM_UNITS ==> !w.networkd.units)
    && (at > RM_ROOT_MARKER ==> !w.networkd.rootMarker)
    && (at > RM_ARMED ==> !w.p2p.armed)
    && (at > RM_RECORD ==> w.p2p.record == Missing)
    && (at > RM_READY ==> !w.ready)
    && (at > RM_TOKEN ==> !w.token)
    && (at > FINALIZE ==> w.status == NoStatus)
  }

  lemma {:induction false} ElemsBound(s: seq<nat>)
    ensures |Elems(s)| <= |s|
  {
    if s != [] {
      ElemsBound(s[1..]);
      assert Elems(s) == Elems(s[1..]) + {s[0]};
    }
  }

  lemma WalkStays(who: Who, w0: World, w: World, c: Cleaner)
    requires OnTrack(who, w0, w, c) && READ_RECORD <= c.at <= REMOVE_CLIENT
    ensures OnTrack(who, w0, ExecWorld(who, w, c, true), ExecCleaner(who, w, c, true))
  {
    var w', c' := ExecWorld(who, w, c, true), ExecCleaner(who, w, c, true);
    assert w.p2p.clients != [] ==> w.p2p.clients[0] in w.p2p.clients;
    if c.at == APPEND_CLIENT {
      ElemsBound(w.p2p.record.names);
      assert w'.p2p.record.names == w.p2p.record.names || Elems(w'.p2p.record.names) == c'.walk.seen;
    }
  }

  lemma TrackStaysLate(who: Who, w0: World, w: World, c: Cleaner)
    requires OnTrack(who, w0, w, c) && RESTORE_NETWORKD <= c.at < EXITED
    ensures OnTrack(who, w0, ExecWorld(who, w, c, true), ExecCleaner(who, w, c, true))
  {}

  lemma TrackStays(who: Who, w0: World, w: World, c: Cleaner)
    requires OnTrack(who, w0, w, c) && c.at < EXITED
    ensures OnTrack(who, w0, ExecWorld(who, w, c, true), ExecCleaner(who, w, c, true))
  {
    if READ_RECORD <= c.at <= REMOVE_CLIENT { WalkStays(who, w0, w, c); }
    else if c.at >= RESTORE_NETWORKD { TrackStaysLate(who, w0, w, c); }
  }

  lemma {:induction false} TrackEnds(who: Who, w0: World, p: Point, good: Oracle)
    requires OnTrack(who, w0, p.w, p.c) && NothingFails(good)
    ensures Finish(who, p, good) == LeftBy(who, w0, p.c.brokerStarted)
    decreases EXITED - p.c.at, |p.c.walk.listed| + |p.c.walk.left|
  {
    if p.c.at < EXITED {
      TrackStays(who, w0, p.w, p.c);
      TrackEnds(who, w0, Onward(who, p, good), good);
    }
  }

  // ----- Failure -----

  /** The interface walk fails, now or later, so the token stays. */
  ghost predicate Doomed(who: Who, w: World, c: Cleaner) {
    var p, k, at := w.p2p, c.walk, c.at;
    && 1 <= at && w.token && w.backend == Direct
    && (at <= READ_RECORD ==> p.armed && !RecordFits(p))
    && (LIST_CLIENTS <= at <= OPEN_RECORD && c.f.ifOk ==> RecordValid(p.record))
    && (at == LIST_CLIENTS && c.f.ifOk ==>
          k.seen == Elems(p.record.names)
          && |p.record.names| + Unrecorded(p.clients, k.seen) > MAX_P2P_INTERFACES)
    && (at == APPEND_CLIENT && c.f.ifOk ==>
          |p.record.names| + Unrecorded(k.listed, k.seen) > MAX_P2P_INTERFACES)
    && ((at == CHECK_RECORD || at == OPEN_RECORD) && c.f.ifOk ==> |p.record.names| > MAX_P2P_INTERFACES)
    && (at == REMOVE_CLIENT && c.f.ifOk ==> !k.allRemoved)
    && (at > REMOVE_CLIENT ==> !c.f.ifOk)
    && (at > RM_RECORD ==> !AllOk(who, c.f))
    && at != RM_RECORD
  }

  lemma DoomStaysAppending(who: Who, w: World, c: Cleaner, good: bool)
    requires Doomed(who, w, c) && c.at == APPEND_CLIENT
    ensures Doomed(who, ExecWorld(who, w, c, good), ExecCleaner(who, w, c, good))
  {
    var k := c.walk;
    if k.listed != [] && c.f.ifOk && k.listed[0] in k.seen { assert k.seen + {k.listed[0]} == k.seen; }
  }

  lemma DoomStaysInWalk(who: Who, w: World, c: Cleaner, good: bool)
    requires Doomed(who, w, c) && READ_RECORD <= c.at <= REMOVE_CLIENT && c.at != APPEND_CLIENT
    ensures Doomed(who, ExecWorld(who, w, c, good), ExecCleaner(who, w, c, good))
  {}

  lemma DoomStays(who: Who, w: World, c: Cleaner, good: bool)
    requires Doomed(who, w, c) && c.at < EXITED
    ensures Doomed(who, ExecWorld(who, w, c, good), ExecCleaner(who, w, c, good))
  {
    if c.at == APPEND_CLIENT { DoomStaysAppending(who, w, c, good); }
    else if READ_RECORD <= c.at <= REMOVE_CLIENT { DoomStaysInWalk(who, w, c, good); }
  }

  lemma {:induction false} DoomEnds(who: Who, p: Point, good: Oracle)
    requires Doomed(who, p.w, p.c)
    ensures Finish(who, p, good).token
    decreases EXITED - p.c.at, |p.c.walk.listed| + |p.c.walk.left|
  {
    if p.c.at < EXITED {
      DoomStays(who, p.w, p.c, good(p.n));
      DoomEnds(who, Onward(who, p, good), good);
    }
  }

  /** Armed without a record: every run of recovery leaves it so. */
  ghost predicate Wedged(w: World) {
    w.token && w.backend == Direct && w.p2p.armed && w.p2p.record == Missing
  }

  ghost predicate WedgedAt(w: World, c: Cleaner) {
    && Wedged(w) && 1 <= c.at
    && !(LIST_CLIENTS <= c.at <= CHECK_RECORD) && c.at != REMOVE_CLIENT && c.at != RM_RECORD
    && (c.at > READ_RECORD ==> !c.f.ifOk) && (c.at > RM_RECORD ==> !c.f.ok)
  }

  lemma {:induction false} WedgeEnds(p: Point, good: Oracle)
    requires WedgedAt(p.w, p.c)
    ensures Wedged(Finish(Recovery, p, good))
    decreases EXITED - p.c.at, |p.c.walk.listed| + |p.c.walk.left|
  {
    if p.c.at < EXITED { WedgeEnds(Onward(Recovery, p, good), good); }
  }

  // ----- The theorems -----

  /** Recovery without a failure restores everything if and only if the interface walk fits; if it does
      not fit, no outcome of its commands makes it give up the token. */
  lemma RecoveryConverges(w: World, good: Oracle, n: nat)
    requires Evidence(w) && w.token
    ensures NothingFails(good) && CanConverge(w) ==> Recovered(w, good, n) == CleanWorld(w)
    ensures !CanConverge(w) ==> Recovered(w, good, n).token
  {
    var p := RecoveryStart(w, n);
    if !CanConverge(w) { DoomEnds(Recovery, p, good); }
    else if NothingFails(good) { TrackEnds(Recovery, w, p, good); }
  }

  /** So does the guard's own cleanup; only a broker it was never told of it leaves running. */
  lemma GuardConverges(w: World, started: bool, confirm: bool, good: Oracle, n: nat)
    requires Evidence(w) && w.token
    ensures NothingFails(good) && CanConverge(w) ==>
              Finish(Guard, TrapStart(w, started, confirm, n), good) == LeftBy(Guard, w, started)
    ensures !CanConverge(w) ==> Finish(Guard, TrapStart(w, started, confirm, n), good).token
  {
    var p := Onward(Guard, TrapStart(w, started, confirm, n), good);
    if !CanConverge(w) { DoomEnds(Guard, p, good); }
    else if NothingFails(good) { TrackEnds(Guard, w, p, good); }
  }

  /** From every state the protocol can be in, under the two premises. */
  lemma ConvergesFromAnywhere(s: State, good: Oracle, n: nat)
    requires Reachable(s) && !s.h.lateApply && !s.h.lateClient && s.w.token && NothingFails(good)
    ensures !Recovered(s.w, good, n).token <==> CanConverge(s.w)
    ensures CanConverge(s.w) ==> Recovered(s.w, good, n) == CleanWorld(s.w)
    ensures s.w.backend == Direct ==> CleanWorld(s.w).p2p.clients == []
  {
    ReachableInv(s);
    RecoveryConverges(s.w, good, n);
  }

  /** The same for a guard whose trap has just started. */
  lemma GuardConvergesFromAnywhere(s: State, started: bool, confirm: bool, good: Oracle, n: nat)
    requires Reachable(s) && !s.h.lateApply && !s.h.lateClient && s.w.token && NothingFails(good)
    requires s.guard == Cleaning(Fresh(OWN_CHECK, started, confirm))
    ensures var t := Finish(Guard, TrapStart(s.w, started, confirm, n), good);
      && (!t.token <==> CanConverge(s.w))
      && (!t.token ==> t == LeftBy(Guard, s.w, started) && (t.brokerActive ==> !s.h.armedEver))
  {
    ReachableInv(s);
    GuardConverges(s.w, started, confirm, good, n);
  }

  /** A second run, on what the first left, changes nothing. */
  lemma RecoveryIsIdempotent(w: World, good: Oracle, n: nat)
    requires NothingFails(good)
    ensures Recovered(CleanWorld(w), good, n) == CleanWorld(w)
  {
    TrackEnds(Recovery, CleanWorld(w), RecoveryStart(CleanWorld(w), n), good);
  }

  lemma WedgedForEver(w: World, good: Oracle, n: nat)
    requires Wedged(w)
    ensures Wedged(Recovered(w, good, n)) && !CanConverge(w)
  {
    WedgeEnds(RecoveryStart(w, n), good);
  }

  // ----- What is published -----

  /** After the line that unlinks the token its absence and the flags say the same. */
  ghost predicate Telling(who: Who, p: Point) {
    if p.c.at <= RM_TOKEN then p.w.token else p.c.at == PUBLISH && (p.w.token <==> !AllOk(who, p.c.f))
  }

  lemma LastLines(who: Who, p: Point, good: Oracle)
    requires p.c.at == FINALIZE
    ensures Shown(who, p, good) == [] && Finish(who, p, good).token == p.w.token
  {
    var q := Onward(who, p, good);
    assert RunOn(who, q, good) == End(q.w, []);
  }

  lemma PublishLine(who: Who, p: Point, good: Oracle)
    requires p.c.at == PUBLISH
    ensures Finish(who, p, good).token == p.w.token
    ensures Shown(who, p, good) ==
            if good(p.n) then [if p.c.mayConfirm && AllOk(who, p.c.f) then Cleaned else Failed] else []
  {
    var q := Onward(who, p, good);
    if good(p.n) { LastLines(who, q, good); } else { assert RunOn(who, q, good) == End(q.w, []); }
  }

  /** A cleanup that owns the token publishes at most once, and `cleaned` exactly when it may confirm and has given up
      the token. */
  lemma {:induction false} PublishedExactly(who: Who, p: Point, good: Oracle)
    requires Telling(who, p)
    ensures var last := if p.c.mayConfirm && !Finish(who, p, good).token then Cleaned else Failed;
      && (Shown(who, p, good) == [] || Shown(who, p, good) == [last])
      && (NothingFails(good) ==> Shown(who, p, good) == [last])
    decreases EXITED - p.c.at, |p.c.walk.listed| + |p.c.walk.left|
  {
    if p.c.at == PUBLISH { PublishLine(who, p, good); } else { PublishedExactly(who, Onward(who, p, good), good); }
  }

  // ----- Uninterrupted cleanups are runs of the machine -----

  lemma Prepend(s: State, a: Action, run: seq<Action>, t: State)
    requires Enabled(s, a) && Leads(Step(s, a), run, t)
    ensures Leads(s, [a] + run, t)
  {
    assert ([a] + run)[1..] == run;
  }

  /** What is left to do shrinks with every line. */
  lemma LineShrinks(who: Who, p: Point, good: Oracle)
    requires p.c.at < EXITED
    ensures var (c, d) := (p.c, Onward(who, p, good).c);
      d.at > c.at || (d.at == c.at && |d.walk.listed| + |d.walk.left| < |c.walk.listed| + |c.walk.left|)
  {}

  lemma RecoveryLineStep(s: State, good: Oracle, n: nat) returns (u: State)
    requires s.rec.Recovering? && s.rec.c.at < EXITED
    ensures Enabled(s, RecoveryLine(good(n))) && Step(s, RecoveryLine(good(n))) == u
    ensures u.rec.Recovering? && Point(u.w, u.rec.c, n + 1) == Onward(Recovery, Point(s.w, s.rec.c, n), good)
    ensures u.guard == s.guard && u.b == s.b && u.h == s.h.(listed := u.h.listed)
  {
    u := RecoveryStep(s, good(n));
  }

  lemma {:induction false} FinishIsARun(s: State, good: Oracle, n: nat) returns (run: seq<Action>, t: State)
    requires s.rec.Recovering?
    ensures Leads(s, run, t) && t.w == Finish(Recovery, Point(s.w, s.rec.c, n), good)
    ensures t.guard == s.guard && t.b == s.b && t.h == s.h.(listed := t.h.listed)
    decreases EXITED - s.rec.c.at, |s.rec.c.walk.listed| + |s.rec.c.walk.left|
  {
    if s.rec.c.at >= EXITED {
      run, t := [], s;
    } else {
      var rest;
      var u := RecoveryLineStep(s, good, n);
      LineShrinks(Recovery, Point(s.w, s.rec.c, n), good);
      rest, t := FinishIsARun(u, good, n + 1);
      Prepend(s, RecoveryLine(good(n)), rest, t);
      run := [RecoveryLine(good(n))] + rest;
    }
  }

  function TrapLine(ok: bool): Action { GuardLine(if ok then Done else Fails) }

  lemma TrapLineStep(s: State, good: Oracle, n: nat) returns (u: State)
    requires s.guard.Cleaning? && s.guard.c.at < EXITED
    ensures Enabled(s, TrapLine(good(n))) && Step(s, TrapLine(good(n))) == u
    ensures u.guard.Cleaning? && Point(u.w, u.guard.c, n + 1) == Onward(Guard, Point(s.w, s.guard.c, n), good)
    ensures u.rec == s.rec && u.b == s.b && u.h == s.h.(listed := u.h.listed)
  {
    u := Step(s, TrapLine(good(n)));
  }

  lemma {:induction false} GuardFinishIsARun(s: State, good: Oracle, n: nat) returns (run: seq<Action>, t: State)
    requires s.guard.Cleaning?
    ensures Leads(s, run, t) && t.w == Finish(Guard, Point(s.w, s.guard.c, n), good)
    ensures t.rec == s.rec && t.b == s.b && t.h == s.h.(listed := t.h.listed)
    decreases EXITED - s.guard.c.at, |s.guard.c.walk.listed| + |s.guard.c.walk.left|
  {
    if s.guard.c.at >= EXITED {
      run, t := [], s;
    } else {
      var rest;
      var u := TrapLineStep(s, good, n);
      LineShrinks(Guard, Point(s.w, s.guard.c, n), good);
      rest, t := GuardFinishIsARun(u, good, n + 1);
      Prepend(s, TrapLine(good(n)), rest, t);
      run := [TrapLine(good(n))] + rest;
    }
  }
}
