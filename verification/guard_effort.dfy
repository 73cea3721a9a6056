/**
 A failing line of a cleanup costs its own resource and the token, and nothing else: every other part of the host is
 still undone.
 */
module GuardEffort {
  import opened GuardHost
  import opened GuardProtocol
  import opened GuardConvergence
  import opened GuardFailure

  /** What a cleanup undoes, apart from the P2P files, `recovery-ready` and the token. */
  datatype Part =
    | Socket | Wfd | Activation | Clients | Nm | Port | NetworkFile | Trigger | Heartbeat | Stop | Units | Pending

  function FirstLine(part: Part): Line {
    match part
    case Socket => RM_SOCKET
    case Wfd => WFD_EMPTY
    case Activation => DROP_ACTIVATION
    case Clients => CHECK_ARMED
    case Nm => RESUME_NM
    case Port => CLOSE_PORT
    case NetworkFile => RM_NETWORK_FILE
    case Trigger => RM_TRIGGER
    case Heartbeat => RM_HEARTBEAT
    case Stop => RM_STOP
    case Units => RESTORE_NETWORKD
    case Pending => RM_PENDING
  }

  function LastLine(part: Part): Line {
    match part
    case Wfd => WFD_UNMARK
    case Clients => REMOVE_CLIENT
    case Nm => RM_RESUME
    case Port => RM_PORT_MARKER
    case Units => RM_ROOT_MARKER
    case _ => FirstLine(part)
  }

  /** The lines whose failure leaves the part: its own, and for what the broker did also that of stopping it. */
  predicate Costs(part: Part, l: Line) {
    || (FirstLine(part) <= l <= LastLine(part) && (part == Units ==> l != RM_PENDING))
    || ((part == Socket || part == Wfd || part == Activation) && l == STOP_BROKER)
  }

  predicate Undone(part: Part, w: World) {
    match part
    case Socket => !w.loose.socket
    case Wfd => w.wfd == Untouched
    case Activation => w.activation == Untouched
    case Clients => w.p2p.clients == []
    case Nm => w.nm == Untouched
    case Port => w.port == Untouched
    case NetworkFile => !w.networkFile
    case Trigger => !w.loose.trigger
    case Heartbeat => !w.loose.heartbeat
    case Stop => !w.loose.stop
    case Units => !w.networkd.touched && !w.networkd.units && !w.networkd.rootMarker
    case Pending => !w.networkd.pending
  }

  /** What is known in front of its first line. */
  ghost predicate Before(part: Part, w: World, c: Cleaner) {
    match part
    case Wfd => w.wfd.dirty ==> w.wfd.marker
    case Activation => w.backend == Direct ==> w.activation == Untouched
    case Clients => w.backend == Direct && w.p2p.armed && c.f.ifOk
    case Nm => w.nm.dirty ==> w.nm.marker
    case Port => w.port.dirty ==> w.port.marker
    case Units => (w.networkd.touched ==> w.networkd.units) && c.f.netdOk
    case _ => true
  }

  ghost predicate Walking(w: World, c: Cleaner) {
    var p, k := w.p2p, c.walk;
    && w.backend == Direct && p.armed && c.f.ifOk
    && (c.at == LIST_CLIENTS ==> p.record.Lines? && k.seen == Elems(p.record.names))
    && (c.at == APPEND_CLIENT ==>
          && p.record.Lines? && k.seen == Elems(p.record.names)
          && forall x :: x in p.clients ==> x in k.seen || x in k.listed)
    && (c.at == CHECK_RECORD || c.at == OPEN_RECORD ==>
          p.record.Lines? && forall x :: x in p.clients ==> x in p.record.names)
    && (c.at == REMOVE_CLIENT && k.allRemoved ==> forall x :: x in p.clients ==> x in k.left)
  }

  /** What is known among its lines. */
  ghost predicate Amid(part: Part, w: World, c: Cleaner) {
    match part
    case Wfd => !w.wfd.dirty
    case Clients => Walking(w, c)
    case Nm => !w.nm.dirty
    case Port => !w.port.dirty
    case Units => c.f.netdOk && !w.networkd.touched && (c.at > RM_UNITS ==> !w.networkd.units)
    case _ => true
  }

  /** No line that the part costs has failed so far. */
  ghost predicate OnWay(part: Part, p: Point) {
    1 <= p.c.at
    && if p.c.at <= FirstLine(part) then Before(part, p.w, p.c)
       else if p.c.at <= LastLine(part) then Amid(part, p.w, p.c)
       else Undone(part, p.w)
  }

  ghost predicate CostsNow(part: Part, who: Who, p: Point, good: Oracle) {
    Costs(part, p.c.at) && FailsAt(who, p, good)
  }

  lemma ClientsStay(who: Who, p: Point, good: Oracle)
    requires OnWay(Clients, p) && p.c.at < EXITED && !CostsNow(Clients, who, p, good)
    ensures OnWay(Clients, Onward(who, p, good))
  {
    var w, w', k := p.w, Onward(who, p, good).w, p.c.walk;
    assert w.p2p.clients != [] ==> w.p2p.clients[0] in w.p2p.clients;
    if p.c.at == APPEND_CLIENT && k.listed != [] && k.listed[0] in k.seen {
      assert k.seen + {k.listed[0]} == k.seen;
    }
    if p.c.at == APPEND_CLIENT {
      var names, names' := w.p2p.record.names, w'.p2p.record.names;
      assert names' == names || Elems(names') == Elems(names) + {k.listed[0]};
    }
  }

  lemma StaysOnWay(part: Part, who: Who, p: Point, good: Oracle)
    requires OnWay(part, p) && p.c.at < EXITED && !CostsNow(part, who, p, good)
    ensures OnWay(part, Onward(who, p, good))
  {
    if part == Clients { ClientsStay(who, p, good); }
  }

  lemma {:induction false} Effort(part: Part, who: Who, p: Point, good: Oracle)
    requires OnWay(part, p) && p.c.at <= LastLine(part)
    ensures Undone(part, Finish(who, p, good)) || exists q :: Passes(who, p, good, q) && CostsNow(part, who, q, good)
    decreases EXITED - p.c.at, |p.c.walk.listed| + |p.c.walk.left|
  {
    if CostsNow(part, who, p, good) {
      assert Passes(who, p, good, p);
    } else {
      var q := Onward(who, p, good);
      StaysOnWay(part, who, p, good);
      if q.c.at <= LastLine(part) { Effort(part, who, q, good); } else { Settled(part, who, q, good); }
    }
  }

  /** Once undone and passed, a part stays undone. */
  lemma {:induction false} Settled(part: Part, who: Who, p: Point, good: Oracle)
    requires OnWay(part, p) && p.c.at > LastLine(part)
    ensures Undone(part, Finish(who, p, good))
    decreases EXITED - p.c.at, |p.c.walk.listed| + |p.c.walk.left|
  {
    if p.c.at < EXITED {
      SettledOn(part, who, p, good);
      Settled(part, who, Onward(who, p, good), good);
    }
  }

  lemma SettledOn(part: Part, who: Who, p: Point, good: Oracle)
    requires OnWay(part, p) && EXITED > p.c.at > LastLine(part)
    ensures OnWay(part, Onward(who, p, good)) && Onward(who, p, good).c.at > LastLine(part)
  {}

  // ----- The theorems -----

  /** A cleanup that owns the token and has not begun yet. */
  ghost predicate Begins(who: Who, start: Point) {
    && start.w.token && Evidence(start.w)
    && start.c == Fresh(STOP_BROKER, start.c.brokerStarted, start.c.mayConfirm)
    && (who == Recovery ==> start.c.brokerStarted && start.c.mayConfirm)
  }

  /** However its commands end, each part is undone unless one of the part's own lines failed; what the broker did also
      depends on stopping it.  Nothing else that fails gets in the way. */
  lemma BestEffort(part: Part, who: Who, start: Point, good: Oracle)
    requires Begins(who, start)
    requires part == Clients ==> start.w.backend == Direct && start.w.p2p.armed
    ensures Undone(part, Finish(who, start, good))
            || exists q :: Passes(who, start, good, q) && CostsNow(part, who, q, good)
  {
    Effort(part, who, start, good);
  }

  ghost predicate NoneFails(who: Who, p: Point, good: Oracle) {
    forall q :: Passes(who, p, good, q) ==> !FailsAt(who, q, good)
  }

  ghost predicate Spotless(who: Who, p: Point) {
    && 1 <= p.c.at && p.c.f == Flags(true, true, true, true, true)
    && (p.c.at > RM_TOKEN ==> !p.w.token)
  }

  lemma SpotlessStays(who: Who, p: Point, good: Oracle)
    requires Spotless(who, p) && p.c.at < EXITED && !FailsAt(who, p, good)
    ensures Spotless(who, Onward(who, p, good))
  {}

  lemma {:induction false} SpotlessEnds(who: Who, p: Point, good: Oracle)
    requires Spotless(who, p) && NoneFails(who, p, good)
    ensures !Finish(who, p, good).token
    decreases EXITED - p.c.at, |p.c.walk.listed| + |p.c.walk.left|
  {
    if p.c.at < EXITED {
      var q := Onward(who, p, good);
      assert Passes(who, p, good, p);
      SpotlessStays(who, p, good);
      forall r | Passes(who, q, good, r) ensures !FailsAt(who, r, good) { assert Passes(who, p, good, r); }
      SpotlessEnds(who, q, good);
    }
  }

  /** The token goes exactly when no line of the cleanup fails. */
  lemma TokenGoneExactly(who: Who, start: Point, good: Oracle)
    requires Begins(who, start)
    ensures !Finish(who, start, good).token <==> NoneFails(who, start, good)
  {
    if NoneFails(who, start, good) {
      SpotlessEnds(who, start, good);
    } else {
      var q :| Passes(who, start, good, q) && FailsAt(who, q, good);
      FailureKeepsTokenAndEvidence(who, start, good, q);
    }
  }
}
