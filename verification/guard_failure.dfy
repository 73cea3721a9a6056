/**
 What a failing line of a cleanup leaves behind: the token, and the resource of that line as it was.
 And what a cleanup that gives up the token has done about the broker.
 */
module GuardFailure {
  import opened GuardHost
  import opened GuardProtocol
  import opened GuardEvidence
  import opened GuardTheorems
  import opened GuardConvergence

  /** The uninterrupted cleanup that starts at `start` comes by `p`. */
  ghost predicate Passes(who: Who, start: Point, good: Oracle, p: Point)
    decreases EXITED - start.c.at, |start.c.walk.listed| + |start.c.walk.left|
  {
    start == p || (start.c.at < EXITED && Passes(who, Onward(who, start, good), good, p))
  }

  lemma {:induction false} PassesForward(who: Who, start: Point, good: Oracle, p: Point)
    requires Passes(who, start, good, p)
    ensures start.c.at <= p.c.at && Finish(who, start, good) == Finish(who, p, good)
    ensures start.w.token && start.c.at <= RM_TOKEN && p.c.at <= RM_TOKEN ==> p.w.token
    decreases EXITED - start.c.at, |start.c.walk.listed| + |start.c.walk.left|
  {
    if start != p { PassesForward(who, Onward(who, start, good), good, p); }
  }

  // ----- The token -----

  /** Some failure is on record, so this cleanup will not unlink the token. */
  predicate Blamed(who: Who, c: Cleaner) {
    !AllOk(who, c.f) || (who == Recovery && !c.f.ifOk && c.at <= RM_ARMED)
  }

  lemma {:induction false} BlamedKeepsToken(who: Who, p: Point, good: Oracle)
    requires p.w.token && Blamed(who, p.c)
    ensures Finish(who, p, good).token
    decreases EXITED - p.c.at, |p.c.walk.listed| + |p.c.walk.left|
  {
    if p.c.at < EXITED { BlamedKeepsToken(who, Onward(who, p, good), good); }
  }

  // ----- The resource -----

  /** What the line is about is in `r` as it was in `w`, its marker or record included. */
  predicate Kept(l: Line, w: World, r: World) {
    if l == STOP_BROKER then
      r.brokerActive == w.brokerActive && r.loose.socket == w.loose.socket && r.wfd == w.wfd
      && r.activation == w.activation
    else if l == RM_SOCKET then r.loose.socket == w.loose.socket
    else if l == WFD_EMPTY || l == WFD_UNMARK then r.wfd == w.wfd
    else if l == DROP_ACTIVATION then r.activation == w.activation
    else if READ_RECORD <= l <= REMOVE_CLIENT then r.p2p.armed == w.p2p.armed && r.p2p.record == w.p2p.record
    else if l == RESUME_NM || l == RM_RESUME then r.nm == w.nm
    else if l == CLOSE_PORT || l == RM_PORT_MARKER then r.port == w.port
    else if l == RM_NETWORK_FILE then r.networkFile == w.networkFile
    else if l == RM_TRIGGER then r.loose.trigger == w.loose.trigger
    else if l == RM_HEARTBEAT then r.loose.heartbeat == w.loose.heartbeat
    else if l == RM_STOP then r.loose.stop == w.loose.stop
    else if l == RESTORE_NETWORKD then r.networkd == w.networkd.(pending := r.networkd.pending)
    else if l == RM_PENDING then r.networkd.pending == w.networkd.pending
    else if l == RM_UNITS then r.networkd.units == w.networkd.units
    else if l == RM_ROOT_MARKER then r.networkd.rootMarker == w.networkd.rootMarker
    else if l == RM_ARMED then r.p2p.armed == w.p2p.armed
    else if l == RM_RECORD then r.p2p.record == w.p2p.record
    else if l == RM_READY then r.ready == w.ready
    else r.token == w.token
  }

  /** Where the script goes on when the line fails. */
  function SkipsTo(l: Line): Line {
    if l == STOP_BROKER then CHECK_ARMED
    else if l == WFD_EMPTY then DROP_ACTIVATION
    else if READ_RECORD <= l < OPEN_RECORD then OPEN_RECORD
    else if l == OPEN_RECORD then RESUME_NM
    else if l == RESUME_NM then CLOSE_PORT
    else if l == CLOSE_PORT then RM_NETWORK_FILE
    else l + 1
  }

  /** Line `l` failed in `w`, and the cleanup has since come to `p`. */
  predicate Since(l: Line, who: Who, w: World, p: Point) {
    && Kept(l, w, p.w) && p.w.token && Blamed(who, p.c) && p.c.at >= SkipsTo(l)
    && (l == RESTORE_NETWORKD ==> !p.c.f.netdOk && p.c.at != RM_UNITS && p.c.at != RM_ROOT_MARKER)
    && (READ_RECORD <= l <= REMOVE_CLIENT ==> !p.c.f.ifOk && p.c.at != RM_RECORD)
  }

  predicate FailsAt(who: Who, p: Point, good: Oracle) {
    1 <= p.c.at <= RM_TOKEN && p.c.at != CHECK_ARMED && LineFails(who, p.w, p.c, good(p.n))
  }

  lemma BlameSticks(who: Who, p: Point, good: Oracle)
    requires p.w.token && p.c.at < EXITED && (Blamed(who, p.c) || FailsAt(who, p, good))
    ensures Blamed(who, Onward(who, p, good).c)
  {}

  lemma SinceBegins(who: Who, p: Point, good: Oracle)
    requires p.w.token && FailsAt(who, p, good)
    ensures Since(p.c.at, who, p.w, Onward(who, p, good))
  {
    BlameSticks(who, p, good);
    if p.c.at <= REMOVE_CLIENT { KeptByEarlyFailure(who, p, good); } else { KeptByLateFailure(who, p, good); }
  }

  lemma KeptByEarlyFailure(who: Who, p: Point, good: Oracle)
    requires p.w.token && FailsAt(who, p, good) && p.c.at <= REMOVE_CLIENT
    ensures var q := Onward(who, p, good);
      && Kept(p.c.at, p.w, q.w) && q.w.token && q.c.at >= SkipsTo(p.c.at)
      && (READ_RECORD <= p.c.at ==> !q.c.f.ifOk && q.c.at != RM_RECORD)
  {}

  lemma KeptByLateFailure(who: Who, p: Point, good: Oracle)
    requires p.w.token && FailsAt(who, p, good) && p.c.at > REMOVE_CLIENT
    ensures var q := Onward(who, p, good);
      && Kept(p.c.at, p.w, q.w) && q.w.token && q.c.at >= SkipsTo(p.c.at)
      && (p.c.at == RESTORE_NETWORKD ==> !q.c.f.netdOk && q.c.at == RM_PENDING)
  {}

  lemma SinceStays(l: Line, who: Who, w: World, p: Point, good: Oracle)
    requires 1 <= l <= RM_TOKEN && Since(l, who, w, p) && p.c.at < EXITED
    ensures Since(l, who, w, Onward(who, p, good))
  {
    BlameSticks(who, p, good);
    if l <= REMOVE_CLIENT { EarlyStaysKept(l, who, w, p, good); } else { LateStaysKept(l, who, w, p, good); }
  }

  lemma EarlyStaysKept(l: Line, who: Who, w: World, p: Point, good: Oracle)
    requires 1 <= l <= REMOVE_CLIENT && Since(l, who, w, p) && p.c.at < EXITED
    ensures var q := Onward(who, p, good);
      && Kept(l, w, q.w) && q.w.token && q.c.at >= SkipsTo(l)
      && (READ_RECORD <= l ==> !q.c.f.ifOk && q.c.at != RM_RECORD)
  {}

  lemma LateStaysKept(l: Line, who: Who, w: World, p: Point, good: Oracle)
    requires REMOVE_CLIENT < l <= RM_TOKEN && Since(l, who, w, p) && p.c.at < EXITED
    ensures var q := Onward(who, p, good);
      && Kept(l, w, q.w) && q.w.token && q.c.at >= SkipsTo(l)
      && (l == RESTORE_NETWORKD ==> !q.c.f.netdOk && q.c.at != RM_UNITS && q.c.at != RM_ROOT_MARKER)
  {}

  lemma {:induction false} SinceEnds(l: Line, who: Who, w: World, p: Point, good: Oracle)
    requires 1 <= l <= RM_TOKEN && Since(l, who, w, p)
    ensures Finish(who, p, good).token && Kept(l, w, Finish(who, p, good))
    decreases EXITED - p.c.at, |p.c.walk.listed| + |p.c.walk.left|
  {
    if p.c.at < EXITED {
      SinceStays(l, who, w, p, good);
      SinceEnds(l, who, w, Onward(who, p, good), good);
    }
  }

  /** However the rest of a cleanup goes, a line that fails in it leaves the token and its own resource, marker and
      all, just as they were.  Any line counts but the question whether the session was armed. */
  lemma FailureKeepsTokenAndEvidence(who: Who, start: Point, good: Oracle, p: Point)
    requires start.w.token && start.c.at <= RM_TOKEN
    requires Passes(who, start, good, p) && FailsAt(who, p, good)
    ensures Finish(who, start, good).token && Kept(p.c.at, p.w, Finish(who, start, good))
  {
    PassesForward(who, start, good, p);
    SinceBegins(who, p, good);
    SinceEnds(p.c.at, who, p.w, Onward(who, p, good), good);
  }

  // ----- The exception: the record of the P2P clients -----

  lemma {:induction false} P2pSettled(who: Who, p: Point, good: Oracle)
    requires p.c.at >= RM_READY
    ensures Finish(who, p, good).p2p == p.w.p2p && Finish(who, p, good).backend == p.w.backend
    decreases EXITED - p.c.at, |p.c.walk.listed| + |p.c.walk.left|
  {
    if p.c.at < EXITED { P2pSettled(who, Onward(who, p, good), good); }
  }

  /** The two P2P files after a cleanup, from the line that unlinks `p2p-armed` on. */
  function FilesLeft(who: Who, p: Point, good: Oracle): P2p {
    var q := p.w.p2p;
    if !DropsRecord(who, p.w, p.c.f) then q
    else P2p(q.clients, q.armed && !good(p.n), if good(p.n + 1) then Missing else q.record)
  }

  lemma ArmedLineEnds(who: Who, p: Point, good: Oracle)
    requires p.c.at == RM_ARMED
    ensures Finish(who, p, good).p2p == FilesLeft(who, p, good) && Finish(who, p, good).backend == p.w.backend
  {
    var q := Onward(who, p, good);
    if DropsRecord(who, p.w, p.c.f) {
      assert RunOn(who, q, good) == RunOn(who, Onward(who, q, good), good);
      P2pSettled(who, Onward(who, q, good), good);
    } else {
      P2pSettled(who, q, good);
    }
  }

  /** Every cleanup that owns the token comes to the line that unlinks `p2p-armed`. */
  lemma {:induction false} ArmedLineComes(who: Who, start: Point, good: Oracle) returns (p: Point)
    requires start.w.token && start.c.at <= RM_ARMED
    ensures Passes(who, start, good, p) && p.c.at == RM_ARMED && p.w.token
    decreases EXITED - start.c.at, |start.c.walk.listed| + |start.c.walk.left|
  {
    if start.c.at == RM_ARMED { p := start; } else { p := ArmedLineComes(who, Onward(who, start, good), good); }
  }

  /** A cleanup ends in the state that no recovery leaves exactly when at its two last P2P lines `p2p-armed` stays and
      the record is gone: because only the second unlink succeeded, or because there was no record before. */
  lemma WedgesExactly(who: Who, start: Point, good: Oracle) returns (p: Point)
    requires start.w.token && start.c.at <= RM_ARMED
    ensures Passes(who, start, good, p) && p.c.at == RM_ARMED
    ensures var (drops, before) := (DropsRecord(who, p.w, p.c.f), p.w.p2p);
      Wedged(Finish(who, start, good)) <==>
        p.w.backend == Direct && before.armed && !(drops && good(p.n))
        && (before.record == Missing || (drops && good(p.n + 1)))
  {
    p := ArmedLineComes(who, start, good);
    PassesForward(who, start, good, p);
    ArmedLineEnds(who, p, good);
    if p.w.p2p.armed && !(DropsRecord(who, p.w, p.c.f) && good(p.n)) {
      BlamedKeepsToken(who, Onward(who, p, good), good);
    }
  }

  // ----- The broker -----

  lemma {:induction false} BrokerSettled(who: Who, p: Point, good: Oracle)
    requires p.c.at > STOP_BROKER
    ensures Finish(who, p, good).brokerActive == p.w.brokerActive
    decreases EXITED - p.c.at, |p.c.walk.listed| + |p.c.walk.left|
  {
    if p.c.at < EXITED { BrokerSettled(who, Onward(who, p, good), good); }
  }

  /** A cleanup that gave up the token left the broker running exactly when it was running and this cleaner believed
      that it never started one. */
  lemma BrokerLeftExactly(who: Who, p: Point, good: Oracle)
    requires p.w.token && p.c.at == STOP_BROKER && !Finish(who, p, good).token
    ensures Finish(who, p, good).brokerActive <==> p.w.brokerActive && who == Guard && !p.c.brokerStarted
  {
    var q := Onward(who, p, good);
    if LineFails(who, p.w, p.c, good(p.n)) { FailureKeepsTokenAndEvidence(who, p, good, p); }
    BrokerSettled(who, q, good);
  }

  /** The same for the guard's whole cleanup. */
  lemma GuardLeavesBrokerExactly(w: World, started: bool, confirm: bool, good: Oracle, n: nat)
    requires w.token && !Finish(Guard, TrapStart(w, started, confirm, n), good).token
    ensures Finish(Guard, TrapStart(w, started, confirm, n), good).brokerActive <==>
            w.brokerActive && !started
  {
    BrokerLeftExactly(Guard, Onward(Guard, TrapStart(w, started, confirm, n), good), good);
  }

  /** A broker that outlives the token never saw the session armed and never will. */
  lemma BrokerLeftIsHarmless(t: State)
    requires Reachable(t) && TokenGone(t) && !t.h.lateApply && t.w.brokerActive
    ensures !t.h.armedEver && !t.b.sawArmed && !t.w.p2p.armed && !t.b.marked && !t.b.recorded
  {
    ReachableInv(t);
  }

  // ----- In the protocol -----

  /** Restored with nothing to keep, or the token still there and every outstanding change beside its evidence. */
  ghost predicate RestoredOrRetained(w: World) {
    && (w.token || HostRestored(w))
    && (w.nm.dirty ==> w.nm.marker) && (w.port.dirty ==> w.port.marker)
    && (w.wfd.dirty ==> w.wfd.marker) && (w.activation.dirty ==> w.activation.marker)
    && (w.networkd.touched ==> w.networkd.units)
  }

  /** However a recovery or a guard's cleanup goes, from whatever line on, this is how it leaves the host. */
  lemma CleanupRestoresOrRetains(s: State, good: Oracle, n: nat)
    requires Reachable(s) && !s.h.lateApply
    ensures s.rec.Recovering? ==> RestoredOrRetained(Finish(Recovery, Point(s.w, s.rec.c, n), good))
    ensures s.guard.Cleaning? && s.h.tokenMade ==>
              RestoredOrRetained(Finish(Guard, Point(s.w, s.guard.c, n), good))
  {
    ReachableInv(s);
    if s.rec.Recovering? {
      var run, t := FinishIsARun(s, good, n);
      RetainedAlong(s, run, t);
    }
    if s.guard.Cleaning? && s.h.tokenMade {
      var run, t := GuardFinishIsARun(s, good, n);
      RetainedAlong(s, run, t);
    }
  }

  lemma RetainedAlong(s: State, run: seq<Action>, t: State)
    requires Reachable(s) && Leads(s, run, t) && t.h.tokenMade && !t.h.lateApply
    ensures RestoredOrRetained(t.w)
  {
    ReachAlong(s, run, t);
    WriteAhead(t);
    if !t.w.token { NoTokenMeansRestored(t); }
  }
}
