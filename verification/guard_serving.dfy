/** A session in which nothing fails: what `prepare` has done to the host when it serves, and that it is all undone. */
module GuardServing {
  import opened GuardHost
  import opened GuardProtocol
  import opened GuardTheorems
  import opened GuardConvergence

  /** The two things `prepare` may find in place: the network root, and a firewalld port that is open already. */
  datatype Found = Found(root: bool, port: bool)

  /** The world before line `l` of a `prepare` without a failure that started from `w`. */
  function Prepared(w: World, l: Apply, found: Found): World {
    var direct, nm := w.backend == Direct, w.backend == NetworkManager;
    w.(nm := Marked(direct && l > STOP_NM, direct && l > MARK_PAUSE),
       port := Marked(nm && l > OPEN_PORT && !found.port, nm && l > MARK_PORT && !found.port),
       networkd := Networkd(direct && l > START_NETWORKD, direct && l > COMMIT_UNITS, direct && l == COMMIT_UNITS,
                            direct && l > MARK_ROOT && !found.root),
       p2p := P2p(w.p2p.clients, l > ARM, if l > MAKE_RECORD then Lines([], true) else Missing),
       networkFile := direct && l > WRITE_NETWORK,
       brokerActive := l > START_BROKER,
       loose := Loose(l == TAKE_TRIGGER, false, false, l > START_BROKER),
       ready := l > AWAIT_READY,
       token := l > MAKE_TOKEN,
       status := if l > PUBLISH_ACTIVE then Active else if l > PUBLISH_READY then Ready else NoStatus)
  }

  /** Such a `prepare` is at line `l`; recovery is watching once it has announced itself, and still out of the way. */
  ghost predicate Preparing(w: World, l: Apply, found: Found, s: State) {
    && l <= SERVE && s.guard == Applying(l, l > NOTE_BROKER, l > PUBLISH_READY)
    && s.w == Prepared(w, l, found)
    && s.rec == (if l <= LAUNCH then Unlaunched else if l == AWAIT_READY then Announcing else Watching)
    && s.b == Broker(false, false, false)
    && s.h == History(l > MAKE_TOKEN, l > AWAIT_READY, l > ARM, false, false, false, false)
    && (w.backend == Direct ==> w.p2p.clients == [] && !(MARK_PORT <= l <= OPEN_PORT))
    && (w.backend == NetworkManager ==> !(MARK_ROOT <= l <= WRITE_NETWORK) && !(MARK_PAUSE <= l <= BASELINE))
    && (w.backend == NetworkManager ==> l != START_NETWORKD && !(found.port && l == OPEN_PORT))
  }

  /** What is in place already is skipped. */
  function Outcomes(l: Apply, found: Found): Outcome {
    if (l == MARK_ROOT && found.root) || (l == MARK_PORT && found.port) then Skips else Done
  }

  /** Recovery announces itself and the user asks for the session; otherwise the guard goes on alone. */
  lemma PrepareGoesOn(w: World, l: Apply, found: Found, s: State) returns (run: seq<Action>, t: State)
    requires Preparing(w, l, found, s) && l < SERVE
    ensures Leads(s, run, t) && t.guard.Applying? && t.guard.line > l && Preparing(w, t.guard.line, found, t)
  {
    var go := GuardLine(Outcomes(l, found));
    if l == AWAIT_READY || l == AWAIT_TRIGGER {
      var first := if l == AWAIT_READY then Announce(true) else UserFiles(true, false, false);
      var u := Step(s, first);
      run, t := [first, go], Step(u, go);
      assert Leads(u, [go], t);
    } else {
      run, t := [go], Step(s, go);
    }
  }

  lemma {:induction false} PrepareReaches(w: World, l: Apply, found: Found, s: State)
    returns (run: seq<Action>, t: State)
    requires Preparing(w, l, found, s)
    ensures Leads(s, run, t) && Preparing(w, SERVE, found, t)
    decreases SERVE - l
  {
    if l == SERVE { run, t := [], s; return; }
    var first, u := PrepareGoesOn(w, l, found, s);
    var rest;
    rest, t := PrepareReaches(w, u.guard.line, found, u);
    LeadsAlong(s, first, u, rest, t);
    run := first + rest;
  }

  lemma {:induction false} LeadsAlong(s: State, a: seq<Action>, t: State, b: seq<Action>, u: State)
    requires Leads(s, a, t) && Leads(t, b, u)
    ensures Leads(s, a + b, u)
    decreases |b|
  {
    if b == [] {
      assert a + b == a;
    } else {
      Extend(s, a, t, b[0]);
      LeadsAlong(s, a + [b[0]], Step(t, b[0]), b[1..], u);
      assert (a + [b[0]]) + b[1..] == a + b;
    }
  }

  /** When nothing fails the guard comes to serve: everything the backend asks for is done and marked, and the status
      says so. */
  lemma PrepareServes(s: State, found: Found) returns (run: seq<Action>, t: State)
    requires Init(s)
    ensures Leads(s, run, t) && t.guard == Applying(SERVE, true, true) && t.rec == Watching
    ensures t.w.token && t.w.ready && t.w.status == Active && t.w.brokerActive && t.w.p2p.armed
    ensures t.w.p2p.record == Lines([], true) && t.w.p2p.clients == s.w.p2p.clients
    ensures s.w.backend == Direct ==>
              && t.w.nm == Marked(true, true) && t.w.port == Untouched && t.w.networkFile
              && t.w.networkd == Networkd(true, true, false, !found.root)
    ensures s.w.backend == NetworkManager ==>
              && t.w.nm == Untouched && t.w.port == Marked(!found.port, !found.port) && !t.w.networkFile
              && t.w.networkd == Networkd(false, false, false, false)
    ensures t.w.backend == s.w.backend && t.w.wfd == t.w.activation == Untouched
    ensures s.w.backend == Direct ==> t.w.p2p.clients == []
    ensures !t.h.lateApply && !t.h.lateClient && !t.h.entered && !t.h.listed && t.b == Broker(false, false, false)
  {
    assert Prepared(s.w, MAKE_TOKEN, found) == s.w;
    run, t := PrepareReaches(s.w, MAKE_TOKEN, found, s);
  }

  /** What the broker does for a session once it saw it armed: WFD elements and a client of its own, or an activation of
      NetworkManager. */
  lemma BrokerWorks(s: State, client: nat) returns (run: seq<Action>, t: State)
    requires s.guard == Applying(SERVE, true, true) && s.w.brokerActive && s.w.p2p.armed
    requires s.b == Broker(false, false, false) && s.w.wfd == s.w.activation == Untouched && !s.h.listed
    requires s.w.backend == Direct ==> s.w.p2p.clients == []
    ensures Leads(s, run, t) && t.guard == s.guard && t.rec == s.rec && t.h == s.h
    ensures t.w == (if s.w.backend == Direct
                    then s.w.(wfd := Marked(true, true), p2p := s.w.p2p.(clients := [client]))
                    else s.w.(activation := Marked(true, true)))
  {
    var s1 := Step(s, BrokerSees);
    if s.w.backend == Direct {
      var s2 := Step(s1, BrokerMarks);
      var s3 := Step(s2, BrokerSetsWfd);
      t := Step(s3, NewClient(client));
      ThreeSteps(s1, BrokerMarks, s2, BrokerSetsWfd, s3, NewClient(client), t);
      run := [BrokerSees] + [BrokerMarks, BrokerSetsWfd, NewClient(client)];
      Prepend(s, BrokerSees, [BrokerMarks, BrokerSetsWfd, NewClient(client)], t);
    } else {
      var s2 := Step(s1, BrokerRecords);
      t := Step(s2, BrokerActivates);
      ThreeSteps(s, BrokerSees, s1, BrokerRecords, s2, BrokerActivates, t);
      run := [BrokerSees, BrokerRecords, BrokerActivates];
    }
  }

  lemma ThreeSteps(s: State, a: Action, s1: State, b: Action, s2: State, c: Action, t: State)
    requires Enabled(s, a) && s1 == Step(s, a) && Enabled(s1, b) && s2 == Step(s1, b)
    requires Enabled(s2, c) && t == Step(s2, c)
    ensures Leads(s, [a, b, c], t)
  {
    assert [a, b, c][1..] == [b, c] && [b, c][1..] == [c] && [c][1..] == [];
    assert Leads(s2, [c], t);
    assert Leads(s1, [b, c], t);
  }

  /** The state in which such a session is served and its broker at work. */
  ghost predicate AtWork(s: State) {
    && s.guard == Applying(SERVE, true, true) && s.w.status == Active && s.w.token
    && (s.w.backend == Direct ==> s.w.nm.dirty && s.w.networkd.touched && s.w.wfd.dirty && s.w.p2p.clients != [])
    && (s.w.backend == NetworkManager ==> s.w.activation.dirty)
  }

  lemma SessionWorks(s: State, found: Found, client: nat) returns (run: seq<Action>, t: State)
    requires Init(s)
    ensures Leads(s, run, t) && AtWork(t) && t.rec == Watching && !t.h.lateApply && !t.h.lateClient
    ensures Evidence(t.w) && CanConverge(t.w) && LeftBy(Guard, t.w, true) == s.w
  {
    var before, u := PrepareServes(s, found);
    var more;
    more, t := BrokerWorks(u, client);
    LeadsAlong(s, before, u, more, t);
    run := before + more;
    if t.w.backend == Direct {
      assert t.w.p2p.clients[1..] == [];
      assert Unrecorded([client], {}) == 1;
    }
  }

  /** A session in which nothing fails is served, and it leaves the host exactly as it found it and publishes
      `cleaned`. */
  lemma SessionRestoresHost(s: State, found: Found, client: nat, good: Oracle)
    returns (before: seq<Action>, u: State, after: seq<Action>, t: State)
    requires Init(s) && NothingFails(good)
    ensures Leads(s, before, u) && AtWork(u) && Leads(u, after, t) && t.w == s.w
    ensures Shown(Guard, TrapStart(u.w, true, true, 0), good) == [Cleaned]
  {
    before, u := SessionWorks(s, found, client);
    var v := Step(u, GuardLine(Done));
    GuardConverges(u.w, true, true, good, 0);
    PublishedExactly(Guard, TrapStart(u.w, true, true, 0), good);
    after, t := GuardFinishIsARun(v, good, 0);
    Prepend(u, GuardLine(Done), after, t);
    after := [GuardLine(Done)] + after;
  }

  /** When the guard is killed while it serves, recovery leaves the host just so. */
  lemma RecoveryRestoresHost(s: State, found: Found, client: nat, good: Oracle)
    returns (before: seq<Action>, u: State, after: seq<Action>, t: State)
    requires Init(s) && NothingFails(good)
    ensures Leads(s, before, u) && AtWork(u) && Leads(u, after, t) && t.w == s.w
    ensures |after| > 1 && after[0] == KillGuard && after[1] == Enter
    ensures Shown(Recovery, RecoveryStart(u.w, 0), good) == [Cleaned]
  {
    before, u := SessionWorks(s, found, client);
    var v := Step(u, KillGuard);
    var x := Step(v, Enter);
    RecoveryConverges(u.w, good, 0);
    PublishedExactly(Recovery, RecoveryStart(u.w, 0), good);
    var rest;
    rest, t := FinishIsARun(x, good, 0);
    Prepend(v, Enter, rest, t);
    Prepend(u, KillGuard, [Enter] + rest, t);
    after := [KillGuard] + ([Enter] + rest);
  }
}
