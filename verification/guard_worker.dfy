/** `cleanup` and `recover_session` as the scripts run them: top to bottom, on their own variables. */
module GuardWorker {
  import opened GuardHost
  import opened GuardProtocol
  import opened GuardConvergence
  import opened GuardFailure

  class CleanerProcess {
    const who: Who
    const brokerStarted: bool
    const mayConfirm: bool
    const good: Oracle        // how the command of each executed line ends
    var n: nat                // how many lines were executed
    var w: World
    var f: Flags
    var k: Walk
    ghost var shown: seq<Status>    // what was published so far

    /** The EXIT trap of the guard; what it knows depends on how far `prepare` got. */
    constructor AsGuard(w: World, brokerStarted: bool, mayConfirm: bool, good: Oracle)
      ensures who == Guard && this.w == w && this.good == good && n == 0 && shown == []
      ensures this.brokerStarted == brokerStarted && this.mayConfirm == mayConfirm
    {
      who, this.w, this.brokerStarted, this.mayConfirm, this.good, n := Guard, w, brokerStarted, mayConfirm, good, 0;
      f, k, shown := Flags(true, true, true, true, true), Walk({}, [], [], true), [];
    }

    constructor AsRecovery(w: World, good: Oracle)
      ensures who == Recovery && this.w == w && this.good == good && n == 0 && shown == []
      ensures brokerStarted && mayConfirm
    {
      who, this.w, brokerStarted, mayConfirm, this.good, n := Recovery, w, true, true, good, 0;
      f, k, shown := Flags(true, true, true, true, true), Walk({}, [], [], true), [];
    }

    /** Where this run ends when it goes on from line `at`. */
    ghost function Rest(at: Line): End
      reads this
    {
      var p := Point(w, Cleaner(at, f, brokerStarted, mayConfirm, k), n);
      var end := RunOn(who, p, good);
      End(end.w, shown + end.shown)
    }

    /** One line begins; whether its command will succeed. */
    method Execute() returns (ok: bool)
      modifies `n
      ensures ok == good(old(n)) && n == old(n) + 1
    {
      ok := good(n);
      n := n + 1;
    }

    method StopBrokerUnit()
      requires f.brokerOk
      modifies this
      ensures Rest(if f.brokerOk then RM_SOCKET else CHECK_ARMED) == old(Rest(STOP_BROKER))
    {
      var ok := Execute();
      if who == Guard && !brokerStarted { return; }
      if w.brokerActive {
        if ok { w := w.(brokerActive := false); } else { f := f.(brokerOk := false, ok := false); }
      }
    }

    method RemoveBrokerSocket()
      modifies this
      ensures Rest(WFD_EMPTY) == old(Rest(RM_SOCKET))
    {
      var ok := Execute();
      if w.loose.socket {
        if ok { w := w.(loose := w.loose.(socket := false)); } else { f := f.(ok := false); }
      }
    }

    /** The marker goes only after the elements were emptied, and a failure is blamed. */
    method ClearOwnedWfd()
      modifies this
      ensures Rest(DROP_ACTIVATION) == old(Rest(WFD_EMPTY))
      ensures w == old(w).(wfd := w.wfd) && (old(w.wfd.marker) && !w.wfd.marker ==> !w.wfd.dirty)
      ensures old(w.wfd.marker) && w.wfd.marker ==> !f.ok
    {
      if !w.wfd.marker {
        var _ := Execute();
      } else {
        var ok := EmptyWfdElements();
        if ok { UnlinkWfdMarker(); }
      }
    }

    method EmptyWfdElements() returns (ok: bool)
      requires w.wfd.marker
      modifies this
      ensures Rest(if ok then WFD_UNMARK else DROP_ACTIVATION) == old(Rest(WFD_EMPTY))
      ensures if ok then w == old(w).(wfd := Marked(false, true)) else w == old(w) && !f.ok
    {
      ok := Execute();
      if ok { w := w.(wfd := w.wfd.(dirty := false)); } else { f := f.(ok := false); }
    }

    method UnlinkWfdMarker()
      requires w.wfd.marker
      modifies this
      ensures Rest(DROP_ACTIVATION) == old(Rest(WFD_UNMARK))
      ensures if good(old(n)) then w == old(w).(wfd := Marked(old(w.wfd.dirty), false)) else w == old(w) && !f.ok
    {
      var ok := Execute();
      if ok { w := w.(wfd := w.wfd.(marker := false)); } else { f := f.(ok := false); }
    }

    method RecoverConnection()
      modifies this
      ensures Rest(CHECK_ARMED) == old(Rest(DROP_ACTIVATION))
    {
      var ok := Execute();
      if w.backend == Direct { return; }
      if ok { w := w.(activation := Untouched); } else { f := f.(ok := false); }
    }

    /** The loop over the listing; `fits` is false where the script returns 1. */
    method AppendListed() returns (fits: bool)
      modifies this
      ensures Rest(if fits then CHECK_RECORD else OPEN_RECORD) == old(Rest(APPEND_CLIENT))
    {
      while k.listed != []
        invariant Rest(APPEND_CLIENT) == old(Rest(APPEND_CLIENT))
        decreases |k.listed|
      {
        if k.listed[0] in k.seen {
          PassOver();
        } else {
          fits := AppendNext();
          if !fits { return; }
        }
      }
      var _ := Execute();
      return true;
    }

    method PassOver()
      requires k.listed != [] && k.listed[0] in k.seen
      modifies this
      ensures Rest(APPEND_CLIENT) == old(Rest(APPEND_CLIENT)) && k.listed == old(k.listed)[1..]
    {
      var _ := Execute();
      k := k.(seen := k.seen + {k.listed[0]}, listed := k.listed[1..]);
    }

    method AppendNext() returns (fits: bool)
      requires k.listed != [] && k.listed[0] !in k.seen
      modifies this
      ensures Rest(if fits then APPEND_CLIENT else OPEN_RECORD) == old(Rest(APPEND_CLIENT))
      ensures fits ==> k.listed == old(k.listed)[1..]
    {
      var x := k.listed[0];
      var ok := Execute();
      if |k.seen| >= MAX_P2P_INTERFACES || !ok { f := f.(ifOk := false); return false; }
      w := w.(p2p := w.p2p.(record := Appended(w.p2p.record, x, who)));
      k := k.(seen := k.seen + {x}, listed := k.listed[1..]);
      return true;
    }

    method ReadRecord() returns (fits: bool)
      modifies this
      ensures Rest(if fits then LIST_CLIENTS else OPEN_RECORD) == old(Rest(READ_RECORD))
    {
      var ok := Execute();
      var r := w.p2p.record;
      if !ok || !RecordValid(r) || |r.names| > MAX_P2P_INTERFACES {
        f := f.(ifOk := false);
        return false;
      }
      k := k.(seen := set x | x in r.names);
      return true;
    }

    method ListClients() returns (fits: bool)
      modifies this
      ensures Rest(if fits then APPEND_CLIENT else OPEN_RECORD) == old(Rest(LIST_CLIENTS))
    {
      var ok := Execute();
      if !ok { f := f.(ifOk := false); return false; }
      k := k.(listed := w.p2p.clients);
      return true;
    }

    method RecordSessionInterfaces()
      modifies this
      ensures Rest(OPEN_RECORD) == old(Rest(READ_RECORD))
    {
      var fits := ReadRecord();
      if !fits { return; }
      fits := ListClients();
      if !fits { return; }
      fits := AppendListed();
      if fits { CheckRecord(); }
    }

    method CheckRecord()
      modifies this
      ensures Rest(OPEN_RECORD) == old(Rest(CHECK_RECORD))
    {
      var ok := Execute();
      if !ok || !RecordValid(w.p2p.record) { f := f.(ifOk := false); }
    }

    method OpenRecord() returns (fits: bool)
      modifies this
      ensures Rest(if fits then REMOVE_CLIENT else RESUME_NM) == old(Rest(OPEN_RECORD))
    {
      var ok := Execute();
      if !ok || !RecordValid(w.p2p.record) { f := f.(ifOk := false); return false; }
      var names := w.p2p.record.names;
      var whole := |names| <= MAX_P2P_INTERFACES;
      k := k.(left := if whole then names else names[..MAX_P2P_INTERFACES], allRemoved := whole);
      return true;
    }

    method RemoveSessionInterfaces()
      modifies this
      ensures Rest(RESUME_NM) == old(Rest(OPEN_RECORD))
    {
      var fits := OpenRecord();
      if fits { RemoveLeft(); }
    }

    method RemoveLeft()
      modifies this
      ensures Rest(RESUME_NM) == old(Rest(REMOVE_CLIENT))
    {
      while k.left != []
        invariant Rest(REMOVE_CLIENT) == old(Rest(REMOVE_CLIENT))
        decreases |k.left|
      {
        RemoveNext();
      }
      var _ := Execute();
      if !k.allRemoved { f := f.(ifOk := false); }
    }

    method RemoveNext()
      requires k.left != []
      modifies this
      ensures Rest(REMOVE_CLIENT) == old(Rest(REMOVE_CLIENT)) && k.left == old(k.left)[1..]
    {
      var x := k.left[0];
      var ok := Execute();
      if ok { w := w.(p2p := w.p2p.(clients := Without(w.p2p.clients, x))); }
      else if x in w.p2p.clients { k := k.(allRemoved := false); }
      k := k.(left := k.left[1..]);
    }

    /** NetworkManager is resumed before its marker goes, and a failure is blamed. */
    method ResumeNetworkManager()
      modifies this
      ensures Rest(CLOSE_PORT) == old(Rest(RESUME_NM))
      ensures w == old(w).(nm := w.nm) && (old(w.nm.marker) && !w.nm.marker ==> !w.nm.dirty)
      ensures old(w.nm.marker) && w.nm.marker ==> !NmFlag(who, f)
    {
      if !w.nm.marker {
        var _ := Execute();
      } else {
        var ok := Resume();
        if ok { UnlinkResumeMarker(); }
      }
    }

    method Resume() returns (ok: bool)
      requires w.nm.marker
      modifies this
      ensures Rest(if ok then RM_RESUME else CLOSE_PORT) == old(Rest(RESUME_NM))
      ensures if ok then w == old(w).(nm := Marked(false, true)) else w == old(w) && !NmFlag(who, f)
    {
      ok := Execute();
      if ok { w := w.(nm := w.nm.(dirty := false)); } else { BlameResume(); }
    }

    method UnlinkResumeMarker()
      requires w.nm.marker
      modifies this
      ensures Rest(CLOSE_PORT) == old(Rest(RM_RESUME))
      ensures if good(old(n)) then w == old(w).(nm := Marked(old(w.nm.dirty), false))
              else w == old(w) && !NmFlag(who, f)
    {
      var ok := Execute();
      if ok { w := w.(nm := w.nm.(marker := false)); } else { BlameResume(); }
    }

    /** The guard keeps a flag of its own for this one. */
    method BlameResume()
      modifies `f
      ensures f == (if who == Guard then old(f).(nmOk := false) else old(f).(ok := false))
    {
      if who == Guard { f := f.(nmOk := false); } else { f := f.(ok := false); }
    }

    /** The port is closed before its marker goes, and a failure is blamed. */
    method CloseFirewalldPort()
      modifies this
      ensures Rest(RM_NETWORK_FILE) == old(Rest(CLOSE_PORT))
      ensures w == old(w).(port := w.port) && (old(w.port.marker) && !w.port.marker ==> !w.port.dirty)
      ensures old(w.port.marker) && w.port.marker ==> !f.ok
    {
      if !w.port.marker {
        var _ := Execute();
      } else {
        var ok := ClosePort();
        if ok { UnlinkPortMarker(); }
      }
    }

    method ClosePort() returns (ok: bool)
      requires w.port.marker
      modifies this
      ensures Rest(if ok then RM_PORT_MARKER else RM_NETWORK_FILE) == old(Rest(CLOSE_PORT))
      ensures if ok then w == old(w).(port := Marked(false, true)) else w == old(w) && !f.ok
    {
      ok := Execute();
      if ok { w := w.(port := w.port.(dirty := false)); } else { f := f.(ok := false); }
    }

    method UnlinkPortMarker()
      requires w.port.marker
      modifies this
      ensures Rest(RM_NETWORK_FILE) == old(Rest(RM_PORT_MARKER))
      ensures if good(old(n)) then w == old(w).(port := Marked(old(w.port.dirty), false)) else w == old(w) && !f.ok
    {
      var ok := Execute();
      if ok { w := w.(port := w.port.(marker := false)); } else { f := f.(ok := false); }
    }

    method RemoveNetworkFile()
      modifies this
      ensures Rest(RM_TRIGGER) == old(Rest(RM_NETWORK_FILE))
    {
      var ok := Execute();
      if w.networkFile {
        if ok { w := w.(networkFile := false); } else { f := f.(ok := false); }
      }
    }

    method RemoveTrigger()
      modifies this
      ensures Rest(RM_HEARTBEAT) == old(Rest(RM_TRIGGER))
    {
      var ok := Execute();
      if w.loose.trigger {
        if ok { w := w.(loose := w.loose.(trigger := false)); } else { f := f.(ok := false); }
      }
    }

    method RemoveHeartbeat()
      modifies this
      ensures Rest(RM_STOP) == old(Rest(RM_HEARTBEAT))
    {
      var ok := Execute();
      if w.loose.heartbeat {
        if ok { w := w.(loose := w.loose.(heartbeat := false)); } else { f := f.(ok := false); }
      }
    }

    method RemoveStop()
      modifies this
      ensures Rest(RESTORE_NETWORKD) == old(Rest(RM_STOP))
    {
      var ok := Execute();
      if w.loose.stop {
        if ok { w := w.(loose := w.loose.(stop := false)); } else { f := f.(ok := false); }
      }
    }

    method RestoreNetworkdState()
      modifies this
      ensures Rest(RM_PENDING) == old(Rest(RESTORE_NETWORKD))
    {
      var ok := Execute();
      if w.networkd.units {
        if ok { w := w.(networkd := w.networkd.(touched := false)); }
        else { f := f.(ok := false, netdOk := false); }
      }
    }

    method RemovePending()
      modifies this
      ensures Rest(if f.netdOk then RM_UNITS else RM_ARMED) == old(Rest(RM_PENDING))
    {
      if w.networkd.pending { UnlinkPending(); } else { var _ := Execute(); }
    }

    method UnlinkPending()
      requires w.networkd.pending
      modifies this
      ensures Rest(if f.netdOk then RM_UNITS else RM_ARMED) == old(Rest(RM_PENDING))
    {
      var ok := Execute();
      if ok { w := w.(networkd := w.networkd.(pending := false)); } else { f := f.(ok := false); }
    }

    method RemoveUnits()
      modifies this
      ensures Rest(RM_ROOT_MARKER) == old(Rest(RM_UNITS))
    {
      var ok := Execute();
      if w.networkd.units {
        if ok { w := w.(networkd := w.networkd.(units := false)); } else { f := f.(ok := false); }
      }
    }

    method RemoveRootMarker()
      modifies this
      ensures Rest(RM_ARMED) == old(Rest(RM_ROOT_MARKER))
    {
      var ok := Execute();
      if w.networkd.rootMarker {
        if ok { w := w.(networkd := w.networkd.(rootMarker := false)); } else { f := f.(ok := false); }
      }
    }

    /** The two P2P files stay unless the walk succeeded. */
    method RemoveArmedAndRecord()
      modifies this
      ensures Rest(RM_READY) == old(Rest(RM_ARMED))
      ensures w == old(w).(p2p := w.p2p) && (old(!DropsRecord(who, w, f)) ==> w == old(w))
    {
      if DropsRecord(who, w, f) {
        RemoveArmed();
        RemoveRecord();
      } else {
        KeepRecord();
      }
    }

    method KeepRecord()
      requires !DropsRecord(who, w, f)
      modifies `n, `f
      ensures Rest(RM_READY) == old(Rest(RM_ARMED))
    {
      var _ := Execute();
      if who == Recovery { f := f.(ok := false); }
    }

    method RemoveArmed()
      requires DropsRecord(who, w, f)
      modifies this
      ensures w == old(w).(p2p := w.p2p) && Rest(RM_RECORD) == old(Rest(RM_ARMED))
    {
      if w.p2p.armed { UnlinkArmed(); } else { var _ := Execute(); }
    }

    method UnlinkArmed()
      requires DropsRecord(who, w, f) && w.p2p.armed
      modifies this
      ensures w == old(w).(p2p := w.p2p) && Rest(RM_RECORD) == old(Rest(RM_ARMED))
    {
      var ok := Execute();
      if ok { w := w.(p2p := w.p2p.(armed := false)); } else { f := f.(ok := false); }
    }

    method RemoveRecord()
      modifies this
      ensures Rest(RM_READY) == old(Rest(RM_RECORD)) && w == old(w).(p2p := w.p2p)
    {
      var ok := Execute();
      if w.p2p.record.Lines? {
        if ok { w := w.(p2p := w.p2p.(record := Missing)); } else { f := f.(ok := false); }
      }
    }

    method RemoveReady()
      modifies this
      ensures Rest(RM_TOKEN) == old(Rest(RM_READY))
    {
      var ok := Execute();
      if AllOk(who, f) && w.ready {
        if ok { w := w.(ready := false); } else { f := f.(ok := false); }
      }
    }

    /** Only a cleanup without a failure gives up its token. */
    method RemoveToken()
      modifies this
      ensures Rest(PUBLISH) == old(Rest(RM_TOKEN))
      ensures w == old(w).(token := w.token)
      ensures old(w.token) && !w.token <==> old(w.token && AllOk(who, f) && good(n))
    {
      var ok := Execute();
      if AllOk(who, f) && w.token {
        if ok { w := w.(token := false); } else { f := f.(ok := false); }
      }
    }

    /** Nothing but the status changes any more. */
    method PublishAndFinalize()
      modifies this
      ensures End(w, shown) == old(Rest(PUBLISH)) && w == old(w).(status := w.status)
      ensures w.status == Cleaned && old(w.status) != Cleaned ==> old(mayConfirm && AllOk(who, f))
    {
      var published := Publish();
      if published { FinalizeStatus(); }
    }

    method Publish() returns (published: bool)
      modifies this
      ensures Rest(if published then FINALIZE else EXITED) == old(Rest(PUBLISH))
      ensures w == old(w).(status := w.status)
      ensures w.status == if !published then old(w.status)
                          else if mayConfirm && AllOk(who, old(f)) then Cleaned else Failed
    {
      ghost var p := Point(w, Cleaner(PUBLISH, f, brokerStarted, mayConfirm, k), n);
      PublishLine(who, p, good);
      published := Execute();
      if published {
        w := w.(status := if mayConfirm && AllOk(who, f) then Cleaned else Failed);
        shown := shown + [w.status];
        LastLines(who, Point(w, p.c.(at := FINALIZE), n), good);
      }
    }

    method FinalizeStatus()
      modifies this
      ensures Rest(EXITED) == old(Rest(FINALIZE))
      ensures w == old(w).(status := w.status) && w.status in {NoStatus, old(w.status)}
    {
      var ok := Execute();
      if ok { w := w.(status := NoStatus); }
    }

    method StopAndUndoBroker()
      requires f.brokerOk
      modifies this
      ensures Rest(CHECK_ARMED) == old(Rest(STOP_BROKER))
    {
      StopBrokerUnit();
      if f.brokerOk {
        RemoveBrokerSocket();
        ClearOwnedWfd();
        RecoverConnection();
      }
    }

    method RemoveClients()
      modifies this
      ensures Rest(RESUME_NM) == old(Rest(CHECK_ARMED))
    {
      var _ := Execute();
      if w.backend == Direct && w.p2p.armed {
        assert Rest(READ_RECORD) == old(Rest(CHECK_ARMED));
        RecordSessionInterfaces();
        RemoveSessionInterfaces();
      }
    }

    method RemoveFiles()
      modifies this
      ensures Rest(RESTORE_NETWORKD) == old(Rest(RM_NETWORK_FILE))
    {
      RemoveNetworkFile();
      RemoveTrigger();
      RemoveHeartbeat();
      RemoveStop();
    }

    method RestoreNetworkd()
      modifies this
      ensures Rest(RM_ARMED) == old(Rest(RESTORE_NETWORKD))
    {
      RestoreNetworkdState();
      RemovePending();
      if f.netdOk {
        RemoveUnits();
        RemoveRootMarker();
      }
    }

    method CleanUp()
      requires f == Flags(true, true, true, true, true)
      modifies this
      ensures End(w, shown) == old(Rest(STOP_BROKER))
    {
      StopAndUndoBroker();
      RemoveClients();
      ResumeNetworkManager();
      CloseFirewalldPort();
      RemoveFiles();
      RestoreNetworkd();
      RemoveArmedAndRecord();
      RemoveReady();
      RemoveToken();
      PublishAndFinalize();
    }

    /** The guard's cleanup and the rest of its trap.  Without the token nothing is touched but the status.  With it the
        guard restores everything when nothing fails and the interface walk fits, and keeps the token whatever happens
        when the walk does not fit; a cleanup that gives up the token leaves the broker running exactly when the guard
        did not know of it.  It publishes at most once: `cleaned` if it may confirm and the token is gone. */
    method GuardExit()
      requires who == Guard
      modifies this
      ensures w == old(Finish(Guard, TrapStart(w, brokerStarted, mayConfirm, n), good))
      ensures !old(w.token) ==> w == old(w).(status := w.status)
      ensures old(Evidence(w) && w.token && CanConverge(w)) && NothingFails(good) ==>
                w == old(LeftBy(Guard, w, brokerStarted))
      ensures old(Evidence(w) && w.token && !CanConverge(w)) ==> w.token
      ensures old(w.token) && !w.token ==> (w.brokerActive <==> old(w.brokerActive) && !brokerStarted)
      ensures shown == old(shown) || shown == old(shown) + [if mayConfirm && !w.token then Cleaned else Failed]
      ensures NothingFails(good) ==> shown != old(shown)
    {
      f, k := Flags(true, true, true, true, true), Walk({}, [], [], true);
      ghost var start := TrapStart(w, brokerStarted, mayConfirm, n);
      if w.token { TrapWithToken(start, good); } else { TrapWithoutToken(start, good); }
      OwnCheck(start, good);
      var _ := Execute();
      if w.token { CleanUp(); } else { PublishAndFinalize(); }
    }

    /** The whole worker once it has entered recovery: it restores everything when nothing fails and the interface
        walk fits, and keeps the token whatever happens when the walk does not fit. */
    method RecoverSession()
      requires who == Recovery && brokerStarted && mayConfirm
      modifies this
      ensures w == old(Recovered(w, good, n))
      ensures old(Evidence(w) && w.token && CanConverge(w)) && NothingFails(good) ==> w == CleanWorld(old(w))
      ensures old(Evidence(w) && w.token && !CanConverge(w)) ==> w.token
      ensures old(Wedged(w)) ==> Wedged(w)
      ensures old(w.token) && !w.token ==> !w.brokerActive
      ensures old(w.token) ==> shown == old(shown) || shown == old(shown) + [if w.token then Failed else Cleaned]
      ensures old(w.token) && NothingFails(good) ==> shown != old(shown)
    {
      f, k := Flags(true, true, true, true, true), Walk({}, [], [], true);
      ghost var start := RecoveryStart(w, n);
      if Evidence(w) && w.token { RecoveryConverges(w, good, n); }
      if Wedged(w) { WedgedForEver(w, good, n); }
      if w.token { PublishedExactly(Recovery, start, good); }
      if w.token && !Recovered(w, good, n).token { BrokerLeftExactly(Recovery, start, good); }
      CleanUp();
    }
  }

  /** The first line of the trap goes on with the cleanup or straight to the status. */
  lemma OwnCheck(start: Point, good: Oracle)
    requires start == TrapStart(start.w, start.c.brokerStarted, start.c.mayConfirm, start.n)
    ensures var p := Point(start.w, start.c.(at := if start.w.token then STOP_BROKER else PUBLISH), start.n + 1);
      && Finish(Guard, p, good) == Finish(Guard, start, good) && Shown(Guard, p, good) == Shown(Guard, start, good)
  {
    var p := Onward(Guard, start, good);
    assert p.w == start.w;
    assert p.c == start.c.(at := if start.w.token then STOP_BROKER else PUBLISH);
  }

  lemma TrapWithToken(start: Point, good: Oracle)
    requires start == TrapStart(start.w, start.c.brokerStarted, start.c.mayConfirm, start.n) && start.w.token
    ensures var (c, t) := (start.c, Finish(Guard, start, good));
      && (Evidence(start.w) && CanConverge(start.w) && NothingFails(good) ==>
            t == LeftBy(Guard, start.w, c.brokerStarted))
      && (Evidence(start.w) && !CanConverge(start.w) ==> t.token)
      && (!t.token ==> (t.brokerActive <==> start.w.brokerActive && !c.brokerStarted))
      && var last := if c.mayConfirm && !t.token then Cleaned else Failed;
         && (Shown(Guard, start, good) == [] || Shown(Guard, start, good) == [last])
         && (NothingFails(good) ==> Shown(Guard, start, good) == [last])
  {
    var c := start.c;
    PublishedExactly(Guard, start, good);
    if Evidence(start.w) { GuardConverges(start.w, c.brokerStarted, c.mayConfirm, good, start.n); }
    if !Finish(Guard, start, good).token {
      GuardLeavesBrokerExactly(start.w, c.brokerStarted, c.mayConfirm, good, start.n);
    }
  }

  lemma TrapWithoutToken(start: Point, good: Oracle)
    requires start == TrapStart(start.w, start.c.brokerStarted, start.c.mayConfirm, start.n) && !start.w.token
    ensures !Finish(Guard, start, good).token
    ensures Shown(Guard, start, good) ==
            if good(start.n + 1) then [if start.c.mayConfirm then Cleaned else Failed] else []
  {
    var p := Onward(Guard, start, good);
    assert p.c.at == PUBLISH && AllOk(Guard, p.c.f);
    PublishLine(Guard, p, good);
  }
}
