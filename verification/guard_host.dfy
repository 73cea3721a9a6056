/**
 The host as the privileged guard and the recovery worker see it, and the cleanup lines the two
 scripts share.  `Exec` runs one shell line of a cleaner; its boolean is the exit status of the
 external command on that line, where the line has one.
 */
module GuardHost {

  datatype Backend = Direct | NetworkManager

  datatype Status = NoStatus | Ready | Active | Cleaned | Failed

  /** Something the session did to the host, and the root-owned file that is the evidence of it. */
  datatype Marked = Marked(dirty: bool, marker: bool)

  /** networkd started or reloaded and not yet restored; the saved unit states; the other two files. */
  datatype Networkd = Networkd(touched: bool, units: bool, pending: bool, rootMarker: bool)

  /** `p2p-interfaces`: one client name a line; the file the guard makes is private (mode 600). */
  datatype Record = Missing | Lines(names: seq<nat>, private: bool)

  /** The P2P client devices in `iw dev` order, `p2p-armed` and `p2p-interfaces`. */
  datatype P2p = P2p(clients: seq<nat>, armed: bool, record: Record)

  /** Files with no host state behind them: three markers of the user and the broker's socket. */
  datatype Loose = Loose(trigger: bool, heartbeat: bool, stop: bool, socket: bool)

  const MAX_P2P_INTERFACES := 64

  datatype World = World(
    backend: Backend,
    nm: Marked,           // NetworkManager paused / network-manager-resume-required
    port: Marked,         // firewalld port open  / firewalld-port-opened
    wfd: Marked,          // WFD elements set     / supplicant-wfd-owned
    activation: Marked,   // NetworkManager activation / networkmanager-active
    networkd: Networkd,
    p2p: P2p,
    networkFile: bool,
    brokerActive: bool,
    loose: Loose,
    ready: bool,          // recovery-ready
    token: bool,
    status: Status)

  datatype Who = Guard | Recovery

  /** The lines of `cleanup` and `recover_session`, numbered in script order. */
  type Line = nat

  const OWN_CHECK: Line := 0
  const STOP_BROKER: Line := 1
  const RM_SOCKET: Line := 2
  const WFD_EMPTY: Line := 3
  const WFD_UNMARK: Line := 4
  const DROP_ACTIVATION: Line := 5
  const CHECK_ARMED: Line := 6
  const READ_RECORD: Line := 7
  const LIST_CLIENTS: Line := 8
  const APPEND_CLIENT: Line := 9
  const CHECK_RECORD: Line := 10
  const OPEN_RECORD: Line := 11
  const REMOVE_CLIENT: Line := 12
  const RESUME_NM: Line := 13
  const RM_RESUME: Line := 14
  const CLOSE_PORT: Line := 15
  const RM_PORT_MARKER: Line := 16
  const RM_NETWORK_FILE: Line := 17
  const RM_TRIGGER: Line := 18
  const RM_HEARTBEAT: Line := 19
  const RM_STOP: Line := 20
  const RESTORE_NETWORKD: Line := 21
  const RM_PENDING: Line := 22
  const RM_UNITS: Line := 23
  const RM_ROOT_MARKER: Line := 24
  const RM_ARMED: Line := 25
  const RM_RECORD: Line := 26
  const RM_READY: Line := 27
  const RM_TOKEN: Line := 28
  const PUBLISH: Line := 29
  const FINALIZE: Line := 30
  const EXITED: Line := 31

  /** The variables of record_session_interfaces and remove_session_interfaces. */
  datatype Walk = Walk(seen: set<nat>, listed: seq<nat>, left: seq<nat>, allRemoved: bool)

  /** cleanup_ok or recovery_cleanup_ok, then the other flags of the two scripts. */
  datatype Flags = Flags(ok: bool, nmOk: bool, ifOk: bool, netdOk: bool, brokerOk: bool)

  datatype Cleaner = Cleaner(at: Line, f: Flags, brokerStarted: bool, mayConfirm: bool, walk: Walk)

  function Fresh(at: Line, brokerStarted: bool, mayConfirm: bool): Cleaner {
    Cleaner(at, Flags(true, true, true, true, true), brokerStarted, mayConfirm, Walk({}, [], [], true))
  }

  predicate AllOk(who: Who, f: Flags) { f.ok && (who == Guard ==> f.ifOk && f.nmOk) }

  /** The flag that a failed resume of NetworkManager clears. */
  predicate NmFlag(who: Who, f: Flags) { if who == Guard then f.nmOk else f.ok }

  // ----- What the lines do to each resource -----

  /** First the host is undone, then the evidence goes; neither happens when the command fails. */
  function MarkedLine(m: Marked, undoes: bool, unmarks: bool, good: bool): Marked {
    if undoes && m.marker && good then m.(dirty := false)
    else if unmarks && good then m.(marker := false)
    else m
  }

  function NetworkdLine(n: Networkd, at: Line, good: bool): Networkd {
    if !good then n
    else if at == RESTORE_NETWORKD && n.units then n.(touched := false)
    else if at == RM_PENDING then n.(pending := false)
    else if at == RM_UNITS then n.(units := false)
    else if at == RM_ROOT_MARKER then n.(rootMarker := false)
    else n
  }

  function LooseLine(l: Loose, at: Line, good: bool): Loose {
    if !good then l
    else if at == RM_SOCKET then l.(socket := false)
    else if at == RM_TRIGGER then l.(trigger := false)
    else if at == RM_HEARTBEAT then l.(heartbeat := false)
    else if at == RM_STOP then l.(stop := false)
    else l
  }

  function Without(s: seq<nat>, x: nat): (r: seq<nat>)
    ensures forall y :: y in r <==> y in s && y != x
  {
    if s == [] then []
    else if s[0] == x then Without(s[1..], x)
    else [s[0]] + Without(s[1..], x)
  }

  predicate RecordValid(r: Record) { r.Lines? && r.private }

  /** Appending to a file the other cleaner unlinked makes a new one; only the guard's umask makes it private. */
  function Appended(r: Record, x: nat, who: Who): Record {
    if r.Lines? then r.(names := r.names + [x]) else Lines([x], who == Guard)
  }

  /** RM_ARMED and RM_RECORD run only when the walk succeeded; the recovery worker asks for more. */
  predicate DropsRecord(who: Who, w: World, f: Flags) {
    f.ifOk && (who == Guard || w.backend == Direct || !w.activation.marker)
  }

  /** The next listed client is not in the record yet and there is room for it. */
  predicate Appends(k: Walk) { k.listed != [] && k.listed[0] !in k.seen && |k.seen| < MAX_P2P_INTERFACES }

  function P2pLine(who: Who, w: World, c: Cleaner, good: bool): P2p {
    var p, k := w.p2p, c.walk;
    if !good then p
    else if c.at == APPEND_CLIENT && Appends(k) then p.(record := Appended(p.record, k.listed[0], who))
    else if c.at == REMOVE_CLIENT && k.left != [] then p.(clients := Without(p.clients, k.left[0]))
    else if c.at == RM_ARMED && DropsRecord(who, w, c.f) then p.(armed := false)
    else if c.at == RM_RECORD then p.(record := Missing)
    else p
  }

  /** A listing cut after 65 names, as `awk` cuts it, runs out of room exactly where the whole one does. */
  function WalkLine(p: P2p, c: Cleaner, good: bool, fails: bool): Walk {
    var k := c.walk;
    if fails then k
    else if c.at == READ_RECORD && p.record.Lines? then k.(seen := set x | x in p.record.names)
    else if c.at == LIST_CLIENTS then k.(listed := p.clients)
    else if c.at == APPEND_CLIENT && k.listed != [] then
      k.(seen := k.seen + {k.listed[0]}, listed := k.listed[1..])
    else if c.at == OPEN_RECORD && p.record.Lines? then
      var n := p.record.names;
      var whole := |n| <= MAX_P2P_INTERFACES;
      k.(left := if whole then n else n[..MAX_P2P_INTERFACES], allRemoved := whole)
    else if c.at == REMOVE_CLIENT && k.left != [] then
      k.(left := k.left[1..], allRemoved := k.allRemoved && (good || k.left[0] !in p.clients))
    else k
  }

  // ----- Control -----

  /** The line reports failure to its `||`, `if` or flag.  `rm -f` of an absent file never does. */
  predicate LineFails(who: Who, w: World, c: Cleaner, good: bool) {
    var at, k := c.at, c.walk;
    if at == OWN_CHECK then !w.token
    else if at == STOP_BROKER then w.brokerActive && !good && (who == Recovery || c.brokerStarted)
    else if at == RM_SOCKET then w.loose.socket && !good
    else if at == WFD_EMPTY || at == WFD_UNMARK then w.wfd.marker && !good
    else if at == DROP_ACTIVATION then w.backend == NetworkManager && !good
    else if at == CHECK_ARMED then !(w.backend == Direct && w.p2p.armed)
    else if at == READ_RECORD then
      !(good && RecordValid(w.p2p.record) && |w.p2p.record.names| <= MAX_P2P_INTERFACES)
    else if at == LIST_CLIENTS then !good
    else if at == APPEND_CLIENT then k.listed != [] && k.listed[0] !in k.seen && !(Appends(k) && good)
    else if at == CHECK_RECORD || at == OPEN_RECORD then !(good && RecordValid(w.p2p.record))
    else if at == REMOVE_CLIENT then k.left == [] && !k.allRemoved
    else if at == RESUME_NM || at == RM_RESUME then w.nm.marker && !good
    else if at == CLOSE_PORT || at == RM_PORT_MARKER then w.port.marker && !good
    else if at == RM_NETWORK_FILE then w.networkFile && !good
    else if at == RM_TRIGGER then w.loose.trigger && !good
    else if at == RM_HEARTBEAT then w.loose.heartbeat && !good
    else if at == RM_STOP then w.loose.stop && !good
    else if at == RESTORE_NETWORKD || at == RM_UNITS then w.networkd.units && !good
    else if at == RM_PENDING then w.networkd.pending && !good
    else if at == RM_ROOT_MARKER then w.networkd.rootMarker && !good
    else if at == RM_ARMED then (if DropsRecord(who, w, c.f) then w.p2p.armed && !good else who == Recovery)
    else if at == RM_RECORD then w.p2p.record.Lines? && !good
    else if at == RM_READY then AllOk(who, c.f) && w.ready && !good
    else if at == RM_TOKEN then AllOk(who, c.f) && w.token && !good
    else at == PUBLISH && !good
  }

  /** The flags after a line that failed. */
  function Blame(who: Who, at: Line, f: Flags): Flags {
    if at == STOP_BROKER then f.(brokerOk := false, ok := false)
    else if READ_RECORD <= at <= REMOVE_CLIENT then f.(ifOk := false)
    else if (at == RESUME_NM || at == RM_RESUME) && who == Guard then f.(nmOk := false)
    else if at == RESTORE_NETWORKD then f.(netdOk := false, ok := false)
    else if at == OWN_CHECK || at == CHECK_ARMED || at == PUBLISH then f
    else f.(ok := false)
  }

  /** Mostly the next line; a failed check, a missing marker and the two loops go elsewhere. */
  function Next(who: Who, w: World, c: Cleaner, fails: bool): Line {
    var at := c.at;
    if at == OWN_CHECK && fails then (if who == Guard then PUBLISH else EXITED)
    else if at == STOP_BROKER && fails then CHECK_ARMED
    else if at == WFD_EMPTY && (fails || !w.wfd.marker) then DROP_ACTIVATION
    else if at == CHECK_ARMED && fails then RESUME_NM
    else if READ_RECORD <= at < OPEN_RECORD && fails then OPEN_RECORD
    else if at == APPEND_CLIENT && c.walk.listed != [] then APPEND_CLIENT
    else if at == OPEN_RECORD && fails then RESUME_NM
    else if at == REMOVE_CLIENT && c.walk.left != [] then REMOVE_CLIENT
    else if at == RESUME_NM && (fails || !w.nm.marker) then CLOSE_PORT
    else if at == CLOSE_PORT && (fails || !w.port.marker) then RM_NETWORK_FILE
    else if at == RM_PENDING && !c.f.netdOk then RM_ARMED
    else if at == RM_ARMED && !DropsRecord(who, w, c.f) then RM_READY
    else if at == PUBLISH && fails then EXITED
    else if at < EXITED then at + 1
    else EXITED
  }

  function StatusLine(who: Who, w: World, c: Cleaner, good: bool): Status {
    if c.at == PUBLISH && good then (if c.mayConfirm && AllOk(who, c.f) then Cleaned else Failed)
    else if c.at == FINALIZE && good then NoStatus
    else w.status
  }

  function ExecWorld(who: Who, w: World, c: Cleaner, good: bool): World {
    var at := c.at;
    World(w.backend,
          MarkedLine(w.nm, at == RESUME_NM, at == RM_RESUME, good),
          MarkedLine(w.port, at == CLOSE_PORT, at == RM_PORT_MARKER, good),
          MarkedLine(w.wfd, at == WFD_EMPTY, at == WFD_UNMARK, good),
          if at == DROP_ACTIVATION && w.backend == NetworkManager && good then Marked(false, false)
          else w.activation,
          NetworkdLine(w.networkd, at, good),
          P2pLine(who, w, c, good),
          w.networkFile && !(at == RM_NETWORK_FILE && good),
          w.brokerActive && !(at == STOP_BROKER && good && (who == Recovery || c.brokerStarted)),
          LooseLine(w.loose, at, good),
          w.ready && !(at == RM_READY && AllOk(who, c.f) && good),
          w.token && !(at == RM_TOKEN && AllOk(who, c.f) && good),
          StatusLine(who, w, c, good))
  }

  function ExecCleaner(who: Who, w: World, c: Cleaner, good: bool): Cleaner {
    var fails := LineFails(who, w, c, good);
    Cleaner(Next(who, w, c, fails), if fails then Blame(who, c.at, c.f) else c.f,
            c.brokerStarted, c.mayConfirm, WalkLine(w.p2p, c, good, fails))
  }

}
