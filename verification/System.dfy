/**
  Host, device and link as one transition system.

  The device runs the control loop of `DeviceControl`; its endpoints hold the USB packets on
  the link.  The host runs, for its newest connection, a send task, a receive task and the
  status poll, and closes connections through the half-close handle.  Every control request is
  one step: the device serves it between two polls of its own sub-tasks.  Applications on both
  sides send, receive and drop their ends at any time, on any connection there ever was.
 */
module System {
  import opened Prelude
  import opened Framing
  import opened Tlv
  import opened Capabilities
  import opened DeviceControl
  import opened Pipeline
  import opened HalfClose

  const QUEUE_LEN: nat := 32

  /** Host to device, device to host. */
  datatype Dir = Outward | Inward

  /** A host task: in its loop, waiting for submitted transfers, waiting for or holding the
      half-close lock, gone.  `notify` is `host_initiated`. */
  datatype HostTask = Absent | Live | Draining(notify: bool) | Ended(notify: bool) | Done

  datatype Phase = Idle | Claimed | Reset | Flushed | Queried | Announced | Running

  datatype Host = Host(
    phase: Phase,
    conn: nat,               // the connection the tasks serve
    answer: Option<nat>,     // the maximum in the device's answer, if there was one
    sendMax: nat,            // the limit that follows from it
    recvMax: nat,            // the host's own limit
    told: bool,              // the announcement of it was served, and the device still holds it
    outTask: HostTask,
    inTask: HostTask,
    wire: seq<Bytes>,        // USB packets of the submitted OUT transfers still to be sent
    failed: bool,            // an OUT transfer has failed; nothing is sent after it
    clean: bool,             // the send task has neither failed nor been told to stop
    total: nat,              // total_bytes_sent
    filling: Bytes,          // bytes of the IN transfer in progress
    recvClosed: bool,        // DeviceStatus.recv_closed
    dead: bool,              // DeviceStatus.dead
    statusLive: bool,        // the status task exists
    sendMarked: bool,        // HalfCloseHandle.send_closed
    recvMarked: bool,        // HalfCloseHandle.recv_closed
    lock: Option<Dir>,       // who holds the half-close lock
    log: seq<Request>)       // control requests the handle has attempted

  /** What a connection was opened with: the exchange as it went, and the limits that follow. */
  datatype Terms = Terms(hostUsize: nat, devUsize: nat, answer: Option<nat>, told: bool, devMax: nat,
                         sendMax: nat, recvMax: nat, devLimits: Limits)

  /** The device's maximum as the host sees it: what the device answered, or the default. */
  function Believed(answer: Option<nat>): nat {
    if answer.Some? then answer.value else DEFAULT_DEVICE_CAPS.maxSize
  }

  /** The limits are those of the exchange. */
  predicate TermsOk(x: Terms) {
    && x.sendMax == ToUsize(Believed(x.answer), x.hostUsize)
    && x.devLimits.recvMax == ToUsize(x.devMax, x.devUsize)
    && x.devLimits.sendMax == DeviceSendLimit(if x.told then HostCaps(x.recvMax) else DEFAULT_HOST_CAPS, x.devUsize)
  }

  /** A connection: both directions, and what is known about their ends.  `drained` is set when
      the device's receive task reports that the count was reached, to the number of bytes then
      still in flight; `flushed` when the device's send task ended without error; `stalled` when
      the host's receive task ended because of a halt. */
  datatype Conn = Conn(out: Lane, inn: Lane, terms: Terms, drained: Option<nat>, flushed: bool, stalled: bool)

  /** `up`: the device's loop still turns. */
  datatype State = State(mps: nat, t: nat, hostUsize: nat, up: bool, conns: seq<Conn>, dev: Control, received: nat, host: Host)
  {
    /** The newest connection. */
    function Cur(): Conn
      requires conns != []
    {
      conns[|conns| - 1]
    }

    /** The host's tasks serve a connection. */
    predicate Attached() { host.phase == Running && host.conn < |conns| }

    function HostConn(): Conn
      requires Attached()
    {
      conns[host.conn]
    }

    /** The device's send task serves a connection, and its receive task does. */
    predicate Sends() { up && dev.outTask.Task? && dev.outTask.conn < |conns| }

    predicate Receives() { up && dev.inTask.Task? && dev.inTask.conn < |conns| }

    function TxConn(): Conn
      requires Sends()
    {
      conns[dev.outTask.conn]
    }

    function RxConn(): Conn
      requires Receives()
    {
      conns[dev.inTask.conn]
    }

    predicate Sizable() { Sizes(mps, t) }
  }

  const IDLE_HOST := Host(Idle, 0, None, 0, 0, false, Absent, Absent, [], false, false, 0, [], false, false, false, false, false, None, [])

  function Start(mps: nat, hostUsize: nat, usize: nat): State {
    State(mps, mps * TRANSFER_PACKETS, hostUsize, true, [], Initial(usize), 0, IDLE_HOST)
  }

  datatype Action =
    // applications
    | Send(c: nat, dir: Dir, m: Bytes)
    | DropSender(c: nat, dir: Dir)
    | Receive(c: nat, dir: Dir)
    | DropReceiver(c: nat, dir: Dir)
    // host
    | HostTake
    | HostTransmit
    | HostFail
    | HostOutStop(eof: bool)
    | HostDrained
    | HostArrive
    | HostAbsorb
    | HostInStop(why: InStop)
    | HostMark(dir: Dir, served: bool)
    | HostClose(reset: Reset, served: bool)
    | HostStatus(now: nat, served: bool)
    | HostStatusEnd
    | HostCrash
    | ConnectClaim
    | ConnectClose(reset: Reset, served: bool)
    | ConnectFlush
    | ConnectQuery(cfgPing: Option<nat>, cfgMax: nat, served: bool, acked: bool)
    | ConnectAnnounce(recvMax: nat, served: bool)
    | ConnectOpen(topic: Bytes, cfgMax: nat, now: nat, served: bool, acked: bool)
    | ConnectAbort
    // device
    | DevTake
    | DevTransmit
    | DevOutEnd(fine: bool, keep: nat)
    | DevArrive
    | DevInEnd(res: InResult)
    | DevOther(e: Event)
    | DevStop
    | DevHang(mps: nat)

  datatype InStop = Halted | DeviceDead | NoReceiver | Failure

  // ------------------------------------------------------------------ helpers

  function LaneOf(k: Conn, dir: Dir): Lane {
    if dir.Outward? then k.out else k.inn
  }

  function WithLane(k: Conn, dir: Dir, l: Lane): Conn {
    if dir.Outward? then k.(out := l) else k.(inn := l)
  }

  function Put(s: State, c: nat, k: Conn): State
    requires c < |s.conns|
  {
    s.(conns := s.conns[c := k])
  }

  function With(conns: seq<Conn>, i: nat, k: Conn): seq<Conn>
    requires i < |conns|
  {
    conns[i := k]
  }

  /** The device's turn succeeds and leaves it in the loop. */
  predicate Turns(s: State, e: Event) {
    s.up && Enabled(s.dev, e) && Step(s.dev, e, true).Next?
  }

  /** The receiving end of the channel of a sending task still exists. */
  predicate TaskListens(s: State, c: nat, dir: Dir) {
    match dir
    case Outward => s.Attached() && c == s.host.conn && !s.host.outTask.Done? && !s.host.outTask.Absent?
    case Inward => s.Sends() && c == s.dev.outTask.conn
  }

  function SendLimit(k: Conn, dir: Dir): nat {
    if dir.Outward? then k.terms.sendMax else k.terms.devLimits.sendMax
  }

  function RecvLimit(k: Conn, dir: Dir): nat {
    if dir.Outward? then k.terms.devLimits.recvMax else k.terms.recvMax
  }

  function CloseSendPayload(total: nat): Bytes {
    LittleEndian(total, 8)
  }

  /** A size used as a divisor; the sizes of a state are positive. */
  function Positive(n: nat): (p: nat)
    ensures p > 0 && (n > 0 ==> p == n)
  {
    if n == 0 then 1 else n
  }

  /** Dropping the receive task drops its end of the channel to the application. */
  function Hangup(s: State, d: Control): State {
    if s.dev.inTask.Task? && s.dev.inTask.conn < |s.conns| then
      var k := s.conns[s.dev.inTask.conn];
      s.(conns := With(s.conns, s.dev.inTask.conn, k.(out := k.out.(closed := true))), dev := d)
    else s.(dev := d)
  }

  // ------------------------------------------------------------ applications

  predicate CanSend(s: State, c: nat, dir: Dir, m: Bytes) {
    && c < |s.conns| && TaskListens(s, c, dir) && !LaneOf(s.conns[c], dir).senderGone
    && |LaneOf(s.conns[c], dir).queue| < QUEUE_LEN && |m| <= SendLimit(s.conns[c], dir)
  }

  function DoSend(s: State, c: nat, dir: Dir, m: Bytes): State
    requires CanSend(s, c, dir, m)
  {
    var l := LaneOf(s.conns[c], dir);
    Put(s, c, WithLane(s.conns[c], dir, l.(accepted := l.accepted + [m], queue := l.queue + [m])))
  }

  predicate CanReceive(s: State, c: nat, dir: Dir) {
    c < |s.conns| && CanRecv(LaneOf(s.conns[c], dir))
  }

  function DoReceive(s: State, c: nat, dir: Dir): State
    requires CanReceive(s, c, dir)
  {
    Put(s, c, WithLane(s.conns[c], dir, Recv(LaneOf(s.conns[c], dir), s.t, RecvLimit(s.conns[c], dir))))
  }

  function DoDrop(s: State, c: nat, dir: Dir, sender: bool): State
    requires c < |s.conns|
  {
    var l := LaneOf(s.conns[c], dir);
    Put(s, c, WithLane(s.conns[c], dir, if sender then l.(senderGone := true) else l.(receiverGone := true)))
  }

  // --------------------------------------------------------- host: send task

  predicate CanHostTake(s: State) {
    s.Attached() && s.host.outTask.Live? && s.HostConn().out.queue != []
  }

  /** A packet is counted and submitted: one transfer, and a terminator if it needs one. */
  function DoHostTake(s: State): State
    requires CanHostTake(s)
  {
    var k := s.HostConn();
    var m := k.out.queue[0];
    s.(conns := With(s.conns, s.host.conn, k.(out := k.out.(queue := k.out.queue[1..]))),
       host := s.host.(wire := s.host.wire + PacketizeAll(HostTransfers(m, Positive(s.mps)), Positive(s.mps)),
                       total := (s.host.total + |m|) % TWO_TO_THE_64))
  }

  predicate CanHostTransmit(s: State) {
    s.Attached() && s.host.wire != [] && !s.host.failed && !s.dev.rx.halted
  }

  function DoHostTransmit(s: State): State
    requires CanHostTransmit(s)
  {
    s.(host := s.host.(wire := s.host.wire[1..]),
       dev := s.dev.(rx := s.dev.rx.(fifo := s.dev.rx.fifo + [s.host.wire[0]])))
  }

  predicate CanHostFail(s: State) {
    s.Attached() && !s.host.failed && (s.host.outTask.Live? || s.host.outTask.Draining?)
  }

  /** A transfer fails, on a halt or otherwise; those behind it are not sent either. */
  function DoHostFail(s: State): State {
    s.(host := s.host.(failed := true, clean := false))
  }

  predicate CanHostOutStop(s: State, eof: bool) {
    && s.Attached() && s.host.outTask.Live?
    && (if eof then s.HostConn().out.senderGone && s.HostConn().out.queue == []
        else s.host.recvClosed || s.host.dead || s.host.failed)
  }

  /** The loop ends: no sender is left, or the status says stop, or a transfer has failed. */
  function DoHostOutStop(s: State, eof: bool): State {
    s.(host := s.host.(outTask := Draining(eof), clean := s.host.clean && eof))
  }

  predicate CanHostDrained(s: State) {
    s.Attached() && s.host.outTask.Draining? && (s.host.wire == [] || s.host.failed)
  }

  function DoHostDrained(s: State): State
    requires CanHostDrained(s)
  {
    s.(host := s.host.(outTask := Ended(s.host.outTask.notify && !s.host.failed), wire := []))
  }

  // ------------------------------------------------------ host: receive task

  predicate CanHostArrive(s: State) {
    && s.Attached() && s.host.inTask.Live? && s.dev.tx.fifo != []
    && (Completes(s.host.filling, s.dev.tx.fifo[0], s.mps, s.t) ==>
          |s.HostConn().inn.inbox| < QUEUE_LEN && !s.HostConn().inn.receiverGone)
  }

  function DoHostArrive(s: State): State
    requires CanHostArrive(s)
  {
    var k, p := s.HostConn(), s.dev.tx.fifo[0];
    s.(conns := With(s.conns, s.host.conn, k.(inn := Arrive(k.inn, s.host.filling, p, s.mps, s.t))),
       dev := s.dev.(tx := s.dev.tx.(fifo := s.dev.tx.fifo[1..])),
       host := s.host.(filling := Filled(s.host.filling, p, s.mps, s.t)))
  }

  predicate CanHostAbsorb(s: State) {
    s.Attached() && s.dev.tx.fifo != [] && s.host.inTask.Ended?
  }

  /** Transfers still submitted when the receive task has left its loop swallow what comes. */
  function DoHostAbsorb(s: State): State
    requires CanHostAbsorb(s)
  {
    s.(dev := s.dev.(tx := s.dev.tx.(fifo := s.dev.tx.fifo[1..])))
  }

  predicate CanHostInStop(s: State, why: InStop) {
    && s.Attached() && s.host.inTask.Live?
    && (match why
        case Halted => s.dev.tx.halted && s.dev.tx.fifo == []
        case DeviceDead => s.host.dead
        case NoReceiver => s.HostConn().inn.receiverGone
        case Failure => true)
  }

  function DoHostInStop(s: State, why: InStop): State
    requires CanHostInStop(s, why)
  {
    var k := s.HostConn();
    s.(conns := With(s.conns, s.host.conn, k.(stalled := why.Halted?)), host := s.host.(inTask := Ended(why.NoReceiver?)))
  }

  // --------------------------------------------- host: half-close and status

  predicate CanHostMark(s: State, dir: Dir, served: bool) {
    && s.Attached() && s.host.lock.None? && (served ==> Turns(s, CloseRecv))
    && (match dir
        case Outward => s.host.outTask.Ended? && !s.host.sendMarked
        case Inward => s.host.inTask.Ended? && !s.host.recvMarked)
  }

  /** A task takes the lock, marks its direction and, if the host closes it, tells the device. */
  function DoHostMark(s: State, dir: Dir, served: bool): State
    requires CanHostMark(s, dir, served)
  {
    if dir.Outward? then
      s.(host := s.host.(lock := Some(dir), sendMarked := true,
                         log := s.host.log + if s.host.outTask.notify then [CloseSendRequest(s.host.total)] else []),
         dev := if s.host.outTask.notify && served
                then Step(s.dev, CloseSend(Some(CloseSendPayload(s.host.total))), true).control else s.dev)
    else
      s.(host := s.host.(lock := Some(dir), recvMarked := true,
                         log := s.host.log + if s.host.inTask.notify then [CloseRecvRequest] else []),
         dev := if s.host.inTask.notify && served then Step(s.dev, CloseRecv, true).control else s.dev)
  }

  predicate CanHostClose(s: State, reset: Reset, served: bool) {
    && s.Attached() && s.host.lock.Some? && reset.clearTx && reset.clearRx && (served ==> Turns(s, Close(reset)))
    && (match s.host.lock.value
        case Outward => s.host.outTask.Ended?
        case Inward => s.host.inTask.Ended?)
  }

  /** The task that holds the lock has ended. */
  function TaskGone(s: State): State
    requires s.Attached() && s.host.lock.Some?
  {
    var k := s.HostConn();
    var log := s.host.log + if s.host.sendMarked && s.host.recvMarked then [CloseRequest] else [];
    if s.host.lock.value.Outward? then s.(host := s.host.(lock := None, outTask := Done, log := log))
    else s.(conns := With(s.conns, s.host.conn, k.(inn := k.inn.(closed := true))), host := s.host.(lock := None, inTask := Done, log := log))
  }

  /** The holder of the lock closes the connection if both directions are marked, and ends. */
  function DoHostClose(s: State, reset: Reset, served: bool): State
    requires CanHostClose(s, reset, served)
  {
    if s.host.sendMarked && s.host.recvMarked && served then
      Hangup(TaskGone(s), Step(s.dev, Close(reset), true).control)
    else TaskGone(s)
  }

  predicate CanHostStatus(s: State, now: nat, served: bool) {
    s.Attached() && s.host.statusLive && (served ==> Turns(s, GetStatus(now)))
  }

  function DoHostStatus(s: State, now: nat, served: bool): State
    requires CanHostStatus(s, now, served)
  {
    if served then
      var o := Step(s.dev, GetStatus(now), true);
      s.(dev := o.control, host := s.host.(recvClosed := s.host.recvClosed || RECV_CLOSED in o.reply))
    else s.(host := s.host.(dead := true, statusLive := false))
  }

  predicate CanHostStatusEnd(s: State) {
    s.Attached() && s.host.statusLive && s.host.outTask.Done? && s.host.inTask.Done?
  }

  function DoHostStatusEnd(s: State): State {
    s.(host := s.host.(statusLive := false))
  }

  /** The host process dies: nothing is said to the device, submitted transfers are withdrawn. */
  function DoHostCrash(s: State): State
    requires s.Attached()
  {
    var k := s.HostConn();
    s.(conns := With(s.conns, s.host.conn, k.(out := k.out.(senderGone := true), inn := k.inn.(receiverGone := true))),
       host := IDLE_HOST.(filling := s.host.filling))
  }

  // ------------------------------------------------------- host: connecting

  /** Claiming the interface fails while a task of an earlier connection exists. */
  predicate CanClaim(s: State) {
    || s.host.phase == Idle
    || (s.host.phase == Running && s.host.outTask.Done? && s.host.inTask.Done? && !s.host.statusLive)
  }

  function DoClaim(s: State): State {
    s.(host := IDLE_HOST.(phase := Claimed, filling := s.host.filling))
  }

  predicate CanConnectClose(s: State, reset: Reset, served: bool) {
    s.host.phase == Claimed && reset.clearTx && reset.clearRx && (served ==> Turns(s, Close(reset)))
  }

  function DoConnectClose(s: State, reset: Reset, served: bool): State
    requires CanConnectClose(s, reset, served)
  {
    if served then Hangup(s.(host := s.host.(phase := Phase.Reset)), Step(s.dev, Close(reset), true).control)
    else s.(host := s.host.(phase := Idle))
  }

  /** The host reads what is left on the IN endpoint until nothing comes. */
  function DoFlush(s: State): State {
    s.(host := s.host.(phase := Flushed, filling := []), dev := s.dev.(tx := s.dev.tx.(fifo := [])))
  }

  predicate CanConnectQuery(s: State, cfgPing: Option<nat>, cfgMax: nat, served: bool) {
    s.host.phase == Flushed && cfgMax < TWO_TO_THE_64 && (served ==> Turns(s, GetCaps(cfgPing, cfgMax)))
  }

  /** The host asks for the device's capabilities; without an answer it assumes the defaults, and an
      answer it cannot decode ends the attempt. */
  function DoConnectQuery(s: State, cfgPing: Option<nat>, cfgMax: nat, served: bool, acked: bool): State
    requires CanConnectQuery(s, cfgPing, cfgMax, served)
  {
    var reply := if served && acked then Some(Step(s.dev, GetCaps(cfgPing, cfgMax), true).reply) else None;
    var dev := if served then Step(s.dev, GetCaps(cfgPing, cfgMax), true).control else s.dev;
    match HostSendLimit(reply, s.hostUsize)
    case Err => s.(dev := dev, host := s.host.(phase := Idle))
    case Ok(limit) =>
      s.(dev := dev, host := s.host.(phase := Queried, sendMax := limit, answer := if reply.Some? then Some(cfgMax) else None))
  }

  predicate CanConnectAnnounce(s: State, recvMax: nat, served: bool) {
    && s.host.phase == Queried && recvMax <= s.hostUsize && recvMax < TWO_TO_THE_64
    && (served ==> Turns(s, SetCaps(Some(EncodeHost(HostCaps(recvMax))))))
  }

  /** The host tells the device its own capabilities, and goes on whether or not that succeeds. */
  function DoConnectAnnounce(s: State, recvMax: nat, served: bool): State
    requires CanConnectAnnounce(s, recvMax, served)
  {
    s.(dev := if served then Step(s.dev, SetCaps(Some(EncodeHost(HostCaps(recvMax)))), true).control else s.dev,
       host := s.host.(phase := Announced, recvMax := recvMax, told := served))
  }

  predicate CanConnectOpen(s: State, topic: Bytes, cfgMax: nat, now: nat, served: bool) {
    s.host.phase == Announced && (served ==> s.dev.mps == Some(s.mps) && Turns(s, Event.Open(Some(topic), cfgMax, now)))
  }

  /** `acked` is false when the host does not learn that the device has opened the connection. */
  function DoConnectOpen(s: State, topic: Bytes, cfgMax: nat, now: nat, served: bool, acked: bool): State
    requires CanConnectOpen(s, topic, cfgMax, now, served)
  {
    if !served then s.(host := s.host.(phase := Idle))
    else
      var d := Step(s.dev, Event.Open(Some(topic), cfgMax, now), true).control;
      var limits := if d.limits == [] then Limits(0, 0, 0) else d.limits[|d.limits| - 1];
      var terms := Terms(s.hostUsize, s.dev.usize, s.host.answer, s.host.told, cfgMax, s.host.sendMax, s.host.recvMax, limits);
      s.(conns := s.conns + [Conn(FRESH, FRESH, terms, None, false, false)],
         dev := d,
         received := 0,
         host := if acked then IDLE_HOST.(phase := Running, conn := |s.conns|, outTask := Live, inTask := Live,
                                          clean := true, statusLive := true)
                 else s.host.(phase := Idle))
  }

  predicate CanAbort(s: State) {
    || s.host.phase == Claimed || s.host.phase == Phase.Reset || s.host.phase == Flushed
    || s.host.phase == Queried || s.host.phase == Announced
  }

  function DoAbort(s: State): State {
    s.(host := s.host.(phase := Idle))
  }

  // ------------------------------------------------------------------- device

  predicate CanDevTake(s: State) {
    s.Sends() && s.dev.TxLocked() && s.TxConn().inn.queue != []
  }

  /** A packet is cut into chunks, and terminated if it needs it. */
  function DoDevTake(s: State): State
    requires CanDevTake(s)
  {
    var k := s.TxConn();
    s.(conns := With(s.conns, s.dev.outTask.conn, k.(inn := k.inn.(queue := k.inn.queue[1..]))),
       dev := s.dev.(tx := s.dev.tx.(queue := s.dev.tx.queue
         + PacketizeAll(DeviceTransfers(k.inn.queue[0], Positive(s.mps), Positive(s.t)), Positive(s.mps)))))
  }

  predicate CanDevTransmit(s: State) {
    s.dev.tx.queue != [] && !s.dev.tx.halted
  }

  function DoDevTransmit(s: State): State
    requires CanDevTransmit(s)
  {
    s.(dev := s.dev.(tx := s.dev.tx.(queue := s.dev.tx.queue[1..], fifo := s.dev.tx.fifo + [s.dev.tx.queue[0]])))
  }

  predicate CanDevOutEnd(s: State, fine: bool, keep: nat) {
    && s.Sends() && Turns(s, OutDone) && keep <= |s.dev.tx.queue|
    && (fine ==> s.TxConn().inn.senderGone && s.TxConn().inn.queue == [] && s.dev.tx.queue == [] && s.dev.tx.fifo == [])
  }

  /** The send task ends: after flushing, or with an error that loses all but `keep` USB packets. */
  function DoDevOutEnd(s: State, fine: bool, keep: nat): State
    requires CanDevOutEnd(s, fine, keep)
  {
    var k, d := s.TxConn(), Step(s.dev, OutDone, true).control;
    s.(conns := With(s.conns, s.dev.outTask.conn, k.(flushed := fine)), dev := d.(tx := d.tx.(queue := s.dev.tx.queue[..keep])))
  }

  predicate CanDevArrive(s: State) {
    && s.Receives() && s.dev.RxLocked() && s.dev.rx.fifo != []
    && (Completes(s.dev.rx.filling, s.dev.rx.fifo[0], s.mps, s.t) ==> |s.RxConn().out.inbox| < QUEUE_LEN)
  }

  function DoDevArrive(s: State): State
    requires CanDevArrive(s)
  {
    var k, p := s.RxConn(), s.dev.rx.fifo[0];
    s.(conns := With(s.conns, s.dev.inTask.conn, k.(out := Arrive(k.out, s.dev.rx.filling, p, s.mps, s.t))),
       dev := s.dev.(rx := s.dev.rx.(fifo := s.dev.rx.fifo[1..], filling := Filled(s.dev.rx.filling, p, s.mps, s.t))),
       received := s.received + if Completes(s.dev.rx.filling, p, s.mps, s.t) then |s.dev.rx.filling + p| else 0)
  }

  predicate CanDevInEnd(s: State, res: InResult) {
    && s.Receives() && Turns(s, InDone(res))
    && (match res
        case HostClosed => s.dev.close.value == Some(s.received % TWO_TO_THE_64)
        case ReceiverDropped => s.RxConn().out.receiverGone
        case ReceiveFailed => true)
  }

  function DoDevInEnd(s: State, res: InResult): State
    requires CanDevInEnd(s, res)
  {
    var k := s.RxConn();
    s.(conns := With(s.conns, s.dev.inTask.conn,
                     k.(out := k.out.(closed := true),
                        drained := if res.HostClosed? then Some(|s.dev.rx.filling| + Total(s.dev.rx.fifo)) else None)),
       dev := Step(s.dev, InDone(res), true).control)
  }

  predicate CanDevOther(s: State, e: Event) {
    Turns(s, e) && (e.Timer? || e.PollTasks? || e.Disable? || e.Enable?)
  }

  /** A reset of the bus makes the device forget what the host announced. */
  function DoDevOther(s: State, e: Event): State
    requires CanDevOther(s, e)
  {
    var d := Step(s.dev, e, true).control;
    var h := if e.Disable? || e.Enable? then s.host.(told := false) else s.host;
    if e.Timer? || e.Disable? then Hangup(s.(host := h), d) else s.(dev := d, host := h)
  }

  /** The loop ends: the function is unbound or dropped, an endpoint call fails, or it panics. */
  function DoDevStop(s: State): State {
    Hangup(s.(up := false), Abort(s.dev))
  }

  /** The loop waits for a lock that only it could free. */
  predicate CanDevHang(s: State, mps: nat) {
    s.up && Step(s.dev, Enable(mps), true).Deadlock?
  }

  // ------------------------------------------------------------------ actions

  predicate CanDo(s: State, a: Action) {
    match a
    case Send(c, dir, m) => CanSend(s, c, dir, m)
    case DropSender(c, dir) => c < |s.conns|
    case Receive(c, dir) => CanReceive(s, c, dir)
    case DropReceiver(c, dir) => c < |s.conns|
    case HostTake => CanHostTake(s)
    case HostTransmit => CanHostTransmit(s)
    case HostFail => CanHostFail(s)
    case HostOutStop(eof) => CanHostOutStop(s, eof)
    case HostDrained => CanHostDrained(s)
    case HostArrive => CanHostArrive(s)
    case HostAbsorb => CanHostAbsorb(s)
    case HostInStop(why) => CanHostInStop(s, why)
    case HostMark(dir, served) => CanHostMark(s, dir, served)
    case HostClose(reset, served) => CanHostClose(s, reset, served)
    case HostStatus(now, served) => CanHostStatus(s, now, served)
    case HostStatusEnd => CanHostStatusEnd(s)
    case HostCrash => s.Attached()
    case ConnectClaim => CanClaim(s)
    case ConnectClose(reset, served) => CanConnectClose(s, reset, served)
    case ConnectFlush => s.host.phase == Phase.Reset
    case ConnectQuery(cfgPing, cfgMax, served, _) => CanConnectQuery(s, cfgPing, cfgMax, served)
    case ConnectAnnounce(recvMax, served) => CanConnectAnnounce(s, recvMax, served)
    case ConnectOpen(topic, cfgMax, now, served, _) => CanConnectOpen(s, topic, cfgMax, now, served)
    case ConnectAbort => CanAbort(s)
    case DevTake => CanDevTake(s)
    case DevTransmit => CanDevTransmit(s)
    case DevOutEnd(fine, keep) => CanDevOutEnd(s, fine, keep)
    case DevArrive => CanDevArrive(s)
    case DevInEnd(res) => CanDevInEnd(s, res)
    case DevOther(e) => CanDevOther(s, e)
    case DevStop => s.up
    case DevHang(mps) => CanDevHang(s, mps)
  }

  function Do(s: State, a: Action): State
    requires CanDo(s, a)
  {
    hide CanSend, CanReceive, CanHostTake, CanHostDrained, CanHostArrive, CanHostInStop, CanHostMark, CanHostClose,
      CanConnectClose, CanConnectQuery, CanConnectAnnounce, CanConnectOpen, CanDevTake, CanDevOutEnd, CanDevArrive, CanDevInEnd, CanDevOther, Turns;
    match a
    case Send(c, dir, m) => DoSend(s, c, dir, m)
    case DropSender(c, dir) => DoDrop(s, c, dir, true)
    case Receive(c, dir) => DoReceive(s, c, dir)
    case DropReceiver(c, dir) => DoDrop(s, c, dir, false)
    case HostTake => DoHostTake(s)
    case HostTransmit => DoHostTransmit(s)
    case HostFail => DoHostFail(s)
    case HostOutStop(eof) => DoHostOutStop(s, eof)
    case HostDrained => DoHostDrained(s)
    case HostArrive => DoHostArrive(s)
    case HostAbsorb => DoHostAbsorb(s)
    case HostInStop(why) => DoHostInStop(s, why)
    case HostMark(dir, served) => DoHostMark(s, dir, served)
    case HostClose(reset, served) => DoHostClose(s, reset, served)
    case HostStatus(now, served) => DoHostStatus(s, now, served)
    case HostStatusEnd => DoHostStatusEnd(s)
    case HostCrash => DoHostCrash(s)
    case ConnectClaim => DoClaim(s)
    case ConnectClose(reset, served) => DoConnectClose(s, reset, served)
    case ConnectFlush => DoFlush(s)
    case ConnectQuery(cfgPing, cfgMax, served, acked) => DoConnectQuery(s, cfgPing, cfgMax, served, acked)
    case ConnectAnnounce(recvMax, served) => DoConnectAnnounce(s, recvMax, served)
    case ConnectOpen(topic, cfgMax, now, served, acked) => DoConnectOpen(s, topic, cfgMax, now, served, acked)
    case ConnectAbort => DoAbort(s)
    case DevTake => DoDevTake(s)
    case DevTransmit => DoDevTransmit(s)
    case DevOutEnd(fine, keep) => DoDevOutEnd(s, fine, keep)
    case DevArrive => DoDevArrive(s)
    case DevInEnd(res) => DoDevInEnd(s, res)
    case DevOther(e) => DoDevOther(s, e)
    case DevStop => DoDevStop(s)
    case DevHang(_) => s.(up := false)
  }

  /** A run: the actions happen one after another; those that cannot happen are skipped. */
  function Run(s: State, actions: seq<Action>): State
    decreases |actions|
  {
    if actions == [] then s
    else Run(if CanDo(s, actions[0]) then Do(s, actions[0]) else s, actions[1..])
  }
}
