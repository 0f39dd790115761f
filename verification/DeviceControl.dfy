/**
  The control loop of the device: `UpcFunction::task`.

  `Step` says what one turn of the loop does to the loop's variables and to the two
  bulk endpoints; class `Loop` is the loop in its own form, one method per branch.
 */
module DeviceControl {
  import opened Prelude
  import opened Framing
  import opened Tlv
  import opened Capabilities

  const RECV_CLOSED: Byte := 1

  datatype ErrorKind = TimedOut

  /** A boxed sub-task: the pending future, or a real one that may hold its endpoint's lock. */
  datatype Slot = Vacant | Task(conn: nat, locked: bool)

  /** `in_close_tx`: the connection whose receive task listens, and the value last sent. */
  datatype Watch = Watch(conn: Option<nat>, value: Option<nat>)

  /** Bulk IN: transfers accepted by the endpoint, and USB packets in its FIFO. */
  datatype TxEnd = TxEnd(queue: seq<Bytes>, fifo: seq<Bytes>, halted: bool)

  /** Bulk OUT: USB packets in the FIFO, and the bytes of the transfer being filled. */
  datatype RxEnd = RxEnd(fifo: seq<Bytes>, filling: Bytes, halted: bool)

  datatype Limits = Limits(sendMax: nat, recvMax: nat, transfer: nat)

  datatype Control = Control(
    usize: nat,
    mps: Option<nat>,
    sendOpen: bool,
    recvOpen: bool,
    inTask: Slot,
    outTask: Slot,
    close: Watch,
    errors: seq<Option<ErrorKind>>,
    limits: seq<Limits>,
    hostCaps: HostCaps,
    pingTimeout: Option<nat>,
    deadline: Option<nat>,
    tx: TxEnd,
    rx: RxEnd)
  {
    predicate Open() { sendOpen || recvOpen }

    predicate TxLocked() { outTask.Task? && outTask.locked }

    predicate RxLocked() { inTask.Task? && inTask.locked }
  }

  function Initial(usize: nat): Control {
    Control(usize, None, false, false, Vacant, Vacant, Watch(None, None), [], [], DEFAULT_HOST_CAPS,
            DEFAULT_DEVICE_CAPS.pingTimeout, None, TxEnd([], [], false), RxEnd([], [], false))
  }

  /** Which of the calls whose failure is ignored succeed. */
  datatype Reset = Reset(clearTx: bool, clearRx: bool, discardTx: bool, discardRx: bool)

  const ALL_RESET := Reset(true, true, true, true)

  const KEEP := Reset(false, false, false, false)

  datatype InResult = HostClosed | ReceiverDropped | ReceiveFailed

  /** What wakes the loop.  `None` data means that the data stage of the request failed. */
  datatype Event =
    | Unbind
    | Enable(mps: nat)
    | Disable(reset: Reset)
    | Open(topic: Option<Bytes>, maxSize: nat, now: nat)
    | Close(reset: Reset)
    | CloseSend(data: Option<Bytes>)
    | CloseRecv
    | SetCaps(data: Option<Bytes>)
    | Echo(data: Option<Bytes>)
    | GetCaps(cfgPing: Option<nat>, cfgMaxSize: nat)
    | GetStatus(now: nat)
    | Timer(now: nat)
    | PollTasks
    | InDone(inResult: InResult)
    | OutDone

  /** `Stop` leaves the loop; `Panic` is the failed `expect`; in `Deadlock` the loop waits for
      a lock whose holder only the loop itself can run. */
  datatype Outcome = Next(control: Control, reply: Bytes) | Stop | Panic | Deadlock

  /** An input: the event, and whether the endpoint calls marked `?` succeed. */
  datatype Input = Input(event: Event, ok: bool)

  /** The guards of the `select!` branches. */
  predicate Enabled(c: Control, e: Event) {
    match e
    case Timer(now) => c.pingTimeout.Some? && c.Open() && c.deadline.Some? && now >= c.deadline.value
    case InDone(_) => c.inTask.Task? && c.inTask.locked
    case OutDone => c.outTask.Task? && c.outTask.locked
    case _ => true
  }

  // ----------------------------------------------------------- endpoint calls

  function CancelTx(e: TxEnd): TxEnd { e.(queue := []) }

  function CancelRx(e: RxEnd): RxEnd { e.(filling := []) }

  function ResetTx(e: TxEnd, r: Reset): TxEnd {
    e.(halted := e.halted && !r.clearTx, fifo := if r.discardTx then [] else e.fifo)
  }

  function ResetRx(e: RxEnd, r: Reset): RxEnd {
    e.(halted := e.halted && !r.clearRx, fifo := if r.discardRx then [] else e.fifo)
  }

  /** Both sub-tasks dropped, which frees the locks; both endpoints cancelled. */
  function Abort(c: Control): Control {
    c.(inTask := Vacant, outTask := Vacant, tx := CancelTx(c.tx), rx := CancelRx(c.rx),
       sendOpen := false, recvOpen := false)
  }

  function Guarded(locked: bool, ok: bool, next: Control, reply: Bytes): Outcome {
    if locked then Deadlock else if !ok then Stop else Next(next, reply)
  }

  // ---------------------------------------------------------------- one turn

  /** A new connection: both sub-tasks, a fresh close count and error, the timer set. */
  function Established(c: Control, l: Limits, now: nat): Control {
    var id := |c.errors|;
    c.(inTask := Task(id, false), outTask := Task(id, false), close := Watch(Some(id), None),
       sendOpen := true, recvOpen := true, errors := c.errors + [None], limits := c.limits + [l],
       deadline := if c.pingTimeout.Some? then Some(now + c.pingTimeout.value) else c.deadline)
  }

  function StepOpen(c: Control, topic: Option<Bytes>, maxSize: nat, now: nat, ok: bool): Outcome {
    if c.Open() then Next(c, [])
    else if c.mps.None? then Panic
    else if c.RxLocked() then Deadlock
    else
      var drained := c.(rx := c.rx.(fifo := [], filling := []));
      if topic.None? then Guarded(false, ok, drained, [])
      else
        var l := Limits(DeviceSendLimit(c.hostCaps, c.usize), ToUsize(maxSize, c.usize), c.mps.value * TRANSFER_PACKETS);
        Next(Established(drained, l, now), [])
  }

  function StepClose(c: Control, r: Reset, ok: bool): Outcome {
    var a := Abort(c);
    Guarded(false, ok, a.(tx := ResetTx(a.tx, r), rx := ResetRx(a.rx, r), hostCaps := DEFAULT_HOST_CAPS), [])
  }

  /** The value reaches the watch only while some task still listens to it. */
  function StepCloseSend(c: Control, data: Option<Bytes>): Control {
    if data.Some? && |data.value| >= 8 && c.inTask.Task? && c.close.conn == Some(c.inTask.conn) then
      c.(close := c.close.(value := Some(FromLittleEndian(data.value[..8]))))
    else c
  }

  function StepSetCaps(c: Control, data: Option<Bytes>): (d: Control)
    ensures d == c.(hostCaps := d.hostCaps)
  {
    if data.Some? && DecodeHost(data.value).Ok? then c.(hostCaps := DecodeHost(data.value).value) else c
  }

  function StepInDone(c: Control, res: InResult, ok: bool): Outcome {
    var d := c.(close := Watch(None, None), inTask := Vacant, rx := CancelRx(c.rx), recvOpen := false);
    Guarded(false, ok, if res == ReceiverDropped then d.(rx := d.rx.(halted := true)) else d, [])
  }

  function CapsReply(ping: Option<nat>, maxSize: nat): Bytes {
    EncodeDevice(DeviceCaps(ping, true, true, maxSize))
  }

  function Step(c: Control, e: Event, ok: bool): Outcome {
    match e
    case Unbind => Stop
    case Enable(mps) => Guarded(c.TxLocked(), ok, c.(mps := Some(mps), hostCaps := DEFAULT_HOST_CAPS), [])
    case Disable(r) =>
      (match StepClose(c, r, ok)
       case Next(d, reply) => Next(d.(mps := None), reply)
       case other => other)
    case Open(topic, maxSize, now) => StepOpen(c, topic, maxSize, now, ok)
    case Close(r) => StepClose(c, r, ok)
    case CloseSend(data) => Next(StepCloseSend(c, data), [])
    case CloseRecv =>
      if c.sendOpen then Guarded(false, ok, c.(outTask := Vacant, tx := CancelTx(c.tx), sendOpen := false), [])
      else Next(c, [])
    case SetCaps(data) => Next(StepSetCaps(c, data), [])
    case Echo(data) =>
      if c.Open() || data.None? then Next(c, [])
      else if c.TxLocked() then Deadlock
      else Next(c.(tx := c.tx.(queue := c.tx.queue + [data.value])), [])
    case GetCaps(ping, maxSize) =>
      Next(c.(pingTimeout := ping), CapsReply(ping, maxSize))
    case GetStatus(now) =>
      Next(if c.pingTimeout.Some? then c.(deadline := Some(now + c.pingTimeout.value)) else c,
           if c.recvOpen then [] else [RECV_CLOSED])
    case Timer(_) =>
      Guarded(false, ok, Abort(c).(errors := if c.errors == [] then [] else c.errors[|c.errors| - 1 := Some(TimedOut)]), [])
    case PollTasks =>
      Next(c.(inTask := if c.inTask.Task? then c.inTask.(locked := true) else Vacant,
              outTask := if c.outTask.Task? then c.outTask.(locked := true) else Vacant), [])
    case InDone(res) => StepInDone(c, res, ok)
    case OutDone =>
      Guarded(false, ok, c.(sendOpen := false, outTask := Vacant, tx := c.tx.(halted := true)), [])
  }

  /** Any number of turns; branches whose guard is false are not taken. */
  function RunFrom(c: Control, inputs: seq<Input>): Outcome
    decreases |inputs|
  {
    if inputs == [] then Next(c, [])
    else if !Enabled(c, inputs[0].event) then RunFrom(c, inputs[1..])
    else
      match Step(c, inputs[0].event, inputs[0].ok)
      case Next(d, _) => RunFrom(d, inputs[1..])
      case other => other
  }

  // --------------------------------------------------------- the loop invariant

  /** A direction is open exactly while its real sub-task is installed, the installed tasks
      belong to the newest connection, and the close count goes to the installed receive task. */
  predicate Inv(c: Control) {
    && (c.sendOpen <==> c.outTask.Task?)
    && (c.recvOpen <==> c.inTask.Task?)
    && |c.limits| == |c.errors|
    && (c.outTask.Task? ==> c.outTask.conn + 1 == |c.errors| && c.errors[c.outTask.conn].None?)
    && (c.inTask.Task? ==>
          c.inTask.conn + 1 == |c.errors| && c.errors[c.inTask.conn].None? && c.close.conn == Some(c.inTask.conn))
  }

  /** The only way the loop can block itself is an `Enable` event while a send task holds the
      lock of the IN endpoint: every other lock the loop takes is free when it takes it. */
  lemma DeadlockExactly(c: Control, e: Event, ok: bool)
    requires Inv(c) && Enabled(c, e)
    ensures Step(c, e, ok).Deadlock? <==> e.Enable? && c.outTask.Task? && c.outTask.locked
  {
  }

  lemma InvStep(c: Control, e: Event, ok: bool)
    requires Inv(c) && Enabled(c, e) && Step(c, e, ok).Next?
    ensures Inv(Step(c, e, ok).control)
  {
    hide CapsReply, StepSetCaps, DeviceSendLimit, ToUsize;
  }

  lemma {:induction false} InvRun(c: Control, inputs: seq<Input>)
    requires Inv(c)
    ensures RunFrom(c, inputs).Next? ==> Inv(RunFrom(c, inputs).control)
    decreases |inputs|
  {
    if inputs != [] {
      var e, ok := inputs[0].event, inputs[0].ok;
      if !Enabled(c, e) {
        InvRun(c, inputs[1..]);
      } else if Step(c, e, ok).Next? {
        InvStep(c, e, ok);
        InvRun(Step(c, e, ok).control, inputs[1..]);
      }
    }
  }

  /** Over whole runs: without a stray `Enable` the loop never waits for its own sub-task. */
  lemma {:induction false} NeverDeadlocks(c: Control, inputs: seq<Input>)
    requires Inv(c)
    requires forall n :: 0 <= n < |inputs| && inputs[n].event.Enable? ==>
               var r := RunFrom(c, inputs[..n]); r.Next? ==> !r.control.sendOpen
    ensures !RunFrom(c, inputs).Deadlock?
    decreases |inputs|
  {
    if inputs != [] {
      var e, ok := inputs[0].event, inputs[0].ok;
      var rest := inputs[1..];
      var d := if Enabled(c, e) && Step(c, e, ok).Next? then Step(c, e, ok).control else c;
      if Enabled(c, e) {
        DeadlockExactly(c, e, ok);
        assert RunFrom(c, inputs[..0]) == Next(c, []);
        assert !Step(c, e, ok).Deadlock?;
      }
      if !Enabled(c, e) || Step(c, e, ok).Next? {
        if Enabled(c, e) { InvStep(c, e, ok); }
        forall n | 0 <= n < |rest| && rest[n].event.Enable?
          ensures var r := RunFrom(d, rest[..n]); r.Next? ==> !r.control.sendOpen
        {
          assert inputs[..n + 1][1..] == rest[..n] && inputs[..n + 1][0] == inputs[0];
          assert inputs[n + 1].event.Enable?;
          assert RunFrom(c, inputs[..n + 1]) == RunFrom(d, rest[..n]);
        }
        NeverDeadlocks(d, rest);
      }
    }
  }

  /** The status byte tells the truth about the receive task, in every reachable state. */
  lemma StatusSound(c: Control, inputs: seq<Input>, now: nat)
    requires Inv(c) && RunFrom(c, inputs).Next?
    ensures var d := RunFrom(c, inputs).control;
            RECV_CLOSED in Step(d, GetStatus(now), true).reply <==> d.inTask.Vacant?
  {
    InvRun(c, inputs);
  }

  /** A closed receive direction stays closed until an OPEN that finds both directions closed. */
  lemma OnlyOpenReopens(c: Control, e: Event, ok: bool)
    requires Inv(c) && Enabled(c, e) && Step(c, e, ok).Next?
    ensures var d := Step(c, e, ok).control;
            && (!c.recvOpen && d.recvOpen ==> e.Open? && !c.sendOpen && |d.errors| == |c.errors| + 1)
            && (!c.sendOpen && d.sendOpen ==> e.Open? && !c.recvOpen && |d.errors| == |c.errors| + 1)
            && (|d.errors| != |c.errors| ==> e.Open?)
            && (c.Open() ==> d.limits == c.limits)
  {
  }

  // ------------------------------------------------------ one connection after another

  /** Everything of the loop's state that a connection can notice. */
  datatype View = View(sendOpen: bool, recvOpen: bool, closeCount: Option<nat>, error: Option<ErrorKind>,
                       limits: Limits, hostCaps: HostCaps, deadline: Option<nat>, tx: TxEnd, rx: RxEnd)

  function ViewOf(c: Control): View
    requires |c.errors| > 0 && |c.limits| > 0
  {
    View(c.sendOpen, c.recvOpen, c.close.value, c.errors[|c.errors| - 1], c.limits[|c.limits| - 1], c.hostCaps,
         if c.pingTimeout.None? then None else c.deadline, c.tx, c.rx)
  }

  /** An event that comes from the device itself: a timer, a sub-task. */
  predicate Internal(e: Event) {
    e.PollTasks? || e.Timer? || e.InDone? || e.OutDone?
  }

  predicate AllInternal(inputs: seq<Input>) {
    forall i :: 0 <= i < |inputs| ==> Internal(inputs[i].event)
  }

  /** Neither direction is open and no sub-task is installed. */
  predicate Idle(c: Control) {
    !c.Open() && c.inTask.Vacant? && c.outTask.Vacant?
  }

  /** The requests with which the host sets up a connection, and what happens in between: `gaps` are
      three runs of internal events. */
  function Setup(reset: Reset, ping: Option<nat>, maxSize: nat, caps: Bytes, topic: Bytes, now: nat,
                 gaps: (seq<Input>, seq<Input>, seq<Input>)): seq<Input> {
    [Input(Close(reset), true)] + (gaps.0 + ([Input(GetCaps(ping, maxSize), true)]
    + (gaps.1 + ([Input(SetCaps(Some(caps)), true)] + (gaps.2 + [Input(Open(Some(topic), maxSize, now), true)])))))
  }

  const NO_GAPS: (seq<Input>, seq<Input>, seq<Input>) := ([], [], [])

  predicate GapsInternal(gaps: (seq<Input>, seq<Input>, seq<Input>)) {
    AllInternal(gaps.0) && AllInternal(gaps.1) && AllInternal(gaps.2)
  }

  lemma RunCons(c: Control, i: Input, rest: seq<Input>, d: Control)
    requires Enabled(c, i.event) && Step(c, i.event, i.ok).Next? && Step(c, i.event, i.ok).control == d
    ensures RunFrom(c, [i] + rest) == RunFrom(d, rest)
  {
    assert ([i] + rest)[1..] == rest;
  }

  /** Nothing internal happens to an idle device. */
  lemma {:induction false} IdleStays(c: Control, gap: seq<Input>, rest: seq<Input>)
    requires Idle(c) && AllInternal(gap)
    ensures RunFrom(c, gap + rest) == RunFrom(c, rest)
    decreases |gap|
  {
    if gap == [] {
      assert gap + rest == rest;
    } else {
      var i := gap[0];
      assert gap + rest == [i] + (gap[1..] + rest);
      assert ([i] + (gap[1..] + rest))[1..] == gap[1..] + rest;
      IdleTurn(c, i.event, i.ok);
      IdleStays(c, gap[1..], rest);
    }
  }

  lemma IdleTurn(c: Control, e: Event, ok: bool)
    requires Idle(c) && Internal(e)
    ensures Enabled(c, e) ==> Step(c, e, ok) == Next(c, [])
  {
  }

  function AfterClose(c: Control, r: Reset): Control {
    Abort(c).(tx := ResetTx(CancelTx(c.tx), r), rx := ResetRx(CancelRx(c.rx), r), hostCaps := DEFAULT_HOST_CAPS)
  }

  /** The state a full set-up leads to. */
  function AfterSetup(c: Control, r: Reset, ping: Option<nat>, maxSize: nat, host: HostCaps, now: nat): Control
    requires c.mps.Some?
  {
    var id := |c.errors|;
    Control(c.usize, c.mps, true, true, Task(id, false), Task(id, false), Watch(Some(id), None), c.errors + [None],
            c.limits + [Limits(DeviceSendLimit(host, c.usize), ToUsize(maxSize, c.usize), c.mps.value * TRANSFER_PACKETS)],
            host, ping, if ping.Some? then Some(now + ping.value) else c.deadline,
            ResetTx(CancelTx(c.tx), r), RxEnd([], [], c.rx.halted && !r.clearRx))
  }

  function HostCapsIn(caps: Bytes): HostCaps {
    if DecodeHost(caps).Ok? then DecodeHost(caps).value else DEFAULT_HOST_CAPS
  }

  lemma RunClose(c: Control, r: Reset, rest: seq<Input>)
    ensures RunFrom(c, [Input(Close(r), true)] + rest) == RunFrom(AfterClose(c, r), rest) && Idle(AfterClose(c, r))
  {
    RunCons(c, Input(Close(r), true), rest, AfterClose(c, r));
  }

  lemma RunGetCaps(c: Control, ping: Option<nat>, maxSize: nat, rest: seq<Input>)
    ensures RunFrom(c, [Input(GetCaps(ping, maxSize), true)] + rest) == RunFrom(c.(pingTimeout := ping), rest)
  {
    RunCons(c, Input(GetCaps(ping, maxSize), true), rest, c.(pingTimeout := ping));
  }

  lemma RunSetCaps(c: Control, caps: Bytes, rest: seq<Input>)
    requires c.hostCaps == DEFAULT_HOST_CAPS
    ensures RunFrom(c, [Input(SetCaps(Some(caps)), true)] + rest) == RunFrom(c.(hostCaps := HostCapsIn(caps)), rest)
  {
    RunCons(c, Input(SetCaps(Some(caps)), true), rest, c.(hostCaps := HostCapsIn(caps)));
  }

  lemma RunOpen(c: Control, topic: Bytes, maxSize: nat, now: nat)
    requires c.mps.Some? && Idle(c) && c.tx.queue == []
    ensures RunFrom(c, [Input(Open(Some(topic), maxSize, now), true)])
         == Next(AfterSetup(c, KEEP, c.pingTimeout, maxSize, c.hostCaps, now), [])
  {
    var i := Input(Open(Some(topic), maxSize, now), true);
    RunCons(c, i, [], AfterSetup(c, KEEP, c.pingTimeout, maxSize, c.hostCaps, now));
    assert [i] + [] == [i];
  }

  /** Every set-up succeeds, from any state, whichever of the resets fail and whatever the device does
      in between. */
  lemma SetupRuns(c: Control, r: Reset, ping: Option<nat>, maxSize: nat, caps: Bytes, topic: Bytes, now: nat,
                  gaps: (seq<Input>, seq<Input>, seq<Input>))
    requires c.mps.Some? && GapsInternal(gaps)
    ensures RunFrom(c, Setup(r, ping, maxSize, caps, topic, now, gaps))
         == Next(AfterSetup(c, r, ping, maxSize, HostCapsIn(caps), now), [])
  {
    hide RunFrom, DecodeHost, HostCapsIn;
    var c1 := AfterClose(c, r);
    var c2 := c1.(pingTimeout := ping);
    var c3 := c2.(hostCaps := HostCapsIn(caps));
    var open := [Input(Open(Some(topic), maxSize, now), true)];
    var tell := [Input(SetCaps(Some(caps)), true)] + (gaps.2 + open);
    var query := [Input(GetCaps(ping, maxSize), true)] + (gaps.1 + tell);
    RunClose(c, r, gaps.0 + query);
    IdleStays(c1, gaps.0, query);
    RunGetCaps(c1, ping, maxSize, gaps.1 + tell);
    IdleStays(c2, gaps.1, tell);
    RunSetCaps(c2, caps, gaps.2 + open);
    IdleStays(c3, gaps.2, open);
    RunOpen(c3, topic, maxSize, now);
  }

  /** What a connection sees depends on nothing that happened before its CLOSE: no close count,
      error, limit or deadline of an earlier connection is left.  A halt or USB packets in the IN
      FIFO are left exactly if they were there and the reset that failed is the one that removes
      them. */
  lemma SetupForgetsHistory(c1: Control, c2: Control, r: Reset, ping: Option<nat>, maxSize: nat, caps: Bytes, topic: Bytes,
                            now: nat, gaps: (seq<Input>, seq<Input>, seq<Input>))
    requires Inv(c1) && Inv(c2) && c1.usize == c2.usize && c1.mps == c2.mps && c1.mps.Some? && GapsInternal(gaps)
    ensures var s := Setup(r, ping, maxSize, caps, topic, now, gaps);
            var r1, r2 := RunFrom(c1, s), RunFrom(c2, s);
            && r1.Next? && r2.Next?
            && |r1.control.errors| == |r1.control.limits| == |c1.errors| + 1
            && |r2.control.errors| == |r2.control.limits| == |c2.errors| + 1
            && var v, w := ViewOf(r1.control), ViewOf(r2.control);
            && v.(tx := w.tx, rx := w.rx) == w
            && v.sendOpen && v.recvOpen && v.closeCount.None? && v.error.None?
            && v.tx.queue == [] && v.rx.fifo == [] && v.rx.filling == []
            && (v.tx.fifo == [] <==> r.discardTx || c1.tx.fifo == [])
            && (v.tx.halted <==> c1.tx.halted && !r.clearTx) && (v.rx.halted <==> c1.rx.halted && !r.clearRx)
  {
    SetupRuns(c1, r, ping, maxSize, caps, topic, now, gaps);
    SetupRuns(c2, r, ping, maxSize, caps, topic, now, gaps);
    hide RunFrom, Setup, HostCapsIn;
  }

  // ------------------------------------------------------------- what requests amount to

  predicate NoOpen(inputs: seq<Input>) {
    forall i :: 0 <= i < |inputs| ==> !inputs[i].event.Open?
  }

  /** Once idle, the device stays so until the next OPEN: no sub-task runs, no timer strikes, no
      count or error goes anywhere, whatever arrives late. */
  lemma {:induction false} IdleUntilOpen(c: Control, inputs: seq<Input>)
    requires Inv(c) && Idle(c) && NoOpen(inputs)
    ensures var r := RunFrom(c, inputs);
            r.Next? ==> Idle(r.control) && r.control.errors == c.errors && r.control.close == c.close
    decreases |inputs|
  {
    hide CapsReply, Inv;
    if inputs != [] {
      var e, ok := inputs[0].event, inputs[0].ok;
      assert !e.Open?;
      if !Enabled(c, e) {
        IdleUntilOpen(c, inputs[1..]);
      } else if Step(c, e, ok).Next? {
        InvStep(c, e, ok);
        IdleStep(c, e, ok);
        IdleUntilOpen(Step(c, e, ok).control, inputs[1..]);
      }
    }
  }

  lemma IdleStep(c: Control, e: Event, ok: bool)
    requires Idle(c) && !e.Open? && Enabled(c, e) && Step(c, e, ok).Next?
    ensures var d := Step(c, e, ok).control; Idle(d) && d.errors == c.errors && d.close == c.close
  {
    hide CapsReply;
  }

  /** A served CLOSE ends the connection for good. */
  lemma CloseEnds(c: Control, r: Reset, inputs: seq<Input>)
    requires Inv(c) && NoOpen(inputs)
    ensures var o := RunFrom(c, [Input(Close(r), true)] + inputs);
            o.Next? ==> Idle(o.control) && o.control.errors == c.errors && o.control.close == c.close
  {
    RunClose(c, r, inputs);
    InvStep(c, Close(r), true);
    IdleUntilOpen(AfterClose(c, r), inputs);
  }

  /** The count in the last CLOSE_SEND that carries one. */
  function LastCount(count: Option<nat>, inputs: seq<Input>): Option<nat>
    decreases |inputs|
  {
    if inputs == [] then count
    else
      match inputs[0].event
      case CloseSend(Some(data)) =>
        LastCount(if |data| >= 8 then Some(FromLittleEndian(data[..8])) else count, inputs[1..])
      case _ => LastCount(count, inputs[1..])
  }

  /** The connection whose receive task is installed. */
  function Receiving(c: Control): Option<nat> {
    if c.inTask.Task? then Some(c.inTask.conn) else None
  }

  lemma ReceivingStep(c: Control, e: Event, ok: bool)
    requires Inv(c) && Enabled(c, e) && Step(c, e, ok).Next?
    ensures var d := Step(c, e, ok).control;
            && |c.errors| <= |d.errors|
            && (Receiving(d) != Receiving(c) ==> Receiving(d).None? || (e.Open? && Receiving(d) == Some(|c.errors|)))
            && (Receiving(d) == Receiving(c) && Receiving(c).Some? ==>
                  d.close.value == LastCount(c.close.value, [Input(e, ok)]))
  {
    hide CapsReply, StepSetCaps;
    var one := [Input(e, ok)];
    assert one[1..] == [];
  }

  /** A receive task that is gone does not come back. */
  lemma {:induction false} NeverBack(c: Control, inputs: seq<Input>, id: nat)
    requires Inv(c) && id < |c.errors| && Receiving(c) != Some(id)
    ensures var r := RunFrom(c, inputs); r.Next? ==> Receiving(r.control) != Some(id)
    decreases |inputs|
  {
    hide Inv, Step, Enabled;
    if inputs != [] {
      var e, ok := inputs[0].event, inputs[0].ok;
      if !Enabled(c, e) {
        NeverBack(c, inputs[1..], id);
      } else if Step(c, e, ok).Next? {
        InvStep(c, e, ok);
        ReceivingStep(c, e, ok);
        NeverBack(Step(c, e, ok).control, inputs[1..], id);
      }
    }
  }

  lemma LastCountCons(count: Option<nat>, i: Input, rest: seq<Input>)
    ensures LastCount(count, [i] + rest) == LastCount(LastCount(count, [i]), rest)
  {
    assert ([i] + rest)[1..] == rest && [i][1..] == [];
  }

  /** As long as a receive task runs, it sees the count of the last well-formed CLOSE_SEND that was
      served meanwhile, and nothing else: short ones, other requests and other connections do not
      touch it. */
  lemma {:induction false} CountIsLast(c: Control, inputs: seq<Input>)
    requires Inv(c) && c.inTask.Task?
    ensures var r := RunFrom(c, inputs);
            r.Next? && Receiving(r.control) == Receiving(c) ==> r.control.close.value == LastCount(c.close.value, inputs)
    decreases |inputs|
  {
    hide Step, LastCount;
    if inputs == [] {
      NoCount(c.close.value);
    } else {
      var i, rest := inputs[0], inputs[1..];
      assert inputs == [i] + rest;
      LastCountCons(c.close.value, i, rest);
      if !Enabled(c, i.event) {
        NoCountIn(c.close.value, i);
        CountIsLast(c, rest);
      } else if Step(c, i.event, i.ok).Next? {
        var d := Step(c, i.event, i.ok).control;
        InvStep(c, i.event, i.ok);
        ReceivingStep(c, i.event, i.ok);
        if Receiving(d) == Receiving(c) {
          CountIsLast(d, rest);
        } else {
          NeverBack(d, rest, c.inTask.conn);
        }
      }
    }
  }

  lemma NoCount(count: Option<nat>)
    ensures LastCount(count, []) == count
  {
  }

  lemma NoCountIn(count: Option<nat>, i: Input)
    requires i.event.Timer? || i.event.InDone? || i.event.OutDone?
    ensures LastCount(count, [i]) == count
  {
    assert [i][1..] == [];
  }

  // ------------------------------------------------------------- what each event changes

  /** The event makes a new connection. */
  predicate Opens(c: Control, e: Event) {
    e.Open? && e.topic.Some? && !c.Open()
  }

  /** The event ends both directions, whatever state they are in. */
  predicate Ends(e: Event) {
    e.Close? || e.Disable? || e.Timer?
  }

  /** A direction is open from the OPEN that makes the connection until its own end (CLOSE_RECV or the
      end of the send task; the end of the receive task) or the end of both. */
  lemma DirectionsExactly(c: Control, e: Event, ok: bool)
    requires Inv(c) && Enabled(c, e) && Step(c, e, ok).Next?
    ensures var d := Step(c, e, ok).control;
            && (d.sendOpen <==> Opens(c, e) || (c.sendOpen && !e.CloseRecv? && !e.OutDone? && !Ends(e)))
            && (d.recvOpen <==> Opens(c, e) || (c.recvOpen && !e.InDone? && !Ends(e)))
  {
    hide CapsReply;
  }

  /** What the host announced counts until the next well-formed announcement, CLOSE or reset of the bus;
      the ping timeout is that of the last query; the packet size is known while the bus is enabled. */
  lemma SettingsExactly(c: Control, e: Event, ok: bool)
    requires Enabled(c, e) && Step(c, e, ok).Next?
    ensures var d := Step(c, e, ok).control;
            && d.hostCaps == (if e.Close? || e.Disable? || e.Enable? then DEFAULT_HOST_CAPS
                              else if e.SetCaps? && e.data.Some? && DecodeHost(e.data.value).Ok? then DecodeHost(e.data.value).value
                              else c.hostCaps)
            && d.pingTimeout == (if e.GetCaps? then e.cfgPing else c.pingTimeout)
            && d.mps == (if e.Enable? then Some(e.mps) else if e.Disable? then None else c.mps)
            && d.usize == c.usize
  {
    hide CapsReply, DecodeHost;
  }

  /** One connection for each OPEN that makes one, with the limits of that moment; an error only for the
      newest one and only from the timer. */
  lemma ConnectionsExactly(c: Control, e: Event, ok: bool)
    requires Inv(c) && Enabled(c, e) && Step(c, e, ok).Next?
    ensures var d := Step(c, e, ok).control;
            if Opens(c, e) then
              && d.errors == c.errors + [None]
              && d.limits == c.limits + [Limits(DeviceSendLimit(c.hostCaps, c.usize), ToUsize(e.maxSize, c.usize),
                                                c.mps.value * TRANSFER_PACKETS)]
            else
              && d.limits == c.limits
              && d.errors == if e.Timer? && c.errors != [] then c.errors[|c.errors| - 1 := Some(TimedOut)] else c.errors
  {
    hide CapsReply, DeviceSendLimit, ToUsize;
  }

  /** What is queued on IN: an ECHO adds its marker, only while no direction is open; ending the send
      direction from outside cancels it; nothing else touches it, nor what has left the queue. */
  lemma InQueueExactly(c: Control, e: Event, ok: bool)
    requires Inv(c) && Enabled(c, e) && Step(c, e, ok).Next?
    ensures var d := Step(c, e, ok).control;
            && d.tx.queue == (if e.Echo? && e.data.Some? && !c.Open() then c.tx.queue + [e.data.value]
                              else if Ends(e) || (e.CloseRecv? && c.sendOpen) then []
                              else c.tx.queue)
            && d.tx.fifo == (if (e.Close? || e.Disable?) && e.reset.discardTx then [] else c.tx.fifo)
  {
    hide CapsReply;
  }

  /** What has arrived on OUT goes when an OPEN prepares the endpoint, or a reset discards it; a transfer
      in progress is cancelled with its task. */
  lemma OutBufferExactly(c: Control, e: Event, ok: bool)
    requires Inv(c) && Enabled(c, e) && Step(c, e, ok).Next?
    ensures var d := Step(c, e, ok).control;
            var prepares := e.Open? && !c.Open();
            && d.rx.fifo == (if prepares || ((e.Close? || e.Disable?) && e.reset.discardRx) then [] else c.rx.fifo)
            && d.rx.filling == (if prepares || Ends(e) || e.InDone? then [] else c.rx.filling)
  {
    hide CapsReply;
  }

  /** The turn makes an endpoint call whose failure ends the loop. */
  predicate Risks(c: Control, e: Event) {
    || (e.Enable? && !c.TxLocked()) || Ends(e) || e.InDone? || e.OutDone? || (e.CloseRecv? && c.sendOpen)
    || (e.Open? && e.topic.None? && !c.Open() && c.mps.Some?)
  }

  /** The loop ends exactly on unbind, or when such a call fails; it panics exactly on an OPEN before the
      bus was enabled. */
  lemma StopsExactly(c: Control, e: Event, ok: bool)
    requires Inv(c) && Enabled(c, e)
    ensures Step(c, e, ok).Stop? <==> e.Unbind? || (!ok && Risks(c, e))
    ensures Step(c, e, ok).Panic? <==> e.Open? && !c.Open() && c.mps.None?
  {
    hide CapsReply;
  }

  /** A sub-task holds its endpoint's lock from the first time it is polled until it is gone. */
  lemma LocksExactly(c: Control, e: Event, ok: bool)
    requires Inv(c) && Enabled(c, e) && Step(c, e, ok).Next?
    ensures var d := Step(c, e, ok).control;
            && (d.TxLocked() <==> d.outTask.Task? && !Opens(c, e) && (c.TxLocked() || e.PollTasks?))
            && (d.RxLocked() <==> d.inTask.Task? && !Opens(c, e) && (c.RxLocked() || e.PollTasks?))
  {
    hide CapsReply;
  }

  /** What the host gets to read: the capabilities as configured, and one byte of status if no receive
      task runs. */
  lemma RepliesExactly(c: Control, e: Event, ok: bool)
    requires Inv(c) && Enabled(c, e) && Step(c, e, ok).Next?
    ensures Step(c, e, ok).reply == match e
                                    case GetCaps(ping, maxSize) => EncodeDevice(DeviceCaps(ping, true, true, maxSize))
                                    case GetStatus(_) => if c.inTask.Task? then [] else [RECV_CLOSED]
                                    case _ => []
  {
    hide EncodeDevice;
  }

  // ------------------------------------------------------------------------- ECHO

  /** The markers of the ECHO requests whose data stage succeeded. */
  function Echoed(inputs: seq<Input>): seq<Bytes> {
    if inputs == [] then []
    else (if inputs[0].event.Echo? && inputs[0].event.data.Some? then [inputs[0].event.data.value] else []) + Echoed(inputs[1..])
  }

  predicate NoReset(inputs: seq<Input>) {
    forall i :: 0 <= i < |inputs| ==> !inputs[i].event.Open? && !inputs[i].event.Close? && !inputs[i].event.Disable?
  }

  /** An idle device echoes: over any run without OPEN, CLOSE and Disable, the IN endpoint holds what it
      held before, followed by the markers in order, and nothing else. */
  lemma {:induction false} EchoesArrive(c: Control, inputs: seq<Input>)
    requires Inv(c) && Idle(c) && NoReset(inputs)
    ensures var r := RunFrom(c, inputs);
            r.Next? ==> Inv(r.control) && Idle(r.control) && r.control.tx == c.tx.(queue := c.tx.queue + Echoed(inputs))
    decreases |inputs|
  {
    hide Step, Inv;
    if inputs == [] {
      assert c.tx.queue + [] == c.tx.queue;
    } else {
      var e, ok := inputs[0].event, inputs[0].ok;
      assert !e.Open? && !e.Close? && !e.Disable?;
      EchoTurn(c, e, ok);
      if !Enabled(c, e) {
        EchoesArrive(c, inputs[1..]);
        assert [] + Echoed(inputs[1..]) == Echoed(inputs[1..]);
      } else if Step(c, e, ok).Next? {
        InvStep(c, e, ok);
        var d := Step(c, e, ok).control;
        EchoesArrive(d, inputs[1..]);
        var one := if e.Echo? && e.data.Some? then [e.data.value] else [];
        assert c.tx.queue + (one + Echoed(inputs[1..])) == c.tx.queue + one + Echoed(inputs[1..]);
      }
    }
  }

  lemma EchoTurn(c: Control, e: Event, ok: bool)
    requires Inv(c) && Idle(c) && !e.Open? && !e.Close? && !e.Disable?
    ensures e.Timer? || e.InDone? || e.OutDone? ==> !Enabled(c, e)
    ensures e.Echo? ==> Step(c, e, ok).Next?
    ensures Enabled(c, e) && Step(c, e, ok).Next? ==>
              var d := Step(c, e, ok).control;
              Idle(d) && d.tx == c.tx.(queue := c.tx.queue + if e.Echo? && e.data.Some? then [e.data.value] else [])
  {
    hide CapsReply;
    assert c.tx.queue + [] == c.tx.queue;
  }

  /** While a connection is open an ECHO changes nothing. */
  lemma EchoRefused(c: Control, data: Option<Bytes>, ok: bool)
    requires c.Open()
    ensures Step(c, Echo(data), ok) == Next(c, [])
  {
  }

  /** IN is halted exactly when the send task ends by itself, so CLOSE_RECV does not halt it, and OUT
      exactly when the application drops its receiver; only CLOSE and Disable end a halt. */
  lemma HaltsExactly(c: Control, e: Event, ok: bool)
    requires Inv(c) && Enabled(c, e) && Step(c, e, ok).Next?
    ensures var d := Step(c, e, ok).control;
            var cleared := if e.Close? || e.Disable? then e.reset else KEEP;
            && (d.tx.halted <==> e.OutDone? || (c.tx.halted && !cleared.clearTx))
            && (d.rx.halted <==> (e.InDone? && e.inResult.ReceiverDropped?) || (c.rx.halted && !cleared.clearRx))
  {
    hide CapsReply, StepSetCaps;
  }

  /** The ping timeout is the exception: CLOSE does not reset it, so a host that does not ask
      for the capabilities again inherits the timeout its predecessor negotiated. */
  lemma PingTimeoutSurvivesClose(c: Control, topic: Bytes, maxSize: nat, now: nat)
    requires Inv(c) && c.mps.Some?
    ensures var s := [Input(Close(ALL_RESET), true)] + [Input(Open(Some(topic), maxSize, now), true)];
            var r := RunFrom(c, s);
            && r.Next? && r.control.Open() && r.control.pingTimeout == c.pingTimeout
            && (r.control.pingTimeout == DEFAULT_DEVICE_CAPS.pingTimeout <==> c.pingTimeout.None?)
            && (c.pingTimeout.Some? ==> Enabled(r.control, Timer(now + c.pingTimeout.value)))
  {
    RunClose(c, ALL_RESET, [Input(Open(Some(topic), maxSize, now), true)]);
    RunOpen(AfterClose(c, ALL_RESET), topic, maxSize, now);
  }

  lemma HostCapsInExact(hostMax: nat)
    requires hostMax < TWO_TO_THE_64
    ensures HostCapsIn(EncodeHost(HostCaps(hostMax))) == HostCaps(hostMax)
  {
    HostRoundTrip(HostCaps(hostMax));
  }

  lemma SetupLimits(c: Control, ping: Option<nat>, maxSize: nat, caps: Bytes, topic: Bytes, now: nat)
    requires c.mps.Some?
    ensures var r := RunFrom(c, Setup(ALL_RESET, ping, maxSize, caps, topic, now, NO_GAPS));
            r.Next? && r.control.limits == c.limits + [Limits(
              DeviceSendLimit(HostCapsIn(caps), c.usize), ToUsize(maxSize, c.usize), c.mps.value * TRANSFER_PACKETS)]
  {
    SetupRuns(c, ALL_RESET, ping, maxSize, caps, topic, now, NO_GAPS);
  }

  /** After a full set-up the limits the two ends enforce agree: always from device to host, and
      from host to device exactly when the device's advertised size fits its own usize or the
      host's usize is no wider. */
  lemma SetupAgreesOnLimits(c: Control, ping: Option<nat>, maxSize: nat, hostMax: nat, hostUsize: nat, topic: Bytes, now: nat)
    requires c.mps.Some? && maxSize < TWO_TO_THE_64 && hostMax < TWO_TO_THE_64
    ensures var r := RunFrom(c, Setup(ALL_RESET, ping, maxSize, EncodeHost(HostCaps(hostMax)), topic, now, NO_GAPS));
            var hostLimit := HostSendLimit(Some(CapsReply(ping, maxSize)), hostUsize);
            && r.Next? && |r.control.limits| == |c.limits| + 1 && hostLimit.Ok?
            && r.control.limits[|c.limits|].sendMax <= hostMax
            && (hostLimit.value <= r.control.limits[|c.limits|].recvMax <==> maxSize <= c.usize || hostUsize <= c.usize)
  {
    HostCapsInExact(hostMax);
    HostToDeviceLimits(DeviceCaps(ping, true, true, maxSize), hostUsize, c.usize);
    SetupLimits(c, ping, maxSize, EncodeHost(HostCaps(hostMax)), topic, now);
  }

  // ------------------------------------------------------------------ deadline

  /** The time of the last STATUS, or of the OPEN that made the connection. */
  function LastHeard(c: Control, e: Event, last: nat): nat {
    match e
    case GetStatus(now) => now
    case Open(topic, _, now) => if !c.Open() && topic.Some? then now else last
    case _ => last
  }

  predicate DeadlineInv(c: Control, last: nat) {
    c.Open() && c.pingTimeout.Some? ==> c.deadline == Some(last + c.pingTimeout.value)
  }

  /** What a capabilities query announces is not what the running timer was set for: with a timeout in
      force, a different one; without, one that the timer left from before does not fit. */
  predicate Unsettles(c: Control, ping: Option<nat>, last: nat) {
    && c.Open() && ping.Some?
    && if c.pingTimeout.Some? then ping != c.pingTimeout else c.deadline != Some(last + ping.value)
  }

  /** While a connection is open the deadline is the last STATUS or OPEN plus the timeout.  The
      one event that can break this is a capabilities query on an open connection: with a timeout in
      force, exactly a query that changes it to another one. */
  lemma DeadlineExactly(c: Control, e: Event, ok: bool, last: nat)
    requires Inv(c) && Enabled(c, e) && DeadlineInv(c, last) && Step(c, e, ok).Next?
    ensures DeadlineInv(Step(c, e, ok).control, LastHeard(c, e, last))
       <==> !(e.GetCaps? && Unsettles(c, e.cfgPing, last))
  {
    hide CapsReply;
  }

  /** Turning the timeout on under an open connection leaves the timer of an earlier connection
      in charge: here the query makes the loop give up a connection it has just heard from. */
  lemma StaleTimerExample(c: Control, now: nat, ping: nat)
    requires Inv(c) && c.Open() && c.pingTimeout.None? && c.deadline.Some? && c.deadline.value <= now
    ensures !Enabled(Step(c, GetStatus(now), true).control, Timer(now))
    ensures Enabled(Step(Step(c, GetStatus(now), true).control, GetCaps(Some(ping), 1), true).control, Timer(now))
  {
  }

  /** Such a state is reachable: the first connection set the timer, the second one does not use it. */
  lemma StaleTimerReachable(usize: nat, topic: Bytes, caps: Bytes)
    ensures var s := [Input(Enable(512), true)] + (Setup(ALL_RESET, Some(10), 1, caps, topic, 0, NO_GAPS)
                     + Setup(ALL_RESET, None, 1, caps, topic, 100, NO_GAPS));
            var r := RunFrom(Initial(usize), s);
            r.Next? && Inv(r.control) && r.control.Open() && r.control.pingTimeout.None? && r.control.deadline == Some(10)
  {
    var c0 := Initial(usize);
    var c1 := Step(c0, Enable(512), true).control;
    var first, second := Setup(ALL_RESET, Some(10), 1, caps, topic, 0, NO_GAPS), Setup(ALL_RESET, None, 1, caps, topic, 100, NO_GAPS);
    RunCons(c0, Input(Enable(512), true), first + second, c1);
    RunConcat(c1, first, second);
    SetupRuns(c1, ALL_RESET, Some(10), 1, caps, topic, 0, NO_GAPS);
    var c2 := AfterSetup(c1, ALL_RESET, Some(10), 1, HostCapsIn(caps), 0);
    SetupRuns(c2, ALL_RESET, None, 1, caps, topic, 100, NO_GAPS);
  }

  lemma {:induction false} RunConcat(c: Control, a: seq<Input>, b: seq<Input>)
    ensures RunFrom(c, a + b) == if RunFrom(c, a).Next? then RunFrom(RunFrom(c, a).control, b) else RunFrom(c, a)
    decreases |a|
  {
    if a == [] {
      assert a + b == b;
    } else {
      assert (a + b)[1..] == a[1..] + b;
      if !Enabled(c, a[0].event) {
        RunConcat(c, a[1..], b);
      } else if Step(c, a[0].event, a[0].ok).Next? {
        RunConcat(Step(c, a[0].event, a[0].ok).control, a[1..], b);
      }
    }
  }
}
