/** The control loop of the device in its own form: local variables updated branch by branch. */
module DeviceLoop {
  import opened Prelude
  import opened Framing
  import opened Tlv
  import opened Capabilities
  import opened DeviceControl

  /** How one turn of the loop ends; `Blocked` is a turn that never does. */
  datatype Turn = Continue(reply: Bytes) | Returned | Panicked | Blocked

  /** The turn that an outcome of the specification stands for. */
  function TurnOf(o: Outcome): Turn {
    match o
    case Next(_, reply) => Continue(reply)
    case Stop => Returned
    case Panic => Panicked
    case Deadlock => Blocked
  }

  class Loop {
    const usize: nat
    var mps: Option<nat>
    var sendOpen: bool
    var recvOpen: bool
    var inTask: Slot
    var outTask: Slot
    var close: Watch
    var errors: seq<Option<ErrorKind>>
    var limits: seq<Limits>
    var hostCaps: HostCaps
    var pingTimeout: Option<nat>
    var deadline: Option<nat>
    var tx: TxEnd
    var rx: RxEnd

    ghost function State(): Control
      reads this
    {
      Control(usize, mps, sendOpen, recvOpen, inTask, outTask, close, errors, limits, hostCaps,
              pingTimeout, deadline, tx, rx)
    }

    /** This turn is the one the specification prescribes for the state before it. */
    twostate predicate Does(e: Event, ok: bool, turn: Turn)
      reads this
    {
      var o := Step(old(State()), e, ok);
      turn == TurnOf(o) && (o.Next? ==> State() == o.control)
    }

    constructor (usize: nat)
      ensures State() == Initial(usize)
    {
      this.usize := usize;
      mps := None;
      sendOpen, recvOpen := false, false;
      inTask, outTask := Vacant, Vacant;
      close := Watch(None, None);
      errors, limits := [], [];
      hostCaps := DEFAULT_HOST_CAPS;
      pingTimeout := DEFAULT_DEVICE_CAPS.pingTimeout;
      deadline := None;
      tx := TxEnd([], [], false);
      rx := RxEnd([], [], false);
    }

    /** A lock is free unless the installed sub-task holds it. */
    predicate TxFree()
      reads this
    {
      !(outTask.Task? && outTask.locked)
    }

    predicate RxFree()
      reads this
    {
      !(inTask.Task? && inTask.locked)
    }

    method OnEnable(size: nat, ok: bool) returns (turn: Turn)
      requires Inv(State())
      modifies this
      ensures Does(Enable(size), ok, turn)
    {
      if !TxFree() {
        return Blocked;
      }
      if !ok {
        return Returned;
      }
      mps := Some(size);
      hostCaps := DEFAULT_HOST_CAPS;
      return Continue([]);
    }

    /** Drops both sub-tasks and cancels both endpoints. */
    method StopTasks(ok: bool) returns (done: bool)
      modifies this
      ensures done == ok
      ensures done ==> State() == Abort(old(State()))
    {
      // Dropping the futures frees the locks they hold.
      inTask := Vacant;
      outTask := Vacant;
      assert TxFree() && RxFree();
      if !ok {
        return false;
      }
      tx := CancelTx(tx);
      rx := CancelRx(rx);
      sendOpen := false;
      recvOpen := false;
      return true;
    }

    /** What CLOSE and a disabled interface have in common. */
    method TearDown(reset: Reset, ok: bool) returns (turn: Turn)
      requires Inv(State())
      modifies this
      ensures Does(Close(reset), ok, turn)
      ensures turn.Continue? ==> Idle(State()) && TxFree() && RxFree()
    {
      hide StepOpen, StepCloseSend, StepSetCaps, CapsReply, StepInDone;
      var done := StopTasks(ok);
      if !done {
        return Returned;
      }
      tx := tx.(halted := tx.halted && !reset.clearTx, fifo := if reset.discardTx then [] else tx.fifo);
      rx := rx.(halted := rx.halted && !reset.clearRx, fifo := if reset.discardRx then [] else rx.fifo);
      hostCaps := DEFAULT_HOST_CAPS;
      return Continue([]);
    }

    method OnDisable(reset: Reset, ok: bool) returns (turn: Turn)
      requires Inv(State())
      modifies this
      ensures Does(Disable(reset), ok, turn)
      ensures turn.Continue? ==> Idle(State()) && TxFree() && RxFree()
    {
      turn := TearDown(reset, ok);
      if turn.Continue? {
        mps := None;
      }
    }

    method OnOpen(topic: Option<Bytes>, maxSize: nat, now: nat, ok: bool) returns (turn: Turn)
      requires Inv(State())
      modifies this
      ensures Does(Open(topic, maxSize, now), ok, turn)
    {
      if sendOpen || recvOpen {
        return Continue([]);
      }
      if mps.None? {
        return Panicked;
      }
      var maxTransferSize := mps.value * TRANSFER_PACKETS;
      var maxSendSize := ToUsize(hostCaps.maxSize, usize);
      var maxRecvSize := ToUsize(maxSize, usize);
      assert RxFree();
      rx := rx.(fifo := [], filling := []);
      if topic.None? {
        if !ok {
          return Returned;
        }
        rx := CancelRx(rx);
        return Continue([]);
      }
      Establish(Limits(maxSendSize, maxRecvSize, maxTransferSize), now);
      return Continue([]);
    }

    /** The ping timer is set if there is a timeout. */
    method ResetTimer(now: nat)
      modifies this`deadline
      ensures deadline == if pingTimeout.Some? then Some(now + pingTimeout.value) else old(deadline)
    {
      if pingTimeout.Some? {
        deadline := Some(now + pingTimeout.value);
      }
    }

    /** The two ends of a connection go to the application. */
    method Accept(l: Limits) returns (id: nat)
      modifies this`errors, this`limits
      ensures id == |old(errors)| && errors == old(errors) + [None] && limits == old(limits) + [l]
    {
      id := |errors|;
      errors, limits := errors + [None], limits + [l];
    }

    /** The channels, watches and sub-tasks of a new connection. */
    method Establish(l: Limits, now: nat)
      modifies this
      ensures State() == Established(old(State()), l, now)
    {
      var id := Accept(l);
      inTask, outTask := Task(id, false), Task(id, false);
      close := Watch(Some(id), None);
      sendOpen, recvOpen := true, true;
      ResetTimer(now);
    }

    method OnCloseSend(data: Option<Bytes>) returns (turn: Turn)
      requires Inv(State())
      modifies this
      ensures Does(CloseSend(data), true, turn)
      ensures close != old(close) ==> inTask.Task? && close.conn == Some(inTask.conn) && close.value.Some?
    {
      if data.Some? && |data.value| >= 8 {
        var totalBytes := FromLittleEndian(data.value[..8]);
        // Sending fails, and changes nothing, once the receive task is gone.
        if inTask.Task? && close.conn == Some(inTask.conn) {
          close := close.(value := Some(totalBytes));
        }
      }
      return Continue([]);
    }

    method OnCloseRecv(ok: bool) returns (turn: Turn)
      requires Inv(State())
      modifies this
      ensures Does(CloseRecv, ok, turn)
    {
      if sendOpen {
        outTask := Vacant;
        assert TxFree();
        if !ok {
          return Returned;
        }
        tx := CancelTx(tx);
        sendOpen := false;
      }
      return Continue([]);
    }

    method OnSetCaps(data: Option<Bytes>) returns (turn: Turn)
      requires Inv(State())
      modifies this
      ensures Does(SetCaps(data), true, turn)
    {
      if data.Some? {
        var caps := DecodeHost(data.value);
        if caps.Ok? {
          hostCaps := caps.value;
        }
      }
      return Continue([]);
    }

    method OnEcho(data: Option<Bytes>) returns (turn: Turn)
      requires Inv(State())
      modifies this
      ensures Does(Echo(data), true, turn)
    {
      if !sendOpen && !recvOpen && data.Some? {
        assert TxFree();
        tx := tx.(queue := tx.queue + [data.value]);
      }
      return Continue([]);
    }

    method OnGetCaps(cfgPing: Option<nat>, cfgMaxSize: nat) returns (turn: Turn)
      requires Inv(State())
      modifies this
      ensures Does(GetCaps(cfgPing, cfgMaxSize), true, turn)
    {
      pingTimeout := cfgPing;
      var caps := EncodeDeviceInto(DeviceCaps(pingTimeout, true, true, cfgMaxSize));
      return Continue(caps);
    }

    method OnGetStatus(now: nat) returns (turn: Turn)
      requires Inv(State())
      modifies this
      ensures Does(GetStatus(now), true, turn)
    {
      ResetTimer(now);
      var status: Bytes := [];
      if !recvOpen {
        status := status + [RECV_CLOSED];
      }
      return Continue(status);
    }

    method OnTimer(now: nat, ok: bool) returns (turn: Turn)
      requires Inv(State()) && Enabled(State(), Timer(now))
      modifies this
      ensures Does(Timer(now), ok, turn)
      ensures turn.Continue? ==> Idle(State()) && TxFree() && RxFree()
    {
      if errors != [] {
        errors := errors[|errors| - 1 := Some(TimedOut)];
      }
      var done := StopTasks(ok);
      return if done then Continue([]) else Returned;
    }

    /** The sub-tasks are polled by the same `select!`; each takes its lock when first polled. */
    method Poll() returns (turn: Turn)
      requires Inv(State())
      modifies this
      ensures Does(PollTasks, true, turn)
    {
      if inTask.Task? {
        inTask := inTask.(locked := true);
      }
      if outTask.Task? {
        outTask := outTask.(locked := true);
      }
      return Continue([]);
    }

    method OnInDone(res: InResult, ok: bool) returns (turn: Turn)
      requires Inv(State()) && Enabled(State(), InDone(res))
      modifies this
      ensures Does(InDone(res), ok, turn)
    {
      hide StepOpen, StepCloseSend, StepSetCaps, CapsReply, StepClose;
      close := Watch(None, None);
      inTask := Vacant;
      assert RxFree();
      if !ok {
        return Returned;
      }
      recvOpen := false;
      rx := CancelRx(rx);
      if res == ReceiverDropped {
        rx := rx.(halted := true);
      }
      return Continue([]);
    }

    method OnOutDone(ok: bool) returns (turn: Turn)
      requires Inv(State()) && Enabled(State(), OutDone)
      modifies this
      ensures Does(OutDone, ok, turn)
    {
      sendOpen := false;
      outTask := Vacant;
      assert TxFree();
      if !ok {
        return Returned;
      }
      tx := tx.(halted := true);
      return Continue([]);
    }

    /** One turn of the `select!`. */
    method Dispatch(e: Event, ok: bool) returns (turn: Turn)
      requires Inv(State()) && Enabled(State(), e)
      modifies this
      ensures Does(e, ok, turn)
    {
      match e {
        case Unbind => turn := Returned;
        case Enable(size) => turn := OnEnable(size, ok);
        case Disable(reset) => turn := OnDisable(reset, ok);
        case Open(topic, maxSize, now) => turn := OnOpen(topic, maxSize, now, ok);
        case Close(reset) => turn := TearDown(reset, ok);
        case CloseSend(data) => turn := OnCloseSend(data);
        case CloseRecv => turn := OnCloseRecv(ok);
        case SetCaps(data) => turn := OnSetCaps(data);
        case Echo(data) => turn := OnEcho(data);
        case GetCaps(ping, maxSize) => turn := OnGetCaps(ping, maxSize);
        case GetStatus(now) => turn := OnGetStatus(now);
        case Timer(now) => turn := OnTimer(now, ok);
        case PollTasks => turn := Poll();
        case InDone(res) => turn := OnInDone(res, ok);
        case OutDone => turn := OnOutDone(ok);
      }
    }

    /** The loop, over any sequence of inputs: it computes what the specification's runs
        compute, and its invariant holds at every loop head. */
    method Run(inputs: seq<Input>) returns (turn: Turn)
      requires Inv(State())
      modifies this
      ensures turn == TurnOf(RunFrom(old(State()), inputs))
      ensures turn.Continue? ==> State() == RunFrom(old(State()), inputs).control && Inv(State())
    {
      var i := 0;
      assert inputs[i..] == inputs;
      while i < |inputs|
        invariant 0 <= i <= |inputs| && Inv(State())
        invariant RunFrom(old(State()), inputs) == RunFrom(State(), inputs[i..])
      {
        var e, ok := inputs[i].event, inputs[i].ok;
        ghost var before := State();
        assert inputs[i..][1..] == inputs[i + 1..];
        if (match e
            case Timer(now) => pingTimeout.Some? && (sendOpen || recvOpen) && deadline.Some? && now >= deadline.value
            case InDone(_) => inTask.Task? && inTask.locked
            case OutDone => outTask.Task? && outTask.locked
            case _ => true) {
          turn := Dispatch(e, ok);
          if !turn.Continue? {
            return;
          }
          InvStep(before, e, ok);
        }
        i := i + 1;
      }
      return Continue([]);
    }
  }
}
