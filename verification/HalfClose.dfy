/** The half-close handle of the host: which control requests it attempts, and in which order. */
module HalfClose {
  import opened Prelude

  datatype Request = CloseSendRequest(total: nat) | CloseRecvRequest | CloseRequest

  /** The end of a host task: it takes the lock and makes one of these calls. */
  datatype Call = SendEnds(notify: bool, total: nat) | RecvEnds(notify: bool)

  datatype Handle = Handle(sendClosed: bool, recvClosed: bool, log: seq<Request>)

  const NEW_HANDLE := Handle(false, false, [])

  function CloseIfBoth(h: Handle): Handle {
    if h.sendClosed && h.recvClosed then h.(log := h.log + [CloseRequest]) else h
  }

  function Apply(h: Handle, c: Call): Handle {
    match c
    case SendEnds(notify, total) =>
      if h.sendClosed then h
      else CloseIfBoth(h.(sendClosed := true, log := h.log + if notify then [CloseSendRequest(total)] else []))
    case RecvEnds(notify) =>
      if h.recvClosed then h
      else CloseIfBoth(h.(recvClosed := true, log := h.log + if notify then [CloseRecvRequest] else []))
  }

  /** The calls are serialised by the lock, which a task holds until its call is over. */
  function ApplyAll(h: Handle, cs: seq<Call>): Handle
    decreases |cs|
  {
    if cs == [] then h else ApplyAll(Apply(h, cs[0]), cs[1..])
  }

  // ------------------------------------------------------------ any run of calls

  /** The first call that ends the send direction, if any. */
  function FirstSend(cs: seq<Call>): Option<Call> {
    if cs == [] then None else if cs[0].SendEnds? then Some(cs[0]) else FirstSend(cs[1..])
  }

  function FirstRecv(cs: seq<Call>): Option<Call> {
    if cs == [] then None else if cs[0].RecvEnds? then Some(cs[0]) else FirstRecv(cs[1..])
  }

  /** What the device is told about one direction. */
  function Notice(c: Option<Call>): seq<Request> {
    if c.None? || !c.value.notify then []
    else if c.value.SendEnds? then [CloseSendRequest(c.value.total)]
    else [CloseRecvRequest]
  }

  lemma {:induction false} SettledStays(h: Handle, cs: seq<Call>)
    requires h.sendClosed && h.recvClosed
    ensures ApplyAll(h, cs) == h
    decreases |cs|
  {
    if cs != [] {
      SettledStays(h, cs[1..]);
    }
  }

  /** With the send direction ended, only the end of the receive direction still does anything. */
  lemma {:induction false} AfterSend(h: Handle, cs: seq<Call>)
    requires h.sendClosed && !h.recvClosed
    ensures ApplyAll(h, cs) == if FirstRecv(cs).None? then h
                               else Handle(true, true, h.log + Notice(FirstRecv(cs)) + [CloseRequest])
    decreases |cs|
  {
    if cs != [] {
      if cs[0].RecvEnds? {
        SettledStays(Apply(h, cs[0]), cs[1..]);
        var none: seq<Request> := [];
        assert h.log + none == h.log;
      } else {
        AfterSend(h, cs[1..]);
      }
    }
  }

  lemma {:induction false} AfterRecv(h: Handle, cs: seq<Call>)
    requires !h.sendClosed && h.recvClosed
    ensures ApplyAll(h, cs) == if FirstSend(cs).None? then h
                               else Handle(true, true, h.log + Notice(FirstSend(cs)) + [CloseRequest])
    decreases |cs|
  {
    if cs != [] {
      if cs[0].SendEnds? {
        SettledStays(Apply(h, cs[0]), cs[1..]);
        var none: seq<Request> := [];
        assert h.log + none == h.log;
      } else {
        AfterRecv(h, cs[1..]);
      }
    }
  }

  /** All that the calls `cs` ask of the device: each direction announced by its first call, if
      that one wants it, in the order of those calls; then CLOSE, if both directions have ended. */
  function Requests(cs: seq<Call>): seq<Request> {
    var s, r := FirstSend(cs), FirstRecv(cs);
    (if cs != [] && cs[0].RecvEnds? then Notice(r) + Notice(s) else Notice(s) + Notice(r))
    + if s.Some? && r.Some? then [CloseRequest] else []
  }

  /** Whatever the tasks call, how often, and in which order: each direction is announced at most
      once, by its first call and only if that one asks for it; the final CLOSE is attempted
      exactly when both directions have ended, once, and after both announcements. */
  lemma EveryOrder(cs: seq<Call>)
    ensures var h := ApplyAll(NEW_HANDLE, cs);
            && (h.sendClosed <==> FirstSend(cs).Some?) && (h.recvClosed <==> FirstRecv(cs).Some?)
            && h.log == Requests(cs)
  {
    var none: seq<Request> := [];
    assert none + none == none;
    if cs != [] {
      var first := Notice(Some(cs[0]));
      var h := Apply(NEW_HANDLE, cs[0]);
      assert h.log == none + first == first;
      assert first + none == first;
      if cs[0].SendEnds? {
        AfterSend(h, cs[1..]);
      } else {
        AfterRecv(h, cs[1..]);
      }
    }
  }

  lemma {:induction false} ApplyLast(h: Handle, cs: seq<Call>, c: Call)
    ensures ApplyAll(h, cs + [c]) == Apply(ApplyAll(h, cs), c)
    decreases |cs|
  {
    if cs == [] {
      assert cs + [c] == [c] && [c][1..] == [];
    } else {
      assert (cs + [c])[1..] == cs[1..] + [c];
      ApplyLast(Apply(h, cs[0]), cs[1..], c);
    }
  }

  /** The handle in its own form.  The outcome of a request is only logged, so it does not show here. */
  class HalfCloseHandle {
    var sendClosed: bool
    var recvClosed: bool
    var log: seq<Request>
    ghost var calls: seq<Call>       // every call there has been

    ghost predicate Valid()
      reads this
    {
      Handle(sendClosed, recvClosed, log) == ApplyAll(NEW_HANDLE, calls)
    }

    constructor ()
      ensures Valid() && calls == [] && log == []
    {
      sendClosed, recvClosed, log, calls := false, false, [], [];
    }

    method ControlOut(r: Request)
      modifies this`log
      ensures log == old(log) + [r]
    {
      log := log + [r];
    }

    /** After any calls, the device has been asked for exactly what they amount to. */
    method CloseSend(notifyDevice: bool, totalBytesSent: nat)
      requires Valid()
      modifies this
      ensures Valid() && calls == old(calls) + [SendEnds(notifyDevice, totalBytesSent)]
      ensures log == Requests(calls) && sendClosed && recvClosed == old(recvClosed)
    {
      ApplyLast(NEW_HANDLE, calls, SendEnds(notifyDevice, totalBytesSent));
      calls := calls + [SendEnds(notifyDevice, totalBytesSent)];
      EveryOrder(calls);
      if !sendClosed {
        sendClosed := true;
        if notifyDevice {
          ControlOut(CloseSendRequest(totalBytesSent));
        }
        CloseIfBothClosed();
      }
    }

    method CloseRecv(notifyDevice: bool)
      requires Valid()
      modifies this
      ensures Valid() && calls == old(calls) + [RecvEnds(notifyDevice)]
      ensures log == Requests(calls) && recvClosed && sendClosed == old(sendClosed)
    {
      ApplyLast(NEW_HANDLE, calls, RecvEnds(notifyDevice));
      calls := calls + [RecvEnds(notifyDevice)];
      EveryOrder(calls);
      if !recvClosed {
        recvClosed := true;
        if notifyDevice {
          ControlOut(CloseRecvRequest);
        }
        CloseIfBothClosed();
      }
    }

    method CloseIfBothClosed()
      modifies this`log
      ensures log == CloseIfBoth(Handle(sendClosed, recvClosed, old(log))).log
    {
      if sendClosed && recvClosed {
        ControlOut(CloseRequest);
      }
    }
  }
}
