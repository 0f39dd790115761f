/** What holds in every reachable state of the system, and what follows from it. */
module SystemProof {
  import opened Prelude
  import opened Framing
  import opened Tlv
  import opened Capabilities
  import opened DeviceControl
  import opened Pipeline
  import opened Flow
  import opened System

  // ---------------------------------------------------------------- invariant

  predicate Within(ms: seq<Bytes>, limit: nat) {
    forall i :: 0 <= i < |ms| ==> |ms[i]| <= limit
  }

  predicate LaneOk(l: Lane, t: nat, limit: nat)
    requires t > 0
  {
    && SafeFor(Received(l, t), l.accepted)
    && Within(l.accepted, limit)
    && Within(l.inbox, t)
    && |l.buffer| % t == 0
    && (l.eof ==> l.closed && l.inbox == [])
  }

  /** A packet is too large only if the sender's limit exceeds the receiver's. */
  predicate Excused(k: Conn) {
    && (k.out.oversize ==> SendLimit(k, Outward) > RecvLimit(k, Outward))
    && (k.inn.oversize ==> SendLimit(k, Inward) > RecvLimit(k, Inward))
  }

  predicate ConnOk(k: Conn, t: nat)
    requires t > 0
  {
    && LaneOk(k.out, t, SendLimit(k, Outward)) && LaneOk(k.inn, t, SendLimit(k, Inward))
    && TermsOk(k.terms) && Excused(k)
    && (k.drained.Some? ==> k.out.closed && k.out.senderGone)
    && (k.drained.Some? && k.drained.value < TWO_TO_THE_64 ==> OnlyEndsMissing(Received(k.out, t), k.out.accepted))
    && (k.flushed && k.stalled ==> Received(k.inn, t) == Got(k.inn.accepted, []))
  }

  predicate ConnsOk(conns: seq<Conn>, t: nat)
    requires t > 0
  {
    forall c :: 0 <= c < |conns| ==> ConnOk(conns[c], t)
  }

  predicate HostOk(h: Host) {
    && (h.phase != Running ==> h.outTask.Absent? && h.inTask.Absent? && h.lock.None? && h.wire == [])
    && (h.phase == Running ==> !h.outTask.Absent? && !h.inTask.Absent?)
    && (h.outTask.Ended? || h.outTask.Done? ==> h.wire == [])
    && (h.failed ==> !h.clean)
    && (h.outTask.Live? && !h.failed ==> h.clean)
    && (h.outTask.Draining? && h.outTask.notify && !h.failed ==> h.clean)
    && (h.outTask.Ended? && h.outTask.notify ==> h.clean)
    && (h.outTask.Draining? || h.outTask.Ended? ==> (h.clean ==> h.outTask.notify))
    && h.total < TWO_TO_THE_64
  }

  /** Between CLOSE and OPEN: both directions are closed, and the limits are those of the exchange. */
  predicate Negotiating(h: Host, dev: Control, hostUsize: nat) {
    && (h.phase == Phase.Reset || h.phase == Flushed || h.phase == Queried || h.phase == Announced ==>
          !dev.Open() && dev.tx.queue == [] && !dev.tx.halted && !dev.rx.halted)
    && (h.phase == Flushed || h.phase == Queried || h.phase == Announced ==> dev.tx.fifo == [] && h.filling == [])
    && (h.phase == Phase.Reset || h.phase == Flushed || h.phase == Queried ==> dev.hostCaps == DEFAULT_HOST_CAPS)
    && (h.phase == Queried || h.phase == Announced ==> h.sendMax == ToUsize(Believed(h.answer), hostUsize))
    && (h.phase == Announced ==> dev.hostCaps == if h.told then HostCaps(h.recvMax) else DEFAULT_HOST_CAPS)
  }

  predicate Linked(s: State) {
    && (s.host.phase == Running ==> s.host.conn + 1 == |s.conns|)
    && (s.host.phase == Running && s.host.recvClosed ==> !s.dev.recvOpen)
    && Negotiating(s.host, s.dev, s.hostUsize)
  }

  function OutViewOf(s: State): OutView
    requires s.conns != []
  {
    OutView(s.Cur().out, s.host.phase == Running, s.host.outTask.Live?, s.host.outTask.Live? || s.host.clean,
            s.host.wire, s.host.total, s.dev.rx, s.dev.inTask.Task?, s.dev.close.value, s.received)
  }

  function InViewOf(s: State): InView
    requires s.conns != []
  {
    InView(s.Cur().inn, s.dev.outTask.Task?, s.dev.tx, s.host.inTask.Live?, s.host.filling,
           s.Cur().flushed, s.Cur().stalled)
  }

  predicate Flows(s: State)
    requires s.Sizable()
  {
    s.conns != [] ==> OutGood(OutViewOf(s), s.mps, s.t) && InGood(InViewOf(s), s.mps, s.t)
  }

  predicate SystemInv(s: State) {
    && s.Sizable()
    && Inv(s.dev)
    && |s.conns| == |s.dev.errors|
    && ConnsOk(s.conns, s.t)
    && HostOk(s.host)
    && Linked(s)
    && Flows(s)
  }

  lemma StartOk(mps: nat, hostUsize: nat, usize: nat)
    requires mps > 0
    ensures SystemInv(Start(mps, hostUsize, usize))
  {
    assert mps * TRANSFER_PACKETS == mps * 128;
    DivUnique(mps * 128, mps, 128, 0);
    assert mps * 128 > 0;
  }

  /** Outside the set-up there is nothing to negotiate. */
  lemma Unsettled(h: Host, dev: Control, hostUsize: nat)
    requires h.phase == Running || h.phase == Idle || h.phase == Claimed
    ensures Negotiating(h, dev, hostUsize)
  {
  }

  // ------------------------------------------------------------ applications

  /** What a receiver puts together is never longer than what was accepted. */
  lemma WholeWithin(l: Lane, t: nat, limit: nat)
    requires t > 0 && LaneOk(l, t, limit) && l.inbox != []
    ensures |l.buffer + l.inbox[0]| <= limit
  {
    var g := Got(l.delivered, l.buffer);
    var p, rest := l.inbox[0], l.inbox[1..];
    assert l.inbox == [p] + rest;
    FeedConcat(g, [p], rest, t);
    FeedOne(g, p, t);
    SafeFirst(Feed(g, [p], t), rest, t, l.accepted);
    if |p| < t {
      assert Feed(g, [p], t).done[|g.done|] == g.rest + p;
      assert l.accepted[|g.done|] == g.rest + p;
    }
  }

  lemma RecvOk(l: Lane, t: nat, limit: nat, maxSize: nat)
    requires t > 0 && LaneOk(l, t, limit) && CanRecv(l)
    ensures LaneOk(Recv(l, t, maxSize), t, limit) && SameLane(l, Recv(l, t, maxSize), t)
    ensures Recv(l, t, maxSize).oversize ==> limit > maxSize
  {
    RecvKeeps(l, t, maxSize);
    if l.inbox != [] {
      WholeWithin(l, t, limit);
      ModAdd(|l.buffer|, t);
      assert Within(l.inbox[1..], t);
      assert 0 % t == 0;
    }
  }

  lemma SwapConn(k: Conn, dir: Dir, l: Lane, t: nat)
    requires t > 0 && ConnOk(k, t)
    requires LaneOk(l, t, SendLimit(k, dir)) && SameLane(LaneOf(k, dir), l, t)
    requires l.oversize ==> SendLimit(k, dir) > RecvLimit(k, dir)
    ensures ConnOk(WithLane(k, dir, l), t)
  {
    hide TermsOk;
  }

  lemma LaneSwap(s: State, c: nat, dir: Dir, l: Lane)
    requires SystemInv(s) && c < |s.conns|
    requires LaneOk(l, s.t, SendLimit(s.conns[c], dir)) && SameLane(LaneOf(s.conns[c], dir), l, s.t)
    requires l.oversize ==> SendLimit(s.conns[c], dir) > RecvLimit(s.conns[c], dir)
    ensures SystemInv(Put(s, c, WithLane(s.conns[c], dir, l)))
  {
    hide ConnOk, OutGood, InGood, SameLane, LaneOk, Inv, HostOk, Negotiating;
    var s' := Put(s, c, WithLane(s.conns[c], dir, l));
    SwapConn(s.conns[c], dir, l, s.t);
    if c + 1 < |s.conns| {
      assert s'.Cur() == s.Cur();
    } else if dir.Outward? {
      OutSwap(OutViewOf(s), l, s.mps, s.t);
    } else {
      InSwap(InViewOf(s), l, s.mps, s.t);
    }
  }

  lemma ReceiveKeeps(s: State, c: nat, dir: Dir)
    requires SystemInv(s) && CanReceive(s, c, dir)
    ensures SystemInv(DoReceive(s, c, dir))
  {
    hide SystemInv, LaneOk, SameLane, Recv, SendLimit, RecvLimit;
    var k := s.conns[c];
    InvConn(s, c);
    LaneIsOk(k, dir, s.t);
    RecvOk(LaneOf(k, dir), s.t, SendLimit(k, dir), RecvLimit(k, dir));
    LaneSwap(s, c, dir, Recv(LaneOf(k, dir), s.t, RecvLimit(k, dir)));
  }

  lemma InvConn(s: State, c: nat)
    requires SystemInv(s) && c < |s.conns|
    ensures s.t > 0 && ConnOk(s.conns[c], s.t)
  {
  }

  lemma LaneIsOk(k: Conn, dir: Dir, t: nat)
    requires t > 0 && ConnOk(k, t)
    ensures LaneOk(LaneOf(k, dir), t, SendLimit(k, dir))
    ensures LaneOf(k, dir).oversize ==> SendLimit(k, dir) > RecvLimit(k, dir)
  {
  }

  lemma DropKeeps(s: State, c: nat, dir: Dir, sender: bool)
    requires SystemInv(s) && c < |s.conns|
    ensures SystemInv(DoDrop(s, c, dir, sender))
  {
    hide SystemInv, SendLimit, RecvLimit;
    var k := s.conns[c];
    var l := LaneOf(k, dir);
    InvConn(s, c);
    LaneIsOk(k, dir, s.t);
    LaneSwap(s, c, dir, if sender then l.(senderGone := true) else l.(receiverGone := true));
  }

  lemma AcceptOk(l: Lane, m: Bytes, t: nat, limit: nat)
    requires t > 0 && LaneOk(l, t, limit) && |m| <= limit
    ensures LaneOk(Accept(l, m), t, limit)
  {
    SafeGrow(Received(l, t), l.accepted, m);
    assert Received(Accept(l, m), t) == Received(l, t);
  }

  lemma AcceptConn(k: Conn, dir: Dir, m: Bytes, t: nat)
    requires t > 0 && ConnOk(k, t) && |m| <= SendLimit(k, dir)
    requires if dir.Outward? then k.drained.None? else !(k.flushed && k.stalled)
    ensures ConnOk(WithLane(k, dir, Accept(LaneOf(k, dir), m)), t)
  {
    hide TermsOk;
    AcceptOk(LaneOf(k, dir), m, t, SendLimit(k, dir));
  }

  lemma DrainedMeansGone(k: Conn, t: nat)
    requires t > 0 && ConnOk(k, t) && !k.out.senderGone
    ensures k.drained.None?
  {
  }

  lemma SendViews(s: State, dir: Dir, m: Bytes)
    requires s.conns != [] && CanSend(s, |s.conns| - 1, dir, m)
    ensures var s' := DoSend(s, |s.conns| - 1, dir, m);
            && s' == s.(conns := s.conns[|s.conns| - 1 := WithLane(s.Cur(), dir, Accept(LaneOf(s.Cur(), dir), m))])
            && OutViewOf(s') == (if dir.Outward? then OutViewOf(s).(lane := Accept(s.Cur().out, m)) else OutViewOf(s))
            && InViewOf(s') == (if dir.Inward? then InViewOf(s).(lane := Accept(s.Cur().inn, m)) else InViewOf(s))
  {
  }

  lemma SendKeeps(s: State, c: nat, dir: Dir, m: Bytes)
    requires SystemInv(s) && CanSend(s, c, dir, m)
    ensures SystemInv(DoSend(s, c, dir, m))
  {
    assert c + 1 == |s.conns|;
    SendViews(s, dir, m);
    hide Negotiating, HostOk, ConnOk, Accept;
    if dir.Outward? {
      DrainedMeansGone(s.Cur(), s.t);
      OutSend(OutViewOf(s), m, s.mps, s.t);
    } else {
      InSend(InViewOf(s), m, s.mps, s.t);
    }
    AcceptConn(s.Cur(), dir, m, s.t);
  }

  // ------------------------------------------------------------------- host

  lemma HostTakeKeeps(s: State)
    requires SystemInv(s) && CanHostTake(s)
    ensures SystemInv(DoHostTake(s))
  {
    hide Negotiating;
    Unsettled(DoHostTake(s).host, DoHostTake(s).dev, s.hostUsize);
    var s' := DoHostTake(s);
    var v := OutViewOf(s);
    OutTake(v, s.mps, s.t);
    assert OutViewOf(s') == Taken(v, s.mps);
    assert Received(s'.Cur().out, s.t) == Received(s.Cur().out, s.t);
    assert ConnOk(s.Cur(), s.t);
    assert ConnOk(s'.Cur(), s.t);
  }

  lemma HostTransmitKeeps(s: State)
    requires SystemInv(s) && CanHostTransmit(s)
    ensures SystemInv(DoHostTransmit(s))
  {
    hide Negotiating, ConnOk, InGood;
    Unsettled(DoHostTransmit(s).host, DoHostTransmit(s).dev, s.hostUsize);
    OutTransmit(OutViewOf(s), s.mps, s.t);
  }

  lemma HostFailKeeps(s: State)
    requires SystemInv(s) && CanHostFail(s)
    ensures SystemInv(DoHostFail(s))
  {
    hide Negotiating, ConnOk, InGood;
    Unsettled(DoHostFail(s).host, s.dev, s.hostUsize);
    var s' := DoHostFail(s);
    assert InViewOf(s') == InViewOf(s);
    if s.host.outTask.Live? {
      assert OutViewOf(s') == OutViewOf(s);
    } else {
      OutLose(OutViewOf(s), s.host.wire, true, s.host.total, s.Cur().out, s.mps, s.t);
    }
  }

  lemma HostOutStopKeeps(s: State, eof: bool)
    requires SystemInv(s) && CanHostOutStop(s, eof)
    ensures SystemInv(DoHostOutStop(s, eof))
  {
    hide Negotiating, ConnOk, InGood;
    Unsettled(DoHostOutStop(s, eof).host, s.dev, s.hostUsize);
    if eof {
      OutFinish(OutViewOf(s), s.host.clean, s.mps, s.t);
    } else {
      OutLose(OutViewOf(s), s.host.wire, true, s.host.total, s.Cur().out, s.mps, s.t);
    }
  }

  lemma HostDrainedKeeps(s: State)
    requires SystemInv(s) && CanHostDrained(s)
    ensures SystemInv(DoHostDrained(s))
  {
    hide Negotiating, ConnOk, InGood;
    Unsettled(DoHostDrained(s).host, s.dev, s.hostUsize);
    if s.host.failed {
      OutLose(OutViewOf(s), [], true, s.host.total, s.Cur().out, s.mps, s.t);
    }
  }

  /** A transfer that arrives in time belongs to a healthy lane. */
  lemma ArriveLaneOk(l: Lane, filling: Bytes, p: Bytes, wire: seq<Bytes>, mps: nat, t: nat, limit: nat)
    requires Sizes(mps, t) && LaneOk(l, t, limit) && !l.closed
    requires |p| <= mps && |filling| % mps == 0 && |filling| < t
    requires SafeFor(Arriving(Arrive(l, filling, p, mps, t), Filled(filling, p, mps, t), wire, mps, t), l.accepted)
    ensures LaneOk(Arrive(l, filling, p, mps, t), t, limit)
  {
    var l' := Arrive(l, filling, p, mps, t);
    ArriveKeeps(l, filling, p, wire, mps, t);
    ReceivedSafe(l', Filled(filling, p, mps, t), wire, mps, t);
  }

  lemma ArriveInConn(k: Conn, v: InView, mps: nat, t: nat)
    requires Sizes(mps, t) && ConnOk(k, t) && InGood(v, mps, t) && v.lane == k.inn && v.live && v.tx.fifo != []
    requires v.stalled == k.stalled
    ensures InGood(InArrived(v, mps, t), mps, t) && ConnOk(k.(inn := InArrived(v, mps, t).lane), t)
  {
    var v' := InArrived(v, mps, t);
    InArrive(v, mps, t);
    ArriveLaneOk(k.inn, v.filling, v.tx.fifo[0], v'.tx.fifo + (v'.tx.queue + FrameAll(InQueue(v'), mps)), mps, t,
                 SendLimit(k, Inward));
  }

  lemma HostArriveKeeps(s: State)
    requires SystemInv(s) && CanHostArrive(s)
    ensures SystemInv(DoHostArrive(s))
  {
    hide ConnOk, OutGood, InGood, Arrive, Filled, Negotiating;
    Unsettled(DoHostArrive(s).host, DoHostArrive(s).dev, s.hostUsize);
    var s' := DoHostArrive(s);
    var v := InViewOf(s);
    ArriveInConn(s.Cur(), v, s.mps, s.t);
    assert InViewOf(s') == InArrived(v, s.mps, s.t);
    assert OutViewOf(s') == OutViewOf(s);
  }

  lemma HostAbsorbKeeps(s: State)
    requires SystemInv(s) && CanHostAbsorb(s)
    ensures SystemInv(DoHostAbsorb(s))
  {
    hide Negotiating, ConnOk, OutGood;
    Unsettled(s.host, DoHostAbsorb(s).dev, s.hostUsize);
    var fifo := s.dev.tx.fifo[1..];
    assert WireOk(fifo, s.mps);
    InLeave(InViewOf(s), fifo, s.host.filling, s.Cur().inn, s.Cur().stalled, s.mps, s.t);
  }

  lemma StopConn(k: Conn, v: InView, stalled: bool, mps: nat, t: nat)
    requires Sizes(mps, t) && ConnOk(k, t) && InGood(v, mps, t) && v.lane == k.inn && v.live && v.flushed == k.flushed
    ensures ConnOk(k.(stalled := stalled), t)
  {
    hide TermsOk;
    if v.flushed {
      InComplete(v, mps, t);
    }
  }

  /** What is known about the host's side of the connection it serves. */
  lemma OutFacts(s: State)
    requires SystemInv(s) && s.Attached()
    ensures s.Sizable() && s.host.conn + 1 == |s.conns| && OutGood(OutViewOf(s), s.mps, s.t)
    ensures var v := OutViewOf(s);
            && v.lane == s.HostConn().out && v.active && v.wire == s.host.wire && v.rx == s.dev.rx && v.total == s.host.total
            && v.listening == s.dev.inTask.Task? && (v.intact <==> s.host.outTask.Live? || s.host.clean)
    ensures HostOk(s.host)
  {
    hide OutGood, ConnOk, InGood;
  }

  /** What a turn of the host's receive task may rely on. */
  lemma InFacts(s: State)
    requires SystemInv(s) && s.conns != []
    ensures s.Sizable() && InGood(InViewOf(s), s.mps, s.t) && ConnOk(s.Cur(), s.t)
    ensures WireOk(s.dev.tx.fifo, s.mps) && (s.dev.tx.halted || s.Cur().stalled ==> s.dev.outTask.Vacant?)
  {
    hide ConnOk, OutGood, InArriving;
  }

  lemma HostInStopKeeps(s: State, why: InStop)
    requires SystemInv(s) && CanHostInStop(s, why)
    ensures SystemInv(DoHostInStop(s, why))
  {
    hide Negotiating, OutGood, InGood, ConnOk;
    var s' := DoHostInStop(s, why);
    var v := InViewOf(s);
    InFacts(s);
    Unsettled(s'.host, s.dev, s.hostUsize);
    StopConn(s.Cur(), v, why.Halted?, s.mps, s.t);
    InLeave(v, v.tx.fifo, v.filling, v.lane, why.Halted?, s.mps, s.t);
    assert InViewOf(s') == v.(live := false, stalled := why.Halted?);
    assert OutViewOf(s') == OutViewOf(s);
  }

  /** Serving CLOSE_SEND hands the count to the receive task, if there is one. */
  lemma CountStep(c: Control, total: nat)
    requires Inv(c) && total < TWO_TO_THE_64
    ensures Inv(StepCloseSend(c, Some(CloseSendPayload(total))))
    ensures StepCloseSend(c, Some(CloseSendPayload(total)))
         == if c.inTask.Task? then c.(close := c.close.(value := Some(total))) else c
    ensures Step(c, CloseSend(Some(CloseSendPayload(total))), true) == Next(StepCloseSend(c, Some(CloseSendPayload(total))), [])
  {
    Powers();
    FieldRoundTrip(total, 8);
    InvStep(c, CloseSend(Some(CloseSendPayload(total))), true);
  }

  lemma CountServed(s: State, d: Control)
    requires SystemInv(s) && s.Attached() && s.host.outTask.Ended? && s.host.outTask.notify
    requires Inv(d) && d == if s.dev.inTask.Task? then s.dev.(close := s.dev.close.(value := Some(s.host.total))) else s.dev
    ensures SystemInv(s.(dev := d))
  {
    hide Negotiating, ConnOk, InGood;
    Unsettled(s.host, d, s.hostUsize);
    var s' := s.(dev := d);
    OutCount(OutViewOf(s), s.mps, s.t);
    assert InViewOf(s') == InViewOf(s);
    if s.dev.inTask.Task? {
      assert OutViewOf(s') == OutViewOf(s).(count := Some(s.host.total));
    }
  }

  lemma CloseRecvServed(s: State)
    requires SystemInv(s) && s.Attached() && s.host.inTask.Ended?
    ensures Step(s.dev, CloseRecv, true).Next? && SystemInv(s.(dev := Step(s.dev, CloseRecv, true).control))
  {
    hide Negotiating, ConnOk, OutGood;
    Unsettled(s.host, Step(s.dev, CloseRecv, true).control, s.hostUsize);
    InvStep(s.dev, CloseRecv, true);
    var d := Step(s.dev, CloseRecv, true).control;
    if s.dev.sendOpen {
      InQuit(InViewOf(s), d.tx, 0, s.mps, s.t);
    }
  }

  /** Marking a direction under the lock changes nothing that a flow depends on. */
  lemma MarkedKeeps(s: State, h: Host)
    requires SystemInv(s) && s.Attached()
    requires h == s.host.(lock := h.lock, sendMarked := h.sendMarked, recvMarked := h.recvMarked, log := h.log)
    ensures SystemInv(s.(host := h))
  {
    hide Negotiating, ConnOk, InGood, OutGood;
    Unsettled(h, s.dev, s.hostUsize);
    var n := s.(host := h);
    assert OutViewOf(n) == OutViewOf(s) && InViewOf(n) == InViewOf(s);
  }

  lemma HostMarkKeeps(s: State, dir: Dir, served: bool)
    requires SystemInv(s) && CanHostMark(s, dir, served)
    ensures SystemInv(DoHostMark(s, dir, served))
  {
    var s' := DoHostMark(s, dir, served);
    assert Inv(s.dev) && s.host.total < TWO_TO_THE_64;
    hide SystemInv, Step;
    MarkedKeeps(s, s'.host);
    if dir.Outward? && s.host.outTask.notify && served {
      CountStep(s.dev, s.host.total);
      CountServed(s.(host := s'.host), s'.dev);
    } else if dir.Inward? && s.host.inTask.notify && served {
      CloseRecvServed(s.(host := s'.host));
    }
  }

  lemma Closed(k: Conn, t: nat)
    requires t > 0 && ConnOk(k, t)
    ensures ConnOk(k.(inn := k.inn.(closed := true)), t)
    ensures ConnOk(k.(out := k.out.(closed := true)), t)
  {
    assert Received(k.inn.(closed := true), t) == Received(k.inn, t);
    assert Received(k.out.(closed := true), t) == Received(k.out, t);
  }

  lemma TaskGoneKeeps(s: State)
    requires SystemInv(s) && s.Attached() && s.host.lock.Some?
    requires if s.host.lock.value.Outward? then s.host.outTask.Ended? else s.host.inTask.Ended?
    ensures SystemInv(TaskGone(s))
  {
    hide OutGood, Inv, ConnOk, Negotiating;
    Unsettled(TaskGone(s).host, s.dev, s.hostUsize);
    var s' := TaskGone(s);
    var k := s.Cur();
    if s.host.lock.value.Outward? {
      assert OutViewOf(s') == OutViewOf(s) && InViewOf(s') == InViewOf(s);
    } else {
      var l := k.inn.(closed := true);
      var v := InViewOf(s);
      assert ConnOk(k, s.t);
      Closed(k, s.t);
      InLeave(v, v.tx.fifo, v.filling, l, k.stalled, s.mps, s.t);
      assert InViewOf(s') == v.(lane := l);
      assert OutViewOf(s') == OutViewOf(s);
    }
  }

  /** What close, disable, ping timeout and the end of the loop do alike: both sub-tasks go, and what
      they had in hand. */
  predicate Aborted(c: Control, d: Control) {
    && Inv(d) && d.inTask.Vacant? && d.outTask.Vacant? && !d.Open() && |d.errors| == |c.errors|
    && d.tx.queue == [] && (d.tx.fifo == c.tx.fifo || d.tx.fifo == []) && (d.tx.halted ==> c.tx.halted)
    && d.rx.filling == [] && (d.rx.fifo == c.rx.fifo || d.rx.fifo == []) && (d.rx.halted ==> c.rx.halted)
  }

  lemma AbortStep(c: Control, e: Event)
    requires Inv(c) && Enabled(c, e) && (e.Close? || e.Disable? || e.Timer?)
    ensures Step(c, e, true).Next? && Aborted(c, Step(c, e, true).control)
    ensures e.Close? && e.reset.clearTx ==> !Step(c, e, true).control.tx.halted
    ensures e.Close? && e.reset.clearRx ==> !Step(c, e, true).control.rx.halted
    ensures Step(c, e, true).control.hostCaps == if e.Timer? then c.hostCaps else DEFAULT_HOST_CAPS
  {
    InvStep(c, e, true);
  }

  lemma AbortItself(c: Control)
    requires Inv(c)
    ensures Aborted(c, Abort(c)) && Abort(c).hostCaps == c.hostCaps
  {
  }

  lemma HangupViews(s: State, d: Control)
    requires Inv(s.dev) && |s.conns| == |s.dev.errors| && s.conns != [] && Aborted(s.dev, d)
    requires OutViewOf(s).listening || s.Cur().out.closed
    ensures var s' := Hangup(s, d);
            var l := s.Cur().out.(closed := true);
            && OutViewOf(s') == OutViewOf(s).(rx := d.rx, listening := false, lane := l, count := d.close.value)
            && InViewOf(s') == InViewOf(s).(tx := d.tx, sending := false)
            && s'.conns == s.conns[|s.conns| - 1 := s.Cur().(out := l)] && s' == s.(conns := s'.conns, dev := d)
  {
    if s.dev.inTask.Vacant? {
      var l := s.Cur().out.(closed := true);
      assert l == s.Cur().out && s.conns == s.conns[|s.conns| - 1 := s.Cur().(out := l)];
    }
  }

  lemma AbortKeeps(s: State, d: Control)
    requires SystemInv(s) && Aborted(s.dev, d) && Negotiating(s.host, d, s.hostUsize)
    ensures SystemInv(Hangup(s, d)) && Hangup(s, d).host == s.host
  {
    if s.conns != [] {
      var k := s.Cur();
      HangupViews(s, d);
      hide Hangup, OutViewOf, InViewOf, Negotiating;
      assert ConnOk(k, s.t);
      Closed(k, s.t);
      OutHang(OutViewOf(s), d.rx, k.out.(closed := true), d.close.value, s.mps, s.t);
      InQuit(InViewOf(s), d.tx, 0, s.mps, s.t);
    }
  }

  lemma HostCloseKeeps(s: State, reset: Reset, served: bool)
    requires SystemInv(s) && CanHostClose(s, reset, served)
    ensures SystemInv(DoHostClose(s, reset, served))
  {
    hide SystemInv, Hangup, Step, Aborted;
    TaskGoneKeeps(s);
    if served {
      InvDev(s);
      AbortStep(s.dev, Close(reset));
      AbortKeeps(TaskGone(s), Step(s.dev, Close(reset), true).control);
    }
  }

  lemma InvDev(s: State)
    requires SystemInv(s)
    ensures Inv(s.dev)
  {
  }

  /** A turn of the device's loop that touches neither sub-task nor endpoint. */
  predicate Quiet(c: Control, d: Control) {
    && Inv(d) && |d.errors| == |c.errors| && d.close == c.close && d.tx == c.tx && d.rx == c.rx
    && d.sendOpen == c.sendOpen && d.recvOpen == c.recvOpen
  }

  lemma QuietStep(c: Control, e: Event)
    requires Inv(c) && Enabled(c, e) && Step(c, e, true).Next?
    requires e.PollTasks? || e.Enable? || e.SetCaps? || e.GetCaps? || e.GetStatus?
    ensures Quiet(c, Step(c, e, true).control)
    ensures !e.SetCaps? ==> Step(c, e, true).control.hostCaps == if e.Enable? then DEFAULT_HOST_CAPS else c.hostCaps
  {
    InvStep(c, e, true);
  }

  lemma QuietKeeps(s: State, d: Control)
    requires SystemInv(s) && Quiet(s.dev, d) && Negotiating(s.host, d, s.hostUsize)
    ensures SystemInv(s.(dev := d))
  {
    hide Negotiating;
    var s' := s.(dev := d);
    if s.conns != [] {
      assert OutViewOf(s') == OutViewOf(s) && InViewOf(s') == InViewOf(s);
    }
  }

  lemma HostStatusKeeps(s: State, now: nat, served: bool)
    requires SystemInv(s) && CanHostStatus(s, now, served)
    ensures SystemInv(DoHostStatus(s, now, served))
  {
    hide Negotiating, OutGood, InGood, ConnOk, Step;
    var s' := DoHostStatus(s, now, served);
    Unsettled(s'.host, s'.dev, s.hostUsize);
    if served {
      StatusReply(s.dev, now);
      QuietStep(s.dev, GetStatus(now));
      Unsettled(s.host, s'.dev, s.hostUsize);
    }
    assert InViewOf(s') == InViewOf(s) && OutViewOf(s') == OutViewOf(s);
  }

  lemma StatusReply(c: Control, now: nat)
    ensures Step(c, GetStatus(now), true).Next?
    ensures RECV_CLOSED in Step(c, GetStatus(now), true).reply ==> !c.recvOpen
  {
    hide CapsReply;
  }

  lemma CrashConn(k: Conn, t: nat)
    requires t > 0 && ConnOk(k, t)
    ensures ConnOk(k.(out := k.out.(senderGone := true), inn := k.inn.(receiverGone := true)), t)
  {
    hide TermsOk;
    assert Received(k.out.(senderGone := true), t) == Received(k.out, t);
    assert Received(k.inn.(receiverGone := true), t) == Received(k.inn, t);
  }

  lemma CrashViews(s: State)
    requires s.Attached() && s.host.conn + 1 == |s.conns|
    ensures var s' := DoHostCrash(s);
            && OutViewOf(s') == OutViewOf(s).(wire := [], live := false, intact := false, active := false, total := 0,
                                              lane := s.Cur().out.(senderGone := true))
            && InViewOf(s') == InViewOf(s).(live := false, lane := s.Cur().inn.(receiverGone := true))
            && s'.conns == s.conns[|s.conns| - 1 := s.Cur().(out := s.Cur().out.(senderGone := true),
                                                             inn := s.Cur().inn.(receiverGone := true))]
            && s' == s.(conns := s'.conns, host := s'.host) && HostOk(s'.host) && s'.host.phase == Idle
            && OutViewOf(s).lane == s.Cur().out && InViewOf(s).lane == s.Cur().inn
            && InViewOf(s).tx == s.dev.tx && InViewOf(s).sending == s.dev.outTask.Task? && InViewOf(s).stalled == s.Cur().stalled
  {
  }

  lemma CrashLane(l: Lane, t: nat)
    ensures SameLane(l, l.(senderGone := true), t)
  {
  }

  lemma HostCrashKeeps(s: State)
    requires SystemInv(s) && s.Attached()
    ensures SystemInv(DoHostCrash(s))
  {
    hide OutGood, InGood, ConnOk, Inv, Negotiating, OutViewOf, InViewOf, DoHostCrash, SameLane, HostOk;
    OutFacts(s);
    InFacts(s);
    CrashViews(s);
    var k, v, w := s.Cur(), OutViewOf(s), InViewOf(s);
    Unsettled(DoHostCrash(s).host, s.dev, s.hostUsize);
    CrashConn(k, s.t);
    CrashLane(k.out, s.t);
    OutLose(v, [], false, 0, k.out.(senderGone := true), s.mps, s.t);
    InLeave(w, w.tx.fifo, w.filling, k.inn.(receiverGone := true), w.stalled, s.mps, s.t);
  }

  // ------------------------------------------------------------- connecting

  lemma ClaimKeeps(s: State)
    requires SystemInv(s) && CanClaim(s)
    ensures SystemInv(DoClaim(s))
  {
    hide Negotiating, OutGood, InGood, ConnOk;
    Unsettled(DoClaim(s).host, s.dev, s.hostUsize);
    var s' := DoClaim(s);
    if s.conns != [] {
      var v, w := OutViewOf(s), InViewOf(s);
      InFacts(s);
      OutLose(v, [], false, 0, v.lane, s.mps, s.t);
      InLeave(w, w.tx.fifo, w.filling, w.lane, w.stalled, s.mps, s.t);
      assert OutViewOf(s') == v.(wire := [], live := false, intact := false, active := false, total := 0);
      assert InViewOf(s') == w.(live := false);
    }
  }

  /** A step of the connection set-up, while the host serves no connection. */
  lemma SetupKeeps(s: State, h: Host)
    requires SystemInv(s) && s.host.phase != Running && h.phase != Running
    requires h == s.host.(phase := h.phase, answer := h.answer, sendMax := h.sendMax, recvMax := h.recvMax, told := h.told)
    requires Negotiating(h, s.dev, s.hostUsize)
    ensures SystemInv(s.(host := h))
  {
    hide Negotiating;
    var s' := s.(host := h);
    if s.conns != [] {
      assert OutViewOf(s') == OutViewOf(s) && InViewOf(s') == InViewOf(s);
    }
  }

  lemma GiveUpKeeps(s: State)
    requires SystemInv(s) && s.host.phase != Running
    ensures SystemInv(s.(host := s.host.(phase := Idle)))
  {
    SetupKeeps(s, s.host.(phase := Idle));
  }

  lemma ConnectCloseKeeps(s: State, reset: Reset, served: bool)
    requires SystemInv(s) && CanConnectClose(s, reset, served)
    ensures SystemInv(DoConnectClose(s, reset, served))
  {
    hide SystemInv, Hangup, Step;
    if served {
      var d := Step(s.dev, Close(reset), true).control;
      InvDev(s);
      AbortStep(s.dev, Close(reset));
      AbortKeeps(s, d);
      HangupDev(s, d);
      var h := s.host.(phase := Phase.Reset);
      SetupKeeps(Hangup(s, d), h);
      HangupHost(s, d, h);
    } else {
      GiveUpKeeps(s);
    }
  }

  lemma HangupDev(s: State, d: Control)
    ensures Hangup(s, d).dev == d && Hangup(s, d).hostUsize == s.hostUsize && Hangup(s, d).host == s.host
  {
  }

  lemma HangupHost(s: State, d: Control, h: Host)
    ensures Hangup(s.(host := h), d) == Hangup(s, d).(host := h)
  {
  }

  lemma FlushKeeps(s: State)
    requires SystemInv(s) && s.host.phase == Phase.Reset
    ensures SystemInv(DoFlush(s))
  {
    if s.conns != [] {
      InLeave(InViewOf(s), [], [], s.Cur().inn, s.Cur().stalled, s.mps, s.t);
    }
  }

  lemma OpenStep(c: Control, topic: Bytes, cfgMax: nat, now: nat)
    requires Inv(c) && !c.Open() && c.mps.Some?
    ensures var o := Step(c, Event.Open(Some(topic), cfgMax, now), true);
            && o.Next? && Inv(o.control) && |o.control.errors| == |c.errors| + 1
            && o.control.inTask.Task? && o.control.outTask.Task? && o.control.close.value.None?
            && o.control.tx == c.tx && o.control.rx == RxEnd([], [], c.rx.halted)
            && |o.control.limits| == |c.limits| + 1
            && o.control.limits[|c.limits|].sendMax == DeviceSendLimit(c.hostCaps, c.usize)
            && o.control.limits[|c.limits|].recvMax == ToUsize(cfgMax, c.usize)
  {
    InvStep(c, Event.Open(Some(topic), cfgMax, now), true);
  }

  /** The answer to the query decodes to what the device has. */
  lemma ConnectQueryKeeps(s: State, cfgPing: Option<nat>, cfgMax: nat, served: bool, acked: bool)
    requires SystemInv(s) && CanConnectQuery(s, cfgPing, cfgMax, served)
    ensures SystemInv(DoConnectQuery(s, cfgPing, cfgMax, served, acked))
  {
    hide SystemInv, Step, CapsReply, EncodeDevice, DecodeDevice;
    var s' := DoConnectQuery(s, cfgPing, cfgMax, served, acked);
    AnsweredLimit(DeviceCaps(cfgPing, true, true, cfgMax), s.hostUsize);
    QueryReply(s.dev, cfgPing, cfgMax);
    InvNegotiating(s);
    if served {
      InvDev(s);
      QuietStep(s.dev, GetCaps(cfgPing, cfgMax));
      QuietKeeps(s, s'.dev);
      SetupKeeps(s.(dev := s'.dev), s'.host);
    } else {
      SetupKeeps(s, s'.host);
    }
  }

  lemma QueryReply(c: Control, cfgPing: Option<nat>, cfgMax: nat)
    ensures Step(c, GetCaps(cfgPing, cfgMax), true).Next?
    ensures Step(c, GetCaps(cfgPing, cfgMax), true).reply == EncodeDevice(DeviceCaps(cfgPing, true, true, cfgMax))
    ensures Step(c, GetCaps(cfgPing, cfgMax), true).control == c.(pingTimeout := cfgPing)
  {
    hide EncodeDevice;
  }

  lemma InvNegotiating(s: State)
    requires SystemInv(s)
    ensures Negotiating(s.host, s.dev, s.hostUsize)
  {
  }

  lemma ConnectAnnounceKeeps(s: State, recvMax: nat, served: bool)
    requires SystemInv(s) && CanConnectAnnounce(s, recvMax, served)
    ensures SystemInv(DoConnectAnnounce(s, recvMax, served))
  {
    hide SystemInv, Step, EncodeHost, DecodeHost;
    var h := s.host.(phase := Announced, recvMax := recvMax, told := served);
    InvNegotiating(s);
    if served {
      InvDev(s);
      AnnounceStep(s.dev, recvMax);
      var d := Step(s.dev, SetCaps(Some(EncodeHost(HostCaps(recvMax)))), true).control;
      // The device is ahead of the host for a moment.
      DevHeard(s, d, h);
    } else {
      SetupKeeps(s, h);
    }
  }

  lemma AnnounceStep(c: Control, recvMax: nat)
    requires Inv(c) && recvMax < TWO_TO_THE_64
    ensures var o := Step(c, SetCaps(Some(EncodeHost(HostCaps(recvMax)))), true);
            o.Next? && Quiet(c, o.control) && o.control == c.(hostCaps := HostCaps(recvMax))
  {
    HostRoundTrip(HostCaps(recvMax));
    hide EncodeHost, DecodeHost;
    InvStep(c, SetCaps(Some(EncodeHost(HostCaps(recvMax)))), true);
  }

  lemma DevHeard(s: State, d: Control, h: Host)
    requires SystemInv(s) && s.host.phase == Queried && Quiet(s.dev, d) && d == s.dev.(hostCaps := d.hostCaps)
    requires h == s.host.(phase := Announced, recvMax := h.recvMax, told := true) && d.hostCaps == HostCaps(h.recvMax)
    ensures SystemInv(s.(dev := d, host := h))
  {
    var s' := s.(dev := d, host := h);
    if s.conns != [] {
      assert OutViewOf(s') == OutViewOf(s) && InViewOf(s') == InViewOf(s);
    }
  }

  lemma FreshOk(k: Conn, t: nat)
    requires t > 0 && k.out == FRESH && k.inn == FRESH && k.drained.None? && !k.flushed && TermsOk(k.terms)
    ensures ConnOk(k, t)
  {
    hide TermsOk;
    assert 0 % t == 0;
  }

  /** What a served OPEN makes of the state. */
  lemma OpenState(s: State, topic: Bytes, cfgMax: nat, now: nat, acked: bool)
    requires Inv(s.dev) && Negotiating(s.host, s.dev, s.hostUsize) && CanConnectOpen(s, topic, cfgMax, now, true)
    ensures var s' := DoConnectOpen(s, topic, cfgMax, now, true, acked);
            && s'.mps == s.mps && s'.t == s.t && s'.hostUsize == s.hostUsize && Inv(s'.dev) && |s'.dev.errors| == |s.dev.errors| + 1
            && |s'.conns| == |s.conns| + 1 && s'.conns == s.conns + [s'.Cur()]
            && s'.Cur() == Conn(FRESH, FRESH, s'.Cur().terms, None, false, false) && TermsOk(s'.Cur().terms)
            && s'.received == 0 && s'.dev.close.value.None? && s'.dev.rx == RxEnd([], [], false) && s'.dev.tx == TxEnd([], [], false)
            && s'.dev.inTask.Task? && s'.dev.outTask.Task?
  {
    hide Step, Enabled;
    OpenStep(s.dev, topic, cfgMax, now);
  }

  lemma OpenHost(s: State, topic: Bytes, cfgMax: nat, now: nat, acked: bool)
    requires HostOk(s.host) && Negotiating(s.host, s.dev, s.hostUsize) && CanConnectOpen(s, topic, cfgMax, now, true)
    ensures var h := DoConnectOpen(s, topic, cfgMax, now, true, acked).host;
            && HostOk(h) && h.filling == [] && h.wire == [] && (h.phase == Running <==> acked) && (h.phase == Running || h.phase == Idle)
            && (acked ==> h.conn == |s.conns| && h.outTask.Live? && h.inTask.Live? && h.clean && h.total == 0 && !h.recvClosed)
            && (!acked ==> h == s.host.(phase := Idle) && !h.outTask.Live? && !h.inTask.Live?)
  {
    hide Step, Enabled;
  }

  lemma FreshViews(s: State)
    requires s.conns != [] && s.Cur() == Conn(FRESH, FRESH, s.Cur().terms, None, false, false)
    requires s.received == 0 && s.dev.close.value.None? && s.dev.rx == RxEnd([], [], false) && s.dev.tx == TxEnd([], [], false)
    requires s.dev.inTask.Task? && s.dev.outTask.Task? && s.host.filling == [] && s.host.wire == []
    requires s.host.phase == Running <==> s.host.outTask.Live?
    requires s.host.outTask.Live? <==> s.host.inTask.Live?
    ensures var acked := s.host.phase == Running;
            && OutViewOf(s) == OutView(FRESH, acked, acked, acked || s.host.clean, [], s.host.total, s.dev.rx, true, None, 0)
            && InViewOf(s) == InView(FRESH, true, s.dev.tx, acked, [], false, false)
  {
  }

  lemma ConnsMore(conns: seq<Conn>, k: Conn, t: nat)
    requires t > 0 && ConnsOk(conns, t) && ConnOk(k, t)
    ensures ConnsOk(conns + [k], t)
  {
    hide ConnOk;
  }

  lemma ConnectOpenKeeps(s: State, topic: Bytes, cfgMax: nat, now: nat, served: bool, acked: bool)
    requires SystemInv(s) && CanConnectOpen(s, topic, cfgMax, now, served)
    ensures SystemInv(DoConnectOpen(s, topic, cfgMax, now, served, acked))
  {
    hide Step, Enabled, ConnOk, OutGood, InGood, DoConnectOpen, CanConnectOpen, Negotiating, OutViewOf, InViewOf, Inv, HostOk, ConnsOk;
    var s' := DoConnectOpen(s, topic, cfgMax, now, served, acked);
    if served {
      OpenState(s, topic, cfgMax, now, acked);
      OpenHost(s, topic, cfgMax, now, acked);
      FreshOk(s'.Cur(), s.t);
      ConnsMore(s.conns, s'.Cur(), s.t);
      FreshViews(s');
      OutFresh(acked, acked || s'.host.clean, s'.host.total, s'.dev.rx, s.mps, s.t);
      InFresh(acked, s'.dev.tx, s.mps, s.t);
      Unsettled(s'.host, s'.dev, s.hostUsize);
    } else {
      RefusedOpen(s, topic, cfgMax, now, acked);
      GiveUpKeeps(s);
    }
  }

  lemma RefusedOpen(s: State, topic: Bytes, cfgMax: nat, now: nat, acked: bool)
    requires CanConnectOpen(s, topic, cfgMax, now, false)
    ensures DoConnectOpen(s, topic, cfgMax, now, false, acked) == s.(host := s.host.(phase := Idle)) && s.host.phase != Running
  {
  }

  // ----------------------------------------------------------------- device

  lemma DevTakeKeeps(s: State)
    requires SystemInv(s) && CanDevTake(s)
    ensures SystemInv(DoDevTake(s))
  {
    var s' := DoDevTake(s);
    var v := InViewOf(s);
    InTake(v, s.mps, s.t);
    assert InViewOf(s') == InTaken(v, s.mps, s.t);
    assert OutViewOf(s') == OutViewOf(s);
    assert Received(s'.Cur().inn, s.t) == Received(s.Cur().inn, s.t);
    assert ConnOk(s.Cur(), s.t);
    assert ConnOk(s'.Cur(), s.t);
  }

  lemma DevTransmitKeeps(s: State)
    requires SystemInv(s) && CanDevTransmit(s)
    ensures SystemInv(DoDevTransmit(s))
  {
    if s.conns != [] {
      InTransmit(InViewOf(s), s.mps, s.t);
      assert InViewOf(DoDevTransmit(s)) == InTransmitted(InViewOf(s));
      assert OutViewOf(DoDevTransmit(s)) == OutViewOf(s);
    }
  }

  lemma DevOutEndKeeps(s: State, fine: bool, keep: nat)
    requires SystemInv(s) && CanDevOutEnd(s, fine, keep)
    ensures SystemInv(DoDevOutEnd(s, fine, keep))
  {
    var s' := DoDevOutEnd(s, fine, keep);
    var v := InViewOf(s);
    InvStep(s.dev, OutDone, true);
    if fine {
      InFlush(v, s'.dev.tx, s.mps, s.t);
    } else {
      InQuit(v, s'.dev.tx, keep, s.mps, s.t);
    }
    assert InViewOf(s') == v.(tx := s'.dev.tx, sending := false, flushed := fine);
    assert OutViewOf(s') == OutViewOf(s);
    assert ConnOk(s.Cur(), s.t);
    assert ConnOk(s'.Cur(), s.t);
  }

  lemma ArriveConn(k: Conn, v: OutView, mps: nat, t: nat)
    requires Sizes(mps, t) && ConnOk(k, t) && OutGood(v, mps, t) && v.lane == k.out && v.listening && v.rx.fifo != []
    ensures OutGood(Arrived(v, mps, t), mps, t) && ConnOk(k.(out := Arrived(v, mps, t).lane), t)
  {
    var v' := Arrived(v, mps, t);
    OutArrive(v, mps, t);
    ArriveLaneOk(k.out, v.rx.filling, v.rx.fifo[0], v'.rx.fifo + (v'.wire + FrameAll(OutQueue(v'), mps)), mps, t, SendLimit(k, Outward));
  }

  lemma DevArriveViews(s: State)
    requires CanDevArrive(s) && s.dev.inTask.conn + 1 == |s.conns|
    ensures var s' := DoDevArrive(s);
            && s'.conns == s.conns[|s.conns| - 1 := s.Cur().(out := Arrived(OutViewOf(s), s.mps, s.t).lane)]
            && OutViewOf(s') == Arrived(OutViewOf(s), s.mps, s.t)
            && InViewOf(s') == InViewOf(s)
            && s'.dev == s.dev.(rx := s'.dev.rx) && s' == s.(conns := s'.conns, dev := s'.dev, received := s'.received)
  {
  }

  /** A turn that leaves the directions open and the announcement alone. */
  lemma OpenIdles(s: State, d: Control)
    requires SystemInv(s) && s.dev.Open()
    ensures Negotiating(s.host, d, s.hostUsize)
  {
    OpenFacts(s);
    Unsettled(s.host, d, s.hostUsize);
  }

  lemma DevArriveKeeps(s: State)
    requires SystemInv(s) && CanDevArrive(s)
    ensures SystemInv(DoDevArrive(s))
  {
    hide ConnOk, OutGood, InGood, DoDevArrive, Negotiating, Arrive, Filled;
    OpenFacts(s);
    OpenIdles(s, DoDevArrive(s).dev);
    ArriveConn(s.Cur(), OutViewOf(s), s.mps, s.t);
    DevArriveViews(s);
  }

  lemma DrainedConn(k: Conn, v: OutView, drained: Option<nat>, mps: nat, t: nat)
    requires Sizes(mps, t) && ConnOk(k, t) && OutGood(v, mps, t) && v.lane == k.out && v.listening
    requires drained.Some? ==> v.count == Some(v.received % TWO_TO_THE_64)
    requires drained.Some? ==> drained.value == |v.rx.filling| + Total(v.rx.fifo)
    ensures ConnOk(k.(out := k.out.(closed := true), drained := drained), t)
  {
    Closed(k, t);
    if drained.Some? {
      assert InFlight(v) == drained.value;
      if InFlight(v) < TWO_TO_THE_64 {
        OutDrained(v, mps, t);
      }
    }
    assert Received(k.out.(closed := true), t) == Received(k.out, t);
  }

  lemma InDoneStep(c: Control, res: InResult)
    requires Inv(c) && Enabled(c, InDone(res))
    ensures var o := Step(c, InDone(res), true);
            && o.Next? && Inv(o.control) && |o.control.errors| == |c.errors|
            && o.control.inTask.Vacant? && o.control.outTask == c.outTask && o.control.close.value.None?
            && o.control.tx == c.tx && o.control.rx.fifo == c.rx.fifo && o.control.rx.filling == []
            && o.control.sendOpen == c.sendOpen && !o.control.recvOpen
  {
    InvStep(c, InDone(res), true);
  }

  lemma DevInEndViews(s: State, res: InResult)
    requires Inv(s.dev) && CanDevInEnd(s, res) && |s.conns| == |s.dev.errors|
    ensures var s' := DoDevInEnd(s, res);
            && OutViewOf(s') == OutViewOf(s).(rx := s'.dev.rx, listening := false, count := None,
                                              lane := s.Cur().out.(closed := true))
            && InViewOf(s') == InViewOf(s)
            && s'.conns == s.conns[|s.conns| - 1 := s.Cur().(out := s.Cur().out.(closed := true), drained := s'.Cur().drained)]
            && s' == s.(conns := s'.conns, dev := s'.dev) && s'.dev == Step(s.dev, InDone(res), true).control
            && OutViewOf(s).lane == s.Cur().out
  {
    hide Step, Enabled;
    InDoneStep(s.dev, res);
  }

  /** What a turn of the device's own may rely on. */
  lemma OpenFacts(s: State)
    requires SystemInv(s) && s.dev.Open()
    ensures s.conns != [] && |s.conns| == |s.dev.errors| && Inv(s.dev) && s.Sizable()
    ensures OutGood(OutViewOf(s), s.mps, s.t) && WireOk(s.dev.rx.fifo, s.mps) && 0 % s.mps == 0
    ensures s.host.phase == Running || s.host.phase == Idle || s.host.phase == Claimed
  {
    hide Sealed, OutArriving, ConnOk;
    RxBounds(OutViewOf(s), s.mps, s.t);
  }

  lemma DevInEndKeeps(s: State, res: InResult)
    requires SystemInv(s) && CanDevInEnd(s, res)
    ensures SystemInv(DoDevInEnd(s, res))
  {
    hide ConnOk, OutGood, InGood, Step, InViewOf, OutViewOf, DoDevInEnd, Negotiating;
    var s' := DoDevInEnd(s, res);
    OpenFacts(s);
    InDoneStep(s.dev, res);
    InEndDrains(s, res);
    DevInEndViews(s, res);
    // The device was open, so the host was not setting up a connection.
    Unsettled(s.host, s'.dev, s.hostUsize);
    OutHang(OutViewOf(s), s'.dev.rx, s.Cur().out.(closed := true), None, s.mps, s.t);
  }

  lemma RxBounds(v: OutView, mps: nat, t: nat)
    requires Sizes(mps, t) && OutGood(v, mps, t)
    ensures WireOk(v.rx.fifo, mps) && 0 % mps == 0
  {
  }

  lemma InEndDrains(s: State, res: InResult)
    requires SystemInv(s) && CanDevInEnd(s, res)
    ensures var s' := DoDevInEnd(s, res);
            ConnOk(s.Cur().(out := s.Cur().out.(closed := true), drained := s'.Cur().drained), s.t)
  {
    hide ConnOk, InGood, Step;
    DrainedConn(s.Cur(), OutViewOf(s), DoDevInEnd(s, res).Cur().drained, s.mps, s.t);
  }

  lemma DevOtherKeeps(s: State, e: Event)
    requires SystemInv(s) && CanDevOther(s, e)
    ensures SystemInv(DoDevOther(s, e))
  {
    hide Hangup, Step, Aborted, Quiet, OutGood, InGood, ConnOk;
    var h := if e.Disable? || e.Enable? then s.host.(told := false) else s.host;
    var d := Step(s.dev, e, true).control;
    // What the host believes may be out of date before the event as well as after it.
    if e.Timer? || e.Disable? {
      AbortStep(s.dev, e);
      AbortedNegotiating(s, e);
      AbortForgets(s, d, h);
    } else {
      QuietStep(s.dev, e);
      QuietForgets(s, d, h);
    }
  }

  lemma AbortedNegotiating(s: State, e: Event)
    requires SystemInv(s) && CanDevOther(s, e) && (e.Timer? || e.Disable?)
    ensures var h := if e.Disable? then s.host.(told := false) else s.host;
            Negotiating(h, Step(s.dev, e, true).control, s.hostUsize)
  {
    AbortStep(s.dev, e);
    hide Step;
  }

  lemma AbortForgets(s: State, d: Control, h: Host)
    requires SystemInv(s) && Aborted(s.dev, d) && h == s.host.(told := h.told) && Negotiating(h, d, s.hostUsize)
    ensures SystemInv(Hangup(s.(host := h), d))
  {
    // The phase and what was told do not matter to what flows.
    var idle := if s.host.phase == Running then s.host else s.host.(phase := Idle);
    if s.host.phase != Running {
      GiveUpKeeps(s);
      AbortKeeps(s.(host := idle), d);
      HangupDev(s.(host := idle), d);
      SetupKeeps(Hangup(s.(host := idle), d), h);
      HangupHost(s, d, idle);
      HangupHost(s, d, h);
    } else {
      AbortKeeps(s, d);
      HangupDev(s, d);
      ToldKeeps(Hangup(s, d), h);
      HangupHost(s, d, h);
    }
  }

  lemma ToldKeeps(s: State, h: Host)
    requires SystemInv(s) && s.host.phase == Running && h == s.host.(told := h.told)
    ensures SystemInv(s.(host := h))
  {
    var s' := s.(host := h);
    if s.conns != [] {
      assert OutViewOf(s') == OutViewOf(s) && InViewOf(s') == InViewOf(s);
    }
  }

  lemma QuietForgets(s: State, d: Control, h: Host)
    requires SystemInv(s) && Quiet(s.dev, d) && h == s.host.(told := h.told) && Negotiating(h, d, s.hostUsize)
    ensures SystemInv(s.(dev := d, host := h))
  {
    var s' := s.(dev := d, host := h);
    if s.conns != [] {
      assert OutViewOf(s') == OutViewOf(s) && InViewOf(s') == InViewOf(s);
    }
  }

  lemma DevStopKeeps(s: State)
    requires SystemInv(s)
    ensures SystemInv(DoDevStop(s))
  {
    UpKeeps(s);
    var n := s.(up := false);
    AbortItself(s.dev);
    AbortKeeps(n, Abort(s.dev));
  }

  lemma UpKeeps(s: State)
    requires SystemInv(s)
    ensures SystemInv(s.(up := false))
  {
    var s' := s.(up := false);
    if s.conns != [] {
      assert OutViewOf(s') == OutViewOf(s) && InViewOf(s') == InViewOf(s);
    }
  }

  lemma StatusEndKeeps(s: State)
    requires SystemInv(s)
    ensures SystemInv(DoHostStatusEnd(s))
  {
    var s' := DoHostStatusEnd(s);
    if s.conns != [] {
      assert OutViewOf(s') == OutViewOf(s) && InViewOf(s') == InViewOf(s);
    }
  }

  lemma ConnectAbortKeeps(s: State)
    requires SystemInv(s) && CanAbort(s)
    ensures SystemInv(DoAbort(s))
  {
    GiveUpKeeps(s);
  }

  predicate IsSending(a: Action) {
    a.Send? || a.DropSender? || a.Receive? || a.DropReceiver? || a.HostTake? || a.HostTransmit? || a.HostFail?
    || a.HostOutStop? || a.HostDrained?
  }

  lemma SendingKeeps(s: State, a: Action)
    requires SystemInv(s) && CanDo(s, a) && IsSending(a)
    ensures SystemInv(Do(s, a))
  {
    hide SystemInv, CanSend, DoSend, DoDrop, CanReceive, DoReceive, CanHostTake, DoHostTake, CanHostTransmit,
      DoHostTransmit, CanHostFail, DoHostFail, CanHostOutStop, DoHostOutStop, CanHostDrained, DoHostDrained;
    match a {
      case Send(c, dir, m) => SendKeeps(s, c, dir, m);
      case DropSender(c, dir) => DropKeeps(s, c, dir, true);
      case Receive(c, dir) => ReceiveKeeps(s, c, dir);
      case DropReceiver(c, dir) => DropKeeps(s, c, dir, false);
      case HostTake => HostTakeKeeps(s);
      case HostTransmit => HostTransmitKeeps(s);
      case HostFail => HostFailKeeps(s);
      case HostOutStop(eof) => HostOutStopKeeps(s, eof);
      case HostDrained => HostDrainedKeeps(s);
    }
  }

  predicate IsHosting(a: Action) {
    a.HostArrive? || a.HostAbsorb? || a.HostInStop? || a.HostStatus? || a.HostStatusEnd? || a.HostCrash?
    || a.HostMark? || a.HostClose?
  }

  lemma HostingKeeps(s: State, a: Action)
    requires SystemInv(s) && CanDo(s, a) && IsHosting(a)
    ensures SystemInv(Do(s, a))
  {
    hide SystemInv, CanHostArrive, DoHostArrive, CanHostAbsorb, DoHostAbsorb, CanHostInStop, DoHostInStop,
      CanHostStatus, DoHostStatus, CanHostStatusEnd, DoHostStatusEnd, DoHostCrash, CanHostMark, DoHostMark,
      CanHostClose, DoHostClose;
    match a {
      case HostArrive => HostArriveKeeps(s);
      case HostAbsorb => HostAbsorbKeeps(s);
      case HostInStop(why) => HostInStopKeeps(s, why);
      case HostStatus(now, served) => HostStatusKeeps(s, now, served);
      case HostStatusEnd => StatusEndKeeps(s);
      case HostCrash => HostCrashKeeps(s);
      case HostMark(dir, served) => HostMarkKeeps(s, dir, served);
      case HostClose(reset, served) => HostCloseKeeps(s, reset, served);
    }
  }

  predicate IsResetting(a: Action) {
    a.ConnectClaim? || a.ConnectClose? || a.ConnectFlush? || a.ConnectAbort?
  }

  lemma ResettingKeeps(s: State, a: Action)
    requires SystemInv(s) && CanDo(s, a) && IsResetting(a)
    ensures SystemInv(Do(s, a))
  {
    hide SystemInv, CanClaim, DoClaim, CanConnectClose, DoConnectClose, DoFlush, CanAbort, DoAbort;
    match a {
      case ConnectClaim => ClaimKeeps(s);
      case ConnectClose(reset, served) => ConnectCloseKeeps(s, reset, served);
      case ConnectFlush => FlushKeeps(s);
      case ConnectAbort => ConnectAbortKeeps(s);
    }
  }

  predicate IsConnecting(a: Action) {
    a.ConnectQuery? || a.ConnectAnnounce? || a.ConnectOpen?
  }

  lemma ConnectingKeeps(s: State, a: Action)
    requires SystemInv(s) && CanDo(s, a) && IsConnecting(a)
    ensures SystemInv(Do(s, a))
  {
    hide SystemInv, CanConnectQuery, DoConnectQuery, CanConnectAnnounce, DoConnectAnnounce, CanConnectOpen, DoConnectOpen;
    match a {
      case ConnectQuery(cfgPing, cfgMax, served, acked) => ConnectQueryKeeps(s, cfgPing, cfgMax, served, acked);
      case ConnectAnnounce(recvMax, served) => ConnectAnnounceKeeps(s, recvMax, served);
      case ConnectOpen(topic, cfgMax, now, served, acked) => ConnectOpenKeeps(s, topic, cfgMax, now, served, acked);
    }
  }

  predicate IsMoving(a: Action) {
    a.DevTake? || a.DevTransmit? || a.DevArrive? || a.DevOutEnd? || a.DevInEnd?
  }

  lemma MovingKeeps(s: State, a: Action)
    requires SystemInv(s) && CanDo(s, a) && IsMoving(a)
    ensures SystemInv(Do(s, a))
  {
    hide SystemInv, CanDevTake, DoDevTake, CanDevTransmit, DoDevTransmit, CanDevOutEnd, DoDevOutEnd, CanDevArrive,
      DoDevArrive, CanDevInEnd, DoDevInEnd;
    match a {
      case DevTake => DevTakeKeeps(s);
      case DevTransmit => DevTransmitKeeps(s);
      case DevArrive => DevArriveKeeps(s);
      case DevOutEnd(fine, keep) => DevOutEndKeeps(s, fine, keep);
      case DevInEnd(res) => DevInEndKeeps(s, res);
    }
  }

  predicate IsLooping(a: Action) {
    a.DevOther? || a.DevStop? || a.DevHang?
  }

  lemma LoopingKeeps(s: State, a: Action)
    requires SystemInv(s) && CanDo(s, a) && IsLooping(a)
    ensures SystemInv(Do(s, a))
  {
    hide SystemInv, CanDevOther, DoDevOther, DoDevStop, CanDevHang;
    match a {
      case DevOther(e) => DevOtherKeeps(s, e);
      case DevStop => DevStopKeeps(s);
      case DevHang(_) => UpKeeps(s);
    }
  }

  /** Every action keeps the invariant. */
  lemma Keeps(s: State, a: Action)
    requires SystemInv(s) && CanDo(s, a)
    ensures SystemInv(Do(s, a))
  {
    hide SystemInv, CanDo, Do;
    if IsSending(a) {
      SendingKeeps(s, a);
    } else if IsHosting(a) {
      HostingKeeps(s, a);
    } else if IsResetting(a) {
      ResettingKeeps(s, a);
    } else if IsConnecting(a) {
      ConnectingKeeps(s, a);
    } else if IsMoving(a) {
      MovingKeeps(s, a);
    } else {
      LoopingKeeps(s, a);
    }
  }

  /** Every reachable state of the system satisfies the invariant. */
  lemma {:induction false} Reachable(s: State, actions: seq<Action>)
    requires SystemInv(s)
    ensures SystemInv(Run(s, actions))
    decreases |actions|
  {
    if actions != [] {
      if CanDo(s, actions[0]) {
        Keeps(s, actions[0]);
        Reachable(Do(s, actions[0]), actions[1..]);
      } else {
        Reachable(s, actions[1..]);
      }
    }
  }

  /** Some run of the system leads here. */
  ghost predicate IsReachable(s: State) {
    exists mps: nat, hostUsize: nat, usize: nat, actions: seq<Action> ::
      mps > 0 && s == Run(Start(mps, hostUsize, usize), actions)
  }

  lemma ReachableInv(s: State)
    requires IsReachable(s)
    ensures SystemInv(s)
  {
    hide SystemInv;
    var mps: nat, hostUsize: nat, usize: nat, actions: seq<Action> :|
      mps > 0 && s == Run(Start(mps, hostUsize, usize), actions);
    StartOk(mps, hostUsize, usize);
    Reachable(Start(mps, hostUsize, usize), actions);
  }

  lemma {:induction false} RunMore(s: State, a: seq<Action>, b: seq<Action>)
    ensures Run(s, a + b) == Run(Run(s, a), b)
    decreases |a|
  {
    hide CanDo, Do;
    if a == [] {
      assert a + b == b;
    } else {
      assert (a + b)[1..] == a[1..] + b && (a + b)[0] == a[0];
      RunMore(if CanDo(s, a[0]) then Do(s, a[0]) else s, a[1..], b);
    }
  }

  lemma ReachableRun(s: State, actions: seq<Action>)
    requires IsReachable(s)
    ensures IsReachable(Run(s, actions))
  {
    var mps: nat, hostUsize: nat, usize: nat, before: seq<Action> :|
      mps > 0 && s == Run(Start(mps, hostUsize, usize), before);
    RunMore(Start(mps, hostUsize, usize), before, actions);
  }

  lemma RunOne(s: State, a: Action)
    requires CanDo(s, a)
    ensures Run(s, [a]) == Do(s, a)
  {
    hide CanDo, Do;
    assert [a][1..] == [];
  }
}
