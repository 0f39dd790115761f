/**
  What each direction of the newest connection looks like from its sending channel to its
  receiving application, and how every step of host and device changes it.
 */
module Flow {
  import opened Prelude
  import opened Framing
  import opened DeviceControl
  import opened Pipeline

  // ------------------------------------------------------------ host to device

  /** `active`: the host's tasks serve this connection; `live`: its send task is in its loop;
      `intact`: it has lost nothing; `listening`: the device's receive task is installed. */
  datatype OutView = OutView(lane: Lane, active: bool, live: bool, intact: bool, wire: seq<Bytes>, total: nat,
                             rx: RxEnd, listening: bool, count: Option<nat>, received: nat)

  /** The packets the host's send task will still take. */
  function OutQueue(v: OutView): seq<Bytes> {
    if v.live then v.lane.queue else []
  }

  /** What will have arrived when everything in flight has. */
  function OutArriving(v: OutView, mps: nat, t: nat): Got
    requires 0 < mps
  {
    Arriving(v.lane, v.rx.filling, v.rx.fifo + (v.wire + FrameAll(OutQueue(v), mps)), mps, t)
  }

  /** Payload bytes at the device's controller or on their way to it. */
  function InFlight(v: OutView): nat {
    |v.rx.filling| + Total(v.rx.fifo) + Total(v.wire)
  }

  predicate Counts(v: OutView) {
    Total(v.lane.accepted) == v.received + InFlight(v) + Total(v.lane.queue)
  }

  /** The host's counter is that of everything its send task has taken. */
  predicate HostCount(v: OutView) {
    v.total == (Total(v.lane.accepted) - Total(v.lane.queue)) % TWO_TO_THE_64
  }

  /** The device knows the count: nothing but what is in flight to it is missing. */
  predicate Sealed(v: OutView, mps: nat, t: nat)
    requires 0 < mps
  {
    && v.lane.senderGone && v.lane.queue == [] && v.wire == []
    && OutArriving(v, mps, t) == Got(v.lane.accepted, [])
    && Total(v.lane.accepted) == v.received + InFlight(v)
    && v.count == Some(Total(v.lane.accepted) % TWO_TO_THE_64)
  }

  predicate OutGood(v: OutView, mps: nat, t: nat)
    requires Sizes(mps, t)
  {
    && WireOk(v.wire, mps) && WireOk(v.rx.fifo, mps)
    && |v.rx.filling| % mps == 0 && |v.rx.filling| < t
    && (v.live ==> v.intact && v.active)
    && (!v.active ==> v.wire == [])
    && (v.active && v.intact && !v.live ==> v.lane.senderGone && v.lane.queue == [])
    && (v.active ==> HostCount(v))
    && (!v.listening ==> v.lane.closed)
    && (v.listening ==>
          && !v.lane.closed && !v.rx.halted
          && SafeFor(OutArriving(v, mps, t), v.lane.accepted)
          && (v.active && v.intact ==> OutArriving(v, mps, t) == Got(v.lane.accepted, []) && Counts(v))
          && (v.count.Some? ==> Sealed(v, mps, t)))
  }

  /** The same lane, except for where its packets are and for what its application dropped. */
  predicate SameLane(l0: Lane, l: Lane, t: nat) {
    && Received(l, t) == Received(l0, t)
    && l.accepted == l0.accepted && l.queue == l0.queue && l.closed == l0.closed
    && (l0.senderGone ==> l.senderGone)
  }

  lemma OutSwap(v: OutView, l: Lane, mps: nat, t: nat)
    requires Sizes(mps, t) && OutGood(v, mps, t) && SameLane(v.lane, l, t)
    ensures OutGood(v.(lane := l), mps, t)
  {
  }

  function Accept(l: Lane, m: Bytes): Lane {
    l.(accepted := l.accepted + [m], queue := l.queue + [m])
  }

  /** Accepting a packet puts it at the very end. */
  lemma AcceptArrives(l: Lane, filling: Bytes, a: seq<Bytes>, m: Bytes, mps: nat, t: nat)
    requires 0 < mps && Arriving(l, filling, a, mps, t) == Got(l.accepted, [])
    ensures Arriving(Accept(l, m), filling, a + Frame(m, mps), mps, t) == Got(Accept(l, m).accepted, [])
  {
    FeedConcat(Extend(Received(l, t), filling), a, Frame(m, mps), mps);
    FeedFrame(Got(l.accepted, []), m, mps);
  }

  lemma FrameLast(q: seq<Bytes>, m: Bytes, mps: nat)
    requires 0 < mps
    ensures FrameAll(q + [m], mps) == FrameAll(q, mps) + Frame(m, mps)
  {
    FrameAllConcat(q, [m], mps);
    var one, none: seq<Bytes> := [m], [];
    assert one[1..] == none && FrameAll(none, mps) == [];
  }

  lemma TotalLast(q: seq<Bytes>, m: Bytes)
    ensures Total(q + [m]) == Total(q) + |m|
  {
    TotalConcat(q, [m]);
    var one, none: seq<Bytes> := [m], [];
    assert one[1..] == none;
  }

  lemma AcceptCounts(v: OutView, m: Bytes)
    ensures Counts(v) ==> Counts(v.(lane := Accept(v.lane, m)))
    ensures HostCount(v) ==> HostCount(v.(lane := Accept(v.lane, m)))
  {
    TotalLast(v.lane.queue, m);
    TotalLast(v.lane.accepted, m);
  }

  lemma AcceptLive(v: OutView, m: Bytes, mps: nat, t: nat)
    requires 0 < mps && v.live && OutArriving(v, mps, t) == Got(v.lane.accepted, [])
    ensures OutArriving(v.(lane := Accept(v.lane, m)), mps, t) == Got(v.lane.accepted + [m], [])
  {
    var a := v.rx.fifo + (v.wire + FrameAll(v.lane.queue, mps));
    AcceptArrives(v.lane, v.rx.filling, a, m, mps, t);
    FrameLast(v.lane.queue, m, mps);
    assert v.rx.fifo + (v.wire + FrameAll(v.lane.queue + [m], mps)) == a + Frame(m, mps);
  }

  lemma OutSend(v: OutView, m: Bytes, mps: nat, t: nat)
    requires Sizes(mps, t) && OutGood(v, mps, t) && v.active && !v.lane.senderGone
    ensures OutGood(v.(lane := Accept(v.lane, m)), mps, t)
  {
    AcceptCounts(v, m);
    if v.listening {
      if v.live {
        AcceptLive(v, m, mps, t);
      } else {
        SafeGrow(OutArriving(v, mps, t), v.lane.accepted, m);
        assert OutArriving(v.(lane := Accept(v.lane, m)), mps, t) == OutArriving(v, mps, t);
      }
    }
  }

  /** The host's send task counts a packet and submits its transfers. */
  function Taken(v: OutView, mps: nat): OutView
    requires 0 < mps && v.lane.queue != []
  {
    var m := v.lane.queue[0];
    v.(lane := v.lane.(queue := v.lane.queue[1..]),
       wire := v.wire + PacketizeAll(HostTransfers(m, mps), mps),
       total := (v.total + |m|) % TWO_TO_THE_64)
  }

  lemma ModStep(a: int, b: nat, m: nat)
    requires m > 0
    ensures (a % m + b) % m == (a + b) % m
  {
    var q, r := (a % m + b) / m, (a % m + b) % m;
    assert a + b == m * (a / m) + (m * q + r);
    assert a + b == m * (a / m + q) + r;
    DivUnique(a + b, m, a / m + q, r);
  }

  lemma WireOkConcat(a: seq<Bytes>, b: seq<Bytes>, mps: nat)
    requires WireOk(a, mps) && WireOk(b, mps)
    ensures WireOk(a + b, mps)
  {
  }

  lemma TakeKeeps(v: OutView, mps: nat, t: nat)
    requires 0 < mps && v.live && v.lane.queue != []
    ensures OutArriving(Taken(v, mps), mps, t) == OutArriving(v, mps, t)
  {
    var m, q := v.lane.queue[0], v.lane.queue[1..];
    HostWire(m, mps);
    assert v.wire + Frame(m, mps) + FrameAll(q, mps) == v.wire + FrameAll(v.lane.queue, mps);
    assert Received(Taken(v, mps).lane, t) == Received(v.lane, t);
  }

  lemma TakeCounts(v: OutView, mps: nat)
    requires 0 < mps && v.lane.queue != [] && Counts(v)
    ensures Counts(Taken(v, mps))
  {
    var m := v.lane.queue[0];
    HostWire(m, mps);
    FrameTotal(m, mps);
    TotalConcat(v.wire, Frame(m, mps));
  }

  lemma TakeHostCount(v: OutView, mps: nat)
    requires 0 < mps && v.lane.queue != [] && HostCount(v)
    ensures HostCount(Taken(v, mps))
  {
    hide PacketizeAll, HostTransfers;
    var l := v.lane;
    CountUp(Total(l.accepted), |l.queue[0]|, Total(l.queue[1..]), v.total);
  }

  lemma CountUp(all: nat, m: nat, rest: nat, total: nat)
    requires total == (all - (m + rest)) % TWO_TO_THE_64
    ensures (total + m) % TWO_TO_THE_64 == (all - rest) % TWO_TO_THE_64
  {
    ModStep(all - (m + rest), m, TWO_TO_THE_64);
    assert all - (m + rest) + m == all - rest;
  }

  lemma OutTake(v: OutView, mps: nat, t: nat)
    requires Sizes(mps, t) && OutGood(v, mps, t) && v.live && v.lane.queue != []
    ensures OutGood(Taken(v, mps), mps, t)
  {
    var m := v.lane.queue[0];
    HostWire(m, mps);
    FrameFits(m, mps);
    WireOkConcat(v.wire, Frame(m, mps), mps);
    if v.active {
      TakeHostCount(v, mps);
    }
    if v.listening {
      TakeKeeps(v, mps, t);
      TakeCounts(v, mps);
    }
  }

  function Transmitted(v: OutView): OutView
    requires v.wire != []
  {
    v.(wire := v.wire[1..], rx := v.rx.(fifo := v.rx.fifo + [v.wire[0]]))
  }

  lemma OutTransmit(v: OutView, mps: nat, t: nat)
    requires Sizes(mps, t) && OutGood(v, mps, t) && v.wire != []
    ensures OutGood(Transmitted(v), mps, t)
  {
    var v' := Transmitted(v);
    var p, w := v.wire[0], v.wire[1..];
    assert WireOk(w, mps) && WireOk([p], mps);
    WireOkConcat(v.rx.fifo, [p], mps);
    var f := FrameAll(OutQueue(v), mps);
    assert v.rx.fifo + [p] + (w + f) == v.rx.fifo + (v.wire + f);
    TotalLast(v.rx.fifo, p);
  }

  lemma NoFrames(mps: nat)
    requires 0 < mps
    ensures FrameAll([], mps) == []
  {
  }

  lemma SameHostCount(v: OutView, v': OutView)
    requires v'.total == v.total && v'.lane.accepted == v.lane.accepted && v'.lane.queue == v.lane.queue
    ensures HostCount(v') <==> HostCount(v)
  {
  }

  /** Less on the wire, and nothing from the channel: what arrives is a beginning. */
  lemma LoseSafe(v: OutView, w: seq<Bytes>, mps: nat, t: nat)
    requires 0 < mps && (w == [] || w == v.wire) && SafeFor(OutArriving(v, mps, t), v.lane.accepted)
    ensures SafeFor(Arriving(v.lane, v.rx.filling, v.rx.fifo + w, mps, t), v.lane.accepted)
  {
    hide FrameAll, Feed;
    var g := Extend(Received(v.lane, t), v.rx.filling);
    var f := FrameAll(OutQueue(v), mps);
    assert v.rx.fifo + (v.wire + f) == (v.rx.fifo + v.wire) + f;
    if w == [] {
      assert v.rx.fifo + w == v.rx.fifo;
      SafeShrink(g, v.rx.fifo, v.wire + f, mps, v.lane.accepted);
    } else {
      SafeShrink(g, v.rx.fifo + v.wire, f, mps, v.lane.accepted);
    }
  }

  /** If the device knows the count, there is nothing to lose. */
  lemma LoseSealed(v: OutView, v': OutView, mps: nat, t: nat)
    requires 0 < mps && Sealed(v, mps, t) && SameLane(v.lane, v'.lane, t)
    requires v'.wire == [] && v'.rx == v.rx && v'.count == v.count && v'.received == v.received
    ensures Sealed(v', mps, t)
  {
    hide Received, FrameAll;
    var none: seq<Bytes> := [];
    assert OutQueue(v) == none && OutQueue(v') == none;
  }

  lemma StillArriving(v: OutView, mps: nat, t: nat)
    requires 0 < mps && !v.live
    ensures OutArriving(v, mps, t) == Arriving(v.lane, v.rx.filling, v.rx.fifo + v.wire, mps, t)
  {
    var none: seq<Bytes> := [];
    NoFrames(mps);
    assert v.wire + none == v.wire;
  }

  /** What the host has not put on the link is lost, or will not be followed by anything. */
  lemma OutLose(v: OutView, w: seq<Bytes>, active: bool, total: nat, l: Lane, mps: nat, t: nat)
    requires Sizes(mps, t) && OutGood(v, mps, t)
    requires w == [] || w == v.wire
    requires active ==> v.active && total == v.total
    requires !active ==> w == []
    requires SameLane(v.lane, l, t)
    ensures OutGood(v.(wire := w, live := false, intact := false, active := active, total := total, lane := l), mps, t)
  {
    hide HostCount, Counts, FrameAll, OutArriving, Received, Feed, Sealed;
    var v' := v.(wire := w, live := false, intact := false, active := active, total := total, lane := l);
    if active {
      SameHostCount(v, v');
    }
    if v.listening {
      LoseSafe(v, w, mps, t);
      StillArriving(v', mps, t);
      if v.count.Some? {
        SealedWire(v, mps, t);
        LoseSealed(v, v', mps, t);
      }
    }
  }

  lemma SealedWire(v: OutView, mps: nat, t: nat)
    requires 0 < mps && Sealed(v, mps, t)
    ensures v.wire == []
  {
  }

  /** The loop ends because no sender is left and everything was taken. */
  lemma OutFinish(v: OutView, intact: bool, mps: nat, t: nat)
    requires Sizes(mps, t) && OutGood(v, mps, t) && v.live && v.lane.senderGone && v.lane.queue == []
    ensures OutGood(v.(live := false, intact := intact), mps, t)
  {
    var v' := v.(live := false, intact := intact);
    assert OutQueue(v') == OutQueue(v);
    assert OutArriving(v', mps, t) == OutArriving(v, mps, t);
  }

  function Arrived(v: OutView, mps: nat, t: nat): OutView
    requires v.rx.fifo != []
  {
    var p, filling := v.rx.fifo[0], v.rx.filling;
    v.(lane := Arrive(v.lane, filling, p, mps, t),
       rx := v.rx.(fifo := v.rx.fifo[1..], filling := Filled(filling, p, mps, t)),
       received := v.received + if Completes(filling, p, mps, t) then |filling + p| else 0)
  }

  lemma ArriveOut(v: OutView, mps: nat, t: nat)
    requires Sizes(mps, t) && WireOk(v.rx.fifo, mps) && v.rx.fifo != []
    requires |v.rx.filling| % mps == 0 && |v.rx.filling| < t
    ensures OutArriving(Arrived(v, mps, t), mps, t) == OutArriving(v, mps, t)
    ensures var rx := Arrived(v, mps, t).rx;
            WireOk(rx.fifo, mps) && |rx.filling| % mps == 0 && |rx.filling| < t
    ensures Arrived(v, mps, t).received + InFlight(Arrived(v, mps, t)) == v.received + InFlight(v)
  {
    var p, fifo := v.rx.fifo[0], v.rx.fifo[1..];
    assert WireOk(fifo, mps);
    var behind := v.wire + FrameAll(OutQueue(v), mps);
    ArriveKeeps(v.lane, v.rx.filling, p, fifo + behind, mps, t);
    assert [p] + (fifo + behind) == v.rx.fifo + behind;
  }

  lemma OutArrive(v: OutView, mps: nat, t: nat)
    requires Sizes(mps, t) && OutGood(v, mps, t) && v.rx.fifo != []
    ensures OutGood(Arrived(v, mps, t), mps, t)
  {
    ArriveOut(v, mps, t);
  }

  /** CLOSE_SEND is served: the count is that of everything the host accepted. */
  lemma OutCount(v: OutView, mps: nat, t: nat)
    requires Sizes(mps, t) && OutGood(v, mps, t)
    requires v.active && v.intact && !v.live && v.wire == []
    ensures OutGood(v.(count := Some(v.total)), mps, t)
    ensures v.total < TWO_TO_THE_64
  {
    var v' := v.(count := Some(v.total));
    assert OutArriving(v', mps, t) == OutArriving(v, mps, t);
  }

  /** The device's receive task is gone. */
  lemma OutHang(v: OutView, rx: RxEnd, l: Lane, count: Option<nat>, mps: nat, t: nat)
    requires Sizes(mps, t) && OutGood(v, mps, t)
    requires WireOk(rx.fifo, mps) && |rx.filling| % mps == 0 && |rx.filling| < t
    requires l == v.lane.(closed := true)
    ensures OutGood(v.(rx := rx, listening := false, lane := l, count := count), mps, t)
  {
  }

  /** All that is missing is the end of a packet whose bytes are all there, and empty packets. */
  predicate OnlyEndsMissing(g: Got, accepted: seq<Bytes>) {
    && g.done <= accepted
    && var lost := accepted[|g.done|..];
       if lost == [] then g.rest == []
       else lost[0] == g.rest && forall i :: 0 < i < |lost| ==> lost[i] == []
  }

  /** The drain is over: the count of received bytes has reached the count of CLOSE_SEND.  If
      fewer than 2^64 bytes were in flight, every payload byte has been received. */
  lemma OutDrained(v: OutView, mps: nat, t: nat)
    requires Sizes(mps, t) && OutGood(v, mps, t) && v.listening
    requires v.count == Some(v.received % TWO_TO_THE_64) && InFlight(v) < TWO_TO_THE_64
    ensures OnlyEndsMissing(Received(v.lane, t), v.lane.accepted)
  {
    var n := InFlight(v);
    SameRemainder(v.received, n, TWO_TO_THE_64);
    assert v.rx.filling == [] && Total(v.rx.fifo) == 0;
    var g := Received(v.lane, t);
    assert Extend(g, v.rx.filling) == g by { assert g.rest + v.rx.filling == g.rest; }
    var none: seq<Bytes> := [];
    assert OutQueue(v) == none && FrameAll(none, mps) == none;
    assert v.rx.fifo + (v.wire + FrameAll(OutQueue(v), mps)) == v.rx.fifo;
    JoinEmpty(g.rest, v.rx.fifo, mps);
    assert v.lane.accepted[|g.done|..] == JoinDone(g.rest, v.rx.fifo, mps);
  }

  lemma SameRemainder(a: nat, n: nat, m: nat)
    requires n < m && (a + n) % m == a % m
    ensures n == 0
  {
    var q := a / m;
    if a % m + n < m {
      DivUnique(a + n, m, q, a % m + n);
    } else {
      assert a + n == m * (q + 1) + (a % m + n - m);
      DivUnique(a + n, m, q + 1, a % m + n - m);
    }
  }

  // ------------------------------------------------------------ device to host

  /** `sending`: the device's send task is installed; `live`: the host's receive task is in its
      loop; `flushed`, `stalled`: how they ended. */
  datatype InView = InView(lane: Lane, sending: bool, tx: TxEnd, live: bool, filling: Bytes, flushed: bool, stalled: bool)

  function InQueue(v: InView): seq<Bytes> {
    if v.sending then v.lane.queue else []
  }

  function InArriving(v: InView, mps: nat, t: nat): Got
    requires 0 < mps
  {
    Arriving(v.lane, v.filling, v.tx.fifo + (v.tx.queue + FrameAll(InQueue(v), mps)), mps, t)
  }

  predicate InGood(v: InView, mps: nat, t: nat)
    requires Sizes(mps, t)
  {
    && WireOk(v.tx.queue, mps) && WireOk(v.tx.fifo, mps)
    && |v.filling| % mps == 0 && |v.filling| < t
    && (v.flushed || v.stalled ==> !v.sending)
    && (v.sending ==> !v.tx.halted)
    && (v.live ==>
          && !v.lane.closed && !v.stalled
          && SafeFor(InArriving(v, mps, t), v.lane.accepted)
          && (v.sending ==> InArriving(v, mps, t) == Got(v.lane.accepted, []))
          && (v.flushed ==> InArriving(v, mps, t) == Got(v.lane.accepted, []) && v.tx.fifo == [] && v.tx.queue == []))
  }

  lemma InSwap(v: InView, l: Lane, mps: nat, t: nat)
    requires Sizes(mps, t) && InGood(v, mps, t) && SameLane(v.lane, l, t)
    ensures InGood(v.(lane := l), mps, t)
  {
  }

  lemma InSend(v: InView, m: Bytes, mps: nat, t: nat)
    requires Sizes(mps, t) && InGood(v, mps, t) && v.sending
    ensures InGood(v.(lane := Accept(v.lane, m)), mps, t)
  {
    var v' := v.(lane := Accept(v.lane, m));
    if v.live {
      var a := v.tx.fifo + (v.tx.queue + FrameAll(v.lane.queue, mps));
      AcceptArrives(v.lane, v.filling, a, m, mps, t);
      FrameLast(v.lane.queue, m, mps);
      assert v'.tx.fifo + (v'.tx.queue + FrameAll(InQueue(v'), mps)) == a + Frame(m, mps);
    }
  }

  function InTaken(v: InView, mps: nat, t: nat): InView
    requires 0 < mps && 0 < t && v.lane.queue != []
  {
    v.(lane := v.lane.(queue := v.lane.queue[1..]),
       tx := v.tx.(queue := v.tx.queue + PacketizeAll(DeviceTransfers(v.lane.queue[0], mps, t), mps)))
  }

  lemma InTake(v: InView, mps: nat, t: nat)
    requires Sizes(mps, t) && InGood(v, mps, t) && v.sending && v.lane.queue != []
    ensures InGood(InTaken(v, mps, t), mps, t)
  {
    var v' := InTaken(v, mps, t);
    var m, q := v.lane.queue[0], v.lane.queue[1..];
    DeviceWire(m, mps, t);
    FrameFits(m, mps);
    WireOkConcat(v.tx.queue, Frame(m, mps), mps);
    if v.live {
      assert v.tx.queue + Frame(m, mps) + FrameAll(q, mps) == v.tx.queue + FrameAll(v.lane.queue, mps);
      assert Received(v'.lane, t) == Received(v.lane, t);
      assert InArriving(v', mps, t) == InArriving(v, mps, t);
    }
  }

  function InTransmitted(v: InView): InView
    requires v.tx.queue != []
  {
    v.(tx := v.tx.(queue := v.tx.queue[1..], fifo := v.tx.fifo + [v.tx.queue[0]]))
  }

  lemma InTransmit(v: InView, mps: nat, t: nat)
    requires Sizes(mps, t) && InGood(v, mps, t) && v.tx.queue != []
    ensures InGood(InTransmitted(v), mps, t)
  {
    var p, w := v.tx.queue[0], v.tx.queue[1..];
    assert WireOk(w, mps) && WireOk([p], mps);
    WireOkConcat(v.tx.fifo, [p], mps);
    var f := FrameAll(InQueue(v), mps);
    assert v.tx.fifo + [p] + (w + f) == v.tx.fifo + (v.tx.queue + f);
  }

  function InArrived(v: InView, mps: nat, t: nat): InView
    requires v.tx.fifo != []
  {
    var p := v.tx.fifo[0];
    v.(lane := Arrive(v.lane, v.filling, p, mps, t), filling := Filled(v.filling, p, mps, t),
       tx := v.tx.(fifo := v.tx.fifo[1..]))
  }

  lemma InArrive(v: InView, mps: nat, t: nat)
    requires Sizes(mps, t) && InGood(v, mps, t) && v.tx.fifo != []
    ensures InGood(InArrived(v, mps, t), mps, t)
  {
    var v' := InArrived(v, mps, t);
    var p, fifo := v.tx.fifo[0], v.tx.fifo[1..];
    assert WireOk(fifo, mps);
    var behind := v.tx.queue + FrameAll(InQueue(v), mps);
    ArriveKeeps(v.lane, v.filling, p, fifo + behind, mps, t);
    assert [p] + (fifo + behind) == v.tx.fifo + behind;
    assert InArriving(v', mps, t) == InArriving(v, mps, t);
  }

  /** The device's send task is gone: what it had not handed over is lost, and perhaps more. */
  lemma InQuit(v: InView, tx: TxEnd, keep: nat, mps: nat, t: nat)
    requires Sizes(mps, t) && InGood(v, mps, t)
    requires keep <= |v.tx.queue| && tx.queue == v.tx.queue[..keep]
    requires tx.fifo == v.tx.fifo || (tx.fifo == [] && keep == 0)
    ensures InGood(v.(tx := tx, sending := false), mps, t)
  {
    var v' := v.(tx := tx, sending := false);
    if v.live {
      var g := Extend(Received(v.lane, t), v.filling);
      var f, none: seq<Bytes> := FrameAll(InQueue(v), mps), [];
      assert FrameAll(none, mps) == none;
      if tx.fifo == v.tx.fifo {
        var more := v.tx.queue[keep..] + f;
        assert v.tx.fifo + (v.tx.queue + f) == (v.tx.fifo + tx.queue) + more;
        assert tx.fifo + (tx.queue + none) == v.tx.fifo + tx.queue;
        SafeShrink(g, v.tx.fifo + tx.queue, more, mps, v.lane.accepted);
      } else {
        assert tx.fifo + (tx.queue + none) == none;
        assert none + (v.tx.fifo + (v.tx.queue + f)) == v.tx.fifo + (v.tx.queue + f);
        SafeShrink(g, none, v.tx.fifo + (v.tx.queue + f), mps, v.lane.accepted);
      }
      if v.flushed {
        assert v'.tx.queue == [] && v'.tx.fifo == [];
        assert f == none;
        assert InArriving(v', mps, t) == InArriving(v, mps, t);
      }
    }
  }

  /** The device's send task has flushed: everything accepted is at the host. */
  lemma InFlush(v: InView, tx: TxEnd, mps: nat, t: nat)
    requires Sizes(mps, t) && InGood(v, mps, t) && v.sending
    requires v.lane.queue == [] && v.tx.queue == [] && v.tx.fifo == [] && tx.queue == [] && tx.fifo == []
    ensures InGood(v.(tx := tx, sending := false, flushed := true), mps, t)
  {
    var v' := v.(tx := tx, sending := false, flushed := true);
    assert InQueue(v') == InQueue(v);
    assert InArriving(v', mps, t) == InArriving(v, mps, t);
  }

  /** The host's receive task has left its loop. */
  lemma InLeave(v: InView, fifo: seq<Bytes>, filling: Bytes, l: Lane, stalled: bool, mps: nat, t: nat)
    requires Sizes(mps, t) && InGood(v, mps, t)
    requires filling == v.filling || filling == []
    requires WireOk(fifo, mps) && (stalled ==> !v.sending)
    ensures InGood(v.(live := false, lane := l, stalled := stalled, filling := filling, tx := v.tx.(fifo := fifo)), mps, t)
  {
  }

  lemma FreshCounts(v: OutView)
    requires v.lane == FRESH && v.wire == [] && v.rx.fifo == [] && v.rx.filling == [] && v.received == 0
    ensures Counts(v) && (v.total == 0 ==> HostCount(v))
  {
    var none: seq<Bytes> := [];
    assert Total(none) == 0;
  }

  lemma OutFresh(active: bool, intact: bool, total: nat, rx: RxEnd, mps: nat, t: nat)
    requires Sizes(mps, t) && rx == RxEnd([], [], false) && (active ==> intact && total == 0)
    ensures OutGood(OutView(FRESH, active, active, intact, [], total, rx, true, None, 0), mps, t)
  {
    hide Counts, HostCount, FrameAll, Arriving;
    var none: seq<Bytes> := [];
    NoFrames(mps);
    FreshCounts(OutView(FRESH, active, active, intact, none, total, rx, true, None, 0));
    FreshArriving(mps, t);
    assert none + (none + none) == none;
  }

  lemma InFresh(live: bool, tx: TxEnd, mps: nat, t: nat)
    requires Sizes(mps, t) && tx == TxEnd([], [], false)
    ensures InGood(InView(FRESH, true, tx, live, [], false, false), mps, t)
  {
    FreshArriving(mps, t);
  }

  lemma FreshArriving(mps: nat, t: nat)
    requires Sizes(mps, t)
    ensures var none: seq<Bytes> := [];
            Arriving(FRESH, [], none + (none + FrameAll(none, mps)), mps, t) == Got([], []) && 0 % mps == 0
  {
    var none: seq<Bytes> := [];
    assert none + (none + FrameAll(none, mps)) == none;
  }

  /** The halt is seen after all the data: with a flushed sender, the host has everything. */
  lemma InComplete(v: InView, mps: nat, t: nat)
    requires Sizes(mps, t) && InGood(v, mps, t) && v.live && v.flushed
    ensures Received(v.lane, t) == Got(v.lane.accepted, [])
  {
    var g := Received(v.lane, t);
    var none: seq<Bytes> := [];
    assert FrameAll(none, mps) == none;
    assert v.tx.fifo + (v.tx.queue + FrameAll(InQueue(v), mps)) == none;
    FeedNothing(Extend(g, v.filling), mps);
    assert (g.rest + v.filling) == [];
  }
}
