/**
  One direction of a connection, from the channel of the sending application to the packets
  the receiving application has got.  What lies in between is measured by `Feed`: the packets
  that would be delivered if everything in flight arrived.
 */
module Pipeline {
  import opened Prelude
  import opened Framing

  /** Packets delivered, and the bytes of the packet being put together. */
  datatype Got = Got(done: seq<Bytes>, rest: Bytes)

  /** Reassembly of `ts`, transfers (or USB packets) being full at `n` bytes. */
  function Feed(g: Got, ts: seq<Bytes>, n: nat): Got {
    Got(g.done + JoinDone(g.rest, ts, n), JoinRest(g.rest, ts, n))
  }

  /** Bytes that precede what is still in flight. */
  function Extend(g: Got, more: Bytes): Got {
    g.(rest := g.rest + more)
  }

  /** Nothing but what was sent: the packets are a prefix of the accepted ones, and the
      unfinished one is the beginning of the next. */
  predicate SafeFor(g: Got, accepted: seq<Bytes>) {
    && g.done <= accepted
    && (g.rest != [] ==> |g.done| < |accepted| && g.rest <= accepted[|g.done|])
  }

  datatype Lane = Lane(
    accepted: seq<Bytes>,    // packets for which `send` returned Ok
    queue: seq<Bytes>,       // channel to the sending task
    senderGone: bool,        // the application dropped its sender
    inbox: seq<Bytes>,       // channel of transfers to the receiver
    closed: bool,            // the receiving task dropped its end of that channel
    receiverGone: bool,      // the application dropped its receiver
    buffer: Bytes,           // reassembly buffer
    delivered: seq<Bytes>,   // packets `recv` returned
    eof: bool,               // `recv` returned the end of the stream
    oversize: bool)          // `recv` found a packet that is too large; what it does then is not modelled

  const FRESH := Lane([], [], false, [], false, false, [], [], false, false)

  function Received(l: Lane, t: nat): Got {
    Feed(Got(l.delivered, l.buffer), l.inbox, t)
  }

  /** What arrives once the bytes `filling` and the USB packets `wire` have. */
  function Arriving(l: Lane, filling: Bytes, wire: seq<Bytes>, mps: nat, t: nat): Got {
    Feed(Extend(Received(l, t), filling), wire, mps)
  }

  // -------------------------------------------------------------------- steps

  /** One turn of `recv`: take one transfer, or find the channel closed. */
  predicate CanRecv(l: Lane) {
    !l.receiverGone && !l.oversize && (l.inbox != [] || l.closed)
  }

  function Recv(l: Lane, t: nat, maxSize: nat): Lane
    requires CanRecv(l)
  {
    if l.inbox == [] then l.(eof := true)
    else
      var b := l.buffer + l.inbox[0];
      if |b| > maxSize then l.(oversize := true)
      else if |l.inbox[0]| < t then l.(inbox := l.inbox[1..], buffer := [], delivered := l.delivered + [b])
      else l.(inbox := l.inbox[1..], buffer := b)
  }

  /** A USB packet completes the transfer being filled. */
  predicate Completes(filling: Bytes, p: Bytes, mps: nat, t: nat) {
    |p| < mps || |filling + p| >= t
  }

  function Arrive(l: Lane, filling: Bytes, p: Bytes, mps: nat, t: nat): Lane {
    if Completes(filling, p, mps, t) then l.(inbox := l.inbox + [filling + p]) else l
  }

  function Filled(filling: Bytes, p: Bytes, mps: nat, t: nat): Bytes {
    if Completes(filling, p, mps, t) then [] else filling + p
  }

  // --------------------------------------------------------------------- laws

  lemma FeedConcat(g: Got, a: seq<Bytes>, b: seq<Bytes>, n: nat)
    ensures Feed(g, a + b, n) == Feed(Feed(g, a, n), b, n)
  {
    JoinConcat(g.rest, a, b, n);
  }

  lemma FeedNothing(g: Got, n: nat)
    ensures Feed(g, [], n) == g
  {
  }

  /** A turn of `recv` changes where packets are, not which ones there are. */
  lemma RecvKeeps(l: Lane, t: nat, maxSize: nat)
    requires CanRecv(l)
    ensures Received(Recv(l, t, maxSize), t) == Received(l, t)
    ensures Recv(l, t, maxSize).accepted == l.accepted
  {
    if l.inbox != [] {
      assert l.inbox == [l.inbox[0]] + l.inbox[1..];
      FeedConcat(Got(l.delivered, l.buffer), [l.inbox[0]], l.inbox[1..], t);
      FeedOne(Got(l.delivered, l.buffer), l.inbox[0], t);
    }
  }

  lemma FeedOne(g: Got, p: Bytes, n: nat)
    ensures Feed(g, [p], n) == if |p| < n then Got(g.done + [g.rest + p], []) else Got(g.done, g.rest + p)
  {
    var one, none: seq<Bytes> := [p], [];
    assert one[1..] == none && g.done + none == g.done;
    if |p| < n {
      assert JoinDone(g.rest, one, n) == [g.rest + p] + JoinDone([], none, n);
      assert JoinRest(g.rest, one, n) == JoinRest([], none, n);
    } else {
      assert JoinDone(g.rest, one, n) == JoinDone(g.rest + p, none, n) == none;
      assert JoinRest(g.rest, one, n) == JoinRest(g.rest + p, none, n) == g.rest + p;
    }
  }

  /** Reading goes on until the channel is empty or a packet is too large. */
  function RecvAll(l: Lane, t: nat, maxSize: nat): Lane
    decreases |l.inbox|, !l.oversize
  {
    if l.inbox == [] || !CanRecv(l) then l else RecvAll(Recv(l, t, maxSize), t, maxSize)
  }

  /** A packet above the receiver's limit is found too large, on whatever transfers it arrives, and
      neither it nor a part of it is delivered. */
  lemma {:induction false} TooLargeFails(l: Lane, m: Bytes, t: nat, maxSize: nat)
    requires !l.receiverGone && !l.oversize && |l.buffer| <= maxSize < |m|
    requires JoinDone(l.buffer, l.inbox, t) != [] && JoinDone(l.buffer, l.inbox, t)[0] == m
    ensures RecvAll(l, t, maxSize).oversize && RecvAll(l, t, maxSize).delivered == l.delivered
    decreases |l.inbox|
  {
    var l' := Recv(l, t, maxSize);
    if !l'.oversize {
      TooLargeFails(l', m, t, maxSize);
    }
  }

  lemma ReceivedAppend(l: Lane, a: Bytes, t: nat)
    ensures Received(l.(inbox := l.inbox + [a]), t) == Feed(Received(l, t), [a], t)
  {
    FeedConcat(Got(l.delivered, l.buffer), l.inbox, [a], t);
  }

  /** A USB packet moving from the wire into the transfer, and the transfer into the channel,
      changes nothing either. */
  lemma ArriveKeeps(l: Lane, filling: Bytes, p: Bytes, wire: seq<Bytes>, mps: nat, t: nat)
    requires Sizes(mps, t) && |p| <= mps && |filling| % mps == 0 && |filling| < t
    ensures Arriving(Arrive(l, filling, p, mps, t), Filled(filling, p, mps, t), wire, mps, t)
         == Arriving(l, filling, [p] + wire, mps, t)
    ensures |Filled(filling, p, mps, t)| % mps == 0 && |Filled(filling, p, mps, t)| < t
    ensures |filling + p| <= t
  {
    var r := Received(l, t);
    var a := filling + p;
    RoomForOne(|filling|, mps, t);
    FeedConcat(Extend(r, filling), [p], wire, mps);
    FeedOne(Extend(r, filling), p, mps);
    assert r.rest + filling + p == r.rest + a;
    if Completes(filling, p, mps, t) {
      ReceivedAppend(l, a, t);
      FeedOne(r, a, t);
      var next, none: Bytes := Feed(r, [a], t), [];
      assert next.rest + none == next.rest;
    }
  }

  /** Losing what is furthest behind is safe: the rest stays a beginning of what was sent. */
  lemma SafeShrink(g: Got, a: seq<Bytes>, b: seq<Bytes>, n: nat, accepted: seq<Bytes>)
    requires SafeFor(Feed(g, a + b, n), accepted)
    ensures SafeFor(Feed(g, a, n), accepted)
  {
    FeedConcat(g, a, b, n);
    SafeFirst(Feed(g, a, n), b, n, accepted);
  }

  lemma {:induction false} SafeFirst(g: Got, b: seq<Bytes>, n: nat, accepted: seq<Bytes>)
    requires SafeFor(Feed(g, b, n), accepted)
    ensures SafeFor(g, accepted)
    decreases |b|
  {
    if b == [] {
      FeedNothing(g, n);
    } else {
      assert b == [b[0]] + b[1..];
      FeedConcat(g, [b[0]], b[1..], n);
      FeedOne(g, b[0], n);
      var g1 := Feed(g, [b[0]], n);
      SafeFirst(g1, b[1..], n, accepted);
      if |b[0]| < n {
        assert g1.done[|g.done|] == g.rest + b[0];
      }
    }
  }

  /** What has been received is safe if what is arriving is. */
  lemma ReceivedSafe(l: Lane, filling: Bytes, wire: seq<Bytes>, mps: nat, t: nat)
    requires SafeFor(Arriving(l, filling, wire, mps, t), l.accepted)
    ensures SafeFor(Extend(Received(l, t), filling), l.accepted)
    ensures SafeFor(Received(l, t), l.accepted)
  {
    SafeFirst(Extend(Received(l, t), filling), wire, mps, l.accepted);
  }

  /** Packets accepted later do not disturb what is safe. */
  lemma SafeGrow(g: Got, accepted: seq<Bytes>, m: Bytes)
    requires SafeFor(g, accepted)
    ensures SafeFor(g, accepted + [m])
  {
  }

  /** A packet handed to the sending task is its USB packets, whichever side sends it. */
  lemma FeedFrame(g: Got, msg: Bytes, mps: nat)
    requires 0 < mps && g.rest == []
    ensures Feed(g, Frame(msg, mps), mps) == Got(g.done + [msg], [])
  {
    JoinFrame([], msg, mps);
    assert [] + msg == msg;
  }

  /** USB packets without payload end the packet in progress and then carry empty ones. */
  lemma {:induction false} JoinEmpty(rest: Bytes, es: seq<Bytes>, n: nat)
    requires 0 < n && Total(es) == 0
    ensures es == [] ==> JoinDone(rest, es, n) == [] && JoinRest(rest, es, n) == rest
    ensures es != [] ==> JoinRest(rest, es, n) == []
    ensures es != [] ==> |JoinDone(rest, es, n)| == |es| && JoinDone(rest, es, n)[0] == rest
    ensures forall i :: 0 < i < |JoinDone(rest, es, n)| ==> JoinDone(rest, es, n)[i] == []
    decreases |es|
  {
    if es != [] {
      JoinEmpty([], es[1..], n);
      assert rest + es[0] == rest;
      assert JoinDone(rest, es, n) == [rest] + JoinDone([], es[1..], n);
    }
  }

  /** The bytes of the packet in progress are whole transfers. */
  lemma {:induction false} RestIsFull(buf: Bytes, ts: seq<Bytes>, t: nat)
    requires 0 < t && |buf| % t == 0 && forall i :: 0 <= i < |ts| ==> |ts[i]| <= t
    ensures |JoinRest(buf, ts, t)| % t == 0
    decreases |ts|
  {
    if ts != [] {
      ModAdd(|buf|, t);
      assert forall i :: 0 <= i < |ts[1..]| ==> ts[1..][i] == ts[i + 1];
      if |ts[0]| < t {
        RestIsFull([], ts[1..], t);
      } else {
        RestIsFull(buf + ts[0], ts[1..], t);
      }
    }
  }

  lemma {:induction false} FrameTotal(msg: Bytes, mps: nat)
    requires 0 < mps
    ensures Total(Frame(msg, mps)) == |msg|
    decreases |msg|
  {
    if |msg| >= mps {
      FrameTotal(msg[mps..], mps);
      assert Frame(msg, mps)[1..] == Frame(msg[mps..], mps);
    } else {
      assert Frame(msg, mps)[1..] == [];
    }
  }

  lemma {:induction false} FrameAllTotal(msgs: seq<Bytes>, mps: nat)
    requires 0 < mps
    ensures Total(FrameAll(msgs, mps)) == Total(msgs)
  {
    if msgs != [] {
      FrameTotal(msgs[0], mps);
      TotalConcat(Frame(msgs[0], mps), FrameAll(msgs[1..], mps));
      FrameAllTotal(msgs[1..], mps);
    }
  }
}
