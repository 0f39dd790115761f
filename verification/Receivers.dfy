/** The two receivers: the device takes one transfer at a time, the host takes what is queued in
    one batch.  Each `Recv` is one poll: it returns `Pending` at the await, where everything it
    knows is in the receiver, so a cancelled call is a poll that is never resumed. */
module Receivers {
  import opened Prelude
  import opened Framing
  import opened Pipeline

  datatype Polled = Pending | Packet(data: Bytes) | Eof | Broken | Oversize
  {
    predicate Waits() { Pending? || Eof? || Broken? }

    /** The packets this poll delivered. */
    function Delivered(): seq<Bytes> { if Packet? then [data] else [] }
  }

  /** How many transfers make up the packet in progress: up to the first short one, or all. */
  function Span(q: seq<Bytes>, t: nat): (n: nat)
    ensures n <= |q|
  {
    if q == [] then 0 else if |q[0]| < t then 1 else 1 + Span(q[1..], t)
  }

  /** The packet in progress has its last transfer. */
  predicate Ends(q: seq<Bytes>, t: nat) {
    Span(q, t) > 0 && |q[Span(q, t) - 1]| < t
  }

  /** The bytes of the packet in progress. */
  function Head(buf: Bytes, q: seq<Bytes>, t: nat): Bytes {
    buf + Flatten(q[..Span(q, t)])
  }

  lemma {:induction false} SpanShift(a: seq<Bytes>, b: seq<Bytes>, t: nat)
    requires forall i :: 0 <= i < |a| ==> |a[i]| >= t
    ensures Span(a + b, t) == |a| + Span(b, t)
    decreases |a|
  {
    if a == [] {
      assert a + b == b;
    } else {
      assert (a + b)[1..] == a[1..] + b;
      SpanShift(a[1..], b, t);
    }
  }

  /** Full transfers taken into the buffer leave the packet in progress as it is. */
  lemma HeadShift(buf: Bytes, a: seq<Bytes>, b: seq<Bytes>, t: nat)
    requires forall i :: 0 <= i < |a| ==> |a[i]| >= t
    ensures Head(buf + Flatten(a), b, t) == Head(buf, a + b, t)
    ensures Ends(a + b, t) <==> Ends(b, t)
  {
    SpanShift(a, b, t);
    var c := b[..Span(b, t)];
    assert (a + b)[..|a| + |c|] == a + c;
    FlattenConcat(a, c);
    assert buf + (Flatten(a) + Flatten(c)) == buf + Flatten(a) + Flatten(c);
    EndsShift(a, b, t);
  }

  lemma EndsShift(a: seq<Bytes>, b: seq<Bytes>, t: nat)
    requires forall i :: 0 <= i < |a| ==> |a[i]| >= t
    requires Span(a + b, t) == |a| + Span(b, t)
    ensures Ends(a + b, t) <==> Ends(b, t)
  {
    var n := Span(b, t);
    if n > 0 {
      assert (a + b)[|a| + n - 1] == b[n - 1];
    } else if a != [] {
      assert (a + b)[|a| - 1] == a[|a| - 1];
    }
  }

  /** A short transfer at the front, or after full ones, ends the packet. */
  lemma HeadShort(buf: Bytes, p: Bytes, q: seq<Bytes>, t: nat)
    requires |p| < t
    ensures Span([p] + q, t) == 1 && Ends([p] + q, t) && Head(buf, [p] + q, t) == buf + p
  {
    var one, none: seq<Bytes> := [p], [];
    assert ([p] + q)[..1] == one;
    assert one[1..] == none && Flatten(one) == p + Flatten(none);
    assert p + [] == p;
  }

  /** Taking the packet in progress and leaving the rest is one delivery of the reassembly. */
  lemma {:induction false} JoinHead(buf: Bytes, q: seq<Bytes>, t: nat)
    ensures Ends(q, t) ==> JoinDone(buf, q, t) == [Head(buf, q, t)] + JoinDone([], q[Span(q, t)..], t)
    ensures Ends(q, t) ==> JoinRest(buf, q, t) == JoinRest([], q[Span(q, t)..], t)
    ensures !Ends(q, t) ==> Span(q, t) == |q| && JoinDone(buf, q, t) == [] && JoinRest(buf, q, t) == Head(buf, q, t)
    decreases |q|
  {
    if q == [] {
      assert q[..0] == q;
    } else {
      var p, rest := q[0], q[1..];
      assert q == [p] + rest;
      if |p| < t {
        HeadShort(buf, p, rest, t);
      } else {
        var one, none: seq<Bytes> := [p], [];
        assert one[1..] == none && Flatten(one) == p + Flatten(none) && p + [] == p;
        HeadShift(buf, one, rest, t);
        JoinHead(buf + p, rest, t);
        assert rest[Span(rest, t)..] == q[Span(q, t)..];
      }
    }
  }

  lemma FlattenLast(ts: seq<Bytes>, p: Bytes)
    ensures Flatten(ts + [p]) == Flatten(ts) + p
  {
    FlattenConcat(ts, [p]);
    var one, none: seq<Bytes> := [p], [];
    assert one[1..] == none && Flatten(one) == p + Flatten(none);
    assert p + [] == p;
  }

  lemma FullButLast(a: seq<Bytes>, b: seq<Bytes>, t: nat)
    requires b != [] && (forall i :: 0 <= i < |a| ==> |a[i]| >= t) && forall i :: 0 <= i < |b| - 1 ==> |b[i]| >= t
    ensures (a + b)[|a + b| - 1] == b[|b| - 1]
    ensures forall i :: 0 <= i < |a + b| - 1 ==> |(a + b)[i]| >= t
  {
    forall i | 0 <= i < |a + b| - 1
      ensures |(a + b)[i]| >= t
    {
      if i >= |a| { assert (a + b)[i] == b[i - |a|]; }
    }
  }

  lemma Associate<T>(a: seq<T>, b: seq<T>, c: seq<T>)
    ensures a + (b + c) == a + b + c
  {
  }

  lemma FlattenBehind(start: Bytes, a: seq<Bytes>, b: seq<Bytes>)
    ensures start + Flatten(a) + Flatten(b) == start + Flatten(a + b)
  {
    FlattenConcat(a, b);
    Associate(start, Flatten(a), Flatten(b));
  }

  /** Full transfers taken into the buffer change neither what will be delivered nor what will stay. */
  lemma {:induction false} JoinTaken(buf: Bytes, a: seq<Bytes>, b: seq<Bytes>, t: nat)
    requires forall i :: 0 <= i < |a| ==> |a[i]| >= t
    ensures JoinDone(buf, a + b, t) == JoinDone(buf + Flatten(a), b, t)
    ensures JoinRest(buf, a + b, t) == JoinRest(buf + Flatten(a), b, t)
    decreases |a|
  {
    if a == [] {
      assert a + b == b && buf + Flatten(a) == buf;
    } else {
      assert (a + b)[1..] == a[1..] + b;
      assert buf + (a[0] + Flatten(a[1..])) == buf + a[0] + Flatten(a[1..]);
      JoinTaken(buf + a[0], a[1..], b, t);
    }
  }

  /** Full transfers and a short one are one packet. */
  lemma PacketTaken(buf: Bytes, a: seq<Bytes>, b: seq<Bytes>, t: nat)
    requires a != [] && |a[|a| - 1]| < t && forall i :: 0 <= i < |a| - 1 ==> |a[i]| >= t
    ensures Span(a + b, t) == |a| && Ends(a + b, t) && Head(buf, a + b, t) == buf + Flatten(a)
    ensures (a + b)[|a|..] == b
    ensures JoinDone(buf, a + b, t) == [buf + Flatten(a)] + JoinDone([], b, t)
    ensures JoinRest(buf, a + b, t) == JoinRest([], b, t)
  {
    var full, last := a[..|a| - 1], a[|a| - 1];
    assert a == full + [last] && a + b == full + ([last] + b);
    HeadShort(buf + Flatten(full), last, b, t);
    HeadShift(buf, full, [last] + b, t);
    SpanShift(full, [last] + b, t);
    FlattenLast(full, last);
    assert buf + Flatten(full) + last == buf + (Flatten(full) + last);
    JoinHead(buf, a + b, t);
  }

  /** The packet in progress has at least the bytes taken so far. */
  lemma HeadCovers(buf: Bytes, a: seq<Bytes>, b: seq<Bytes>, t: nat)
    requires a != [] && forall i :: 0 <= i < |a| - 1 ==> |a[i]| >= t
    ensures |Head(buf, a + b, t)| >= |buf + Flatten(a)|
  {
    if |a[|a| - 1]| < t {
      PacketTaken(buf, a, b, t);
    } else {
      HeadShift(buf, a, b, t);
    }
  }

  /** Full transfers alone end nothing. */
  lemma NothingEnds(buf: Bytes, a: seq<Bytes>, t: nat)
    requires forall i :: 0 <= i < |a| ==> |a[i]| >= t
    ensures !Ends(a, t) && Head(buf, a, t) == buf + Flatten(a)
    ensures JoinDone(buf, a, t) == [] && JoinRest(buf, a, t) == buf + Flatten(a)
  {
    var none: seq<Bytes> := [];
    assert a + none == a;
    JoinTaken(buf, a, none, t);
    JoinHead(buf, a, t);
    if Ends(a, t) {
      assert false;
    }
  }

  /** A poll that looked at the transfers `q` with `buf` in the buffer, and left `q'` and `buf'`.
      Within the size limit it delivers exactly the packet in progress if that has ended, and what
      is delivered now and later is what the reassembly of `q` delivers.  A packet or a failure
      leaves the buffer empty. */
  predicate Right(buf: Bytes, q: seq<Bytes>, r: Polled, buf': Bytes, q': seq<Bytes>, t: nat, maxSize: nat) {
    && (r.Oversize? ==> |Head(buf, q, t)| > maxSize)
    && (r.Packet? ==> Ends(q, t) && r.data == Head(buf, q, t) && |r.data| <= maxSize && q' == q[Span(q, t)..])
    && (!r.Oversize? ==> JoinDone(buf, q, t) == r.Delivered() + JoinDone(buf', q', t))
    && (!r.Oversize? ==> JoinRest(buf, q, t) == JoinRest(buf', q', t))
    && (r.Packet? || r.Oversize? ==> buf' == [])
    && |buf'| <= maxSize
  }

  lemma RightPacket(buf: Bytes, a: seq<Bytes>, b: seq<Bytes>, t: nat, maxSize: nat)
    requires a != [] && |a[|a| - 1]| < t && forall i :: 0 <= i < |a| - 1 ==> |a[i]| >= t
    requires |buf + Flatten(a)| <= maxSize
    ensures Right(buf, a + b, Packet(buf + Flatten(a)), [], b, t, maxSize)
  {
    PacketTaken(buf, a, b, t);
  }

  lemma RightOversize(buf: Bytes, a: seq<Bytes>, b: seq<Bytes>, t: nat, maxSize: nat)
    requires a != [] && forall i :: 0 <= i < |a| - 1 ==> |a[i]| >= t
    requires |buf + Flatten(a)| > maxSize
    ensures Right(buf, a + b, Oversize, [], b, t, maxSize)
  {
    HeadCovers(buf, a, b, t);
  }

  lemma RightWait(buf: Bytes, a: seq<Bytes>, b: seq<Bytes>, r: Polled, t: nat, maxSize: nat)
    requires (forall i :: 0 <= i < |a| ==> |a[i]| >= t) && r.Waits() && |buf + Flatten(a)| <= maxSize
    ensures Right(buf, a + b, r, buf + Flatten(a), b, t, maxSize)
  {
    JoinTaken(buf, a, b, t);
    var none: seq<Bytes> := [];
    assert none + JoinDone(buf + Flatten(a), b, t) == JoinDone(buf + Flatten(a), b, t);
  }

  /** What is further behind does not change what a poll may do. */
  lemma RightMore(buf: Bytes, q: seq<Bytes>, r: Polled, buf': Bytes, q': seq<Bytes>, more: seq<Bytes>, t: nat, maxSize: nat)
    requires Right(buf, q, r, buf', q', t, maxSize)
    ensures Right(buf, q + more, r, buf', q' + more, t, maxSize)
  {
    HeadMore(buf, q, more, t);
    JoinConcat(buf, q, more, t);
    JoinConcat(buf', q', more, t);
    Associate(r.Delivered(), JoinDone(buf', q', t), JoinDone(JoinRest(buf', q', t), more, t));
  }

  lemma HeadMore(buf: Bytes, q: seq<Bytes>, more: seq<Bytes>, t: nat)
    ensures |Head(buf, q + more, t)| >= |Head(buf, q, t)|
    ensures Ends(q, t) ==> Ends(q + more, t) && Head(buf, q + more, t) == Head(buf, q, t)
                           && (q + more)[Span(q + more, t)..] == q[Span(q, t)..] + more
  {
    SpanFull(q, t);
    var n := Span(q, t);
    if Ends(q, t) {
      assert q[..n][n - 1] == q[n - 1];
      EndedMore(buf, q, q[..n], q[n..], more, t);
    } else {
      JoinHead(buf, q, t);
      assert q[..n] == q;
      HeadShift(buf, q, more, t);
    }
  }

  lemma EndedMore(buf: Bytes, q: seq<Bytes>, a: seq<Bytes>, b: seq<Bytes>, more: seq<Bytes>, t: nat)
    requires q == a + b && a != [] && |a[|a| - 1]| < t && forall i :: 0 <= i < |a| - 1 ==> |a[i]| >= t
    ensures Span(q, t) == |a| == Span(q + more, t) && Ends(q + more, t)
    ensures Head(buf, q + more, t) == Head(buf, q, t) && (q + more)[|a|..] == b + more && q[|a|..] == b
  {
    hide Span, Ends, Head;
    PacketTaken(buf, a, b, t);
    PacketTaken(buf, a, b + more, t);
    Associate(a, b, more);
  }

  /** All transfers of the packet in progress but the last are full; all are if it has not ended. */
  lemma {:induction false} SpanFull(q: seq<Bytes>, t: nat)
    ensures forall i :: 0 <= i < Span(q, t) - 1 ==> |q[i]| >= t
    ensures !Ends(q, t) ==> forall i :: 0 <= i < Span(q, t) ==> |q[i]| >= t
  {
    if q != [] && |q[0]| >= t {
      SpanFull(q[1..], t);
      assert forall i :: 0 < i < Span(q, t) ==> q[i] == q[1..][i - 1];
    }
  }

  // --------------------------------------------------------- any number of polls

  /** A poll of either receiver, with what it left in the buffer and what was still ahead. */
  datatype Poll = Poll(result: Polled, buffer: Bytes, ahead: seq<Bytes>)

  /** The polls follow one another, each as `Recv` promises. */
  predicate Chained(buf: Bytes, q: seq<Bytes>, polls: seq<Poll>, t: nat, maxSize: nat)
    decreases |polls|
  {
    polls == [] || (
      && Right(buf, q, polls[0].result, polls[0].buffer, polls[0].ahead, t, maxSize)
      && Chained(polls[0].buffer, polls[0].ahead, polls[1..], t, maxSize))
  }

  function AllDelivered(polls: seq<Poll>): seq<Bytes> {
    if polls == [] then [] else polls[0].result.Delivered() + AllDelivered(polls[1..])
  }

  predicate AllWithin(msgs: seq<Bytes>, maxSize: nat) {
    forall i :: 0 <= i < |msgs| ==> |msgs[i]| <= maxSize
  }

  /** A poll of packets within the limit does not fail, and the rest is still to come. */
  lemma PollExact(buf: Bytes, q: seq<Bytes>, p: Poll, msgs: seq<Bytes>, t: nat, maxSize: nat)
    requires Right(buf, q, p.result, p.buffer, p.ahead, t, maxSize)
    requires JoinDone(buf, q, t) == msgs && JoinRest(buf, q, t) == [] && AllWithin(msgs, maxSize)
    ensures !p.result.Oversize? && p.result.Delivered() <= msgs
    ensures var rest := msgs[|p.result.Delivered()|..];
            JoinDone(p.buffer, p.ahead, t) == rest && JoinRest(p.buffer, p.ahead, t) == [] && AllWithin(rest, maxSize)
    ensures p.ahead == [] ==> p.result.Delivered() == msgs
  {
    JoinHead(buf, q, t);
    if Ends(q, t) {
      assert msgs[0] == Head(buf, q, t);
    }
  }

  lemma {:induction false} ChainExact(buf: Bytes, q: seq<Bytes>, polls: seq<Poll>, msgs: seq<Bytes>, t: nat, maxSize: nat)
    requires Chained(buf, q, polls, t, maxSize)
    requires JoinDone(buf, q, t) == msgs && JoinRest(buf, q, t) == [] && AllWithin(msgs, maxSize)
    ensures forall i :: 0 <= i < |polls| ==> !polls[i].result.Oversize?
    ensures AllDelivered(polls) <= msgs
    ensures polls != [] && polls[|polls| - 1].ahead == [] ==> AllDelivered(polls) == msgs
    decreases |polls|
  {
    hide Right, JoinDone, JoinRest, AllWithin;
    if polls != [] {
      var p, later := polls[0], polls[1..];
      var got := p.result.Delivered();
      PollExact(buf, q, p, msgs, t, maxSize);
      ChainExact(p.buffer, p.ahead, later, msgs[|got|..], t, maxSize);
      assert msgs == got + msgs[|got|..];
      if later == [] {
        assert AllDelivered(later) == [];
        assert got + [] == got;
      } else {
        assert later[|later| - 1] == polls[|polls| - 1];
      }
    }
  }

  /** Either receiver, any batching, any schedule of arrivals, any number of cancelled calls: of
      packets within the size limit, framed by either sender and cut into any USB transfers, the
      polls deliver a beginning, and all of them once nothing is ahead; none of them fails. */
  lemma PollsExact(msgs: seq<Bytes>, polls: seq<Poll>, mps: nat, t: nat, maxSize: nat)
    requires Sizes(mps, t) && AllWithin(msgs, maxSize)
    requires Chained([], CutDone([], FrameAll(msgs, mps), mps, t), polls, t, maxSize)
    ensures forall i :: 0 <= i < |polls| ==> !polls[i].result.Oversize?
    ensures AllDelivered(polls) <= msgs
    ensures polls != [] && polls[|polls| - 1].ahead == [] ==> AllDelivered(polls) == msgs
  {
    SameWire(msgs, mps, t);
    RoundTrip(msgs, mps, t, true);
    ChainExact([], CutDone([], FrameAll(msgs, mps), mps, t), polls, msgs, t, maxSize);
  }

  /** What is ahead is what the controller makes of the packets `msgs`, all within the limit. */
  predicate Sent(buf: Bytes, q: seq<Bytes>, msgs: seq<Bytes>, mps: nat, t: nat, maxSize: nat) {
    Sizes(mps, t) && AllWithin(msgs, maxSize) && buf == [] && q == CutDone([], FrameAll(msgs, mps), mps, t)
  }

  lemma RightKeepsLimit(buf: Bytes, q: seq<Bytes>, r: Polled, buf': Bytes, q': seq<Bytes>, t: nat, maxSize: nat)
    requires Right(buf, q, r, buf', q', t, maxSize)
    ensures |buf'| <= maxSize
  {
  }

  /** The buffer and what is ahead after the polls. */
  function After(buf: Bytes, q: seq<Bytes>, polls: seq<Poll>): (Bytes, seq<Bytes>) {
    if polls == [] then (buf, q) else (polls[|polls| - 1].buffer, polls[|polls| - 1].ahead)
  }

  /** One more poll. */
  lemma {:induction false} ChainedLast(buf: Bytes, q: seq<Bytes>, polls: seq<Poll>, p: Poll, t: nat, maxSize: nat)
    requires Chained(buf, q, polls, t, maxSize)
    requires Right(After(buf, q, polls).0, After(buf, q, polls).1, p.result, p.buffer, p.ahead, t, maxSize)
    ensures Chained(buf, q, polls + [p], t, maxSize)
    ensures AllDelivered(polls + [p]) == AllDelivered(polls) + p.result.Delivered()
    decreases |polls|
  {
    hide Right;
    if polls == [] {
      assert polls + [p] == [p] && [p][1..] == [];
      assert AllDelivered([p]) == p.result.Delivered() + [];
    } else {
      assert (polls + [p])[1..] == polls[1..] + [p];
      ChainedLast(polls[0].buffer, polls[0].ahead, polls[1..], p, t, maxSize);
      Associate(polls[0].result.Delivered(), AllDelivered(polls[1..]), p.result.Delivered());
    }
  }

  // ------------------------------------------------------------------- device

  class DeviceReceiver {
    var rx: seq<Bytes>         // channel of transfers
    var coming: seq<Bytes>     // transfers that will be put there later
    var closed: bool           // the sending half is gone
    var failed: bool           // the error watch holds an error
    var buffer: Bytes
    const maxSize: nat
    const t: nat

    constructor (maxSize: nat, t: nat, coming: seq<Bytes>)
      ensures this.maxSize == maxSize && this.t == t && this.coming == coming
      ensures rx == [] && buffer == [] && !closed && !failed
    {
      this.maxSize, this.t, this.coming := maxSize, t, coming;
      rx, buffer, closed, failed := [], [], false, false;
    }

    /** Everything the receiver has not looked at yet. */
    ghost function Ahead(): seq<Bytes>
      reads this
    {
      rx + coming
    }

    /** Some of what is coming arrives. */
    method Arrivals()
      modifies this`rx, this`coming
      ensures Ahead() == old(Ahead())
    {
      var n :| 0 <= n <= |coming|;
      rx, coming := rx + coming[..n], coming[n..];
    }

    /** One poll: right for the transfers in the channel.  When it waits it has looked at all of
        them, so it delivers a packet exactly when one has ended, and fails exactly when the packet
        in progress exceeds the limit. */
    method Recv() returns (r: Polled)
      requires |buffer| <= maxSize
      modifies this`rx, this`buffer
      ensures Right(old(buffer), old(rx), r, buffer, rx, t, maxSize)
      ensures Right(old(buffer), old(Ahead()), r, buffer, Ahead(), t, maxSize)
      ensures r.Waits() ==> rx == [] && !Ends(old(rx), t) && |Head(old(buffer), old(rx), t)| <= maxSize
      ensures r == Pending ==> !closed
      ensures r == Eof ==> closed && !failed
      ensures r == Broken ==> closed && failed
    {
      hide Right, Head, Ends, Span, JoinDone, JoinRest;
      ghost var all, start := rx, buffer;
      ghost var taken: seq<Bytes> := [];
      assert start + Flatten(taken) == buffer;
      while true
        invariant all == taken + rx
        invariant forall i :: 0 <= i < |taken| ==> |taken[i]| >= t
        invariant buffer == start + Flatten(taken) && |buffer| <= maxSize
        decreases |rx|
      {
        if rx == [] {
          r := if !closed then Pending else if failed then Broken else Eof;
          NothingEnds(start, taken, t);
          RightWait(start, taken, rx, r, t, maxSize);
          RightMore(start, all, r, buffer, rx, coming, t, maxSize);
          assert all == taken;
          return;
        }
        var packet := rx[0];
        FlattenLast(taken, packet);
        assert all == taken + [packet] + rx[1..];
        taken := taken + [packet];
        rx := rx[1..];
        buffer := buffer + packet;
        assert buffer == start + Flatten(taken);
        if |buffer| > maxSize {
          RightOversize(start, taken, rx, t, maxSize);
          RightMore(start, all, Oversize, [], rx, coming, t, maxSize);
          buffer := [];
          return Oversize;
        }
        if |packet| < t {
          RightPacket(start, taken, rx, t, maxSize);
          RightMore(start, all, Packet(buffer), [], rx, coming, t, maxSize);
          var data := buffer;
          buffer := [];
          return Packet(data);
        }
      }
    }

    /** Any number of polls, each resumed or cancelled, with arrivals in between: they follow one
        another, so of packets within the limit they deliver a beginning, all of them once nothing is
        ahead, and none of them fails. */
    method Receive(polls: nat, ghost msgs: seq<Bytes>, ghost mps: nat) returns (got: seq<Bytes>, ghost log: seq<Poll>)
      requires |buffer| <= maxSize
      modifies this`rx, this`coming, this`buffer
      ensures |log| == polls && Chained(old(buffer), old(Ahead()), log, t, maxSize) && got == AllDelivered(log)
      ensures (buffer, Ahead()) == After(old(buffer), old(Ahead()), log)
      ensures Sent(old(buffer), old(Ahead()), msgs, mps, t, maxSize) ==>
                && got <= msgs && (polls > 0 && Ahead() == [] ==> got == msgs)
                && forall i :: 0 <= i < |log| ==> !log[i].result.Oversize?
    {
      hide Right, JoinDone, JoinRest, CutDone, FrameAll;
      got, log := [], [];
      for i := 0 to polls
        invariant |buffer| <= maxSize && |log| == i
        invariant Chained(old(buffer), old(Ahead()), log, t, maxSize) && got == AllDelivered(log)
        invariant (buffer, Ahead()) == After(old(buffer), old(Ahead()), log)
      {
        Arrivals();
        ghost var before := buffer;
        var r := Recv();
        RightKeepsLimit(before, After(old(buffer), old(Ahead()), log).1, r, buffer, Ahead(), t, maxSize);
        ChainedLast(old(buffer), old(Ahead()), log, Poll(r, buffer, Ahead()), t, maxSize);
        log := log + [Poll(r, buffer, Ahead())];
        got := got + if r.Packet? then [r.data] else [];
      }
      if Sent(old(buffer), old(Ahead()), msgs, mps, t, maxSize) {
        PollsExact(msgs, log, mps, t, maxSize);
      }
    }
  }

  // --------------------------------------------------------------------- host

  /** A transfer in a DMA buffer or in plain memory. */
  datatype RecvPacket = RecvPacket(data: Bytes, zeroCopy: bool)

  function DataOf(ps: seq<RecvPacket>): (ds: seq<Bytes>)
    ensures |ds| == |ps| && forall i :: 0 <= i < |ps| ==> ds[i] == ps[i].data
  {
    seq(|ps|, i requires 0 <= i < |ps| => ps[i].data)
  }

  class HostReceiver {
    var rx: seq<RecvPacket>         // in the channel now
    var coming: seq<RecvPacket>     // will be put there later, at times of their own choosing
    var closed: bool
    var failed: bool
    var buffer: Bytes
    const maxSize: nat
    const t: nat

    constructor (maxSize: nat, t: nat, coming: seq<RecvPacket>)
      ensures this.maxSize == maxSize && this.t == t && this.coming == coming
      ensures rx == [] && buffer == [] && !closed && !failed
    {
      this.maxSize, this.t, this.coming := maxSize, t, coming;
      rx, buffer, closed, failed := [], [], false, false;
    }

    /** Everything the receiver has not looked at yet. */
    ghost function Ahead(): seq<Bytes>
      reads this
    {
      DataOf(rx + coming)
    }

    /** Some of what is coming arrives. */
    method Arrivals()
      modifies this`rx, this`coming
      ensures rx + coming == old(rx + coming)
      ensures |rx| + |coming| == |old(rx)| + |old(coming)| && |rx| >= |old(rx)|
    {
      var n :| 0 <= n <= |coming|;
      rx, coming := rx + coming[..n], coming[n..];
    }

    /** `try_recv`: what has arrived by now decides whether it finds something. */
    method TryRecv() returns (p: Option<RecvPacket>)
      modifies this`rx, this`coming
      ensures p.Some? ==> old(Ahead()) == [p.value.data] + Ahead()
      ensures p.Some? ==> |rx| + |coming| < |old(rx)| + |old(coming)|
      ensures p.None? ==> rx == [] && Ahead() == old(Ahead()) && |rx| + |coming| == |old(rx)| + |old(coming)|
    {
      Arrivals();
      if rx == [] {
        assert rx + coming == coming;
        return None;
      }
      p := Some(rx[0]);
      assert rx + coming == [rx[0]] + (rx[1..] + coming);
      rx := rx[1..];
    }

    /** The rest of a batch: full transfers, ended by a short one or by an empty channel. */
    method Batch(first: RecvPacket) returns (batch: seq<RecvPacket>, short: bool)
      modifies this`rx, this`coming
      ensures batch != [] && batch[0] == first
      ensures [first.data] + old(Ahead()) == DataOf(batch) + Ahead()
      ensures forall i :: 0 <= i < |batch| - 1 ==> |batch[i].data| >= t
      ensures short <==> |batch[|batch| - 1].data| < t
      ensures !short ==> rx == []
      ensures |rx| + |coming| <= |old(rx)| + |old(coming)|
    {
      ghost var all := [first.data] + Ahead();
      short := |first.data| < t;
      batch := [first];
      assert DataOf(batch) == [first.data];
      while !short
        invariant batch != [] && batch[0] == first
        invariant all == DataOf(batch) + Ahead()
        invariant forall i :: 0 <= i < |batch| - 1 ==> |batch[i].data| >= t
        invariant short <==> |batch[|batch| - 1].data| < t
        invariant |rx| + |coming| <= |old(rx)| + |old(coming)|
        decreases |rx| + |coming|
      {
        ghost var before := DataOf(batch);
        var p := TryRecv();
        if p.None? {
          return;
        }
        assert DataOf(batch + [p.value]) == before + [p.value.data];
        batch := batch + [p.value];
        short := |p.value.data| < t;
      }
    }

    /** Appends a batch to the buffer: the first packet's memory is adopted if the buffer is empty
        and the packet is not a DMA buffer; the rest is copied. */
    method Append(batch: seq<RecvPacket>)
      requires batch != []
      modifies this`buffer
      ensures buffer == old(buffer) + Flatten(DataOf(batch))
    {
      var todo := batch;
      assert DataOf(batch[0..]) == DataOf(batch);
      if buffer == [] && !batch[0].zeroCopy {
        buffer := batch[0].data;
        todo := batch[1..];
        assert DataOf(batch) == [batch[0].data] + DataOf(todo);
      }
      assert buffer + Flatten(DataOf(todo)) == old(buffer) + Flatten(DataOf(batch));
      while todo != []
        invariant buffer + Flatten(DataOf(todo)) == old(buffer) + Flatten(DataOf(batch))
        decreases |todo|
      {
        assert DataOf(todo) == [todo[0].data] + DataOf(todo[1..]);
        assert buffer + (todo[0].data + Flatten(DataOf(todo[1..]))) == buffer + todo[0].data + Flatten(DataOf(todo[1..]));
        buffer := buffer + todo[0].data;
        todo := todo[1..];
      }
    }

    /** One turn of the loop: a batch goes to the buffer, behind the full transfers taken before. */
    method TakeBatch(ghost start: Bytes, ghost before: seq<Bytes>) returns (ghost taken: seq<Bytes>, short: bool)
      requires rx != [] && buffer == start + Flatten(before)
      requires forall i :: 0 <= i < |before| ==> |before[i]| >= t
      modifies this`rx, this`coming, this`buffer
      ensures taken != [] && before + old(Ahead()) == taken + Ahead() && buffer == start + Flatten(taken)
      ensures forall i :: 0 <= i < |taken| - 1 ==> |taken[i]| >= t
      ensures short <==> |taken[|taken| - 1]| < t
      ensures |rx| + |coming| < |old(rx)| + |old(coming)|
    {
      var first := rx[0];
      assert rx + coming == [first] + (rx[1..] + coming);
      rx := rx[1..];
      assert old(Ahead()) == [first.data] + Ahead();
      var batch;
      batch, short := Batch(first);
      ghost var ds := DataOf(batch);
      Append(batch);
      taken := before + ds;
      FlattenBehind(start, before, ds);
      FullButLast(before, ds, t);
      Associate(before, ds, Ahead());
    }

    /** One poll, for every schedule of arrivals: right for everything ahead, wherever it is when
        the batch is put together.  So the packet it delivers is the one that taking one transfer
        at a time delivers, nothing is lost or reordered, and it fails only if the packet in
        progress exceeds the limit. */
    method Recv() returns (r: Polled)
      requires |buffer| <= maxSize
      modifies this`rx, this`coming, this`buffer
      ensures Right(old(buffer), old(Ahead()), r, buffer, Ahead(), t, maxSize)
      ensures r.Waits() ==> rx == []
      ensures r == Pending ==> !closed
      ensures r == Eof ==> closed && !failed
      ensures r == Broken ==> closed && failed
    {
      hide Right, Head, Ends, Span;
      ghost var all, start := Ahead(), buffer;
      ghost var taken: seq<Bytes> := [];
      assert buffer + Flatten(taken) == buffer;
      assert taken + Ahead() == Ahead();
      while true
        invariant all == taken + Ahead()
        invariant forall i :: 0 <= i < |taken| ==> |taken[i]| >= t
        invariant buffer == start + Flatten(taken) && |buffer| <= maxSize
        decreases |rx| + |coming|
      {
        if rx == [] {
          r := if !closed then Pending else if failed then Broken else Eof;
          RightWait(start, taken, Ahead(), r, t, maxSize);
          return;
        }
        var ended;
        taken, ended := TakeBatch(start, taken);
        if |buffer| > maxSize {
          RightOversize(start, taken, Ahead(), t, maxSize);
          buffer := [];
          return Oversize;
        }
        if ended {
          RightPacket(start, taken, Ahead(), t, maxSize);
          var data := buffer;
          buffer := [];
          return Packet(data);
        }
      }
    }

    /** Any number of polls, each resumed or cancelled, with arrivals in between: they follow one
        another, so of packets within the limit they deliver a beginning, all of them once nothing is
        ahead, and none of them fails. */
    method Receive(polls: nat, ghost msgs: seq<Bytes>, ghost mps: nat) returns (got: seq<Bytes>, ghost log: seq<Poll>)
      requires |buffer| <= maxSize
      modifies this`rx, this`coming, this`buffer
      ensures |log| == polls && Chained(old(buffer), old(Ahead()), log, t, maxSize) && got == AllDelivered(log)
      ensures (buffer, Ahead()) == After(old(buffer), old(Ahead()), log)
      ensures Sent(old(buffer), old(Ahead()), msgs, mps, t, maxSize) ==>
                && got <= msgs && (polls > 0 && Ahead() == [] ==> got == msgs)
                && forall i :: 0 <= i < |log| ==> !log[i].result.Oversize?
    {
      hide Right, JoinDone, JoinRest, CutDone, FrameAll;
      got, log := [], [];
      for i := 0 to polls
        invariant |buffer| <= maxSize && |log| == i
        invariant Chained(old(buffer), old(Ahead()), log, t, maxSize) && got == AllDelivered(log)
        invariant (buffer, Ahead()) == After(old(buffer), old(Ahead()), log)
      {
        Arrivals();
        ghost var before := buffer;
        var r := Recv();
        RightKeepsLimit(before, After(old(buffer), old(Ahead()), log).1, r, buffer, Ahead(), t, maxSize);
        ChainedLast(old(buffer), old(Ahead()), log, Poll(r, buffer, Ahead()), t, maxSize);
        log := log + [Poll(r, buffer, Ahead())];
        got := got + if r.Packet? then [r.data] else [];
      }
      if Sent(old(buffer), old(Ahead()), msgs, mps, t, maxSize) {
        PollsExact(msgs, log, mps, t, maxSize);
      }
    }
  }
}
