/**
  How packets of the application become USB packets and come back.

  A packet is sent as one or more USB transfers; the controller splits every
  transfer into USB packets of at most `mps` bytes.  The receiving controller
  glues USB packets together into transfers of at most `t` bytes, each ended by
  a short packet or by a full buffer, and the receiver glues transfers together
  until one is shorter than `t`.
 */
module Framing {
  import opened Prelude

  const TRANSFER_PACKETS: nat := 128

  /** The transfer size is a positive multiple of the USB packet size. */
  predicate Sizes(mps: nat, t: nat) {
    0 < mps && 0 < t && t % mps == 0
  }

  /** Every USB packet on the wire fits the endpoint. */
  predicate WireOk(w: seq<Bytes>, mps: nat) {
    forall i :: 0 <= i < |w| ==> |w[i]| <= mps
  }

  // ---------------------------------------------------------------- sending

  /** The USB packets of one packet: full ones, then exactly one short one. */
  function Frame(msg: Bytes, mps: nat): (w: seq<Bytes>)
    requires 0 < mps
    decreases |msg|
  {
    if |msg| < mps then [msg] else [msg[..mps]] + Frame(msg[mps..], mps)
  }

  function FrameAll(msgs: seq<Bytes>, mps: nat): seq<Bytes>
    requires 0 < mps
  {
    if msgs == [] then [] else Frame(msgs[0], mps) + FrameAll(msgs[1..], mps)
  }

  /** What the sending controller makes of one transfer; no terminator is added. */
  function Packetize(transfer: Bytes, mps: nat): seq<Bytes>
    requires 0 < mps
    decreases |transfer|
  {
    if |transfer| <= mps then [transfer] else [transfer[..mps]] + Packetize(transfer[mps..], mps)
  }

  function PacketizeAll(ts: seq<Bytes>, mps: nat): seq<Bytes>
    requires 0 < mps
  {
    if ts == [] then [] else Packetize(ts[0], mps) + PacketizeAll(ts[1..], mps)
  }

  /** The transfers the host submits for one packet. */
  function HostTransfers(msg: Bytes, mps: nat): seq<Bytes>
    requires 0 < mps
  {
    [msg] + if |msg| > 0 && |msg| % mps == 0 then [[]] else []
  }

  /** A packet cut into pieces of at most `t` bytes; nothing for the empty one. */
  function Chunks(msg: Bytes, t: nat): seq<Bytes>
    requires 0 < t
    decreases |msg|
  {
    if msg == [] then []
    else if |msg| <= t then [msg]
    else [msg[..t]] + Chunks(msg[t..], t)
  }

  /** The transfers the device submits for one packet. */
  function DeviceTransfers(msg: Bytes, mps: nat, t: nat): seq<Bytes>
    requires 0 < mps && 0 < t
  {
    Chunks(msg, t) + if |msg| % mps == 0 then [[]] else []
  }

  // -------------------------------------------------------------- receiving

  /** The transfers completed by the USB packets `w`, `acc` bytes being in the buffer already. */
  function CutDone(acc: Bytes, w: seq<Bytes>, mps: nat, t: nat): seq<Bytes>
    decreases |w|
  {
    if w == [] then []
    else
      var a := acc + w[0];
      if |w[0]| < mps || |a| >= t then [a] + CutDone([], w[1..], mps, t)
      else CutDone(a, w[1..], mps, t)
  }

  /** What `w` leaves in the buffer of the transfer that has not completed. */
  function CutRest(acc: Bytes, w: seq<Bytes>, mps: nat, t: nat): Bytes
    decreases |w|
  {
    if w == [] then acc
    else
      var a := acc + w[0];
      if |w[0]| < mps || |a| >= t then CutRest([], w[1..], mps, t)
      else CutRest(a, w[1..], mps, t)
  }

  /**
    The packets a receiver delivers from the transfers `ts`, having `buf` already.
    With `t == mps` the transfers are the USB packets themselves, so the same
    function is also the reference meaning of a wire stream: split it after every
    short packet.
   */
  function JoinDone(buf: Bytes, ts: seq<Bytes>, t: nat): seq<Bytes>
    decreases |ts|
  {
    if ts == [] then []
    else if |ts[0]| < t then [buf + ts[0]] + JoinDone([], ts[1..], t)
    else JoinDone(buf + ts[0], ts[1..], t)
  }

  /** What stays in the reassembly buffer. */
  function JoinRest(buf: Bytes, ts: seq<Bytes>, t: nat): Bytes
    decreases |ts|
  {
    if ts == [] then buf
    else if |ts[0]| < t then JoinRest([], ts[1..], t)
    else JoinRest(buf + ts[0], ts[1..], t)
  }

  // ------------------------------------------------------------ arithmetic

  lemma ModAdd(a: int, m: int)
    requires 0 < m
    ensures (a + m) % m == a % m
  {
    assert a + m == m * (a / m + 1) + a % m;
    DivUnique(a + m, m, a / m + 1, a % m);
  }

  lemma DivUnique(x: int, m: int, q: int, r: int)
    requires 0 < m && 0 <= r < m && x == m * q + r
    ensures x / m == q && x % m == r
  {
    var d := x / m - q;
    assert m * d == r - x % m;
    assert d >= 1 ==> m * d >= m;
    assert d <= -1 ==> m * d <= -m;
  }

  /** One step down from a positive multiple. */
  lemma OneLess(n: int, m: int)
    requires 0 < m && 0 < n && n % m == 0
    ensures m <= n && (n - m) % m == 0
  {
    ModAdd(n - m, m);
    assert n == m * (n / m);
    assert n / m >= 1;
  }

  lemma ModSum(a: int, b: int, m: int)
    requires 0 < m && a % m == 0
    ensures (a + b) % m == b % m
  {
    assert a + b == m * (a / m + b / m) + b % m;
    DivUnique(a + b, m, a / m + b / m, b % m);
  }

  lemma MulMonotone(a: int, b: int, m: int)
    requires a <= b && 0 <= m
    ensures m * a <= m * b
  {
    assert m * b - m * a == m * (b - a);
  }

  /** A multiple of `mps` below `t` leaves room for one more USB packet. */
  lemma RoomForOne(n: nat, mps: nat, t: nat)
    requires Sizes(mps, t) && n % mps == 0 && n < t
    ensures n + mps <= t && (n + mps) % mps == 0
  {
    ModAdd(n, mps);
    var k, q := n / mps, t / mps;
    assert n == mps * k && t == mps * q;
    if k >= q {
      MulMonotone(q, k, mps);
      assert false;
    }
    MulMonotone(k + 1, q, mps);
    assert mps * (k + 1) == mps * k + mps;
  }

  // -------------------------------------------------- both senders, one wire

  lemma {:induction false} PacketizeAllConcat(a: seq<Bytes>, b: seq<Bytes>, mps: nat)
    requires 0 < mps
    ensures PacketizeAll(a + b, mps) == PacketizeAll(a, mps) + PacketizeAll(b, mps)
  {
    if a == [] {
      assert a + b == b;
    } else {
      assert (a + b)[1..] == a[1..] + b;
      PacketizeAllConcat(a[1..], b, mps);
    }
  }

  lemma {:induction false} FrameAllConcat(a: seq<Bytes>, b: seq<Bytes>, mps: nat)
    requires 0 < mps
    ensures FrameAll(a + b, mps) == FrameAll(a, mps) + FrameAll(b, mps)
  {
    if a == [] {
      assert a + b == b;
    } else {
      assert (a + b)[1..] == a[1..] + b;
      FrameAllConcat(a[1..], b, mps);
    }
  }

  /** Cutting off a prefix whose length is a multiple of `mps` cuts the wire there. */
  lemma {:induction false} FrameSplit(msg: Bytes, n: nat, mps: nat)
    requires 0 < mps && 0 < n <= |msg| && n % mps == 0
    ensures Frame(msg, mps) == Packetize(msg[..n], mps) + Frame(msg[n..], mps)
    decreases |msg|
  {
    OneLess(n, mps);
    var head, tail := msg[..n], msg[mps..];
    if n == mps {
      assert Packetize(head, mps) == [head];
    } else {
      FrameSplit(tail, n - mps, mps);
      assert head[..mps] == msg[..mps];
      assert head[mps..] == tail[..n - mps];
      assert tail[n - mps..] == msg[n..];
    }
  }

  /** A packet whose last USB packet is short needs no terminator. */
  lemma {:induction false} FrameNoTerminator(msg: Bytes, mps: nat)
    requires 0 < mps && (msg == [] || |msg| % mps != 0)
    ensures Frame(msg, mps) == Packetize(msg, mps)
    decreases |msg|
  {
    if |msg| >= mps {
      ModAdd(|msg| - mps, mps);
      assert |msg| != mps;
      FrameNoTerminator(msg[mps..], mps);
    }
  }

  /** The host's single transfer plus conditional terminator is the canonical wire image. */
  lemma HostWire(msg: Bytes, mps: nat)
    requires 0 < mps
    ensures PacketizeAll(HostTransfers(msg, mps), mps) == Frame(msg, mps)
  {
    assert PacketizeAll([[]], mps) == [[]] by { assert PacketizeAll([[]][1..], mps) == []; }
    if |msg| > 0 && |msg| % mps == 0 {
      FrameSplit(msg, |msg|, mps);
      assert msg[..|msg|] == msg && msg[|msg|..] == [];
      assert HostTransfers(msg, mps)[1..] == [[]];
    } else {
      FrameNoTerminator(msg, mps);
      assert HostTransfers(msg, mps)[1..] == [];
      assert PacketizeAll(HostTransfers(msg, mps)[1..], mps) == [];
    }
  }

  lemma {:induction false} ChunksWire(msg: Bytes, mps: nat, t: nat)
    requires Sizes(mps, t)
    ensures |msg| % mps == 0 ==> PacketizeAll(Chunks(msg, t), mps) + [[]] == Frame(msg, mps)
    ensures |msg| % mps != 0 ==> PacketizeAll(Chunks(msg, t), mps) == Frame(msg, mps)
    decreases |msg|
  {
    var cs := Chunks(msg, t);
    if msg == [] {
      assert 0 % mps == 0;
    } else if |msg| <= t {
      assert cs[1..] == [] && PacketizeAll(cs[1..], mps) == [];
      if |msg| % mps == 0 {
        FrameSplit(msg, |msg|, mps);
        assert msg[..|msg|] == msg && msg[|msg|..] == [];
      } else {
        FrameNoTerminator(msg, mps);
      }
    } else {
      assert cs[1..] == Chunks(msg[t..], t);
      ModSum(t, |msg| - t, mps);
      ChunksWire(msg[t..], mps, t);
      FrameSplit(msg, t, mps);
    }
  }

  /** The device's chunks plus conditional terminator are the same wire image. */
  lemma DeviceWire(msg: Bytes, mps: nat, t: nat)
    requires Sizes(mps, t)
    ensures PacketizeAll(DeviceTransfers(msg, mps, t), mps) == Frame(msg, mps)
  {
    ChunksWire(msg, mps, t);
    if |msg| % mps == 0 {
      PacketizeAllConcat(Chunks(msg, t), [[]], mps);
      assert PacketizeAll([[]], mps) == [[]] by { assert PacketizeAll([[]][1..], mps) == []; }
    } else {
      assert DeviceTransfers(msg, mps, t) == Chunks(msg, t);
    }
  }

  lemma {:induction false} FrameFits(msg: Bytes, mps: nat)
    requires 0 < mps
    ensures WireOk(Frame(msg, mps), mps)
    decreases |msg|
  {
    if |msg| >= mps {
      FrameFits(msg[mps..], mps);
    }
  }

  lemma {:induction false} FrameAllFits(msgs: seq<Bytes>, mps: nat)
    requires 0 < mps
    ensures WireOk(FrameAll(msgs, mps), mps)
  {
    if msgs != [] {
      FrameFits(msgs[0], mps);
      FrameAllFits(msgs[1..], mps);
    }
  }

  lemma {:induction false} PacketizeFits(ts: seq<Bytes>, mps: nat)
    requires 0 < mps
    ensures WireOk(PacketizeAll(ts, mps), mps)
    decreases Total(ts) + |ts|
  {
    if ts != [] {
      if |ts[0]| <= mps {
        PacketizeFits(ts[1..], mps);
      } else {
        var rest := [ts[0][mps..]] + ts[1..];
        assert rest[1..] == ts[1..];
        PacketizeFits(rest, mps);
        assert PacketizeAll(ts, mps) == [ts[0][..mps]] + PacketizeAll(rest, mps);
      }
    }
  }

  // ----------------------------------------------- receiving is compositional

  lemma {:induction false} JoinConcat(buf: Bytes, a: seq<Bytes>, b: seq<Bytes>, t: nat)
    ensures JoinDone(buf, a + b, t) == JoinDone(buf, a, t) + JoinDone(JoinRest(buf, a, t), b, t)
    ensures JoinRest(buf, a + b, t) == JoinRest(JoinRest(buf, a, t), b, t)
    decreases |a|
  {
    if a == [] {
      assert a + b == b;
    } else {
      assert (a + b)[1..] == a[1..] + b;
      if |a[0]| < t {
        JoinConcat([], a[1..], b, t);
      } else {
        JoinConcat(buf + a[0], a[1..], b, t);
      }
    }
  }

  lemma {:induction false} CutConcat(acc: Bytes, a: seq<Bytes>, b: seq<Bytes>, mps: nat, t: nat)
    ensures CutDone(acc, a + b, mps, t) == CutDone(acc, a, mps, t) + CutDone(CutRest(acc, a, mps, t), b, mps, t)
    ensures CutRest(acc, a + b, mps, t) == CutRest(CutRest(acc, a, mps, t), b, mps, t)
    decreases |a|
  {
    if a == [] {
      assert a + b == b;
    } else {
      assert (a + b)[1..] == a[1..] + b;
      var c := acc + a[0];
      if |a[0]| < mps || |c| >= t {
        CutConcat([], a[1..], b, mps, t);
      } else {
        CutConcat(c, a[1..], b, mps, t);
      }
    }
  }

  /** More input never takes back or changes a delivered packet. */
  lemma JoinMonotone(buf: Bytes, a: seq<Bytes>, b: seq<Bytes>, t: nat)
    ensures JoinDone(buf, a, t) <= JoinDone(buf, a + b, t)
  {
    JoinConcat(buf, a, b, t);
  }

  /** The size of the receive buffers is invisible: reading in transfers of `t` bytes
      delivers exactly what reading USB packet by USB packet delivers, on any wire. */
  lemma {:induction false} CutJoin(buf: Bytes, acc: Bytes, w: seq<Bytes>, mps: nat, t: nat)
    requires Sizes(mps, t) && WireOk(w, mps)
    requires |acc| % mps == 0 && |acc| < t
    ensures JoinDone(buf, CutDone(acc, w, mps, t), t) == JoinDone(buf + acc, w, mps)
    ensures JoinRest(buf, CutDone(acc, w, mps, t), t) + CutRest(acc, w, mps, t) == JoinRest(buf + acc, w, mps)
    decreases |w|
  {
    if w != [] {
      var p, rest := w[0], w[1..];
      var a := acc + p;
      RoomForOne(|acc|, mps, t);
      assert WireOk(rest, mps);
      assert buf + a == buf + acc + p;
      if |p| < mps {
        assert CutDone(acc, w, mps, t)[1..] == CutDone([], rest, mps, t);
        CutJoin([], [], rest, mps, t);
        var none: Bytes := []; assert none + none == none;
      } else if |a| >= t {
        assert CutDone(acc, w, mps, t)[1..] == CutDone([], rest, mps, t);
        CutJoin(buf + a, [], rest, mps, t);
        assert buf + a + [] == buf + a;
      } else {
        CutJoin(buf, a, rest, mps, t);
      }
    }
  }

  /** The controller never overfills a buffer, and its open transfer holds whole full packets. */
  lemma {:induction false} CutBounds(acc: Bytes, w: seq<Bytes>, mps: nat, t: nat)
    requires Sizes(mps, t) && WireOk(w, mps)
    requires |acc| % mps == 0 && |acc| < t
    ensures forall i :: 0 <= i < |CutDone(acc, w, mps, t)| ==> |CutDone(acc, w, mps, t)[i]| <= t
    ensures |CutRest(acc, w, mps, t)| % mps == 0 && |CutRest(acc, w, mps, t)| < t
    decreases |w|
  {
    if w != [] {
      var a := acc + w[0];
      RoomForOne(|acc|, mps, t);
      assert WireOk(w[1..], mps);
      if |w[0]| < mps || |a| >= t {
        CutBounds([], w[1..], mps, t);
      } else {
        CutBounds(a, w[1..], mps, t);
      }
    }
  }

  // ---------------------------------------------------------- round trips

  lemma {:induction false} JoinFrame(buf: Bytes, msg: Bytes, mps: nat)
    requires 0 < mps
    ensures JoinDone(buf, Frame(msg, mps), mps) == [buf + msg]
    ensures JoinRest(buf, Frame(msg, mps), mps) == []
    decreases |msg|
  {
    var w := Frame(msg, mps);
    if |msg| < mps {
      assert w[1..] == [];
    } else {
      assert w[1..] == Frame(msg[mps..], mps);
      JoinFrame(buf + msg[..mps], msg[mps..], mps);
      assert buf + msg[..mps] + msg[mps..] == buf + msg;
    }
  }

  /** Splitting the wire after short packets undoes framing. */
  lemma {:induction false} DeframeFrame(msgs: seq<Bytes>, mps: nat)
    requires 0 < mps
    ensures JoinDone([], FrameAll(msgs, mps), mps) == msgs
    ensures JoinRest([], FrameAll(msgs, mps), mps) == []
  {
    if msgs != [] {
      JoinConcat([], Frame(msgs[0], mps), FrameAll(msgs[1..], mps), mps);
      JoinFrame([], msgs[0], mps);
      assert [] + msgs[0] == msgs[0];
      DeframeFrame(msgs[1..], mps);
    }
  }

  /** The full USB packets of a message that has not ended yet. */
  function Unfinished(rest: Bytes, mps: nat): seq<Bytes>
    requires 0 < mps
  {
    if rest == [] then [] else Packetize(rest, mps)
  }

  lemma {:induction false} PacketizeAppendFull(rest: Bytes, p: Bytes, mps: nat)
    requires 0 < mps && |rest| % mps == 0 && |p| == mps
    ensures Unfinished(rest + p, mps) == Unfinished(rest, mps) + [p]
    decreases |rest|
  {
    if rest == [] {
      assert rest + p == p;
    } else {
      OneLess(|rest|, mps);
      assert (rest + p)[..mps] == rest[..mps];
      assert (rest + p)[mps..] == rest[mps..] + p;
      PacketizeAppendFull(rest[mps..], p, mps);
      if |rest| == mps {
        assert rest[..mps] == rest && rest[mps..] == [];
      }
    }
  }

  lemma {:induction false} FrameAppendShort(rest: Bytes, p: Bytes, mps: nat)
    requires 0 < mps && |rest| % mps == 0 && |p| < mps
    ensures Frame(rest + p, mps) == Unfinished(rest, mps) + [p]
  {
    if rest == [] {
      assert rest + p == p;
    } else {
      FrameSplit(rest + p, |rest|, mps);
      assert (rest + p)[..|rest|] == rest && (rest + p)[|rest|..] == p;
    }
  }

  /** Framing undoes splitting: every wire stream is the image of the packets it
      carries followed by the full packets of an unfinished one. */
  lemma {:induction false} FrameDeframe(buf: Bytes, w: seq<Bytes>, mps: nat)
    requires 0 < mps && WireOk(w, mps) && |buf| % mps == 0
    ensures Unfinished(buf, mps) + w
         == FrameAll(JoinDone(buf, w, mps), mps) + Unfinished(JoinRest(buf, w, mps), mps)
    decreases |w|
  {
    var here := Unfinished(buf, mps);
    if w == [] {
      assert here + w == here;
    } else {
      var p, rest := w[0], w[1..];
      assert WireOk(rest, mps);
      assert here + w == here + [p] + rest;
      if |p| < mps {
        FrameAppendShort(buf, p, mps);
        FrameDeframe([], rest, mps);
        assert Unfinished([], mps) + rest == rest;
        assert JoinDone(buf, w, mps)[1..] == JoinDone([], rest, mps);
        FrameDeframeGlue(buf + p, JoinDone([], rest, mps), Unfinished(JoinRest([], rest, mps), mps), mps);
      } else {
        PacketizeAppendFull(buf, p, mps);
        ModAdd(|buf|, mps);
        FrameDeframe(buf + p, rest, mps);
      }
    }
  }

  lemma FrameDeframeGlue(msg: Bytes, msgs: seq<Bytes>, tail: seq<Bytes>, mps: nat)
    requires 0 < mps
    ensures Frame(msg, mps) + (FrameAll(msgs, mps) + tail) == FrameAll([msg] + msgs, mps) + tail
  {
    assert ([msg] + msgs)[1..] == msgs;
  }

  /** Two packet sequences with the same wire image are the same. */
  lemma FrameAllInjective(a: seq<Bytes>, b: seq<Bytes>, mps: nat)
    requires 0 < mps && FrameAll(a, mps) == FrameAll(b, mps)
    ensures a == b
  {
    DeframeFrame(a, mps);
    DeframeFrame(b, mps);
  }

  /** All transfers the host submits for a sequence of packets. */
  function HostTransfersAll(msgs: seq<Bytes>, mps: nat): seq<Bytes>
    requires 0 < mps
  {
    if msgs == [] then [] else HostTransfers(msgs[0], mps) + HostTransfersAll(msgs[1..], mps)
  }

  function DeviceTransfersAll(msgs: seq<Bytes>, mps: nat, t: nat): seq<Bytes>
    requires 0 < mps && 0 < t
  {
    if msgs == [] then [] else DeviceTransfers(msgs[0], mps, t) + DeviceTransfersAll(msgs[1..], mps, t)
  }

  lemma {:induction false} HostSameWire(msgs: seq<Bytes>, mps: nat)
    requires 0 < mps
    ensures PacketizeAll(HostTransfersAll(msgs, mps), mps) == FrameAll(msgs, mps)
  {
    if msgs != [] {
      HostSameWire(msgs[1..], mps);
      HostWire(msgs[0], mps);
      PacketizeAllConcat(HostTransfers(msgs[0], mps), HostTransfersAll(msgs[1..], mps), mps);
    }
  }

  lemma {:induction false} DeviceSameWire(msgs: seq<Bytes>, mps: nat, t: nat)
    requires Sizes(mps, t)
    ensures PacketizeAll(DeviceTransfersAll(msgs, mps, t), mps) == FrameAll(msgs, mps)
  {
    if msgs != [] {
      DeviceSameWire(msgs[1..], mps, t);
      DeviceWire(msgs[0], mps, t);
      PacketizeAllConcat(DeviceTransfers(msgs[0], mps, t), DeviceTransfersAll(msgs[1..], mps, t), mps);
    }
  }

  /** Host and device put the same USB packets on the wire, whatever they send. */
  lemma SameWire(msgs: seq<Bytes>, mps: nat, t: nat)
    requires Sizes(mps, t)
    ensures PacketizeAll(HostTransfersAll(msgs, mps), mps) == FrameAll(msgs, mps)
    ensures PacketizeAll(DeviceTransfersAll(msgs, mps, t), mps) == FrameAll(msgs, mps)
  {
    HostSameWire(msgs, mps);
    DeviceSameWire(msgs, mps, t);
  }

  /** Either sender, any split of the wire into transfers of up to `t`, reassembly:
      exactly the packets that were sent, and nothing left over. */
  lemma RoundTrip(msgs: seq<Bytes>, mps: nat, t: nat, fromHost: bool)
    requires Sizes(mps, t)
    ensures var w := PacketizeAll(if fromHost then HostTransfersAll(msgs, mps) else DeviceTransfersAll(msgs, mps, t), mps);
            && JoinDone([], CutDone([], w, mps, t), t) == msgs
            && JoinRest([], CutDone([], w, mps, t), t) == []
            && CutRest([], w, mps, t) == []
  {
    SameWire(msgs, mps, t);
    FrameAllFits(msgs, mps);
    CutJoin([], [], FrameAll(msgs, mps), mps, t);
    var none: Bytes := []; assert none + none == none;
    DeframeFrame(msgs, mps);
  }

  /** Whatever part of the wire has arrived, the receiver has the packets that were
      sent first, in order and whole. */
  lemma PartialArrival(msgs: seq<Bytes>, n: nat, mps: nat, t: nat)
    requires Sizes(mps, t) && n <= |FrameAll(msgs, mps)|
    ensures JoinDone([], CutDone([], FrameAll(msgs, mps)[..n], mps, t), t) <= msgs
  {
    var w := FrameAll(msgs, mps);
    FrameAllFits(msgs, mps);
    assert WireOk(w[..n], mps);
    CutJoin([], [], w[..n], mps, t);
    var none: Bytes := []; assert none + none == none;
    assert w == w[..n] + w[n..];
    JoinMonotone([], w[..n], w[n..], mps);
    DeframeFrame(msgs, mps);
  }
}
