/** The barrier with which the web host gets rid of what an earlier connection left on the IN
    endpoint: markers sent through the control pipe and echoed back behind the stale data. */
module Echo {
  import opened Prelude
  import opened Framing
  import opened DeviceControl

  const RETRIES: nat := 50

  /** How the barrier, or a round of it, ends: `RequestFailed` is an ECHO request that was not served. */
  datatype End = Matched | ChannelClosed | GaveUp | RequestFailed

  /** All transfers that reach the host when the markers sent so far have been echoed: the stale
      ones; the first marker, glued to the stale data that no short packet has ended; the rest. */
  function Stream(stale: seq<Bytes>, left: Bytes, markers: seq<Bytes>): seq<Bytes> {
    if markers == [] then stale else stale + [left + markers[0]] + markers[1..]
  }

  /** The markers, random in the code, differ from one another and from every stale transfer. */
  predicate Distinct(stale: seq<Bytes>, markers: seq<Bytes>) {
    && (forall i, j :: 0 <= i < j < |markers| ==> markers[i] != markers[j])
    && (forall i, j :: 0 <= i < |markers| && 0 <= j < |stale| ==> markers[i] != stale[j])
  }

  /** The echo of a marker is one short USB packet: it ends the open transfer. */
  lemma EchoArrives(filling: Bytes, wire: seq<Bytes>, marker: Bytes, mps: nat, t: nat)
    requires |marker| < mps
    ensures CutDone(filling, wire + [marker], mps, t) == CutDone(filling, wire, mps, t) + [CutRest(filling, wire, mps, t) + marker]
    ensures CutRest(filling, wire + [marker], mps, t) == []
  {
    CutConcat(filling, wire, [marker], mps, t);
    var one, none: seq<Bytes> := [marker], [];
    assert one[1..] == none;
  }

  lemma StreamStarts(stale: seq<Bytes>, left: Bytes, markers: seq<Bytes>)
    ensures Stream(stale, left, markers[..0]) == stale
  {
  }

  lemma StreamGrows(stale: seq<Bytes>, left: Bytes, markers: seq<Bytes>, m: Bytes)
    ensures Stream(stale, left, markers + [m]) == Stream(stale, left, markers) + [(if markers == [] then left else []) + m]
  {
    var ms := markers + [m];
    if markers == [] {
      assert ms[1..] == [];
    } else {
      assert ms[1..] == markers[1..] + [m];
      assert [] + m == m;
    }
  }

  /** A transfer that equals the newest marker is its echo, and the last transfer of the stream. */
  lemma MatchIsLast(stale: seq<Bytes>, left: Bytes, markers: seq<Bytes>, i: nat, mps: nat)
    requires 0 < mps && markers != [] && (forall j :: 0 <= j < |markers| ==> |markers[j]| == mps - 1)
    requires |left| % mps == 0 && Distinct(stale, markers)
    requires i < |Stream(stale, left, markers)| && Stream(stale, left, markers)[i] == markers[|markers| - 1]
    ensures i == |Stream(stale, left, markers)| - 1
    ensures |markers| == 1 ==> left == []
  {
    var s := Stream(stale, left, markers);
    assert forall j :: 0 <= j < |stale| ==> s[j] == stale[j];
    assert i == |stale| ==> s[i] == left + markers[0];
    assert i > |stale| ==> s[i] == markers[i - |stale|];
    if left != [] {
      OneLess(|left|, mps);
    }
    assert i == |stale| ==> left == [] && s[i] == markers[0];
  }

  class Barrier {
    const mps: nat
    const t: nat
    var dev: Control            // the device's loop, with what its IN endpoint holds
    var filling: Bytes          // the transfer being received
    var channel: seq<Bytes>     // completed transfers, in the queue of the receive task
    var closed: bool            // the receive task has ended

    /** USB packets the device has queued or sent and the host has not read. */
    function Wire(): seq<Bytes>
      reads this
    {
      dev.tx.fifo + dev.tx.queue
    }

    /** No connection is open on the device. */
    ghost predicate Quiet()
      reads this
    {
      Inv(dev) && Idle(dev)
    }

    /** Transfers the barrier loop has not seen, and the open one behind them. */
    ghost function Ahead(): seq<Bytes>
      reads this
    {
      channel + CutDone(filling, Wire(), mps, t)
    }

    ghost function Open(): Bytes
      reads this
    {
      CutRest(filling, Wire(), mps, t)
    }

    constructor (mps: nat, t: nat, dev: Control, filling: Bytes, channel: seq<Bytes>)
      ensures this.mps == mps && this.t == t && this.dev == dev && this.filling == filling && this.channel == channel
      ensures !closed
    {
      this.mps, this.t, this.dev, this.filling, this.channel, closed := mps, t, dev, filling, channel, false;
    }

    /** The host has read `n` USB packets; the rest are on their way. */
    method Advance(n: nat)
      requires n <= |Wire()|
      modifies this`dev
      ensures Wire() == old(Wire())[n..] && (old(Quiet()) ==> Quiet())
    {
      dev := dev.(tx := dev.tx.(fifo := Wire()[n..], queue := []));
    }

    /** The receive task reads some more, or ends. */
    method Progress(alive: bool)
      modifies this`dev, this`filling, this`channel, this`closed
      ensures Ahead() == old(Ahead()) && Open() == old(Open()) && (old(Quiet()) ==> Quiet())
      ensures alive ==> closed == old(closed)
    {
      hide CutDone, CutRest, Inv;
      ghost var wire := Wire();
      var n :| 0 <= n <= |Wire()|;
      CutConcat(filling, wire[..n], wire[n..], mps, t);
      assert wire == wire[..n] + wire[n..];
      channel := channel + CutDone(filling, Wire()[..n], mps, t);
      filling := CutRest(filling, Wire()[..n], mps, t);
      Advance(n);
      if !alive {
        var ended := *;
        closed := closed || ended;
      }
    }

    /** The device's loop serves an ECHO request: the marker comes behind everything else. */
    method EchoRequest(marker: Bytes)
      requires |marker| < mps && Quiet()
      modifies this`dev
      ensures Ahead() == old(Ahead()) + [old(Open()) + marker] && Open() == [] && Quiet()
    {
      EchoTurn(dev, Echo(Some(marker)), true);
      InvStep(dev, Echo(Some(marker)), true);
      EchoArrives(filling, Wire(), marker, mps, t);
      dev := Step(dev, Echo(Some(marker)), true).control;
      assert Wire() == old(Wire()) + [marker];
      assert channel + (CutDone(filling, old(Wire()), mps, t) + [old(Open()) + marker]) == Ahead();
    }

    /** Receives with a timeout.  If the transport is timely the timeout strikes only when nothing
        is on the way. */
    method Receive(timely: bool) returns (p: Option<Bytes>)
      modifies this`dev, this`filling, this`channel, this`closed
      ensures p.Some? ==> old(Ahead()) == [p.value] + Ahead()
      ensures p.None? ==> Ahead() == old(Ahead()) && (timely ==> Ahead() == [] || closed)
      ensures Open() == old(Open()) && (old(Quiet()) ==> Quiet())
      ensures timely ==> closed == old(closed)
    {
      hide Inv;
      Progress(timely);
      if timely && channel == [] && !closed {
        // Wait for everything that is on the way.
        channel := channel + CutDone(filling, Wire(), mps, t);
        filling := CutRest(filling, Wire(), mps, t);
        Advance(|Wire()|);
      }
      var strikes := *;
      if channel == [] || (strikes && !timely) {
        return None;
      }
      p := Some(channel[0]);
      channel := channel[1..];
    }

    /** One round: a fresh marker, then transfers until one equals it or the timeout strikes. */
    method Round(marker: Bytes, timely: bool) returns (o: End, ghost seen: seq<Bytes>)
      requires |marker| < mps && Quiet()
      modifies this`dev, this`filling, this`channel, this`closed
      ensures old(Ahead()) + [old(Open()) + marker] == seen + Ahead() && Open() == [] && Quiet()
      ensures o != RequestFailed
      ensures o == Matched ==> seen != [] && seen[|seen| - 1] == marker && marker !in seen[..|seen| - 1]
      ensures o != Matched ==> marker !in seen
      ensures o != Matched ==> (o == ChannelClosed <==> closed && channel == [])
      ensures timely ==> closed == old(closed)
      ensures timely && o != Matched ==> Ahead() == [] || closed
    {
      EchoRequest(marker);
      ghost var all := Ahead();
      seen := [];
      assert all == seen + Ahead();
      while true
        invariant all == seen + Ahead() && Open() == [] && Quiet()
        invariant marker !in seen
        invariant timely ==> closed == old(closed)
        decreases |Ahead()|
      {
        var p := Receive(timely);
        if p.None? {
          return if closed && channel == [] then ChannelClosed else GaveUp, seen;
        }
        assert all == seen + [p.value] + Ahead();
        assert (seen + [p.value])[..|seen|] == seen;
        seen := seen + [p.value];
        if p.value == marker {
          return Matched, seen;
        }
      }
    }

    /** The barrier.  It gives up after fifty rounds, and only then.  If the markers are distinct, a match means that
        the IN stream is empty, whatever stale data there was; and with a timely transport it
        matches in the first round, or in the second one if the stale data ended without a short
        packet.  Markers must be distinct: if the first one is among the stale transfers, that one is
        taken for its echo, and the stream is not empty. */
    method Run(markers: seq<Bytes>, served: seq<bool>, timely: bool) returns (o: End, rounds: nat)
      requires 0 < mps && |markers| == RETRIES && forall i :: 0 <= i < |markers| ==> |markers[i]| == mps - 1
      requires |Open()| % mps == 0 && Quiet() && |served| == RETRIES
      modifies this
      ensures rounds <= RETRIES && (o == GaveUp ==> rounds == RETRIES)
      ensures o == RequestFailed <==> rounds > 0 && !served[rounds - 1]
      ensures o == RequestFailed || Quiet()
      ensures o == Matched && Distinct(old(Ahead()), markers) ==> Ahead() == [] && Open() == []
      ensures o == Matched && rounds == 1 && Distinct(old(Ahead()), markers) ==> old(Open()) == []
      ensures timely && !old(closed) && (forall i :: 0 <= i < RETRIES ==> served[i]) && Distinct(old(Ahead()), markers) ==>
                o == Matched && rounds == if old(Open()) == [] then 1 else 2
      ensures timely && !old(closed) && served[0] && markers[0] in old(Ahead()) ==>
                o == Matched && rounds == 1 && Ahead() != []
      ensures o == ChannelClosed ==> closed && channel == []
      ensures o == GaveUp ==> !closed || channel != []
    {
      hide Stream, CutDone, CutRest, Inv, Ahead, Open, Wire, Quiet, Distinct;
      ghost var stale, left := Ahead(), Open();
      ghost var seen: seq<Bytes> := [];
      rounds := 0;
      StreamStarts(stale, left, markers);
      assert seen + Ahead() == stale;
      while rounds < RETRIES
        invariant 0 <= rounds <= RETRIES
        invariant Stream(stale, left, markers[..rounds]) == seen + Ahead()
        invariant if rounds == 0 then Open() == left && Ahead() == stale else Open() == []
        invariant timely && !old(closed) ==> !closed
        invariant Quiet() && (rounds > 0 ==> served[rounds - 1] && (!closed || channel != []))
        invariant timely && !old(closed) && rounds > 0 ==>
                    Ahead() == [] && markers[0] !in stale && (Distinct(stale, markers) ==> rounds == 1 && left != [])
      {
        var marker := markers[rounds];
        if !served[rounds] {
          return RequestFailed, rounds + 1;
        }
        ghost var before, open, ahead := seen, Open(), Ahead();
        ghost var now;
        o, now := Round(marker, timely);
        NextRound(stale, left, markers, rounds, before, ahead, open, now, Ahead());
        if rounds == 0 {
          FirstRound(stale, open + marker, now, Ahead(), marker);
        }
        rounds := rounds + 1;
        seen := before + now;
        if o == Matched {
          if Distinct(stale, markers) {
            EndsHere(stale, left, markers, rounds, seen, Ahead(), mps);
          }
          return;
        }
        if o == ChannelClosed {
          return;
        }
        if timely && !old(closed) {
          LastSeen(ahead, open + marker, now, Ahead());
          assert open == [] ==> open + marker == marker;
        }
      }
      return GaveUp, rounds;
    }
  }

  lemma NextRound(stale: seq<Bytes>, left: Bytes, markers: seq<Bytes>, n: nat,
                  before: seq<Bytes>, ahead: seq<Bytes>, open: Bytes, now: seq<Bytes>, ahead': seq<Bytes>)
    requires n < |markers| && Stream(stale, left, markers[..n]) == before + ahead
    requires open == (if n == 0 then left else []) && ahead + [open + markers[n]] == now + ahead'
    ensures Stream(stale, left, markers[..n + 1]) == before + now + ahead'
  {
    StreamGrows(stale, left, markers[..n], markers[n]);
    assert markers[..n + 1] == markers[..n] + [markers[n]];
    assert before + (ahead + [open + markers[n]]) == before + ahead + [open + markers[n]];
    assert before + (now + ahead') == before + now + ahead';
  }

  /** A match found among distinct transfers is the end of the stream. */
  lemma EndsHere(stale: seq<Bytes>, left: Bytes, markers: seq<Bytes>, n: nat, seen: seq<Bytes>, ahead: seq<Bytes>, mps: nat)
    requires 0 < mps && 0 < n <= |markers| && (forall j :: 0 <= j < |markers| ==> |markers[j]| == mps - 1)
    requires |left| % mps == 0 && Distinct(stale, markers)
    requires Stream(stale, left, markers[..n]) == seen + ahead
    requires seen != [] && seen[|seen| - 1] == markers[n - 1]
    ensures ahead == [] && (n == 1 ==> left == [])
  {
    var ms := markers[..n];
    assert Distinct(stale, ms);
    assert (seen + ahead)[|seen| - 1] == seen[|seen| - 1];
    MatchIsLast(stale, left, ms, |seen| - 1, mps);
  }

  lemma LastSeen(ahead: seq<Bytes>, echo: Bytes, now: seq<Bytes>, ahead': seq<Bytes>)
    requires ahead + [echo] == now + ahead' && ahead' == []
    ensures echo in now
  {
    assert now == ahead + [echo];
  }

  /** The first transfer equal to the marker is a stale one: the echo is still to come. */
  lemma FirstRound(ahead: seq<Bytes>, echo: Bytes, now: seq<Bytes>, ahead': seq<Bytes>, marker: Bytes)
    requires ahead + [echo] == now + ahead'
    ensures ahead' == [] && marker in ahead ==> now != [] && marker in now && marker in now[..|now| - 1]
  {
    if ahead' == [] {
      assert now == ahead + [echo] && now[..|now| - 1] == ahead;
    }
  }

  /** A run in which a stale transfer happens to be the first marker: the barrier reports success,
      and the echo is left for the connection. */
  method FalseMatchExample(markers: seq<Bytes>, served: seq<bool>, dev: Control, mps: nat, t: nat) returns (o: End, b: Barrier)
    requires 0 < mps && |markers| == |served| == RETRIES && forall i :: 0 <= i < |markers| ==> |markers[i]| == mps - 1
    requires Inv(dev) && Idle(dev) && dev.tx == TxEnd([], [], false) && served[0]
    ensures o == Matched && b.Ahead() != []
  {
    b := new Barrier(mps, t, dev, [], [markers[0]]);
    var none: seq<Bytes> := [];
    assert b.Wire() == none && 0 % mps == 0;
    assert markers[0] in b.Ahead();
    var rounds;
    o, rounds := b.Run(markers, served, true);
  }
}
