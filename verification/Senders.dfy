/** The two send tasks as loops: the host's with its window of submitted transfers, the device's
    with its chunks. */
module Senders {
  import opened Prelude
  import opened Framing
  import opened Flow

  const DMA_BUFFERS: nat := 8

  /** How a submitted OUT transfer completes; `Partial` stands for fewer bytes than submitted. */
  datatype Completion = Whole | Partial | Stalled | Faulted

  datatype TaskError = Transfer | PartialSend

  lemma HostTransfersLast(ms: seq<Bytes>, m: Bytes, mps: nat)
    requires 0 < mps
    ensures HostTransfersAll(ms + [m], mps) == HostTransfersAll(ms, mps) + HostTransfers(m, mps)
  {
    HostTransfersConcat(ms, [m], mps);
    var one, none: seq<Bytes> := [m], [];
    assert one[1..] == none && HostTransfersAll(none, mps) == none;
    assert HostTransfersAll(one, mps) == HostTransfers(m, mps) + none;
  }

  lemma {:induction false} HostTransfersConcat(a: seq<Bytes>, b: seq<Bytes>, mps: nat)
    requires 0 < mps
    ensures HostTransfersAll(a + b, mps) == HostTransfersAll(a, mps) + HostTransfersAll(b, mps)
  {
    if a == [] {
      assert a + b == b;
    } else {
      assert (a + b)[1..] == a[1..] + b;
      HostTransfersConcat(a[1..], b, mps);
    }
  }

  lemma {:induction false} HostTotal(ms: seq<Bytes>, mps: nat)
    requires 0 < mps
    ensures Total(HostTransfersAll(ms, mps)) == Total(ms)
  {
    if ms != [] {
      var none: seq<Bytes> := [];
      HostTotal(ms[1..], mps);
      TotalConcat(HostTransfers(ms[0], mps), HostTransfersAll(ms[1..], mps));
      assert HostTransfers(ms[0], mps)[1..] == if |ms[0]| > 0 && |ms[0]| % mps == 0 then [[]] else none;
      assert Total([[]]) == 0 by { assert [[]][1..] == none; }
    }
  }

  lemma CountLast(ms: seq<Bytes>, m: Bytes)
    ensures Total(ms + [m]) % TWO_TO_THE_64 == (Total(ms) % TWO_TO_THE_64 + |m|) % TWO_TO_THE_64
  {
    TotalLast(ms, m);
    ModStep(Total(ms), |m|, TWO_TO_THE_64);
  }

  /** The transfer failed, which ends the task. */
  predicate Fails(c: Completion) {
    c.Stalled? || c.Faulted?
  }

  /** The error that completions leave for the application: a short one takes precedence over a fault;
      a stall is none. */
  function ErrorOf(cs: seq<Completion>): Option<TaskError> {
    if Partial in cs then Some(PartialSend) else if Faulted in cs then Some(Transfer) else None
  }

  /** One more completion. */
  lemma RecordOne(cs: seq<Completion>, c: Completion)
    ensures ErrorOf(cs + [c]) == if c.Partial? then Some(PartialSend)
                                 else if c.Faulted? && ErrorOf(cs).None? then Some(Transfer) else ErrorOf(cs)
    ensures (exists i :: 0 <= i < |cs + [c]| && Fails((cs + [c])[i])) <==> Fails(c) || exists i :: 0 <= i < |cs| && Fails(cs[i])
    ensures Partial in cs + [c] <==> c.Partial? || Partial in cs
  {
    assert (cs + [c])[|cs|] == c;
    assert forall i :: 0 <= i < |cs| ==> (cs + [c])[i] == cs[i];
  }

  /** The host's send task. */
  class HostOut {
    const mps: nat
    const stopAt: Option<nat>          // how many packets are taken before the status says stop, if it does
    var queue: seq<Bytes>              // what the application sends before it drops its sender
    var pending: seq<Bytes>            // transfers submitted and not completed, oldest first
    var totalBytesSent: nat            // a u64
    var error: Option<TaskError>
    ghost var submitted: seq<Bytes>    // all transfers ever submitted
    ghost var carried: seq<Bytes>      // what those that completed carried
    ghost var completions: seq<Completion>
    ghost var truncated: bool          // one of them carried less than was submitted
    ghost var peak: nat                // the most there ever were outstanding
    ghost var failed: bool             // a transfer has failed
    ghost var stopped: bool            // the device's status ended the loop

    constructor (mps: nat, queue: seq<Bytes>, stopAt: Option<nat>)
      requires mps > 0
      ensures this.mps == mps && this.queue == queue && this.stopAt == stopAt && Fresh()
    {
      this.mps, this.queue, this.stopAt := mps, queue, stopAt;
      pending, submitted, carried, completions := [], [], [], [];
      totalBytesSent, peak := 0, 0;
      error, failed, stopped, truncated := None, false, false, false;
    }

    /** Nothing has happened yet. */
    ghost predicate Fresh()
      reads this
    {
      && pending == [] && submitted == [] && carried == [] && totalBytesSent == 0 && peak == 0
      && !failed && !stopped && !truncated && error.None? && completions == []
    }

    /** The flags and the error are what the completions make of them. */
    ghost predicate Recorded()
      reads this`failed, this`truncated, this`error, this`completions
    {
      && (failed <==> exists i :: 0 <= i < |completions| && Fails(completions[i]))
      && (truncated <==> Partial in completions)
      && error == ErrorOf(completions)
    }

    /** Without a failure and with whole completions, what completed and what is pending is what
        was submitted; a short completion is at least recorded. */
    ghost predicate Accounted()
      reads this`pending, this`submitted, this`carried, this`failed, this`truncated
    {
      && (!failed && !truncated ==> carried + pending == submitted)
      && (!failed ==> Total(carried) + Total(pending) <= Total(submitted))
      && (!failed && truncated ==> Total(carried) + Total(pending) < Total(submitted))
    }

    method Submit(t: Bytes)
      requires Accounted()
      modifies this`pending, this`submitted, this`peak
      ensures Accounted()
      ensures pending == old(pending) + [t] && submitted == old(submitted) + [t]
      ensures peak == Max(old(peak), |pending|)
    {
      assert carried + (pending + [t]) == carried + pending + [t];
      TotalLast(pending, t);
      TotalLast(submitted, t);
      pending := pending + [t];
      submitted := submitted + [t];
      peak := Max(peak, |pending|);
    }

    /** The oldest transfer completes, in whatever way; an empty one cannot be cut short. */
    method NextComplete() returns (c: Completion)
      requires pending != []
      modifies this`pending, this`failed, this`carried, this`truncated, this`completions
      ensures pending == old(pending)[1..] && completions == old(completions) + [c]
      ensures failed == (old(failed) || c.Stalled? || c.Faulted?) && truncated == (old(truncated) || c.Partial?)
      ensures c.Whole? ==> carried == old(carried) + [old(pending)[0]]
      ensures c.Whole? ==> Total(carried) == Total(old(carried)) + |old(pending)[0]|
      ensures c.Partial? ==> Total(carried) < Total(old(carried)) + |old(pending)[0]|
    {
      var t := pending[0];
      pending := pending[1..];
      c := *;
      if c.Partial? && t == [] {
        c := Whole;
      }
      completions := completions + [c];
      failed := failed || c.Stalled? || c.Faulted?;
      truncated := truncated || c.Partial?;
      if c.Whole? {
        TotalLast(carried, t);
        carried := carried + [t];
      } else if c.Partial? {
        ghost var k :| 0 <= k < |t|;
        TotalLast(carried, t[..k]);
        carried := carried + [t[..k]];
      }
    }

    /** Counts a packet and submits its transfer and, if it needs one, the terminator. */
    method SubmitPacket(data: Bytes)
      requires mps > 0 && |pending| < DMA_BUFFERS && peak <= DMA_BUFFERS + 1 && Accounted()
      modifies this`pending, this`submitted, this`peak, this`totalBytesSent
      ensures submitted == old(submitted) + HostTransfers(data, mps)
      ensures totalBytesSent == (old(totalBytesSent) + |data|) % TWO_TO_THE_64
      ensures |pending| <= DMA_BUFFERS + 1 && peak <= DMA_BUFFERS + 1 && Accounted()
    {
      totalBytesSent := (totalBytesSent + |data|) % TWO_TO_THE_64;
      Submit(data);
      if |data| > 0 && |data| % mps == 0 {
        Submit([]);
      }
    }

    /** Handles a completion; true if the transfer failed.  A short one only leaves an error. */
    method Finish() returns (over: bool)
      requires pending != [] && Accounted() && Recorded()
      modifies this`pending, this`failed, this`carried, this`truncated, this`error, this`completions
      ensures pending == old(pending)[1..] && Accounted() && Recorded()
      ensures |completions| == |old(completions)| + 1 && old(completions) <= completions
      ensures over <==> Fails(completions[|old(completions)|])
      ensures failed == (old(failed) || over)
    {
      assert carried + pending == carried + [pending[0]] + pending[1..];
      var c := NextComplete();
      RecordOne(old(completions), c);
      over := c.Stalled? || c.Faulted?;
      if c.Faulted? && error.None? {
        error := Some(Transfer);
      }
      if c.Partial? {
        error := Some(PartialSend);
      }
    }

    /** One packet is taken, submitted, and completions are handled. */
    method TakePacket(before: seq<Bytes>) returns (over: bool, taken: seq<Bytes>)
      requires mps > 0 && queue != [] && |pending| < DMA_BUFFERS && peak <= DMA_BUFFERS + 1 && !failed && Accounted() && Recorded()
      requires submitted == HostTransfersAll(before, mps) && totalBytesSent == Total(before) % TWO_TO_THE_64
      modifies this`queue, this`pending, this`submitted, this`peak, this`totalBytesSent,
               this`failed, this`carried, this`truncated, this`error, this`completions
      ensures taken == before + [old(queue)[0]] && queue == old(queue)[1..]
      ensures submitted == HostTransfersAll(taken, mps) && totalBytesSent == Total(taken) % TWO_TO_THE_64
      ensures peak <= DMA_BUFFERS + 1 && Accounted() && Recorded() && failed == over
      ensures !over ==> |pending| < DMA_BUFFERS
    {
      hide Accounted, Recorded, HostTransfersAll, HostTransfers, Total;
      var data := queue[0];
      queue := queue[1..];
      CountLast(before, data);
      HostTransfersLast(before, data, mps);
      taken := before + [data];
      SubmitPacket(data);
      over := Complete();
    }

    /** The loop: packets are taken from the queue until it is over, in one of three ways. */
    method Loop() returns (hostInitiated: bool, taken: seq<Bytes>)
      requires mps > 0 && Fresh()
      modifies this
      ensures old(queue) == taken + queue
      ensures submitted == HostTransfersAll(taken, mps) && totalBytesSent == Total(taken) % TWO_TO_THE_64
      ensures peak <= DMA_BUFFERS + 1 && Accounted() && Recorded()
      ensures hostInitiated <==> !failed && !stopped
      ensures hostInitiated ==> queue == []
      ensures stopped ==> stopAt == Some(|taken|)
      ensures stopAt.Some? && |taken| >= stopAt.value ==> !hostInitiated && |taken| == stopAt.value
    {
      taken := [];
      assert Accounted() && submitted == HostTransfersAll(taken, mps) && totalBytesSent == Total(taken) % TWO_TO_THE_64;
      assert Recorded();
      hide Accounted, Recorded, HostTransfersAll, HostTransfers, Total;
      while true
        invariant old(queue) == taken + queue
        invariant submitted == HostTransfersAll(taken, mps) && totalBytesSent == Total(taken) % TWO_TO_THE_64
        invariant |pending| < DMA_BUFFERS && peak <= DMA_BUFFERS + 1
        invariant !failed && !stopped && Accounted() && Recorded()
        invariant stopAt.Some? ==> |taken| <= stopAt.value
        decreases |queue|
      {
        // The status is looked at before the queue.
        if stopAt == Some(|taken|) {
          stopped := true;
          return false, taken;
        }
        if queue == [] {
          return true, taken;
        }
        assert taken + queue == taken + [queue[0]] + queue[1..];
        var over;
        over, taken := TakePacket(taken);
        if over {
          return false, taken;
        }
      }
    }

    /** The task, until nothing is pending.  What it submitted is exactly the framing of the
        packets it took; the count is theirs; at most one transfer more than the window was ever
        outstanding; and the close is announced if and only if no transfer failed and the status
        did not stop the loop, in which case every packet was taken.  Whole completions are no
        condition of that: if no transfer was cut short, what went over the wire is the framing of
        the packets too; otherwise there is an error, and the count is more than was carried.  A task
        that the status never stops and of which no transfer fails thus always announces the close;
        the error is what the completions say. */
    method Run() returns (hostInitiated: bool)
      requires mps > 0 && Fresh()
      modifies this
      ensures pending == [] && peak <= DMA_BUFFERS + 1
      ensures hostInitiated <==> !failed && !stopped
      ensures hostInitiated ==> queue == []
      ensures |queue| <= |old(queue)| && queue == old(queue)[|old(queue)| - |queue|..]
      ensures var taken := old(queue)[..|old(queue)| - |queue|];
              && submitted == HostTransfersAll(taken, mps)
              && totalBytesSent == Total(taken) % TWO_TO_THE_64
              && (!failed && !truncated ==> PacketizeAll(carried, mps) == FrameAll(taken, mps))
              && (!failed && truncated ==> error.Some? && Total(carried) < Total(taken))
              && (stopped ==> stopAt == Some(|taken|))
      ensures (failed <==> exists i :: 0 <= i < |completions| && Fails(completions[i])) && error == ErrorOf(completions)
    {
      var taken;
      hostInitiated, taken := Loop();
      assert taken == old(queue)[..|old(queue)| - |queue|];
      var ok := DrainPending();
      hostInitiated := hostInitiated && ok;
      HostSameWire(taken, mps);
      HostTotal(taken, mps);
      assert carried + pending == carried;
    }

    /** The completion loop: waits while the window is full, then takes what is ready. */
    method Complete() returns (over: bool)
      requires |pending| <= DMA_BUFFERS + 1 && !failed && Accounted() && Recorded()
      modifies this`pending, this`failed, this`carried, this`truncated, this`error, this`completions
      ensures |pending| <= |old(pending)| && pending == old(pending)[|old(pending)| - |pending|..]
      ensures failed == over && Accounted() && Recorded()
      ensures !over ==> |pending| < DMA_BUFFERS
    {
      over := false;
      while |pending| > 0
        invariant |pending| <= |old(pending)| && pending == old(pending)[|old(pending)| - |pending|..]
        invariant !failed && !over && Accounted() && Recorded()
        decreases |pending|
      {
        var ready := *;
        if |pending| < DMA_BUFFERS && !ready {
          break;
        }
        over := Finish();
        if over {
          return;
        }
      }
    }

    /** The drain at the end; false if a transfer failed. */
    method DrainPending() returns (ok: bool)
      requires Accounted() && Recorded()
      modifies this`pending, this`failed, this`carried, this`truncated, this`error, this`completions
      ensures pending == [] && failed == (old(failed) || !ok) && Accounted() && Recorded()
    {
      ok := true;
      while pending != []
        invariant failed == (old(failed) || !ok) && Accounted() && Recorded()
        decreases |pending|
      {
        var over := Finish();
        if over {
          ok := false;
        }
      }
    }
  }

  // ------------------------------------------------------------------- device

  lemma DeviceTransfersLast(ms: seq<Bytes>, m: Bytes, mps: nat, t: nat)
    requires 0 < mps && 0 < t
    ensures DeviceTransfersAll(ms + [m], mps, t) == DeviceTransfersAll(ms, mps, t) + DeviceTransfers(m, mps, t)
  {
    DeviceTransfersConcat(ms, [m], mps, t);
    var one, none: seq<Bytes> := [m], [];
    assert one[1..] == none && DeviceTransfersAll(none, mps, t) == none;
    assert DeviceTransfersAll(one, mps, t) == DeviceTransfers(m, mps, t) + none;
  }

  lemma {:induction false} DeviceTransfersConcat(a: seq<Bytes>, b: seq<Bytes>, mps: nat, t: nat)
    requires 0 < mps && 0 < t
    ensures DeviceTransfersAll(a + b, mps, t) == DeviceTransfersAll(a, mps, t) + DeviceTransfersAll(b, mps, t)
  {
    if a == [] {
      assert a + b == b;
    } else {
      assert (a + b)[1..] == a[1..] + b;
      DeviceTransfersConcat(a[1..], b, mps, t);
    }
  }

  lemma ChunksCut(data: Bytes, t: nat)
    requires 0 < t && data != []
    ensures var n := Min(|data|, t); Chunks(data, t) == [data[..n]] + Chunks(data[n..], t)
  {
    if |data| <= t {
      assert data[..|data|] == data && data[|data|..] == [];
    }
  }

  lemma NoChunks(t: nat)
    requires 0 < t
    ensures Chunks([], t) == []
  {
  }

  /** The device's send task. */
  class DeviceOut {
    const mps: nat
    const t: nat                   // max_transfer_size
    var queue: seq<Bytes>          // what the application sends before it drops its sender
    var sent: seq<Bytes>           // transfers accepted by the endpoint, oldest first
    var flushed: nat               // how many of them are known to have reached the host
    ghost var failed: bool         // a call of the endpoint has failed

    constructor (mps: nat, t: nat, queue: seq<Bytes>)
      ensures this.mps == mps && this.t == t && this.queue == queue && sent == [] && flushed == 0 && !failed
    {
      this.mps, this.t, this.queue := mps, t, queue;
      sent, flushed, failed := [], 0, false;
    }

    method SendAsync(data: Bytes) returns (ok: bool)
      modifies this`sent, this`failed
      ensures sent == if ok then old(sent) + [data] else old(sent)
      ensures failed == (old(failed) || !ok)
    {
      ok := *;
      failed := failed || !ok;
      if ok {
        sent := sent + [data];
      }
    }

    method Flush() returns (ok: bool)
      modifies this`flushed, this`failed
      ensures flushed == if ok then |sent| else old(flushed)
      ensures failed == (old(failed) || !ok)
    {
      ok := *;
      failed := failed || !ok;
      if ok {
        flushed := |sent|;
      }
    }

    /** One packet: its chunks and, after a flush, its terminator.  It goes wrong only if a call of the
        endpoint does. */
    method SendPacket(packet: Bytes) returns (ok: bool)
      requires mps > 0 && t > 0 && !failed
      modifies this`sent, this`flushed, this`failed
      ensures ok <==> !failed
      ensures ok ==> sent == old(sent) + DeviceTransfers(packet, mps, t)
      ensures !ok ==> sent <= old(sent) + DeviceTransfers(packet, mps, t)
      ensures flushed == old(flushed) || flushed <= |sent|
    {
      hide Chunks;
      var data := packet;
      ghost var whole := old(sent) + DeviceTransfers(packet, mps, t);
      ghost var zlp: seq<Bytes> := if |packet| % mps == 0 then [[]] else [];
      while data != []
        invariant sent + (Chunks(data, t) + zlp) == whole
        invariant flushed == old(flushed) && !failed
        decreases |data|
      {
        var n := Min(|data|, t);
        ChunksCut(data, t);
        assert sent + ([data[..n]] + Chunks(data[n..], t) + zlp) == sent + [data[..n]] + (Chunks(data[n..], t) + zlp);
        ok := SendAsync(data[..n]);
        if !ok {
          return;
        }
        data := data[n..];
      }
      assert Chunks(data, t) == [] by { NoChunks(t); }
      ok := true;
      if |packet| % mps == 0 {
        ok := Flush();
        if ok {
          ok := SendAsync([]);
        }
      }
    }

    /** The task.  It ends well exactly if no call of the endpoint fails, and then everything was sent and
        flushed; in any case what it sent is the beginning of the framing of its packets. */
    method Run() returns (ok: bool)
      requires Sizes(mps, t) && sent == [] && flushed == 0 && !failed
      modifies this
      ensures ok <==> !failed
      ensures ok ==> queue == [] && sent == DeviceTransfersAll(old(queue), mps, t) && flushed == |sent|
      ensures sent <= DeviceTransfersAll(old(queue), mps, t)
      ensures PacketizeAll(sent, mps) <= FrameAll(old(queue), mps)
    {
      ghost var all := queue;
      ghost var taken: seq<Bytes> := [];
      while queue != []
        invariant all == taken + queue && all == old(queue)
        invariant sent == DeviceTransfersAll(taken, mps, t) && !failed
        decreases |queue|
      {
        var packet := queue[0];
        queue := queue[1..];
        ghost var before := sent;
        DeviceTransfersLast(taken, packet, mps, t);
        DeviceTransfersConcat(taken + [packet], queue, mps, t);
        assert all == taken + [packet] + queue;
        ok := SendPacket(packet);
        if !ok {
          SentPrefix(sent, all, mps, t);
          return;
        }
        taken := taken + [packet];
      }
      assert taken == all;
      SentPrefix(sent, all, mps, t);
      ok := Flush();
    }
  }

  /** A beginning of the transfers is a beginning of the wire image. */
  lemma SentPrefix(sent: seq<Bytes>, msgs: seq<Bytes>, mps: nat, t: nat)
    requires Sizes(mps, t) && sent <= DeviceTransfersAll(msgs, mps, t)
    ensures PacketizeAll(sent, mps) <= FrameAll(msgs, mps)
  {
    var all := DeviceTransfersAll(msgs, mps, t);
    assert all == sent + all[|sent|..];
    PacketizeAllConcat(sent, all[|sent|..], mps);
    SameWire(msgs, mps, t);
  }
}
