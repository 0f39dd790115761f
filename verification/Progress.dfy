/**
  That the protocol gets anywhere: while both ends are there and the link works, everything
  accepted can be delivered, and a direction can be closed to the end of its data.  Each lemma
  constructs the actions; no action is possible that is not one of `System`.
 */
module Progress {
  import opened Prelude
  import opened Framing
  import opened Capabilities
  import opened DeviceControl
  import opened Pipeline
  import opened HalfClose
  import opened Flow
  import opened System
  import opened SystemProof
  import opened SystemTheorems

  // ------------------------------------------------------------ host to device

  /** Connection `c` is in service from host to device, and its receiver is there. */
  predicate OutOpen(s: State, c: nat) {
    && SystemInv(s) && s.up && s.Attached() && s.host.conn == c
    && s.host.outTask.Live? && !s.host.failed && s.dev.inTask.Task?
    && !s.conns[c].out.receiverGone && OutwardFits(s.conns[c].terms)
  }

  /** Nothing is on the way. */
  predicate OutIdle(s: State, c: nat)
    requires c < |s.conns|
  {
    && s.conns[c].out.queue == [] && s.host.wire == [] && s.dev.rx.fifo == []
    && s.conns[c].out.inbox == [] && s.dev.RxLocked()
  }

  predicate SameSizes(s: State, s': State) {
    && s'.mps == s.mps && s'.t == s.t && s'.hostUsize == s.hostUsize
    && s'.dev.mps == s.dev.mps && s'.dev.usize == s.dev.usize
  }

  /** What moving packets along leaves alone. */
  predicate OutSame(s: State, s': State, c: nat)
    requires c < |s.conns| && c < |s'.conns|
  {
    && s'.conns[c].out.accepted == s.conns[c].out.accepted && s'.conns[c].out.senderGone == s.conns[c].out.senderGone
    && s'.conns[c].terms == s.conns[c].terms && s'.conns[c].inn == s.conns[c].inn
    && s'.host == s.host.(wire := s'.host.wire, total := s'.host.total)
    && s'.dev.outTask.Task? == s.dev.outTask.Task? && SameSizes(s, s')
  }

  /** What the context gives. */
  lemma OutContext(s: State, c: nat)
    requires OutOpen(s, c)
    ensures c + 1 == |s.conns| && s.dev.inTask.conn == c && !s.dev.rx.halted && Inv(s.dev) && s.host.clean
    ensures !s.conns[c].out.oversize && s.Sizable() && OutGood(OutViewOf(s), s.mps, s.t)
    ensures s.conns[c].terms.sendMax <= s.conns[c].terms.devLimits.recvMax
  {
    hide LaneOk, InGood, OutArriving, Sealed;
    InvConn(s, c);
    LimitsExactly(s.conns[c].terms);
  }

  lemma OutTakeStep(s: State, c: nat)
    requires OutOpen(s, c) && s.conns[c].out.queue != []
    ensures CanHostTake(s) && OutOpen(DoHostTake(s), c) && OutSame(s, DoHostTake(s), c)
    ensures |DoHostTake(s).conns[c].out.queue| < |s.conns[c].out.queue|
  {
    hide SystemInv, PacketizeAll, OutGood, InGood, OutwardFits, InwardFits;
    OutContext(s, c);
    HostTakeKeeps(s);
  }

  lemma OutTransmitStep(s: State, c: nat)
    requires OutOpen(s, c) && s.host.wire != []
    ensures CanHostTransmit(s) && OutOpen(DoHostTransmit(s), c) && OutSame(s, DoHostTransmit(s), c)
    ensures |DoHostTransmit(s).host.wire| < |s.host.wire|
    ensures DoHostTransmit(s).conns == s.conns
  {
    hide SystemInv, OutGood, InGood, OutwardFits, InwardFits;
    OutContext(s, c);
    HostTransmitKeeps(s);
  }

  /** A packet within the limits is not found too large. */
  lemma ReceiveFits(s: State, c: nat, dir: Dir)
    requires SystemInv(s) && c < |s.conns| && SendLimit(s.conns[c], dir) <= RecvLimit(s.conns[c], dir)
    requires LaneOf(s.conns[c], dir).inbox != [] && !LaneOf(s.conns[c], dir).receiverGone && !LaneOf(s.conns[c], dir).oversize
    ensures CanReceive(s, c, dir)
    ensures var l := LaneOf(s.conns[c], dir);
            var l' := Recv(l, s.t, RecvLimit(s.conns[c], dir));
            !l'.oversize && l'.inbox == l.inbox[1..] && SameLane(l, l', s.t) && l'.receiverGone == l.receiverGone
            && l'.senderGone == l.senderGone
  {
    hide SystemInv, LaneOk, SendLimit, RecvLimit, Received, ConnOk;
    var k := s.conns[c];
    InvConn(s, c);
    LaneIsOk(k, dir, s.t);
    WholeWithin(LaneOf(k, dir), s.t, SendLimit(k, dir));
    RecvKeeps(LaneOf(k, dir), s.t, RecvLimit(k, dir));
  }

  lemma OutReceiveStep(s: State, c: nat)
    requires OutOpen(s, c) && s.conns[c].out.inbox != []
    ensures CanReceive(s, c, Outward)
    ensures var s' := DoReceive(s, c, Outward);
            && OutOpen(s', c) && OutSame(s, s', c) && |s'.conns[c].out.inbox| < |s.conns[c].out.inbox|
            && s'.conns[c].out.queue == s.conns[c].out.queue && s'.dev == s.dev && s'.host == s.host
  {
    hide SystemInv, Recv, OutGood, InGood, OutwardFits, InwardFits;
    OutContext(s, c);
    ReceiveFits(s, c, Outward);
    ReceiveKeeps(s, c, Outward);
  }

  lemma PollStep(s: State)
    requires SystemInv(s) && s.up
    ensures CanDevOther(s, PollTasks) && SystemInv(DoDevOther(s, PollTasks))
    ensures var s' := DoDevOther(s, PollTasks);
            && s' == s.(dev := s'.dev) && s'.dev == s.dev.(inTask := s'.dev.inTask, outTask := s'.dev.outTask)
            && (s.dev.inTask.Task? ==> s'.dev.inTask == s.dev.inTask.(locked := true))
            && (s.dev.outTask.Task? ==> s'.dev.outTask == s.dev.outTask.(locked := true))
            && (s.dev.inTask.Vacant? ==> s'.dev.inTask.Vacant?) && (s.dev.outTask.Vacant? ==> s'.dev.outTask.Vacant?)
  {
    hide SystemInv, CapsReply;
    assert CanDevOther(s, PollTasks);
    DevOtherKeeps(s, PollTasks);
  }

  lemma OutPollStep(s: State, c: nat)
    requires OutOpen(s, c)
    ensures CanDevOther(s, PollTasks)
    ensures var s' := DoDevOther(s, PollTasks);
            && OutOpen(s', c) && OutSame(s, s', c) && s'.dev.RxLocked() && s'.dev.rx == s.dev.rx && s'.conns == s.conns && s'.host == s.host
  {
    hide SystemInv, Step, DoDevOther, OutGood, InGood, OutwardFits, InwardFits;
    PollStep(s);
  }

  lemma OutArriveStep(s: State, c: nat)
    requires OutOpen(s, c) && s.dev.RxLocked() && s.dev.rx.fifo != [] && s.conns[c].out.inbox == []
    ensures CanDevArrive(s) && OutOpen(DoDevArrive(s), c) && OutSame(s, DoDevArrive(s), c)
    ensures |DoDevArrive(s).dev.rx.fifo| < |s.dev.rx.fifo|
    ensures DoDevArrive(s).conns[c].out.queue == s.conns[c].out.queue && DoDevArrive(s).host == s.host
  {
    hide SystemInv, Completes, Filled, OutGood, InGood, OutwardFits, InwardFits;
    OutContext(s, c);
    DevArriveKeeps(s);
  }

  /** The next action that moves packets along. */
  function OutNext(s: State, c: nat): Action
    requires c < |s.conns|
  {
    if s.conns[c].out.queue != [] then HostTake
    else if s.host.wire != [] then HostTransmit
    else if s.conns[c].out.inbox != [] then Receive(c, Outward)
    else if !s.dev.RxLocked() then DevOther(PollTasks)
    else DevArrive
  }

  /** How far packets are from being delivered, the farthest first. */
  datatype Rank = Rank(queued: nat, sending: nat, arriving: nat, received: nat, idle: nat)

  predicate Lower(a: Rank, b: Rank) {
    || a.queued < b.queued
    || (a.queued == b.queued && a.sending < b.sending)
    || (a.queued == b.queued && a.sending == b.sending && a.arriving < b.arriving)
    || (a.queued == b.queued && a.sending == b.sending && a.arriving == b.arriving && a.received < b.received)
    || (a.queued == b.queued && a.sending == b.sending && a.arriving == b.arriving && a.received == b.received && a.idle < b.idle)
  }

  function OutRank(s: State, c: nat): Rank
    requires c < |s.conns|
  {
    Rank(|s.conns[c].out.queue|, |s.host.wire|, |s.dev.rx.fifo|, |s.conns[c].out.inbox|, if s.dev.RxLocked() then 0 else 1)
  }

  lemma OutStep(s: State, c: nat)
    requires OutOpen(s, c) && !OutIdle(s, c)
    ensures CanDo(s, OutNext(s, c))
    ensures var s' := Do(s, OutNext(s, c));
            OutOpen(s', c) && OutSame(s, s', c) && Lower(OutRank(s', c), OutRank(s, c))
  {
    hide CanHostTake, DoHostTake, CanHostTransmit, DoHostTransmit, CanReceive, DoReceive, CanDevOther,
      DoDevOther, CanDevArrive, DoDevArrive, SystemInv, OutwardFits;
    if s.conns[c].out.queue != [] {
      OutTakeStep(s, c);
    } else if s.host.wire != [] {
      OutTransmitStep(s, c);
    } else if s.conns[c].out.inbox != [] {
      OutReceiveStep(s, c);
    } else if !s.dev.RxLocked() {
      OutPollStep(s, c);
    } else {
      OutArriveStep(s, c);
    }
  }

  lemma OutSameTrans(a: State, b: State, d: State, c: nat)
    requires c < |a.conns| && c < |b.conns| && c < |d.conns| && OutSame(a, b, c) && OutSame(b, d, c)
    ensures OutSame(a, d, c)
  {
  }

  /** Everything is moved along until nothing is on the way. */
  lemma {:induction false} OutPump(s: State, c: nat) returns (actions: seq<Action>)
    requires OutOpen(s, c)
    ensures var s' := Run(s, actions); OutOpen(s', c) && OutIdle(s', c) && OutSame(s, s', c)
    decreases |s.conns[c].out.queue|, |s.host.wire|, |s.dev.rx.fifo|, |s.conns[c].out.inbox|, if s.dev.RxLocked() then 0 else 1
  {
    hide CanDo, Do, OutNext, SystemInv, OutwardFits;
    if OutIdle(s, c) {
      actions := [];
    } else {
      OutStep(s, c);
      var a := OutNext(s, c);
      var more := OutPump(Do(s, a), c);
      actions := [a] + more;
      assert actions[1..] == more;
      OutSameTrans(s, Do(s, a), Run(s, actions), c);
    }
  }

  /** With nothing on the way, everything accepted has been delivered. */
  lemma OutIdleMeans(s: State, c: nat)
    requires OutOpen(s, c) && OutIdle(s, c)
    ensures s.conns[c].out.delivered == s.conns[c].out.accepted && s.dev.rx.filling == []
    ensures Counts(OutViewOf(s)) && s.received == Total(s.conns[c].out.accepted)
  {
    OutContext(s, c);
    hide SystemInv;
    var v := OutViewOf(s);
    var none: seq<Bytes> := [];
    NoFrames(s.mps);
    assert v.rx.fifo + (v.wire + FrameAll(OutQueue(v), s.mps)) == none;
    var g := Received(v.lane, s.t);
    FeedNothing(Extend(g, v.rx.filling), s.mps);
    FeedNothing(Got(v.lane.delivered, v.lane.buffer), s.t);
    assert |g.rest + v.rx.filling| == |g.rest| + |v.rx.filling|;
    assert Total(none) == 0;
  }

  /** From any reachable state in which both ends serve a connection, some run delivers every packet
      that has been accepted, and nothing else. */
  lemma OutwardProgress(s: State, c: nat) returns (actions: seq<Action>)
    requires IsReachable(s) && OutOpen(s, c)
    ensures var s' := Run(s, actions);
            && IsReachable(s') && OutOpen(s', c) && OutIdle(s', c) && OutSame(s, s', c)
            && s'.conns[c].out.delivered == s'.conns[c].out.accepted == s.conns[c].out.accepted
  {
    actions := OutPump(s, c);
    ReachableRun(s, actions);
    OutIdleMeans(Run(s, actions), c);
  }

  // -------------------------------------------------- closing from host to device

  /** The send task ends with its data, and waits for what it submitted. */
  lemma EndOfData(s: State, c: nat)
    requires OutOpen(s, c) && s.conns[c].out.queue == [] && s.host.wire == [] && s.conns[c].out.senderGone
    ensures var actions := [HostOutStop(true)] + [HostDrained];
            && CanHostOutStop(s, true)
            && Run(s, actions) == s.(host := s.host.(outTask := Ended(true)))
  {
    hide SystemInv, OutwardFits;
    OutContext(s, c);
    DrainRuns(s);
  }

  lemma DrainRuns(s: State)
    requires CanHostOutStop(s, true) && s.host.clean && !s.host.failed && s.host.wire == []
    ensures Run(s, [HostOutStop(true)] + [HostDrained]) == s.(host := s.host.(outTask := Ended(true)))
  {
    var s1 := DoHostOutStop(s, true);
    StopRuns(s, true);
    DrainedRuns(s1);
    RunMore(s, [HostOutStop(true)], [HostDrained]);
    assert DoHostDrained(s1) == s.(host := s.host.(outTask := Ended(true)));
    hide CanDo, Do;
  }

  lemma DrainedRuns(s: State)
    requires CanHostDrained(s)
    ensures Run(s, [HostDrained]) == DoHostDrained(s)
  {
    RunOne(s, HostDrained);
  }

  lemma MarkRuns(s: State, dir: Dir, served: bool)
    requires CanHostMark(s, dir, served)
    ensures Run(s, [HostMark(dir, served)]) == DoHostMark(s, dir, served)
  {
    hide DoHostMark;
    RunOne(s, HostMark(dir, served));
  }

  /** And then announces the count. */
  lemma AnnounceEnd(s: State, c: nat) returns (actions: seq<Action>)
    requires IsReachable(s) && OutOpen(s, c) && OutIdle(s, c) && s.conns[c].out.senderGone && s.host.lock.None?
    ensures var s' := Run(s, actions);
            var count := Total(s.conns[c].out.accepted) % TWO_TO_THE_64;
            && IsReachable(s') && s'.conns == s.conns && s'.up && s'.received == s.received && SameSizes(s, s')
            && s'.host == s.host.(outTask := Ended(true), sendMarked := true, lock := Some(Outward),
                                  log := s.host.log + [CloseSendRequest(count)])
            && s'.dev == s.dev.(close := s.dev.close.(value := Some(count)))
  {
    hide SystemInv, Step, Enabled, OutwardFits, Total, CanDo, Do, Run, OutGood, DoHostMark, CanHostOutStop;
    var first := [HostOutStop(true)] + [HostDrained];
    EndOfData(s, c);
    var s2 := s.(host := s.host.(outTask := Ended(true)));
    ReachableRun(s, first);
    NotMarked(s2);
    CloseRecvTurns(s2);
    MarkAnnounces(s2, true, true);
    MarkEffect(s2);
    MarkRuns(s2, Outward, true);
    RunMore(s, first, [HostMark(Outward, true)]);
    actions := first + [HostMark(Outward, true)];
    ReachableRun(s, actions);
  }

  lemma NotMarked(s: State)
    requires IsReachable(s) && s.host.lock.None?
    ensures s.host.outTask.Ended? ==> !s.host.sendMarked
    ensures s.host.inTask.Ended? ==> !s.host.recvMarked
  {
    hide Announcements;
    ClosedOnce(s);
  }

  lemma CloseRecvTurns(s: State)
    requires s.up
    ensures Turns(s, CloseRecv)
  {
  }

  lemma MarkEffect(s: State)
    requires IsReachable(s) && CanHostMark(s, Outward, true) && s.host.outTask.notify
    ensures var s' := DoHostMark(s, Outward, true);
            && s'.conns == s.conns && s'.up == s.up && s'.received == s.received
            && s'.mps == s.mps && s'.t == s.t && s'.hostUsize == s.hostUsize
            && s'.host == s.host.(sendMarked := true, lock := Some(Outward), log := s'.host.log)
            && (s.dev.inTask.Task? ==> s'.dev == s.dev.(close := s.dev.close.(value := Some(s.host.total))))
            && s.host.total == Total(s.HostConn().out.accepted) % TWO_TO_THE_64
  {
    hide SystemInv, Step, Total;
    MarkCount(s, true);
    ReachableInv(s);
    InvDev(s);
    CountStep(s.dev, s.host.total);
  }

  lemma FoundEnd(s: State, c: nat)
    requires Inv(s.dev) && s.up && c < |s.conns| && s.dev.RxLocked() && s.dev.inTask.conn == c
    requires s.conns[c].out.inbox == [] && !s.conns[c].out.receiverGone && !s.conns[c].out.oversize
    requires s.dev.close.value == Some(s.received % TWO_TO_THE_64) && s.dev.rx.fifo == [] && s.dev.rx.filling == []
    ensures CanDevInEnd(s, HostClosed)
    ensures var s' := DoDevInEnd(s, HostClosed);
            && CanReceive(s', c, Outward) && s'.host == s.host && s'.up && |s'.conns| == |s.conns| && SameSizes(s, s')
            && s'.conns[c] == s.conns[c].(out := s.conns[c].out.(closed := true), drained := Some(0))
            && s'.dev.outTask == s.dev.outTask && s'.dev.inTask.Vacant?
  {
    InDoneStep(s.dev, HostClosed);
    SettingsExactly(s.dev, InDone(HostClosed), true);
    var none: seq<Bytes> := [];
    assert Total(none) == 0;
    hide Step;
  }

  lemma ReadEnd(s: State, c: nat, dir: Dir)
    requires CanReceive(s, c, dir) && LaneOf(s.conns[c], dir).inbox == []
    ensures var s' := DoReceive(s, c, dir);
            && c < |s'.conns| && s'.conns[c] == WithLane(s.conns[c], dir, LaneOf(s.conns[c], dir).(eof := true))
            && s' == s.(conns := s'.conns) && |s'.conns| == |s.conns|
  {
  }

  lemma EndRuns(s: State, c: nat)
    requires CanDevInEnd(s, HostClosed) && CanReceive(DoDevInEnd(s, HostClosed), c, Outward)
    ensures Run(s, [DevInEnd(HostClosed)] + [Receive(c, Outward)]) == DoReceive(DoDevInEnd(s, HostClosed), c, Outward)
  {
    hide DoDevInEnd, DoReceive, CanReceive, CanDevInEnd;
    RunOne(s, DevInEnd(HostClosed));
    RunOne(DoDevInEnd(s, HostClosed), Receive(c, Outward));
    RunMore(s, [DevInEnd(HostClosed)], [Receive(c, Outward)]);
  }

  /** What closing from host to device leaves alone; the send task then holds the half-close lock. */
  predicate OutClosed(s: State, s': State, c: nat)
    requires c < |s.conns| && c < |s'.conns|
  {
    && SameSizes(s, s') && s'.up && |s'.conns| == |s.conns|
    && s'.conns[c].inn == s.conns[c].inn && s'.conns[c].terms == s.conns[c].terms && s'.conns[c].out.inbox == []
    && s'.host == s.host.(wire := s'.host.wire, total := s'.host.total, outTask := Ended(true), sendMarked := true,
                          lock := Some(Outward), log := s'.host.log)
    && s'.dev.outTask.Task? == s.dev.outTask.Task? && s'.dev.inTask.Vacant?
  }

  lemma OutClosedAfter(a: State, b: State, d: State, c: nat)
    requires c < |a.conns| && c < |b.conns| && c < |d.conns| && |a.conns| == |b.conns| && OutSame(a, b, c) && OutClosed(b, d, c)
    ensures OutClosed(a, d, c)
  {
  }

  /** From host to device, to the end: from any reachable state in which both ends serve a connection,
      the sender has been dropped and no close is in progress, some run delivers every packet that
      has been accepted, announces the count of exactly these, ends the drain with nothing on the
      way, and lets the receiver read the end of the stream. */
  lemma OutwardCloses(s: State, c: nat) returns (actions: seq<Action>)
    requires IsReachable(s) && OutOpen(s, c) && s.conns[c].out.senderGone && s.host.lock.None?
    ensures var s' := Run(s, actions);
            && IsReachable(s') && c < |s'.conns| && s'.conns[c].out.eof && s'.conns[c].drained == Some(0)
            && s'.conns[c].out.delivered == s'.conns[c].out.accepted == s.conns[c].out.accepted
            && s'.host.log == s.host.log + [CloseSendRequest(Total(s.conns[c].out.accepted) % TWO_TO_THE_64)]
            && OutClosed(s, s', c)
  {
    var pump := OutwardProgress(s, c);
    OutContext(s, c);
    OutContext(Run(s, pump), c);
    var rest := FinishOut(Run(s, pump), c);
    RunMore(s, pump, rest);
    actions := pump + rest;
    hide OutOpen, OutIdle, Run, Total, OutSame, OutClosed;
    hide SystemInv, OutwardFits;
    OutSameKeeps(s, Run(s, pump), c);
    OutClosedAfter(s, Run(s, pump), Run(s, actions), c);
  }

  lemma OutSameKeeps(s: State, s': State, c: nat)
    requires c < |s.conns| && c < |s'.conns| && OutSame(s, s', c)
    ensures s'.conns[c].out.senderGone == s.conns[c].out.senderGone && s'.host.lock == s.host.lock && s'.host.log == s.host.log
  {
  }

  lemma FinishOut(s: State, c: nat) returns (actions: seq<Action>)
    requires IsReachable(s) && OutOpen(s, c) && OutIdle(s, c) && s.conns[c].out.senderGone && s.host.lock.None?
    ensures var s' := Run(s, actions);
            && IsReachable(s') && c < |s'.conns| && s'.conns[c].out.eof && s'.conns[c].drained == Some(0)
            && s'.conns[c].out.delivered == s'.conns[c].out.accepted == s.conns[c].out.accepted
            && s'.host.log == s.host.log + [CloseSendRequest(Total(s.conns[c].out.accepted) % TWO_TO_THE_64)]
            && OutClosed(s, s', c)
  {
    hide SystemInv, OutwardFits, Total, CanDo, Do, Run, OutGood, CanDevInEnd, DoDevInEnd, CanReceive, DoReceive;
    OutIdleMeans(s, c);
    OutContext(s, c);
    var announce := AnnounceEnd(s, c);
    var s2 := Run(s, announce);
    ReachableInv(s2);
    InvDev(s2);
    FoundEnd(s2, c);
    ReadEnd(DoDevInEnd(s2, HostClosed), c, Outward);
    EndRuns(s2, c);
    var ends := [DevInEnd(HostClosed)] + [Receive(c, Outward)];
    RunMore(s, announce, ends);
    actions := announce + ends;
    ReachableRun(s, actions);
  }

  // ------------------------------------------------------------ device to host

  /** Connection `c` is in service from device to host, and its receiver is there. */
  predicate InOpen(s: State, c: nat) {
    && SystemInv(s) && s.up && s.Attached() && s.host.conn == c
    && s.host.inTask.Live? && s.dev.outTask.Task?
    && !s.conns[c].inn.receiverGone && InwardFits(s.conns[c].terms)
  }

  predicate InIdle(s: State, c: nat)
    requires c < |s.conns|
  {
    && s.conns[c].inn.queue == [] && s.dev.tx.queue == [] && s.dev.tx.fifo == []
    && s.conns[c].inn.inbox == [] && s.dev.TxLocked()
  }

  predicate InSame(s: State, s': State, c: nat)
    requires c < |s.conns| && c < |s'.conns|
  {
    && s'.conns[c].inn.accepted == s.conns[c].inn.accepted && s'.conns[c].inn.senderGone == s.conns[c].inn.senderGone
    && s'.conns[c].terms == s.conns[c].terms && s'.conns[c].out == s.conns[c].out
    && s'.host == s.host.(filling := s'.host.filling) && s'.dev.inTask.Task? == s.dev.inTask.Task? && SameSizes(s, s')
  }

  lemma InContext(s: State, c: nat)
    requires InOpen(s, c)
    ensures c + 1 == |s.conns| && s.dev.outTask.conn == c && !s.dev.tx.halted && Inv(s.dev)
    ensures !s.conns[c].inn.oversize && s.Sizable() && InGood(InViewOf(s), s.mps, s.t)
    ensures s.conns[c].terms.devLimits.sendMax <= s.conns[c].terms.recvMax
  {
    hide LaneOk, OutGood, InArriving;
    InvConn(s, c);
    LimitsExactly(s.conns[c].terms);
  }

  lemma InPollStep(s: State, c: nat)
    requires InOpen(s, c)
    ensures CanDevOther(s, PollTasks)
    ensures var s' := DoDevOther(s, PollTasks);
            && InOpen(s', c) && InSame(s, s', c) && s'.dev.TxLocked() && s'.dev.tx == s.dev.tx && s'.conns == s.conns && s'.host == s.host
  {
    hide SystemInv, Step, DoDevOther, OutGood, InGood, OutwardFits, InwardFits;
    PollStep(s);
  }

  lemma InTakeStep(s: State, c: nat)
    requires InOpen(s, c) && s.dev.TxLocked() && s.conns[c].inn.queue != []
    ensures CanDevTake(s) && InOpen(DoDevTake(s), c) && InSame(s, DoDevTake(s), c)
    ensures |DoDevTake(s).conns[c].inn.queue| < |s.conns[c].inn.queue| && DoDevTake(s).dev.TxLocked()
  {
    hide SystemInv, PacketizeAll, OutGood, InGood, OutwardFits, InwardFits;
    InContext(s, c);
    DevTakeKeeps(s);
  }

  lemma InTransmitStep(s: State, c: nat)
    requires InOpen(s, c) && s.dev.tx.queue != []
    ensures CanDevTransmit(s) && InOpen(DoDevTransmit(s), c) && InSame(s, DoDevTransmit(s), c)
    ensures |DoDevTransmit(s).dev.tx.queue| < |s.dev.tx.queue| && DoDevTransmit(s).conns == s.conns
    ensures DoDevTransmit(s).dev.TxLocked() == s.dev.TxLocked()
  {
    hide SystemInv, OutGood, InGood, OutwardFits, InwardFits;
    InContext(s, c);
    DevTransmitKeeps(s);
  }

  lemma InArriveStep(s: State, c: nat)
    requires InOpen(s, c) && s.dev.tx.fifo != [] && s.conns[c].inn.inbox == []
    ensures CanHostArrive(s) && InOpen(DoHostArrive(s), c) && InSame(s, DoHostArrive(s), c)
    ensures |DoHostArrive(s).dev.tx.fifo| < |s.dev.tx.fifo| && DoHostArrive(s).dev.tx.queue == s.dev.tx.queue
    ensures DoHostArrive(s).conns[c].inn.queue == s.conns[c].inn.queue && DoHostArrive(s).dev.TxLocked() == s.dev.TxLocked()
  {
    hide SystemInv, Completes, Filled, OutGood, InGood, OutwardFits, InwardFits;
    InContext(s, c);
    HostArriveKeeps(s);
  }

  lemma InReceiveStep(s: State, c: nat)
    requires InOpen(s, c) && s.conns[c].inn.inbox != []
    ensures CanReceive(s, c, Inward)
    ensures var s' := DoReceive(s, c, Inward);
            && InOpen(s', c) && InSame(s, s', c) && |s'.conns[c].inn.inbox| < |s.conns[c].inn.inbox|
            && s'.conns[c].inn.queue == s.conns[c].inn.queue && s'.dev == s.dev
  {
    hide SystemInv, Recv, OutGood, InGood, OutwardFits, InwardFits;
    InContext(s, c);
    ReceiveFits(s, c, Inward);
    ReceiveKeeps(s, c, Inward);
  }

  function InNext(s: State, c: nat): Action
    requires c < |s.conns|
  {
    if !s.dev.TxLocked() then DevOther(PollTasks)
    else if s.conns[c].inn.queue != [] then DevTake
    else if s.dev.tx.queue != [] then DevTransmit
    else if s.conns[c].inn.inbox != [] then Receive(c, Inward)
    else HostArrive
  }

  /** The task is polled first. */
  function InRank(s: State, c: nat): Rank
    requires c < |s.conns|
  {
    Rank(if s.dev.TxLocked() then 0 else 1, |s.conns[c].inn.queue|, |s.dev.tx.queue|, |s.dev.tx.fifo|, |s.conns[c].inn.inbox|)
  }

  lemma InStep(s: State, c: nat)
    requires InOpen(s, c) && !InIdle(s, c)
    ensures CanDo(s, InNext(s, c))
    ensures var s' := Do(s, InNext(s, c));
            InOpen(s', c) && InSame(s, s', c) && Lower(InRank(s', c), InRank(s, c))
  {
    hide CanDevTake, DoDevTake, CanDevTransmit, DoDevTransmit, CanReceive, DoReceive, CanDevOther,
      DoDevOther, CanHostArrive, DoHostArrive, SystemInv, InwardFits;
    if !s.dev.TxLocked() {
      InPollStep(s, c);
    } else if s.conns[c].inn.queue != [] {
      InTakeStep(s, c);
    } else if s.dev.tx.queue != [] {
      InTransmitStep(s, c);
    } else if s.conns[c].inn.inbox != [] {
      InReceiveStep(s, c);
    } else {
      InArriveStep(s, c);
    }
  }

  lemma InSameTrans(a: State, b: State, d: State, c: nat)
    requires c < |a.conns| && c < |b.conns| && c < |d.conns| && InSame(a, b, c) && InSame(b, d, c)
    ensures InSame(a, d, c)
  {
  }

  lemma {:induction false} InPump(s: State, c: nat) returns (actions: seq<Action>)
    requires InOpen(s, c)
    ensures var s' := Run(s, actions); InOpen(s', c) && InIdle(s', c) && InSame(s, s', c)
    decreases if s.dev.TxLocked() then 0 else 1, |s.conns[c].inn.queue|, |s.dev.tx.queue|, |s.dev.tx.fifo|, |s.conns[c].inn.inbox|
  {
    hide CanDo, Do, InNext, SystemInv, InwardFits;
    if InIdle(s, c) {
      actions := [];
    } else {
      InStep(s, c);
      var a := InNext(s, c);
      var more := InPump(Do(s, a), c);
      actions := [a] + more;
      assert actions[1..] == more;
      InSameTrans(s, Do(s, a), Run(s, actions), c);
    }
  }

  lemma InIdleMeans(s: State, c: nat)
    requires InOpen(s, c) && InIdle(s, c)
    ensures s.conns[c].inn.delivered == s.conns[c].inn.accepted
  {
    InContext(s, c);
    hide SystemInv;
    var v := InViewOf(s);
    var none: seq<Bytes> := [];
    NoFrames(s.mps);
    assert v.tx.fifo + (v.tx.queue + FrameAll(InQueue(v), s.mps)) == none;
    var g := Received(v.lane, s.t);
    FeedNothing(Extend(g, v.filling), s.mps);
    FeedNothing(Got(v.lane.delivered, v.lane.buffer), s.t);
  }

  /** The same from device to host. */
  lemma InwardProgress(s: State, c: nat) returns (actions: seq<Action>)
    requires IsReachable(s) && InOpen(s, c)
    ensures var s' := Run(s, actions);
            && IsReachable(s') && InOpen(s', c) && InIdle(s', c) && InSame(s, s', c)
            && s'.conns[c].inn.delivered == s'.conns[c].inn.accepted == s.conns[c].inn.accepted
  {
    actions := InPump(s, c);
    ReachableRun(s, actions);
    InIdleMeans(Run(s, actions), c);
  }

  // -------------------------------------------------- closing from device to host

  /** The send task ends and halts IN; the host sees the halt. */
  lemma SeeHalt(s: State, c: nat)
    requires InOpen(s, c) && InIdle(s, c) && s.conns[c].inn.senderGone
    ensures CanDevOutEnd(s, true, 0)
    ensures var s1 := DoDevOutEnd(s, true, 0);
            && CanHostInStop(s1, Halted)
            && var s2 := DoHostInStop(s1, Halted);
               && s2.up && s2.Attached() && s2.host == s.host.(inTask := Ended(false)) && s2.host.conn == c
               && s2.conns[c] == s.conns[c].(flushed := true, stalled := true) && |s2.conns| == |s.conns|
               && s2.dev.inTask == s.dev.inTask && SameSizes(s, s2)
  {
    hide SystemInv, OutGood, InGood, OutwardFits, InwardFits;
    InContext(s, c);
    InvStep(s.dev, OutDone, true);
    SettingsExactly(s.dev, OutDone, true);
  }

  /** The receive task takes the half-close lock; it has nothing to tell the device. */
  lemma MarkQuiet(s: State)
    requires s.up && s.Attached() && s.host.inTask == Ended(false) && s.host.lock.None? && !s.host.recvMarked
    ensures CanHostMark(s, Inward, true)
    ensures DoHostMark(s, Inward, true) == s.(host := s.host.(lock := Some(Inward), recvMarked := true))
  {
    CloseRecvTurns(s);
    assert s.host.log + [] == s.host.log;
    hide Step, Enabled;
  }

  lemma GoneState(s: State, c: nat)
    requires s.Attached() && s.host.lock == Some(Inward) && s.host.conn == c && s.host.recvMarked
    ensures var s' := TaskGone(s);
            && s'.host == s.host.(lock := None, inTask := Done, log := s.host.log + if s.host.sendMarked then [CloseRequest] else [])
            && s'.conns == s.conns[c := s.conns[c].(inn := s.conns[c].inn.(closed := true))]
            && s' == s.(conns := s'.conns, host := s'.host)
  {
  }

  lemma HangupRest(s: State, d: Control)
    ensures var s' := Hangup(s, d);
            && s'.dev == d && s'.up == s.up && s'.hostUsize == s.hostUsize && s'.mps == s.mps && s'.t == s.t
            && (s.dev.inTask.Vacant? ==> s'.conns == s.conns)
  {
  }

  lemma HangupOne(s: State, d: Control, c: nat)
    requires c + 1 == |s.conns| && (s.dev.inTask.Task? ==> s.dev.inTask.conn == c)
    ensures var s' := Hangup(s, d);
            && |s'.conns| == |s.conns| && s'.conns[c] == s.conns[c].(out := s'.conns[c].out)
            && (s.dev.inTask.Vacant? ==> s'.conns[c].out == s.conns[c].out)
  {
  }

  lemma CloseVacant(c: Control)
    ensures c.inTask.Vacant? && Step(c, Close(ALL_RESET), true).Next? ==> Step(c, Close(ALL_RESET), true).control.inTask.Vacant?
  {
  }

  /** And lets the application read to the end; if the other direction has been closed, with CLOSE. */
  lemma CloseHeld(s: State, c: nat)
    requires s.up && s.Attached() && s.host.conn == c && s.host.inTask.Ended? && s.host.lock == Some(Inward) && s.host.recvMarked
    requires c + 1 == |s.conns| && (s.dev.inTask.Task? ==> s.dev.inTask.conn == c)
    ensures CanHostClose(s, ALL_RESET, true)
    ensures var s' := DoHostClose(s, ALL_RESET, true);
            && |s'.conns| == |s.conns|
            && s'.conns[c] == s.conns[c].(inn := s.conns[c].inn.(closed := true), out := s'.conns[c].out)
            && (s.dev.inTask.Vacant? ==> s'.conns[c].out == s.conns[c].out && s'.dev.inTask.Vacant?)
            && s'.host == s.host.(lock := None, inTask := Done, log := s.host.log + if s.host.sendMarked then [CloseRequest] else [])
            && s'.up && SameSizes(s, s')
  {
    CloseTurns(s);
    GoneState(s, c);
    SettingsExactly(s.dev, Close(ALL_RESET), true);
    CloseVacant(s.dev);
    hide Step, Enabled, TaskGone;
    var d := Step(s.dev, Close(ALL_RESET), true).control;
    HangupOne(TaskGone(s), d, c);
    HangupRest(TaskGone(s), d);
    HangupFrame(TaskGone(s), d);
    hide Hangup;
  }

  lemma LetGo(s: State, c: nat)
    requires s.up && s.Attached() && s.host.conn == c && s.host.inTask == Ended(false)
    requires s.host.lock.None? && !s.host.recvMarked && c + 1 == |s.conns| && (s.dev.inTask.Task? ==> s.dev.inTask.conn == c)
    ensures CanHostMark(s, Inward, true)
    ensures var s1 := DoHostMark(s, Inward, true);
            && CanHostClose(s1, ALL_RESET, true)
            && var s2 := DoHostClose(s1, ALL_RESET, true);
               && |s2.conns| == |s.conns|
               && s2.conns[c] == s.conns[c].(inn := s.conns[c].inn.(closed := true), out := s2.conns[c].out)
               && (s.dev.inTask.Vacant? ==> s2.conns[c].out == s.conns[c].out && s2.dev.inTask.Vacant?)
               && s2.host == s.host.(inTask := Done, recvMarked := true, log := s.host.log + if s.host.sendMarked then [CloseRequest] else [])
               && s2.up && SameSizes(s, s2)
  {
    MarkQuiet(s);
    hide DoHostMark, DoHostClose, CanHostMark, CanHostClose;
    CloseHeld(s.(host := s.host.(lock := Some(Inward), recvMarked := true)), c);
  }

  lemma CloseTurns(s: State)
    requires s.up
    ensures Turns(s, Close(ALL_RESET))
  {
  }

  lemma HaltRuns(s: State)
    requires CanDevOutEnd(s, true, 0) && CanHostInStop(DoDevOutEnd(s, true, 0), Halted)
    ensures Run(s, [DevOutEnd(true, 0)] + [HostInStop(Halted)]) == DoHostInStop(DoDevOutEnd(s, true, 0), Halted)
  {
    hide CanDevOutEnd, DoDevOutEnd, CanHostInStop, DoHostInStop;
    RunOne(s, DevOutEnd(true, 0));
    RunOne(DoDevOutEnd(s, true, 0), HostInStop(Halted));
    RunMore(s, [DevOutEnd(true, 0)], [HostInStop(Halted)]);
  }

  lemma LetGoRuns(s: State, c: nat)
    requires CanHostMark(s, Inward, true) && CanHostClose(DoHostMark(s, Inward, true), ALL_RESET, true)
    requires var s2 := DoHostClose(DoHostMark(s, Inward, true), ALL_RESET, true); CanReceive(s2, c, Inward)
    ensures var s2 := DoHostClose(DoHostMark(s, Inward, true), ALL_RESET, true);
            Run(s, [HostMark(Inward, true)] + [HostClose(ALL_RESET, true)] + [Receive(c, Inward)]) == DoReceive(s2, c, Inward)
  {
    hide CanHostMark, DoHostMark, CanHostClose, DoHostClose, CanReceive, DoReceive;
    var s1 := DoHostMark(s, Inward, true);
    RunOne(s, HostMark(Inward, true));
    RunOne(s1, HostClose(ALL_RESET, true));
    RunOne(DoHostClose(s1, ALL_RESET, true), Receive(c, Inward));
    RunMore(s, [HostMark(Inward, true)], [HostClose(ALL_RESET, true)]);
    RunMore(s, [HostMark(Inward, true)] + [HostClose(ALL_RESET, true)], [Receive(c, Inward)]);
  }

  /** What closing from device to host leaves alone when the device's receive task has ended; CLOSE follows
      if the other direction has been closed before. */
  predicate InClosed(s: State, s': State, c: nat)
    requires c < |s.conns| && c < |s'.conns|
  {
    && SameSizes(s, s') && s'.up && |s'.conns| == |s.conns|
    && (s.dev.inTask.Vacant? ==> s'.conns[c].out == s.conns[c].out && s'.dev.inTask.Vacant?)
    && s'.conns[c].inn.inbox == []
    && s'.host == s.host.(filling := s'.host.filling, inTask := Done, recvMarked := true,
                          log := s.host.log + if s.host.sendMarked then [CloseRequest] else [])
  }

  lemma InClosedAfter(a: State, b: State, d: State, c: nat)
    requires c < |a.conns| && c < |b.conns| && c < |d.conns| && |a.conns| == |b.conns| && InSame(a, b, c) && InClosed(b, d, c)
    ensures InClosed(a, d, c)
  {
  }

  lemma InSameKeeps(s: State, s': State, c: nat)
    requires c < |s.conns| && c < |s'.conns| && InSame(s, s', c)
    ensures s'.conns[c].inn.senderGone == s.conns[c].inn.senderGone && s'.host.lock == s.host.lock
  {
  }

  /** From device to host, to the end. */
  lemma InwardCloses(s: State, c: nat) returns (actions: seq<Action>)
    requires IsReachable(s) && InOpen(s, c) && s.conns[c].inn.senderGone && s.host.lock.None?
    ensures var s' := Run(s, actions);
            && IsReachable(s') && c < |s'.conns| && s'.conns[c].inn.eof && s'.conns[c].flushed && s'.conns[c].stalled
            && s'.conns[c].inn.delivered == s'.conns[c].inn.accepted == s.conns[c].inn.accepted
            && InClosed(s, s', c)
  {
    var pump := InwardProgress(s, c);
    var s1 := Run(s, pump);
    InContext(s, c);
    InContext(s1, c);
    var halt, rest := FinishIn(s1, c);
    RunMore(s, pump, halt);
    RunMore(s, pump + halt, rest);
    actions := pump + halt + rest;
    ReachableRun(s, actions);
    hide InOpen, InIdle, Run, InSame, InClosed, SystemInv, InwardFits;
    InSameKeeps(s, s1, c);
    InClosedAfter(s, s1, Run(s, actions), c);
  }

  /** The two halves: up to the end of the receive task's loop, and from there to the end of the stream. */
  lemma FinishIn(s: State, c: nat) returns (halt: seq<Action>, rest: seq<Action>)
    requires IsReachable(s) && InOpen(s, c) && InIdle(s, c) && s.conns[c].inn.senderGone && s.host.lock.None?
    requires s.conns[c].inn.delivered == s.conns[c].inn.accepted
    ensures var s' := Run(Run(s, halt), rest);
            && c < |s'.conns| && s'.conns[c].inn.eof && s'.conns[c].flushed && s'.conns[c].stalled
            && s'.conns[c].inn.delivered == s'.conns[c].inn.accepted == s.conns[c].inn.accepted
            && InClosed(s, s', c)
  {
    hide SystemInv, InwardFits, CanDo, Do, Run, InGood, CanDevOutEnd, DoDevOutEnd, CanHostInStop, DoHostInStop;
    InContext(s, c);
    SeeHalt(s, c);
    HaltRuns(s);
    halt := [DevOutEnd(true, 0)] + [HostInStop(Halted)];
    var s2 := Run(s, halt);
    ReachableRun(s, halt);
    rest := ReadToEnd(s2, c);
  }

  lemma ReadToEnd(s: State, c: nat) returns (actions: seq<Action>)
    requires IsReachable(s) && s.up && s.Attached() && s.host.conn == c && s.host.inTask == Ended(false) && s.host.lock.None?
    requires s.conns[c].inn.inbox == [] && !s.conns[c].inn.receiverGone && !s.conns[c].inn.oversize
    ensures var s' := Run(s, actions);
            && c < |s'.conns| && s'.conns[c].inn == s.conns[c].inn.(closed := true, eof := true)
            && s'.conns[c].flushed == s.conns[c].flushed && s'.conns[c].stalled == s.conns[c].stalled
            && InClosed(s, s', c)
  {
    hide SystemInv, Run, CanHostMark, DoHostMark, CanHostClose, DoHostClose, DoReceive;
    NotMarked(s);
    ReachableNewest(s);
    LetGo(s, c);
    ReadEnd(DoHostClose(DoHostMark(s, Inward, true), ALL_RESET, true), c, Inward);
    LetGoRuns(s, c);
    actions := [HostMark(Inward, true)] + [HostClose(ALL_RESET, true)] + [Receive(c, Inward)];
  }

  // ----------------------------------------------------------------- connecting

  /** The host may start to connect, and the device is ready. */
  predicate CanStart(s: State) {
    s.up && CanClaim(s) && s.dev.mps == Some(s.mps)
  }

  /** What the host chooses, and what the device is configured to. */
  datatype Plan = Plan(ping: Option<nat>, devMax: nat, hostMax: nat, topic: Bytes, now: nat)

  predicate PlanOk(s: State, p: Plan) {
    p.devMax < TWO_TO_THE_64 && p.hostMax < TWO_TO_THE_64 && p.hostMax <= s.hostUsize
  }

  function Cleanup(): seq<Action> {
    [ConnectClaim] + [ConnectClose(ALL_RESET, true)] + [ConnectFlush]
  }

  function Exchange(p: Plan): seq<Action> {
    [ConnectQuery(p.ping, p.devMax, true, true)] + [ConnectAnnounce(p.hostMax, true)] + [ConnectOpen(p.topic, p.devMax, p.now, true, true)]
  }

  /** After claiming, closing and flushing: nothing on the link, nothing known. */
  lemma ResetRuns(s: State)
    requires SystemInv(s) && CanStart(s)
    ensures var s' := Run(s, Cleanup());
            && s'.host.phase == Flushed && s'.up && |s'.conns| == |s.conns| && SameSizes(s, s')
            && (s.dev.inTask.Vacant? ==> s'.conns == s.conns)
  {
    var s1 := DoClaim(s);
    var d := Step(s1.dev, Close(ALL_RESET), true).control;
    SettingsExactly(s1.dev, Close(ALL_RESET), true);
    CloseTurns(s1);
    HangupCount(s1.(host := s1.host.(phase := Phase.Reset)), d);
    HangupFrame(s1.(host := s1.host.(phase := Phase.Reset)), d);
    HangupRest(s1.(host := s1.host.(phase := Phase.Reset)), d);
    ClaimRuns(s);
    CloseRuns(s1);
    var s2 := DoConnectClose(s1, ALL_RESET, true);
    FlushRuns(s2);
    RunMore(s, [ConnectClaim], [ConnectClose(ALL_RESET, true)]);
    RunMore(s, [ConnectClaim] + [ConnectClose(ALL_RESET, true)], [ConnectFlush]);
    hide Run, Step, Hangup, SystemInv;
  }

  lemma ClaimRuns(s: State)
    requires CanClaim(s)
    ensures Run(s, [ConnectClaim]) == DoClaim(s)
  {
    RunOne(s, ConnectClaim);
  }

  lemma CloseRuns(s: State)
    requires CanConnectClose(s, ALL_RESET, true)
    ensures Run(s, [ConnectClose(ALL_RESET, true)]) == DoConnectClose(s, ALL_RESET, true)
  {
    hide DoConnectClose;
    RunOne(s, ConnectClose(ALL_RESET, true));
  }

  lemma FlushRuns(s: State)
    requires s.host.phase == Phase.Reset
    ensures Run(s, [ConnectFlush]) == DoFlush(s)
  {
    RunOne(s, ConnectFlush);
  }

  lemma QueryRuns(s: State, p: Plan)
    requires s.host.phase == Flushed && s.up && PlanOk(s, p)
    ensures CanConnectQuery(s, p.ping, p.devMax, true)
    ensures var s' := DoConnectQuery(s, p.ping, p.devMax, true, true);
            && Run(s, [ConnectQuery(p.ping, p.devMax, true, true)]) == s'
            && s' == s.(dev := s.dev.(pingTimeout := p.ping),
                        host := s.host.(phase := Queried, sendMax := ToUsize(p.devMax, s.hostUsize), answer := Some(p.devMax)))
  {
    QueryReply(s.dev, p.ping, p.devMax);
    AnsweredLimit(DeviceCaps(p.ping, true, true, p.devMax), s.hostUsize);
    hide EncodeDevice, DecodeDevice, HostSendLimit, Step;
    assert CanConnectQuery(s, p.ping, p.devMax, true);
    QueryDone(s, p);
    RunQuery(s, p);
  }

  lemma QueryDone(s: State, p: Plan)
    requires CanConnectQuery(s, p.ping, p.devMax, true)
    ensures DoConnectQuery(s, p.ping, p.devMax, true, true)
         == s.(dev := s.dev.(pingTimeout := p.ping),
               host := s.host.(phase := Queried, sendMax := ToUsize(p.devMax, s.hostUsize), answer := Some(p.devMax)))
  {
    hide EncodeDevice, DecodeDevice, Step;
    QueryReply(s.dev, p.ping, p.devMax);
    AnsweredLimit(DeviceCaps(p.ping, true, true, p.devMax), s.hostUsize);
    hide HostSendLimit;
  }

  lemma RunQuery(s: State, p: Plan)
    requires CanConnectQuery(s, p.ping, p.devMax, true)
    ensures Run(s, [ConnectQuery(p.ping, p.devMax, true, true)]) == DoConnectQuery(s, p.ping, p.devMax, true, true)
  {
    hide DoConnectQuery, CanConnectQuery;
    RunOne(s, ConnectQuery(p.ping, p.devMax, true, true));
  }

  lemma AnnounceRuns(s: State, p: Plan)
    requires s.host.phase == Queried && s.up && PlanOk(s, p) && Inv(s.dev)
    ensures var s' := s.(dev := s.dev.(hostCaps := HostCaps(p.hostMax)),
                         host := s.host.(phase := Announced, recvMax := p.hostMax, told := true));
            && CanConnectAnnounce(s, p.hostMax, true) && DoConnectAnnounce(s, p.hostMax, true) == s'
            && Run(s, [ConnectAnnounce(p.hostMax, true)]) == s'
  {
    hide Step, EncodeHost, DecodeHost;
    AnnounceStep(s.dev, p.hostMax);
    assert CanConnectAnnounce(s, p.hostMax, true);
    RunAnnounce(s, p);
  }

  lemma RunAnnounce(s: State, p: Plan)
    requires CanConnectAnnounce(s, p.hostMax, true)
    ensures Run(s, [ConnectAnnounce(p.hostMax, true)]) == DoConnectAnnounce(s, p.hostMax, true)
  {
    hide DoConnectAnnounce, CanConnectAnnounce;
    RunOne(s, ConnectAnnounce(p.hostMax, true));
  }

  /** The terms of a connection opened after an exchange that went well. */
  function GoodTerms(s: State, p: Plan): Terms {
    Terms(s.hostUsize, s.dev.usize, Some(p.devMax), true, p.devMax, ToUsize(p.devMax, s.hostUsize), p.hostMax,
          Limits(ToUsize(p.hostMax, s.dev.usize), ToUsize(p.devMax, s.dev.usize), s.mps * TRANSFER_PACKETS))
  }

  lemma OpenRuns(s: State, p: Plan)
    requires SystemInv(s) && s.host.phase == Announced && s.up && s.dev.mps == Some(s.mps)
    requires s.host.answer == Some(p.devMax) && s.host.told && s.host.recvMax == p.hostMax
    ensures CanConnectOpen(s, p.topic, p.devMax, p.now, true)
    ensures var s' := DoConnectOpen(s, p.topic, p.devMax, p.now, true, true);
            && Run(s, [ConnectOpen(p.topic, p.devMax, p.now, true, true)]) == s'
            && s'.up && s'.Attached() && s'.host.conn == |s.conns| && |s'.conns| == |s.conns| + 1
            && s'.conns[..|s.conns|] == s.conns && s'.Cur() == Conn(FRESH, FRESH, GoodTerms(s, p), None, false, false)
            && s'.host.outTask.Live? && s'.host.inTask.Live? && !s'.host.failed && s'.host.lock.None? && s'.host.log == []
            && s'.host.statusLive && s'.dev.inTask.Task? && s'.dev.outTask.Task? && SameSizes(s, s')
  {
    hide ConnOk, OutGood, InGood, Step;
    OpenStep(s.dev, p.topic, p.devMax, p.now);
    SettingsExactly(s.dev, Event.Open(Some(p.topic), p.devMax, p.now), true);
    ConnectionsExactly(s.dev, Event.Open(Some(p.topic), p.devMax, p.now), true);
    RunOpenAction(s, p);
  }

  lemma RunOpenAction(s: State, p: Plan)
    requires CanConnectOpen(s, p.topic, p.devMax, p.now, true)
    ensures Run(s, [ConnectOpen(p.topic, p.devMax, p.now, true, true)]) == DoConnectOpen(s, p.topic, p.devMax, p.now, true, true)
  {
    hide DoConnectOpen, CanConnectOpen;
    RunOne(s, ConnectOpen(p.topic, p.devMax, p.now, true, true));
  }

  /** A host that is not connected can connect to a device that is ready, whatever earlier connections
      left behind: the new connection is fresh, both directions are in service, and its limits are
      those of the exchange. */
  lemma Connects(s: State, p: Plan)
    requires IsReachable(s) && CanStart(s) && PlanOk(s, p)
    ensures var s' := Run(s, Cleanup() + Exchange(p));
            && IsReachable(s') && s'.up && s'.Attached() && s'.host.conn == |s.conns| && |s'.conns| == |s.conns| + 1
            && (s.dev.inTask.Vacant? ==> s'.conns[..|s.conns|] == s.conns)
            && s'.Cur() == Conn(FRESH, FRESH, GoodTerms(s, p), None, false, false)
            && s'.host.outTask.Live? && s'.host.inTask.Live? && !s'.host.failed && s'.host.lock.None? && s'.host.log == []
            && s'.host.statusLive && s'.dev.inTask.Task? && s'.dev.outTask.Task? && SameSizes(s, s')
  {
    hide SystemInv, Run, CanDo, Do;
    ReachableInv(s);
    ResetRuns(s);
    var s1 := Run(s, Cleanup());
    ReachableRun(s, Cleanup());
    QueryRuns(s1, p);
    var query, tell, open := [ConnectQuery(p.ping, p.devMax, true, true)], [ConnectAnnounce(p.hostMax, true)],
      [ConnectOpen(p.topic, p.devMax, p.now, true, true)];
    var s2 := Run(s1, query);
    ReachableRun(s1, query);
    ReachableInv(s2);
    InvDev(s2);
    AnnounceRuns(s2, p);
    var s3 := Run(s2, tell);
    ReachableRun(s2, tell);
    ReachableInv(s3);
    OpenRuns(s3, p);
    RunMore(s1, query, tell);
    RunMore(s1, query + tell, open);
    RunMore(s, Cleanup(), Exchange(p));
    ReachableRun(s, Cleanup() + Exchange(p));
    hide DoConnectQuery, DoConnectAnnounce, DoConnectOpen;
  }

  // -------------------------------------------------------------------- service

  lemma SendStep(s: State, c: nat, m: Bytes)
    requires OutOpen(s, c) && s.conns[c].out.queue == [] && !s.conns[c].out.senderGone && |m| <= s.conns[c].terms.sendMax
    ensures CanSend(s, c, Outward, m)
    ensures var s' := DoSend(s, c, Outward, m);
            && OutOpen(s', c) && s'.conns[c].out.accepted == s.conns[c].out.accepted + [m] && !s'.conns[c].out.senderGone
            && s'.conns[c].terms == s.conns[c].terms && s'.conns[c].inn == s.conns[c].inn && s'.host == s.host && s'.dev == s.dev
            && SameSizes(s, s')
  {
    hide SystemInv, OutGood, OutwardFits;
    OutContext(s, c);
    assert CanSend(s, c, Outward, m);
    SendKeeps(s, c, Outward, m);
  }

  lemma SendRuns(s: State, c: nat, dir: Dir, m: Bytes)
    requires CanSend(s, c, dir, m)
    ensures Run(s, [Send(c, dir, m)]) == DoSend(s, c, dir, m)
  {
    hide CanSend, DoSend;
    RunOne(s, Send(c, dir, m));
  }

  predicate AllWithin(msgs: seq<Bytes>, limit: nat) {
    forall i :: 0 <= i < |msgs| ==> |msgs[i]| <= limit
  }

  /** What sending from the host leaves alone on the connection. */
  predicate OutServed(s: State, s': State, c: nat)
    requires c < |s.conns| && c < |s'.conns|
  {
    && s'.conns[c].terms == s.conns[c].terms && s'.conns[c].inn == s.conns[c].inn
    && s'.conns[c].out.senderGone == s.conns[c].out.senderGone
    && s'.host == s.host.(wire := s'.host.wire, total := s'.host.total)
    && s'.dev.outTask.Task? == s.dev.outTask.Task? && SameSizes(s, s')
  }

  lemma ServedSame(s: State, s': State, c: nat)
    requires c < |s.conns| && c < |s'.conns| && OutSame(s, s', c)
    ensures OutServed(s, s', c)
  {
  }

  lemma ServedTrans(a: State, b: State, d: State, c: nat)
    requires c < |a.conns| && c < |b.conns| && c < |d.conns| && OutServed(a, b, c) && OutServed(b, d, c)
    ensures OutServed(a, d, c)
  {
  }

  /** Any packets within the limit, one after another. */
  lemma {:induction false} DeliverOut(s: State, c: nat, msgs: seq<Bytes>) returns (actions: seq<Action>)
    requires IsReachable(s) && OutOpen(s, c) && !s.conns[c].out.senderGone && AllWithin(msgs, s.conns[c].terms.sendMax)
    ensures var s' := Run(s, actions);
            && IsReachable(s') && OutOpen(s', c) && OutServed(s, s', c)
            && s'.conns[c].out.delivered == s'.conns[c].out.accepted == s.conns[c].out.accepted + msgs
    decreases |msgs|
  {
    hide SystemInv, OutwardFits, Run, CanDo, Do, CanSend, DoSend;
    var pump := OutwardProgress(s, c);
    var s1 := Run(s, pump);
    ServedSame(s, s1, c);
    if msgs == [] {
      assert s.conns[c].out.accepted + msgs == s.conns[c].out.accepted;
      actions := pump;
    } else {
      var send := [Send(c, Outward, msgs[0])];
      SendStep(s1, c, msgs[0]);
      SendRuns(s1, c, Outward, msgs[0]);
      var s2 := Run(s1, send);
      ReachableRun(s1, send);
      assert AllWithin(msgs[1..], s2.conns[c].terms.sendMax);
      var more := DeliverOut(s2, c, msgs[1..]);
      ServedTrans(s1, s2, Run(s2, more), c);
      ServedTrans(s, s1, Run(s2, more), c);
      assert s.conns[c].out.accepted + [msgs[0]] + msgs[1..] == s.conns[c].out.accepted + msgs;
      RunMore(s, pump, send);
      RunMore(s, pump + send, more);
      actions := pump + send + more;
    }
  }

  predicate InServed(s: State, s': State, c: nat)
    requires c < |s.conns| && c < |s'.conns|
  {
    && s'.conns[c].terms == s.conns[c].terms && s'.conns[c].out == s.conns[c].out
    && s'.conns[c].inn.senderGone == s.conns[c].inn.senderGone
    && s'.host == s.host.(filling := s'.host.filling) && s'.dev.inTask.Task? == s.dev.inTask.Task? && SameSizes(s, s')
  }

  lemma InServedSame(s: State, s': State, c: nat)
    requires c < |s.conns| && c < |s'.conns| && InSame(s, s', c)
    ensures InServed(s, s', c)
  {
  }

  lemma InServedTrans(a: State, b: State, d: State, c: nat)
    requires c < |a.conns| && c < |b.conns| && c < |d.conns| && InServed(a, b, c) && InServed(b, d, c)
    ensures InServed(a, d, c)
  {
  }

  lemma SendInStep(s: State, c: nat, m: Bytes)
    requires InOpen(s, c) && s.conns[c].inn.queue == [] && !s.conns[c].inn.senderGone && |m| <= s.conns[c].terms.devLimits.sendMax
    ensures CanSend(s, c, Inward, m)
    ensures var s' := DoSend(s, c, Inward, m);
            && InOpen(s', c) && s'.conns[c].inn.accepted == s.conns[c].inn.accepted + [m] && !s'.conns[c].inn.senderGone
            && InServed(s, s', c)
  {
    hide SystemInv, InGood, InwardFits;
    InContext(s, c);
    assert CanSend(s, c, Inward, m);
    SendKeeps(s, c, Inward, m);
  }

  lemma {:induction false} DeliverIn(s: State, c: nat, msgs: seq<Bytes>) returns (actions: seq<Action>)
    requires IsReachable(s) && InOpen(s, c) && !s.conns[c].inn.senderGone && AllWithin(msgs, s.conns[c].terms.devLimits.sendMax)
    ensures var s' := Run(s, actions);
            && IsReachable(s') && InOpen(s', c) && InServed(s, s', c)
            && s'.conns[c].inn.delivered == s'.conns[c].inn.accepted == s.conns[c].inn.accepted + msgs
    decreases |msgs|
  {
    hide SystemInv, InwardFits, Run, CanDo, Do, CanSend, DoSend;
    var pump := InwardProgress(s, c);
    var s1 := Run(s, pump);
    InServedSame(s, s1, c);
    if msgs == [] {
      assert s.conns[c].inn.accepted + msgs == s.conns[c].inn.accepted;
      actions := pump;
    } else {
      var send := [Send(c, Inward, msgs[0])];
      SendInStep(s1, c, msgs[0]);
      SendRuns(s1, c, Inward, msgs[0]);
      var s2 := Run(s1, send);
      ReachableRun(s1, send);
      assert AllWithin(msgs[1..], s2.conns[c].terms.devLimits.sendMax);
      var more := DeliverIn(s2, c, msgs[1..]);
      InServedTrans(s1, s2, Run(s2, more), c);
      InServedTrans(s, s1, Run(s2, more), c);
      assert s.conns[c].inn.accepted + [msgs[0]] + msgs[1..] == s.conns[c].inn.accepted + msgs;
      RunMore(s, pump, send);
      RunMore(s, pump + send, more);
      actions := pump + send + more;
    }
  }

  /** The device comes up. */
  lemma Starts(mps: nat, hostUsize: nat, usize: nat)
    requires mps > 0
    ensures var s := Run(Start(mps, hostUsize, usize), [DevOther(Enable(mps))]);
            && IsReachable(s) && CanStart(s) && s.conns == [] && s.hostUsize == hostUsize && s.dev.usize == usize && s.mps == mps
            && s.dev.inTask.Vacant?
  {
    hide CapsReply;
    var s0 := Start(mps, hostUsize, usize);
    assert CanDevOther(s0, Enable(mps));
    EnableRuns(s0, mps);
    assert Run(s0, []) == s0;
    ReachableRun(s0, [DevOther(Enable(mps))]);
  }

  lemma EnableRuns(s: State, mps: nat)
    requires CanDevOther(s, Enable(mps))
    ensures Run(s, [DevOther(Enable(mps))]) == DoDevOther(s, Enable(mps))
  {
    hide DoDevOther, CanDevOther;
    RunOne(s, DevOther(Enable(mps)));
  }

  // ------------------------------------------------------------ what dropping does

  lemma DropRuns(s: State, c: nat, dir: Dir, sender: bool)
    requires SystemInv(s) && c < |s.conns|
    ensures Run(s, [if sender then DropSender(c, dir) else DropReceiver(c, dir)]) == DoDrop(s, c, dir, sender)
    ensures SystemInv(DoDrop(s, c, dir, sender))
    ensures var s' := DoDrop(s, c, dir, sender);
            && s' == s.(conns := s.conns[c := WithLane(s.conns[c], dir,
                          if sender then LaneOf(s.conns[c], dir).(senderGone := true)
                          else LaneOf(s.conns[c], dir).(receiverGone := true))])
  {
    hide SystemInv;
    DropKeeps(s, c, dir, sender);
    if sender {
      RunOne(s, DropSender(c, dir));
    } else {
      RunOne(s, DropReceiver(c, dir));
    }
  }

  /** A host application that drops its sender closes the direction: everything is delivered, then the
      end of the stream. */
  lemma DropCloses(s: State, c: nat) returns (actions: seq<Action>)
    requires IsReachable(s) && OutOpen(s, c) && s.host.lock.None?
    ensures var s' := Run(s, actions);
            && IsReachable(s') && c < |s'.conns| && s'.conns[c].out.eof && s'.conns[c].drained == Some(0)
            && s'.conns[c].out.delivered == s'.conns[c].out.accepted == s.conns[c].out.accepted
            && s'.host.log == s.host.log + [CloseSendRequest(Total(s.conns[c].out.accepted) % TWO_TO_THE_64)]
            && OutClosed(s, s', c)
  {
    hide SystemInv, Run, OutwardFits;
    var drop := [DropSender(c, Outward)];
    DropRuns(s, c, Outward, true);
    ReachableRun(s, drop);
    var rest := OutwardCloses(Run(s, drop), c);
    RunMore(s, drop, rest);
    actions := drop + rest;
  }

  /** So does a device application. */
  lemma DropClosesBack(s: State, c: nat) returns (actions: seq<Action>)
    requires IsReachable(s) && InOpen(s, c) && s.host.lock.None?
    ensures var s' := Run(s, actions);
            && IsReachable(s') && c < |s'.conns| && s'.conns[c].inn.eof && s'.conns[c].flushed && s'.conns[c].stalled
            && s'.conns[c].inn.delivered == s'.conns[c].inn.accepted == s.conns[c].inn.accepted
            && InClosed(s, s', c)
  {
    hide SystemInv, Run, InwardFits;
    var drop := [DropSender(c, Inward)];
    DropRuns(s, c, Inward, true);
    ReachableRun(s, drop);
    var rest := InwardCloses(Run(s, drop), c);
    RunMore(s, drop, rest);
    actions := drop + rest;
  }

  /** A host application that drops its receiver stops the device's send task. */
  lemma HostDropStops(s: State, c: nat) returns (actions: seq<Action>)
    requires IsReachable(s) && InOpen(s, c) && s.host.lock.None?
    ensures var s' := Run(s, actions);
            && s'.host.log == s.host.log + [CloseRecvRequest] && !s'.dev.sendOpen && s'.dev.outTask.Vacant?
            && !s'.dev.tx.halted
  {
    hide SystemInv, Run, CanDo, Do, InwardFits, DoHostMark;
    InContext(s, c);
    var drop := [DropReceiver(c, Inward)];
    DropRuns(s, c, Inward, false);
    ReachableRun(s, drop);
    var s1 := Run(s, drop);
    assert CanHostInStop(s1, NoReceiver);
    var s2 := DoHostInStop(s1, NoReceiver);
    InStopRuns(s1, NoReceiver);
    var stop := [HostInStop(NoReceiver)];
    ReachableRun(s1, stop);
    NotMarked(s2);
    CloseRecvTurns(s2);
    assert CanHostMark(s2, Inward, true);
    NothingRuns(s2);
    CloseRecvAnnounced(s1, NoReceiver, [], true);
    HaltKept(s2);
    MarkRuns(s2, Inward, true);
    RunMore(s, drop, stop);
    RunMore(s, drop + stop, [HostMark(Inward, true)]);
    actions := drop + stop + [HostMark(Inward, true)];
  }

  lemma NothingRuns(s: State)
    ensures Run(s, []) == s
  {
  }

  lemma HaltKept(s: State)
    requires CanHostMark(s, Inward, true)
    ensures DoHostMark(s, Inward, true).dev.tx.halted == s.dev.tx.halted
  {
  }

  /** A device application that drops its receiver halts OUT, and stops the host's send task through the
      next STATUS. */
  lemma DeviceDropStops(s: State, c: nat, now: nat) returns (actions: seq<Action>)
    requires IsReachable(s) && OutOpen(s, c) && s.host.statusLive
    ensures var s' := Run(s, actions);
            && !s'.dev.recvOpen && s'.dev.rx.halted && s'.host.recvClosed && CanHostOutStop(s', false)
  {
    hide SystemInv, Run, CanDo, Do, OutwardFits, Step, DoDevInEnd, DoDevOther, DoHostStatus;
    OutContext(s, c);
    var drop := [DropReceiver(c, Outward)];
    DropRuns(s, c, Outward, false);
    ReachableRun(s, drop);
    var s1 := Run(s, drop);
    PollStep(s1);
    var s2 := DoDevOther(s1, PollTasks);
    PollRuns(s1);
    var poll := [DevOther(PollTasks)];
    ReachableRun(s1, poll);
    LateDrop(s2, c);
    var s3 := DoDevInEnd(s2, ReceiverDropped);
    var end := [DevInEnd(ReceiverDropped)];
    ReachableRun(s2, end);
    StatusTurns(s3, now);
    StatusLearns(s3, now, true);
    StatusRuns(s3, now);
    var status := [HostStatus(now, true)];
    RunMore(s, drop, poll);
    RunMore(s, drop + poll, end);
    RunMore(s, drop + poll + end, status);
    actions := drop + poll + end + status;
  }

  lemma PollRuns(s: State)
    requires CanDevOther(s, PollTasks)
    ensures Run(s, [DevOther(PollTasks)]) == DoDevOther(s, PollTasks)
  {
    hide DoDevOther, CanDevOther;
    RunOne(s, DevOther(PollTasks));
  }

  lemma LateDrop(s: State, c: nat)
    requires Inv(s.dev) && s.up && c < |s.conns| && s.dev.RxLocked() && s.dev.inTask.conn == c && s.conns[c].out.receiverGone
    ensures CanDevInEnd(s, ReceiverDropped)
    ensures Run(s, [DevInEnd(ReceiverDropped)]) == DoDevInEnd(s, ReceiverDropped)
    ensures var s' := DoDevInEnd(s, ReceiverDropped);
            && !s'.dev.recvOpen && s'.dev.inTask.Vacant? && s'.dev.rx.halted && s'.host == s.host && s'.up && |s'.conns| == |s.conns|
  {
    InDoneStep(s.dev, ReceiverDropped);
    HaltsExactly(s.dev, InDone(ReceiverDropped), true);
    hide Step;
    RunInEnd(s);
  }

  lemma RunInEnd(s: State)
    requires CanDevInEnd(s, ReceiverDropped)
    ensures Run(s, [DevInEnd(ReceiverDropped)]) == DoDevInEnd(s, ReceiverDropped)
  {
    hide CanDevInEnd, DoDevInEnd;
    RunOne(s, DevInEnd(ReceiverDropped));
  }

  lemma StatusTurns(s: State, now: nat)
    requires s.up && s.Attached() && s.host.statusLive
    ensures CanHostStatus(s, now, true)
    ensures var s' := DoHostStatus(s, now, true);
            && s'.host == s.host.(recvClosed := s'.host.recvClosed) && s'.conns == s.conns
            && s'.dev == s.dev.(deadline := s'.dev.deadline)
  {
    hide CapsReply;
  }

  lemma StatusRuns(s: State, now: nat)
    requires CanHostStatus(s, now, true)
    ensures Run(s, [HostStatus(now, true)]) == DoHostStatus(s, now, true)
  {
    hide CanHostStatus, DoHostStatus;
    RunOne(s, HostStatus(now, true));
  }

  /** Once the host's receive task has left its loop, what is still submitted can swallow all that is on the
      way, so that the device's flush is not held up. */
  lemma {:induction false} Absorbed(s: State) returns (actions: seq<Action>)
    requires s.Attached() && s.host.inTask.Ended?
    ensures Run(s, actions) == s.(dev := s.dev.(tx := s.dev.tx.(fifo := [])))
    decreases |s.dev.tx.fifo|
  {
    hide Run, CanDo, Do;
    if s.dev.tx.fifo == [] {
      actions := [];
      NothingRuns(s);
    } else {
      AbsorbRuns(s);
      var more := Absorbed(DoHostAbsorb(s));
      RunMore(s, [HostAbsorb], more);
      actions := [HostAbsorb] + more;
    }
  }

  lemma AbsorbRuns(s: State)
    requires CanHostAbsorb(s)
    ensures Run(s, [HostAbsorb]) == DoHostAbsorb(s)
  {
    RunOne(s, HostAbsorb);
  }

  /** A device application never waits in vain on the newest connection: while the loop turns its
      receive task is there or its channel is closed, and when the loop stops it is closed. */
  lemma NobodyWaits(s: State)
    requires IsReachable(s) && s.conns != []
    ensures s.up ==> s.Cur().out.closed || s.Receives()
    ensures var s' := DoDevStop(s); |s'.conns| == |s.conns| && s'.Cur().out.closed
  {
    hide SystemInv, Hangup;
    ReachableInv(s);
    NotListening(s);
    HangupCloses(s.(up := false), Abort(s.dev));
  }
}
