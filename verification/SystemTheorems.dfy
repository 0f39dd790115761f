/** What the applications may rely on, in every run of host, device and link. */
module SystemTheorems {
  import opened Prelude
  import opened Framing
  import opened Capabilities
  import opened DeviceControl
  import opened Pipeline
  import opened HalfClose
  import opened Flow
  import opened System
  import opened SystemProof

  /** In order, whole, nothing invented: on every connection there ever was, the packets an
      application has got are the first ones its peer's `send` accepted on that connection, and
      the bytes it holds of one more are the beginning of the next. */
  lemma PrefixSafety(s: State, c: nat, dir: Dir)
    requires IsReachable(s) && c < |s.conns|
    ensures var l := LaneOf(s.conns[c], dir);
            && l.delivered <= l.accepted
            && (l.buffer != [] ==> |l.delivered| < |l.accepted| && l.buffer <= l.accepted[|l.delivered|])
  {
    ReachableInv(s);
    assert ConnOk(s.conns[c], s.t);
    var l := LaneOf(s.conns[c], dir);
    SafeFirst(Got(l.delivered, l.buffer), l.inbox, s.t, l.accepted);
  }

  // ------------------------------------------------------------------ limits

  /** From host to device: what the host believes the device accepts is covered by what it does. */
  predicate OutwardFits(x: Terms) {
    Covers(Believed(x.answer), x.hostUsize, x.devMax, x.devUsize)
  }

  /** From device to host: the device was told the host's limit, or that is no less than the default,
      or no less than anything the device can send. */
  predicate InwardFits(x: Terms) {
    x.told || DEFAULT_HOST_CAPS.maxSize <= x.recvMax || x.devUsize <= x.recvMax
  }

  /** The two ends' limits agree exactly under these conditions. */
  lemma LimitsExactly(x: Terms)
    requires TermsOk(x)
    ensures x.sendMax <= x.devLimits.recvMax <==> OutwardFits(x)
    ensures x.devLimits.sendMax <= x.recvMax <==> InwardFits(x)
  {
    CoversExactly(Believed(x.answer), x.hostUsize, x.devMax, x.devUsize);
  }

  /** In every run, a connection on which `recv` ever found a packet too large was opened after an
      exchange that went wrong: unanswered, lost or out of date, or between unequal usizes. */
  lemma NeverOversize(s: State, c: nat)
    requires IsReachable(s) && c < |s.conns|
    ensures OutwardFits(s.conns[c].terms) ==> !s.conns[c].out.oversize
    ensures InwardFits(s.conns[c].terms) ==> !s.conns[c].inn.oversize
  {
    ReachableInv(s);
    InvConn(s, c);
    LimitsExactly(s.conns[c].terms);
  }

  /** If both exchanges were served and the device's maximum is still what it answered, the only thing
      that can go wrong is a device whose usize is smaller than its maximum and than the host's. */
  lemma ExchangeFits(x: Terms)
    requires x.answer == Some(x.devMax) && x.told
    ensures InwardFits(x) && (OutwardFits(x) <==> x.devMax <= x.devUsize || x.hostUsize <= x.devUsize)
  {
  }

  /** Once nothing is on the way any more, a host that was not interrupted has got everything
      it accepted through to the device's receive queue. */
  lemma QuietMeansDelivered(s: State)
    requires IsReachable(s) && s.Attached() && s.host.clean && s.dev.inTask.Task?
    requires s.HostConn().out.queue == [] && s.host.wire == [] && s.dev.rx.fifo == [] && s.dev.rx.filling == []
    ensures Received(s.HostConn().out, s.t) == Got(s.HostConn().out.accepted, [])
  {
    hide SystemInv;
    ReachableInv(s);
    OutFacts(s);
    hide OutViewOf;
    var v := OutViewOf(s);
    var g := Received(v.lane, s.t);
    var none: seq<Bytes> := [];
    assert FrameAll(none, s.mps) == none;
    assert v.rx.fifo + (v.wire + FrameAll(OutQueue(v), s.mps)) == none;
    assert g.rest + v.rx.filling == g.rest;
    FeedNothing(g, s.mps);
  }

  /** After the drain: if fewer than 2^64 bytes were in flight when the device's receive task saw
      the count of CLOSE_SEND, an application that has read to the end misses nothing, or one
      packet whose length is a multiple of the transfer size and empty ones behind it. */
  lemma DrainGuarantee(s: State, c: nat)
    requires IsReachable(s) && c < |s.conns|
    requires var k := s.conns[c]; k.out.eof && k.drained.Some? && k.drained.value < TWO_TO_THE_64
    ensures s.t > 0
    ensures var l := s.conns[c].out;
            && l.delivered <= l.accepted
            && (|l.delivered| < |l.accepted| ==> |l.accepted[|l.delivered|]| % s.t == 0)
            && (forall i :: |l.delivered| < i < |l.accepted| ==> l.accepted[i] == [])
            && (l.accepted != [] && |l.accepted[|l.accepted| - 1]| % s.t != 0 ==> l.delivered == l.accepted)
  {
    ReachableInv(s);
    var l := s.conns[c].out;
    assert ConnOk(s.conns[c], s.t);
    FeedNothing(Got(l.delivered, l.buffer), s.t);
    var lost := l.accepted[|l.delivered|..];
    assert forall i :: |l.delivered| <= i < |l.accepted| ==> l.accepted[i] == lost[i - |l.delivered|];
    assert 0 % s.t == 0;
    if lost == [] {
      assert l.delivered == l.accepted;
    }
  }

  /** Device to host: if the device's send task ended after flushing and the host saw the halt,
      a host application that has read to the end has every packet the device accepted. */
  lemma DeviceToHostComplete(s: State, c: nat)
    requires IsReachable(s) && c < |s.conns|
    requires var k := s.conns[c]; k.flushed && k.stalled && k.inn.eof
    ensures s.conns[c].inn.delivered == s.conns[c].inn.accepted && s.conns[c].inn.buffer == []
  {
    ReachableInv(s);
    var l := s.conns[c].inn;
    assert ConnOk(s.conns[c], s.t);
    FeedNothing(Got(l.delivered, l.buffer), s.t);
  }

  /** What the host believes about the device's receive direction is true of this connection. */
  lemma RecvClosedSound(s: State)
    requires IsReachable(s) && s.host.phase == Running && s.host.recvClosed
    ensures s.dev.inTask.Vacant? && !s.dev.recvOpen
  {
    ReachableInv(s);
  }

  /** A new connection starts on an empty link with both endpoints running, no close count and
      no error, whatever happened before. */
  lemma FreshStart(s: State, topic: Bytes, cfgMax: nat, now: nat, acked: bool)
    requires IsReachable(s) && CanConnectOpen(s, topic, cfgMax, now, true)
    ensures var s' := DoConnectOpen(s, topic, cfgMax, now, true, acked);
            && |s'.conns| == |s.conns| + 1 && s'.conns[..|s.conns|] == s.conns
            && s'.Cur().out == FRESH && s'.Cur().inn == FRESH && s'.host.filling == [] && s'.host.wire == []
            && s'.dev.tx == TxEnd([], [], false) && s'.dev.rx.fifo == [] && s'.dev.rx.filling == []
            && s'.dev.close.value.None? && s'.received == 0
            && |s'.dev.errors| == |s'.conns| && s'.dev.errors[|s.conns|].None?
            && !s.dev.Open() && s'.dev.sendOpen && s'.dev.recvOpen
  {
    ReachableInv(s);
    hide ConnOk, OutGood, InGood;
    OpenStep(s.dev, topic, cfgMax, now);
  }

  /** The same connection, except for what its applications have read or dropped. */
  predicate OnlyRead(k: Conn, k': Conn, t: nat) {
    && SameLane(k.out, k'.out, t) && SameLane(k.inn, k'.inn, t)
    && k' == k.(out := k'.out, inn := k'.inn)
  }

  /** Every task serves the newest connection. */
  predicate Newest(s: State) {
    && (s.host.phase == Running ==> s.host.conn + 1 == |s.conns|)
    && (s.dev.outTask.Task? ==> s.dev.outTask.conn + 1 == |s.conns|)
    && (s.dev.inTask.Task? ==> s.dev.inTask.conn + 1 == |s.conns|)
  }

  lemma ReachableNewest(s: State)
    requires IsReachable(s)
    ensures Newest(s)
  {
    ReachableInv(s);
    hide ConnOk, OutGood, InGood;
  }

  /** In every run, no task of host or device has to do with an earlier connection any more: only its
      own applications ever touch it, and only what is in its queues. */
  lemma OldConnectionsFrozen(s: State, a: Action, c: nat)
    requires IsReachable(s) && CanDo(s, a) && c + 1 < |s.conns|
    ensures c < |Do(s, a).conns| && OnlyRead(s.conns[c], Do(s, a).conns[c], s.t)
    ensures Do(s, a).conns[c] != s.conns[c] ==> (a.Receive? || a.DropSender? || a.DropReceiver?) && a.c == c
  {
    hide Step, Enabled, CanDo, Do;
    ReachableNewest(s);
    if (a.Receive? || a.DropSender? || a.DropReceiver?) && a.c == c {
      OwnOnlyReads(s, a, c);
    } else {
      OthersFrozen(s, a, c);
    }
  }

  lemma RecvSame(l: Lane, t: nat, maxSize: nat)
    requires CanRecv(l)
    ensures SameLane(l, Recv(l, t, maxSize), t)
  {
    RecvKeeps(l, t, maxSize);
  }

  lemma DropSame(l: Lane, t: nat)
    ensures SameLane(l, l.(senderGone := true), t) && SameLane(l, l.(receiverGone := true), t)
  {
  }

  lemma ReadLane(k: Conn, dir: Dir, l: Lane, t: nat)
    requires SameLane(LaneOf(k, dir), l, t)
    ensures OnlyRead(k, WithLane(k, dir, l), t)
  {
  }

  lemma OwnOnlyReads(s: State, a: Action, c: nat)
    requires CanDo(s, a) && (a.Receive? || a.DropSender? || a.DropReceiver?) && a.c == c
    ensures c < |Do(s, a).conns| && OnlyRead(s.conns[c], Do(s, a).conns[c], s.t)
  {
    hide SameLane, Recv, OnlyRead, LaneOf, WithLane, Step, Enabled;
    var l := LaneOf(s.conns[c], a.dir);
    if a.Receive? {
      RecvSame(l, s.t, RecvLimit(s.conns[c], a.dir));
      ReadLane(s.conns[c], a.dir, Recv(l, s.t, RecvLimit(s.conns[c], a.dir)), s.t);
    } else {
      DropSame(l, s.t);
      ReadLane(s.conns[c], a.dir, if a.DropSender? then l.(senderGone := true) else l.(receiverGone := true), s.t);
    }
  }

  lemma OthersFrozen(s: State, a: Action, c: nat)
    requires Newest(s) && CanDo(s, a) && c + 1 < |s.conns|
    requires (a.Receive? || a.DropSender? || a.DropReceiver?) ==> a.c != c
    ensures c < |Do(s, a).conns| && Do(s, a).conns[c] == s.conns[c]
  {
    hide CanDo, Do;
    if IsSending(a) {
      SendingFreezes(s, a, c);
    } else if IsHosting(a) {
      HostingFreezes(s, a, c);
    } else if IsResetting(a) {
      ResettingFreezes(s, a, c);
    } else if IsConnecting(a) {
      ConnectingFreezes(s, a, c);
    } else if IsMoving(a) {
      MovingFreezes(s, a, c);
    } else {
      LoopingFreezes(s, a, c);
    }
  }

  lemma SendingFreezes(s: State, a: Action, c: nat)
    requires Newest(s) && CanDo(s, a) && c + 1 < |s.conns| && IsSending(a)
    requires (a.Receive? || a.DropSender? || a.DropReceiver?) ==> a.c != c
    ensures c < |Do(s, a).conns| && Do(s, a).conns[c] == s.conns[c]
  {
    hide Step, Enabled, Recv, PacketizeAll;
  }

  lemma HostingFreezes(s: State, a: Action, c: nat)
    requires Newest(s) && CanDo(s, a) && c + 1 < |s.conns| && IsHosting(a)
    ensures c < |Do(s, a).conns| && Do(s, a).conns[c] == s.conns[c]
  {
    hide Step, Enabled, Arrive, Filled;
  }

  lemma ResettingFreezes(s: State, a: Action, c: nat)
    requires Newest(s) && CanDo(s, a) && c + 1 < |s.conns| && IsResetting(a)
    ensures c < |Do(s, a).conns| && Do(s, a).conns[c] == s.conns[c]
  {
    hide Step, Enabled;
  }

  lemma ConnectingFreezes(s: State, a: Action, c: nat)
    requires Newest(s) && CanDo(s, a) && c + 1 < |s.conns| && IsConnecting(a)
    ensures c < |Do(s, a).conns| && Do(s, a).conns[c] == s.conns[c]
  {
    hide Step, Enabled, HostSendLimit, EncodeHost;
  }

  lemma MovingFreezes(s: State, a: Action, c: nat)
    requires Newest(s) && CanDo(s, a) && c + 1 < |s.conns| && IsMoving(a)
    ensures c < |Do(s, a).conns| && Do(s, a).conns[c] == s.conns[c]
  {
    hide Step, Enabled, Arrive, Filled, PacketizeAll;
  }

  lemma LoopingFreezes(s: State, a: Action, c: nat)
    requires Newest(s) && CanDo(s, a) && c + 1 < |s.conns| && IsLooping(a)
    ensures c < |Do(s, a).conns| && Do(s, a).conns[c] == s.conns[c]
  {
    hide Step, Enabled, Abort;
  }

  /** A CLOSE that the half-close handle gets through leaves both directions closed and no
      sub-task; it comes while its own connection is still the newest. */
  lemma FinalClose(s: State, reset: Reset)
    requires IsReachable(s) && CanHostClose(s, reset, true) && s.host.sendMarked && s.host.recvMarked
    ensures var s' := DoHostClose(s, reset, true);
            && !s'.dev.Open() && s'.dev.inTask.Vacant? && s'.dev.outTask.Vacant?
            && s'.Cur().out.closed && |s'.conns| == |s.conns| && s'.host.phase == Running
  {
    hide SystemInv, Step, TaskGone, Hangup;
    ReachableInv(s);
    TaskGoneKeeps(s);
    GoneFrame(s);
    NotListening(TaskGone(s));
    AbortStep(s.dev, Close(reset));
    HangupCloses(TaskGone(s), Step(s.dev, Close(reset), true).control);
  }

  lemma GoneFrame(s: State)
    requires s.Attached() && s.host.lock.Some?
    ensures var s' := TaskGone(s);
            s'.dev == s.dev && |s'.conns| == |s.conns| && s'.host.phase == Running
  {
  }

  lemma HangupCloses(s: State, d: Control)
    requires s.conns != [] && (s.dev.inTask.Task? ==> s.dev.inTask.conn + 1 == |s.conns|)
    requires s.dev.inTask.Vacant? ==> s.Cur().out.closed
    ensures var s' := Hangup(s, d);
            s'.dev == d && |s'.conns| == |s.conns| && s'.Cur().out.closed && s'.host == s.host
  {
  }

  lemma NotListening(s: State)
    requires SystemInv(s) && s.conns != []
    ensures Inv(s.dev) && (s.dev.inTask.Task? ==> s.dev.inTask.conn + 1 == |s.conns|)
    ensures s.dev.inTask.Vacant? ==> s.Cur().out.closed
  {
    hide ConnOk, InGood;
  }

  // ------------------------------------------- the requests that end a connection

  /** At most one announcement for each direction, and only for one that has been marked. */
  predicate Announcements(n: seq<Request>, sent: bool, received: bool) {
    && |n| <= 2
    && (forall i :: 0 <= i < |n| ==> !n[i].CloseRequest?)
    && (forall i :: 0 <= i < |n| ==> if n[i].CloseSendRequest? then sent else received)
    && (|n| == 2 ==> n[0].CloseSendRequest? != n[1].CloseSendRequest?)
  }

  /** The final CLOSE is attempted exactly when both tasks have ended, once, after the rest. */
  predicate LogOk(h: Host) {
    && (h.sendMarked <==> h.outTask.Done? || h.lock == Some(Outward))
    && (h.recvMarked <==> h.inTask.Done? || h.lock == Some(Inward))
    && (h.lock == Some(Outward) ==> h.outTask.Ended?)
    && (h.lock == Some(Inward) ==> h.inTask.Ended?)
    && (if h.outTask.Done? && h.inTask.Done? then
          |h.log| > 0 && h.log[|h.log| - 1].CloseRequest? && Announcements(h.log[..|h.log| - 1], true, true)
        else Announcements(h.log, h.sendMarked, h.recvMarked))
  }

  lemma LogMark(s: State, dir: Dir, served: bool)
    requires LogOk(s.host) && CanHostMark(s, dir, served)
    ensures LogOk(DoHostMark(s, dir, served).host)
  {
    hide Step, Enabled;
  }

  lemma LastRequest(log: seq<Request>)
    ensures (log + [CloseRequest])[..|log + [CloseRequest]| - 1] == log
  {
  }

  /** The last of the two tasks ends: CLOSE follows everything else. */
  lemma LogLast(h: Host, h': Host)
    requires LogOk(h) && h.sendMarked && h.recvMarked && h.lock.Some? && h'.outTask.Done? && h'.inTask.Done?
    requires h'.sendMarked && h'.recvMarked && h'.lock.None? && h'.log == h.log + [CloseRequest]
    ensures LogOk(h')
  {
    hide Announcements;
    LastRequest(h.log);
    if h.lock.value.Outward? {
      assert h.lock == Some(Outward);
    } else {
      assert h.lock.value == Inward && h.lock == Some(Inward);
    }
    assert !(h.outTask.Done? && h.inTask.Done?) && Announcements(h.log, true, true);
    assert h'.log[..|h'.log| - 1] == h.log && h'.log[|h'.log| - 1] == CloseRequest;
  }

  lemma LogFirst(h: Host, h': Host)
    requires LogOk(h) && !(h.sendMarked && h.recvMarked) && h.lock.Some? && h'.log == h.log && h'.lock.None?
    requires h'.sendMarked == h.sendMarked && h'.recvMarked == h.recvMarked
    requires h'.outTask == if h.lock.value.Outward? then Done else h.outTask
    requires h'.inTask == if h.lock.value.Inward? then Done else h.inTask
    ensures LogOk(h')
  {
    hide Announcements;
  }

  lemma LogTaskGone(s: State)
    requires LogOk(s.host) && s.Attached() && s.host.lock.Some?
    ensures LogOk(TaskGone(s).host)
  {
    var h := TaskGone(s).host;
    assert h.outTask == (if s.host.lock.value.Outward? then Done else s.host.outTask);
    assert h.inTask == (if s.host.lock.value.Inward? then Done else s.host.inTask);
    if s.host.sendMarked && s.host.recvMarked {
      MarkedDone(s.host);
      LogLast(s.host, h);
    } else {
      hide LogOk;
      var none: seq<Request> := [];
      assert s.host.log + none == s.host.log;
      LogFirst(s.host, h);
    }
  }

  lemma MarkedDone(h: Host)
    requires LogOk(h) && h.sendMarked && h.recvMarked && h.lock.Some?
    ensures if h.lock.value.Outward? then h.inTask.Done? else h.outTask.Done?
  {
    hide Announcements;
  }

  lemma LogClose(s: State, reset: Reset, served: bool)
    requires LogOk(s.host) && CanHostClose(s, reset, served)
    ensures LogOk(DoHostClose(s, reset, served).host)
  {
    hide Step, Enabled, LogOk, TaskGone, Hangup;
    LogTaskGone(s);
    if served {
      HangupFrame(TaskGone(s), Step(s.dev, Close(reset), true).control);
    }
  }

  lemma HangupFrame(s: State, d: Control)
    ensures Hangup(s, d).host == s.host
  {
  }

  /** The host is about to serve nothing, or a connection that has just been opened. */
  predicate Unmarked(h: Host) {
    && !h.sendMarked && !h.recvMarked && h.lock.None? && h.log == []
    && !h.outTask.Done? && !h.inTask.Done?
  }

  /** Nothing that matters for the requests has changed. */
  predicate SameEnds(h: Host, h': Host) {
    && h'.sendMarked == h.sendMarked && h'.recvMarked == h.recvMarked && h'.lock == h.lock && h'.log == h.log
    && (h.outTask.Done? <==> h'.outTask.Done?) && (h.inTask.Done? <==> h'.inTask.Done?)
    && (h.outTask.Ended? ==> h'.outTask.Ended?) && (h.inTask.Ended? ==> h'.inTask.Ended?)
  }

  lemma LogSame(h: Host, h': Host)
    requires LogOk(h) && (SameEnds(h, h') || Unmarked(h'))
    ensures LogOk(h')
  {
  }

  lemma LogSending(s: State, a: Action)
    requires CanDo(s, a) && IsSending(a)
    ensures SameEnds(s.host, Do(s, a).host)
  {
    hide Recv, PacketizeAll;
  }

  lemma ArriveFrame(s: State)
    requires CanHostArrive(s)
    ensures SameEnds(s.host, DoHostArrive(s).host)
  {
    hide Arrive, Filled;
  }

  lemma AbsorbFrame(s: State)
    requires CanHostAbsorb(s)
    ensures SameEnds(s.host, DoHostAbsorb(s).host)
  {
  }

  lemma StopFrame(s: State, why: InStop)
    requires CanHostInStop(s, why)
    ensures SameEnds(s.host, DoHostInStop(s, why).host)
  {
  }

  lemma StatusFrame(s: State, now: nat, served: bool)
    requires CanHostStatus(s, now, served)
    ensures SameEnds(s.host, DoHostStatus(s, now, served).host)
  {
    hide Step, Enabled;
  }

  lemma EndFrame(s: State)
    ensures SameEnds(s.host, DoHostStatusEnd(s).host)
  {
  }

  lemma CrashFrame(s: State)
    requires s.Attached()
    ensures Unmarked(DoHostCrash(s).host)
  {
  }

  lemma LogHosting(s: State, a: Action)
    requires CanDo(s, a) && IsHosting(a) && !a.HostMark? && !a.HostClose?
    ensures SameEnds(s.host, Do(s, a).host) || Unmarked(Do(s, a).host)
  {
    hide SameEnds, Unmarked, CanHostArrive, DoHostArrive, CanHostAbsorb, DoHostAbsorb, CanHostInStop, DoHostInStop,
      CanHostStatus, DoHostStatus, CanHostStatusEnd, DoHostStatusEnd, DoHostCrash;
    match a {
      case HostArrive => ArriveFrame(s);
      case HostAbsorb => AbsorbFrame(s);
      case HostInStop(why) => StopFrame(s, why);
      case HostStatus(now, served) => StatusFrame(s, now, served);
      case HostStatusEnd => EndFrame(s);
      case HostCrash => CrashFrame(s);
    }
  }

  lemma LogReset(s: State, reset: Reset, served: bool)
    requires CanConnectClose(s, reset, served)
    ensures SameEnds(s.host, DoConnectClose(s, reset, served).host)
  {
    hide Step, Enabled, Hangup;
    if served {
      HangupFrame(s.(host := s.host.(phase := Phase.Reset)), Step(s.dev, Close(reset), true).control);
    }
  }

  lemma LogResetting(s: State, a: Action)
    requires CanDo(s, a) && IsResetting(a)
    ensures SameEnds(s.host, Do(s, a).host) || Unmarked(Do(s, a).host)
  {
    hide CanConnectClose, DoConnectClose, SameEnds, Unmarked, CanClaim, DoClaim, CanAbort;
    match a {
      case ConnectClose(reset, served) => LogReset(s, reset, served);
      case ConnectClaim => LogClaim(s);
      case ConnectFlush => LogPhase(s.host, DoFlush(s).host);
      case ConnectAbort => LogPhase(s.host, DoAbort(s).host);
    }
  }

  lemma LogClaim(s: State)
    ensures Unmarked(DoClaim(s).host)
  {
  }

  lemma LogPhase(h: Host, h': Host)
    requires h' == h.(phase := h'.phase, filling := h'.filling)
    ensures SameEnds(h, h')
  {
  }

  lemma LogConnecting(s: State, a: Action)
    requires CanDo(s, a) && IsConnecting(a)
    ensures SameEnds(s.host, Do(s, a).host) || Unmarked(Do(s, a).host)
  {
    hide CanConnectOpen, DoConnectOpen, CanConnectQuery, DoConnectQuery, CanConnectAnnounce, DoConnectAnnounce, SameEnds,
      Unmarked;
    match a {
      case ConnectOpen(topic, cfgMax, now, served, acked) => OpenFrame(s, topic, cfgMax, now, served, acked);
      case ConnectQuery(cfgPing, cfgMax, served, acked) => QueryFrame(s, cfgPing, cfgMax, served, acked);
      case ConnectAnnounce(recvMax, served) => AnnounceFrame(s, recvMax, served);
    }
  }

  lemma OpenFrame(s: State, topic: Bytes, cfgMax: nat, now: nat, served: bool, acked: bool)
    requires CanConnectOpen(s, topic, cfgMax, now, served)
    ensures var h := DoConnectOpen(s, topic, cfgMax, now, served, acked).host;
            SameEnds(s.host, h) || Unmarked(h)
  {
    hide Step, Enabled;
  }

  lemma QueryFrame(s: State, cfgPing: Option<nat>, cfgMax: nat, served: bool, acked: bool)
    requires CanConnectQuery(s, cfgPing, cfgMax, served)
    ensures SameEnds(s.host, DoConnectQuery(s, cfgPing, cfgMax, served, acked).host)
  {
    hide Step, Enabled, HostSendLimit;
  }

  lemma AnnounceFrame(s: State, recvMax: nat, served: bool)
    requires CanConnectAnnounce(s, recvMax, served)
    ensures SameEnds(s.host, DoConnectAnnounce(s, recvMax, served).host)
  {
    hide Step, Enabled, EncodeHost;
  }

  lemma TakeFrame(s: State)
    requires CanDevTake(s)
    ensures DoDevTake(s).host == s.host
  {
    hide PacketizeAll;
  }

  lemma TransmitFrame(s: State)
    requires CanDevTransmit(s)
    ensures DoDevTransmit(s).host == s.host
  {
  }

  lemma DevArriveFrame(s: State)
    requires CanDevArrive(s)
    ensures DoDevArrive(s).host == s.host
  {
    hide Arrive, Filled, Completes;
  }

  lemma OutEndFrame(s: State, fine: bool, keep: nat)
    requires CanDevOutEnd(s, fine, keep)
    ensures DoDevOutEnd(s, fine, keep).host == s.host
  {
    hide Step, Enabled;
  }

  lemma InEndFrame(s: State, res: InResult)
    requires CanDevInEnd(s, res)
    ensures DoDevInEnd(s, res).host == s.host
  {
    hide Step, Enabled, Total;
  }

  lemma LogMoving(s: State, a: Action)
    requires CanDo(s, a) && IsMoving(a)
    ensures Do(s, a).host == s.host
  {
    hide CanDevTake, DoDevTake, CanDevTransmit, DoDevTransmit, CanDevArrive, DoDevArrive, CanDevOutEnd, DoDevOutEnd,
      CanDevInEnd, DoDevInEnd;
    match a {
      case DevTake => TakeFrame(s);
      case DevTransmit => TransmitFrame(s);
      case DevArrive => DevArriveFrame(s);
      case DevOutEnd(fine, keep) => OutEndFrame(s, fine, keep);
      case DevInEnd(res) => InEndFrame(s, res);
    }
  }

  lemma OtherFrame(s: State, e: Event)
    requires CanDevOther(s, e)
    ensures SameEnds(s.host, DoDevOther(s, e).host)
  {
    hide Step, Enabled, Hangup;
    var h := if e.Disable? || e.Enable? then s.host.(told := false) else s.host;
    if e.Timer? || e.Disable? {
      HangupFrame(s.(host := h), Step(s.dev, e, true).control);
    }
  }

  lemma DownFrame(s: State)
    ensures SameEnds(s.host, DoDevStop(s).host) && SameEnds(s.host, s.(up := false).host)
  {
    hide Hangup, Abort;
    HangupFrame(s.(up := false), Abort(s.dev));
  }

  lemma LogLooping(s: State, a: Action)
    requires CanDo(s, a) && IsLooping(a)
    ensures SameEnds(s.host, Do(s, a).host)
  {
    hide SameEnds, CanDevOther, DoDevOther, DoDevStop, CanDevHang;
    match a {
      case DevOther(e) => OtherFrame(s, e);
      case DevStop => DownFrame(s);
      case DevHang(_) => DownFrame(s);
    }
  }

  lemma LogKeeps(s: State, a: Action)
    requires LogOk(s.host) && CanDo(s, a)
    ensures LogOk(Do(s, a).host)
  {
    hide LogOk, CanHostMark, DoHostMark, CanHostClose, DoHostClose;
    if a.HostMark? {
      LogMark(s, a.dir, a.served);
    } else if a.HostClose? {
      LogClose(s, a.reset, a.served);
    } else {
      LogOther(s, a);
      LogSame(s.host, Do(s, a).host);
    }
  }

  lemma LogOther(s: State, a: Action)
    requires CanDo(s, a) && !a.HostMark? && !a.HostClose?
    ensures SameEnds(s.host, Do(s, a).host) || Unmarked(Do(s, a).host)
  {
    hide CanDo, Do;
    if IsSending(a) {
      LogSending(s, a);
    } else if IsHosting(a) {
      LogHosting(s, a);
    } else if IsResetting(a) {
      LogResetting(s, a);
    } else if IsConnecting(a) {
      LogConnecting(s, a);
    } else if IsMoving(a) {
      LogMoving(s, a);
    } else {
      LogLooping(s, a);
    }
  }

  lemma {:induction false} LogRun(s: State, actions: seq<Action>)
    requires LogOk(s.host)
    ensures LogOk(Run(s, actions).host)
    decreases |actions|
  {
    if actions != [] {
      var a := actions[0];
      if CanDo(s, a) {
        LogKeeps(s, a);
        LogRun(Do(s, a), actions[1..]);
      } else {
        LogRun(s, actions[1..]);
      }
    }
  }

  /** In every run and under every interleaving of the host's tasks: at most one CLOSE_SEND and one
      CLOSE_RECV are attempted for a connection, exactly one CLOSE once both tasks have ended, and
      it comes last. */
  lemma ClosedOnce(s: State)
    requires IsReachable(s)
    ensures LogOk(s.host)
  {
    var mps: nat, hostUsize: nat, usize: nat, actions: seq<Action> :|
      mps > 0 && s == Run(Start(mps, hostUsize, usize), actions);
    LogRun(Start(mps, hostUsize, usize), actions);
  }

  /** CLOSE_SEND is attempted only when every transfer has completed, none has failed, every packet
      was taken, and with the count of all payload bytes modulo 2^64. */
  lemma CloseSendExact(s: State, served: bool)
    requires IsReachable(s) && CanHostMark(s, Outward, served)
    ensures DoHostMark(s, Outward, served).host.log != s.host.log ==>
              && s.host.wire == [] && !s.host.failed && s.HostConn().out.queue == [] && s.HostConn().out.senderGone
              && DoHostMark(s, Outward, served).host.log
                 == s.host.log + [CloseSendRequest(Total(s.HostConn().out.accepted) % TWO_TO_THE_64)]
  {
    hide SystemInv;
    ReachableInv(s);
    OutFacts(s);
    if s.host.outTask.notify {
      assert HostCount(OutViewOf(s));
    } else {
      var none: seq<Request> := [];
      assert s.host.log + none == s.host.log;
    }
  }

  // ----------------------------------------------- announcements do get made

  /** The connection the host serves goes on: it is neither replaced nor given up by a crash. */
  predicate SameService(actions: seq<Action>) {
    forall i :: 0 <= i < |actions| ==> !actions[i].ConnectClaim? && !actions[i].HostCrash?
  }

  /** The send task has left its loop, at the end of the data or not. */
  predicate OutLeft(s: State, eof: bool) {
    && s.Attached()
    && (s.host.outTask == Draining(eof) || s.host.outTask == Ended(eof && !s.host.failed) || s.host.outTask.Done?)
  }

  predicate InLeft(s: State, why: InStop) {
    s.Attached() && (s.host.inTask == Ended(why.NoReceiver?) || s.host.inTask.Done?)
  }

  /** What a step may do to the host's tasks, once they have left their loops. */
  predicate TasksGoOn(h: Host, h': Host) {
    && h'.phase == h.phase && h'.conn == h.conn
    && (h.outTask.Draining? && h'.outTask != h.outTask ==> h'.outTask == Ended(h.outTask.notify && !h'.failed))
    && (h.outTask.Ended? && h'.outTask != h.outTask ==> h'.outTask.Done?)
    && (h.outTask.Ended? || h.outTask.Done? ==> h'.failed == h.failed)
    && (h.outTask.Done? ==> h'.outTask.Done?)
    && (h.inTask.Ended? && h'.inTask != h.inTask ==> h'.inTask.Done?)
    && (h.inTask.Done? ==> h'.inTask.Done?)
  }

  lemma SameTasks(h: Host, h': Host)
    requires h' == h.(wire := h'.wire, total := h'.total, filling := h'.filling, recvClosed := h'.recvClosed, dead := h'.dead,
                      statusLive := h'.statusLive, told := h'.told)
    ensures TasksGoOn(h, h')
  {
  }

  lemma TasksSending(s: State, a: Action)
    requires s.Attached() && CanDo(s, a) && IsSending(a)
    ensures TasksGoOn(s.host, Do(s, a).host) && |Do(s, a).conns| >= |s.conns|
  {
    hide Recv, PacketizeAll;
  }

  lemma TasksMark(s: State, dir: Dir, served: bool)
    requires CanHostMark(s, dir, served)
    ensures TasksGoOn(s.host, DoHostMark(s, dir, served).host) && |DoHostMark(s, dir, served).conns| >= |s.conns|
  {
    hide Step, Enabled;
  }

  lemma TasksClose(s: State, reset: Reset, served: bool)
    requires CanHostClose(s, reset, served)
    ensures TasksGoOn(s.host, DoHostClose(s, reset, served).host) && |DoHostClose(s, reset, served).conns| >= |s.conns|
  {
    hide Step, Enabled, Hangup;
    if served {
      HangupFrame(TaskGone(s), Step(s.dev, Close(reset), true).control);
      HangupCount(TaskGone(s), Step(s.dev, Close(reset), true).control);
    }
  }

  lemma HangupCount(s: State, d: Control)
    ensures |Hangup(s, d).conns| == |s.conns|
  {
  }

  lemma TasksArrive(s: State)
    requires CanHostArrive(s)
    ensures TasksGoOn(s.host, DoHostArrive(s).host) && |DoHostArrive(s).conns| >= |s.conns|
  {
    hide Arrive, Filled;
  }

  lemma TasksStop(s: State, why: InStop)
    requires CanHostInStop(s, why)
    ensures TasksGoOn(s.host, DoHostInStop(s, why).host) && |DoHostInStop(s, why).conns| >= |s.conns|
  {
  }

  lemma TasksStatus(s: State, now: nat, served: bool)
    requires CanHostStatus(s, now, served)
    ensures TasksGoOn(s.host, DoHostStatus(s, now, served).host) && |DoHostStatus(s, now, served).conns| >= |s.conns|
  {
    hide Step, Enabled;
  }

  lemma TasksHosting(s: State, a: Action)
    requires s.Attached() && CanDo(s, a) && IsHosting(a) && !a.HostCrash?
    ensures TasksGoOn(s.host, Do(s, a).host) && |Do(s, a).conns| >= |s.conns|
  {
    hide TasksGoOn, CanHostArrive, DoHostArrive, CanHostInStop, DoHostInStop, CanHostStatus, DoHostStatus,
      CanHostMark, DoHostMark, CanHostClose, DoHostClose;
    match a {
      case HostArrive => TasksArrive(s);
      case HostAbsorb => SameTasks(s.host, s.host);
      case HostInStop(why) => TasksStop(s, why);
      case HostStatus(now, served) => TasksStatus(s, now, served);
      case HostStatusEnd => SameTasks(s.host, DoHostStatusEnd(s).host);
      case HostMark(dir, served) => TasksMark(s, dir, served);
      case HostClose(reset, served) => TasksClose(s, reset, served);
    }
  }

  lemma CountMoving(s: State, a: Action)
    requires CanDo(s, a) && IsMoving(a)
    ensures |Do(s, a).conns| == |s.conns|
  {
    hide Step, Enabled, Arrive, Filled, PacketizeAll, Completes, Total;
  }

  lemma CountOther(s: State, e: Event)
    requires CanDevOther(s, e)
    ensures var s' := DoDevOther(s, e); |s'.conns| == |s.conns| && s'.host == s.host.(told := s'.host.told)
  {
    hide Step, Enabled, Hangup;
    var h := if e.Disable? || e.Enable? then s.host.(told := false) else s.host;
    if e.Timer? || e.Disable? {
      HangupFrame(s.(host := h), Step(s.dev, e, true).control);
      HangupCount(s.(host := h), Step(s.dev, e, true).control);
    }
  }

  lemma CountStop(s: State)
    ensures |DoDevStop(s).conns| == |s.conns| && DoDevStop(s).host == s.host
  {
    hide Hangup, Abort;
    HangupFrame(s.(up := false), Abort(s.dev));
    HangupCount(s.(up := false), Abort(s.dev));
  }

  lemma CountLooping(s: State, a: Action)
    requires CanDo(s, a) && IsLooping(a)
    ensures |Do(s, a).conns| == |s.conns| && Do(s, a).host == s.host.(told := Do(s, a).host.told)
  {
    hide CanDevOther, DoDevOther, DoDevStop, CanDevHang;
    match a {
      case DevOther(e) => CountOther(s, e);
      case DevStop => CountStop(s);
      case DevHang(_) =>
    }
  }

  /** Connecting is for a host that serves no connection. */
  lemma NotRunning(s: State, a: Action)
    requires CanDo(s, a) && (IsResetting(a) || IsConnecting(a)) && !a.ConnectClaim?
    ensures s.host.phase != Running
  {
    hide Turns, Do;
  }

  lemma TasksMoving(s: State, a: Action)
    requires s.Attached() && CanDo(s, a) && IsMoving(a)
    ensures TasksGoOn(s.host, Do(s, a).host) && |Do(s, a).conns| >= |s.conns|
  {
    hide TasksGoOn, Do, CanDo;
    LogMoving(s, a);
    CountMoving(s, a);
    SameTasks(s.host, s.host);
  }

  lemma TasksLooping(s: State, a: Action)
    requires s.Attached() && CanDo(s, a) && IsLooping(a)
    ensures TasksGoOn(s.host, Do(s, a).host) && |Do(s, a).conns| >= |s.conns|
  {
    hide TasksGoOn, Do, CanDo;
    CountLooping(s, a);
    SameTasks(s.host, Do(s, a).host);
  }

  lemma TasksStep(s: State, a: Action)
    requires s.Attached() && CanDo(s, a) && !a.ConnectClaim? && !a.HostCrash?
    ensures TasksGoOn(s.host, Do(s, a).host) && Do(s, a).Attached()
  {
    hide TasksGoOn, Do, CanDo;
    if IsResetting(a) || IsConnecting(a) {
      NotRunning(s, a);
    }
    if IsSending(a) {
      TasksSending(s, a);
    } else if IsHosting(a) {
      TasksHosting(s, a);
    } else if IsMoving(a) {
      TasksMoving(s, a);
    } else {
      TasksLooping(s, a);
    }
    GoOn(s.host, Do(s, a).host);
  }

  lemma GoOn(h: Host, h': Host)
    requires TasksGoOn(h, h')
    ensures h'.phase == h.phase && h'.conn == h.conn
  {
  }

  lemma {:induction false} OutLeftRun(s: State, eof: bool, actions: seq<Action>)
    requires OutLeft(s, eof) && SameService(actions)
    ensures OutLeft(Run(s, actions), eof)
    decreases |actions|
  {
    hide CanDo, Do;
    if actions != [] {
      var a := actions[0];
      if CanDo(s, a) {
        TasksStep(s, a);
        OutLeftRun(Do(s, a), eof, actions[1..]);
      } else {
        OutLeftRun(s, eof, actions[1..]);
      }
    }
  }

  lemma {:induction false} InLeftRun(s: State, why: InStop, actions: seq<Action>)
    requires InLeft(s, why) && SameService(actions)
    ensures InLeft(Run(s, actions), why)
    decreases |actions|
  {
    hide CanDo, Do;
    if actions != [] {
      var a := actions[0];
      if CanDo(s, a) {
        TasksStep(s, a);
        InLeftRun(Do(s, a), why, actions[1..]);
      } else {
        InLeftRun(s, why, actions[1..]);
      }
    }
  }

  lemma MarkAnnounces(s: State, eof: bool, served: bool)
    requires IsReachable(s) && OutLeft(s, eof) && CanHostMark(s, Outward, served)
    ensures var s' := DoHostMark(s, Outward, served);
            var count := Total(s.HostConn().out.accepted) % TWO_TO_THE_64;
            && s'.host.log == s.host.log + (if eof && !s.host.failed then [CloseSendRequest(count)] else [])
            && (eof && !s.host.failed && served && s.dev.inTask.Task? ==> s'.dev.close.value == Some(count))
  {
    hide SystemInv, Step, Enabled, OutGood, HostOk, Total;
    ReachableInv(s);
    InvDev(s);
    MarkCount(s, served);
    if eof && !s.host.failed && served {
      CountStep(s.dev, s.host.total);
    }
  }

  lemma MarkCount(s: State, served: bool)
    requires IsReachable(s) && CanHostMark(s, Outward, served) && s.host.outTask.Ended?
    ensures s.host.total < TWO_TO_THE_64
    ensures s.host.outTask.notify ==> s.host.total == Total(s.HostConn().out.accepted) % TWO_TO_THE_64
  {
    hide SystemInv;
    ReachableInv(s);
    OutFacts(s);
    if s.host.outTask.notify {
      assert HostCount(OutViewOf(s));
    }
  }

  /** CLOSE_SEND is announced exactly when the send task's loop ended at the end of the data and no
      transfer failed, whatever happens between that and the announcement; it carries the count of
      everything the application had accepted, and a device that serves it and still receives has it. */
  lemma CloseSendAnnounced(s: State, eof: bool, actions: seq<Action>, served: bool)
    requires IsReachable(s) && CanHostOutStop(s, eof) && SameService(actions)
    requires CanHostMark(Run(DoHostOutStop(s, eof), actions), Outward, served)
    ensures var s1 := Run(DoHostOutStop(s, eof), actions);
            var s2 := DoHostMark(s1, Outward, served);
            var count := Total(s1.HostConn().out.accepted) % TWO_TO_THE_64;
            && s2.host.log == s1.host.log + (if eof && !s1.host.failed then [CloseSendRequest(count)] else [])
            && (eof && !s1.host.failed && served && s1.dev.inTask.Task? ==> s2.dev.close.value == Some(count))
  {
    hide CanDo, Do, Run, DoHostMark;
    var s0 := DoHostOutStop(s, eof);
    StopRuns(s, eof);
    ReachableRun(s, [HostOutStop(eof)]);
    ReachableRun(s0, actions);
    OutLeftRun(s0, eof, actions);
    MarkAnnounces(Run(s0, actions), eof, served);
  }

  lemma StopRuns(s: State, eof: bool)
    requires CanHostOutStop(s, eof)
    ensures Run(s, [HostOutStop(eof)]) == DoHostOutStop(s, eof)
  {
    RunOne(s, HostOutStop(eof));
  }

  /** CLOSE_RECV is announced exactly when the receive task's loop ended because the application dropped
      its receiver; a device that serves it sends no more. */
  lemma CloseRecvAnnounced(s: State, why: InStop, actions: seq<Action>, served: bool)
    requires IsReachable(s) && CanHostInStop(s, why) && SameService(actions)
    requires CanHostMark(Run(DoHostInStop(s, why), actions), Inward, served)
    ensures var s1 := Run(DoHostInStop(s, why), actions);
            var s2 := DoHostMark(s1, Inward, served);
            && s2.host.log == s1.host.log + (if why.NoReceiver? then [CloseRecvRequest] else [])
            && (why.NoReceiver? && served ==> !s2.dev.sendOpen && s2.dev.outTask.Vacant?)
  {
    hide SystemInv, CanDo, Do, Run;
    var s0 := DoHostInStop(s, why);
    InStopRuns(s, why);
    ReachableRun(s, [HostInStop(why)]);
    ReachableRun(s0, actions);
    InLeftRun(s0, why, actions);
    var s1 := Run(s0, actions);
    ReachableInv(s1);
    InvDev(s1);
    if served {
      DirectionsExactly(s1.dev, CloseRecv, true);
      InvStep(s1.dev, CloseRecv, true);
    }
  }

  lemma InStopRuns(s: State, why: InStop)
    requires CanHostInStop(s, why)
    ensures Run(s, [HostInStop(why)]) == DoHostInStop(s, why)
  {
    RunOne(s, HostInStop(why));
  }

  /** A served STATUS tells the host whether the device still receives; one that is not served makes it
      give the device up. */
  lemma StatusLearns(s: State, now: nat, served: bool)
    requires IsReachable(s) && CanHostStatus(s, now, served)
    ensures var h := DoHostStatus(s, now, served).host;
            && (served ==> (h.recvClosed <==> s.host.recvClosed || s.dev.inTask.Vacant?) && h.dead == s.host.dead && h.statusLive)
            && (!served ==> h.dead && !h.statusLive && h.recvClosed == s.host.recvClosed)
  {
    hide SystemInv;
    ReachableInv(s);
    InvDev(s);
    hide CapsReply;
  }
}
