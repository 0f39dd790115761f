/**
  Whole connections, one after another: for any packets in both directions there is a run that
  connects, delivers exactly them, closes both directions, and leaves both ends ready for the next
  connection.
 */
module Sessions {
  import opened Prelude
  import opened Framing
  import opened Capabilities
  import opened DeviceControl
  import opened Pipeline
  import opened HalfClose
  import opened Flow
  import opened System
  import opened SystemProof
  import opened SystemTheorems
  import opened Progress

  /** What one connection is to carry, and the limits it is opened with. */
  datatype Job = Job(plan: Plan, there: seq<Bytes>, back: seq<Bytes>)

  /** The limits fit both usizes, and the packets fit the limits. */
  predicate JobOk(j: Job, hostUsize: nat, usize: nat) {
    && j.plan.devMax < TWO_TO_THE_64 && j.plan.hostMax < TWO_TO_THE_64 && j.plan.hostMax <= hostUsize
    && (j.plan.devMax <= usize || hostUsize <= usize)
    && AllWithin(j.there, Min(j.plan.devMax, hostUsize)) && AllWithin(j.back, Min(j.plan.hostMax, usize))
  }

  ghost predicate Ready(s: State) {
    IsReachable(s) && CanStart(s)
  }

  /** Both applications have read what the other one sent, and the end of the stream. */
  predicate Exchanged(k: Conn, there: seq<Bytes>, back: seq<Bytes>) {
    && k.out.accepted == k.out.delivered == there && k.out.eof && k.out.inbox == []
    && k.inn.accepted == k.inn.delivered == back && k.inn.eof && k.inn.inbox == []
  }

  // ------------------------------------------------------------ one connection

  function Connecting(p: Plan): seq<Action> {
    Cleanup() + Exchange(p)
  }

  /** Once connected, the packets of both directions. */
  lemma Serve(s: State, j: Job) returns (actions: seq<Action>)
    requires Ready(s) && JobOk(j, s.hostUsize, s.dev.usize)
    ensures var s' := Run(Run(s, Connecting(j.plan)), actions);
            var c := |s.conns|;
            && IsReachable(s') && OutOpen(s', c) && InOpen(s', c)
            && s'.conns[c].out.accepted == s'.conns[c].out.delivered == j.there
            && s'.conns[c].inn.accepted == s'.conns[c].inn.delivered == j.back
            && s'.host.lock.None? && s'.host.log == [] && s'.host.statusLive && SameSizes(s, s')
  {
    hide SystemInv, Run, CanDo, Do, CanStart;
    var c := |s.conns|;
    Connects(s, j.plan);
    var s2 := Run(s, Connecting(j.plan));
    ReachableInv(s2);
    ExchangeFits(s2.conns[c].terms);
    var out := DeliverOut(s2, c, j.there);
    var s3 := Run(s2, out);
    var inn := DeliverIn(s3, c, j.back);
    InContext(Run(s3, inn), c);
    RunMore(s2, out, inn);
    actions := out + inn;
    var none: seq<Bytes> := [];
    assert none + j.there == j.there && none + j.back == j.back;
  }

  /** The send task gives the half-close lock back and ends. */
  lemma Release(s: State)
    requires IsReachable(s) && s.up && s.Attached() && s.host.lock == Some(Outward) && s.host.inTask.Live?
    ensures Run(s, [HostClose(ALL_RESET, true)]) == s.(host := s.host.(lock := None, outTask := Done))
  {
    ReleaseOpen(s);
    RunClose(s);
  }

  lemma ReleaseOpen(s: State)
    requires IsReachable(s) && s.up && s.Attached() && s.host.lock == Some(Outward) && s.host.inTask.Live?
    ensures CanHostClose(s, ALL_RESET, true)
    ensures DoHostClose(s, ALL_RESET, true) == s.(host := s.host.(lock := None, outTask := Done))
  {
    hide Announcements;
    ClosedOnce(s);
    CloseTurns(s);
    assert s.host.log + [] == s.host.log;
    hide Step, Enabled, Hangup;
  }

  lemma RunClose(s: State)
    requires CanHostClose(s, ALL_RESET, true)
    ensures Run(s, [HostClose(ALL_RESET, true)]) == DoHostClose(s, ALL_RESET, true)
  {
    hide DoHostClose, CanHostClose;
    RunOne(s, HostClose(ALL_RESET, true));
  }

  /** The status task notices that nobody needs it any more. */
  lemma StatusEnds(s: State)
    requires CanHostStatusEnd(s)
    ensures Run(s, [HostStatusEnd]) == s.(host := s.host.(statusLive := false))
  {
    RunOne(s, HostStatusEnd);
  }

  /** Both applications drop their senders: both ends of the stream are read, the two announcements are
      the count and CLOSE, and the host can start again. */
  lemma Finish(s: State, c: nat) returns (actions: seq<Action>)
    requires IsReachable(s) && OutOpen(s, c) && InOpen(s, c)
    requires s.host.lock.None? && s.host.log == [] && s.host.statusLive && s.dev.mps == Some(s.mps)
    ensures var s' := Run(s, actions);
            && Ready(s') && SameSizes(s, s') && c + 1 == |s'.conns| && s'.dev.inTask.Vacant?
            && Exchanged(s'.conns[c], s.conns[c].out.accepted, s.conns[c].inn.accepted)
            && s'.host.log == [CloseSendRequest(Total(s.conns[c].out.accepted) % TWO_TO_THE_64), CloseRequest]
  {
    hide SystemInv, Run, CanDo, Do, OutwardFits, InwardFits, Total;
    OutContext(s, c);
    var out := DropCloses(s, c);
    var s1 := Run(s, out);
    var free := [HostClose(ALL_RESET, true)];
    Release(s1);
    var s2 := Run(s1, free);
    ReachableRun(s1, free);
    ReachableInv(s2);
    var back := DropClosesBack(s2, c);
    var s3 := Run(s2, back);
    StatusEnds(s3);
    ReachableRun(s3, [HostStatusEnd]);
    RunMore(s, out, free);
    RunMore(s, out + free, back);
    RunMore(s, out + free + back, [HostStatusEnd]);
    actions := out + free + back + [HostStatusEnd];
  }

  // ------------------------------------------------------- earlier connections

  /** Nothing is left to read. */
  predicate Quiet(k: Conn) {
    k.out.inbox == [] && k.inn.inbox == []
  }

  /** A connection with nothing left to read stays as it is, but that an end of stream may be read. */
  predicate Kept(k: Conn, k': Conn) {
    Quiet(k) ==>
      && Quiet(k') && k'.out.accepted == k.out.accepted && k'.out.delivered == k.out.delivered
      && k'.inn.accepted == k.inn.accepted && k'.inn.delivered == k.inn.delivered
      && (k.out.eof ==> k'.out.eof) && (k.inn.eof ==> k'.inn.eof)
  }

  predicate AllKept(conns: seq<Conn>, conns': seq<Conn>) {
    |conns| <= |conns'| && forall c :: 0 <= c < |conns| ==> Kept(conns[c], conns'[c])
  }

  lemma MoreSending(s: State, a: Action)
    requires CanDo(s, a) && IsSending(a)
    ensures |Do(s, a).conns| == |s.conns|
  {
    hide Recv, PacketizeAll;
  }

  lemma MoreHosting(s: State, a: Action)
    requires CanDo(s, a) && IsHosting(a)
    ensures |Do(s, a).conns| >= |s.conns|
  {
    hide TasksGoOn, DoHostArrive, DoHostInStop, DoHostStatus, DoHostMark, DoHostClose;
    if !a.HostCrash? {
      TasksHosting(s, a);
    }
  }

  lemma MoreResetting(s: State, a: Action)
    requires CanDo(s, a) && (IsResetting(a) || IsConnecting(a))
    ensures |Do(s, a).conns| >= |s.conns|
  {
    hide Step, Enabled, Hangup, HostSendLimit, EncodeHost;
    if a.ConnectClose? && a.served {
      HangupCount(s.(host := s.host.(phase := Phase.Reset)), Step(s.dev, Close(a.reset), true).control);
    }
  }

  lemma MoreConns(s: State, a: Action)
    requires CanDo(s, a)
    ensures |Do(s, a).conns| >= |s.conns|
  {
    hide CanDo, Do;
    if IsSending(a) {
      MoreSending(s, a);
    } else if IsHosting(a) {
      MoreHosting(s, a);
    } else if IsResetting(a) || IsConnecting(a) {
      MoreResetting(s, a);
    } else if IsMoving(a) {
      CountMoving(s, a);
    } else {
      CountLooping(s, a);
    }
  }

  lemma OwnKept(s: State, a: Action, c: nat)
    requires CanDo(s, a) && (a.Receive? || a.DropSender? || a.DropReceiver?) && a.c == c
    ensures c < |Do(s, a).conns| && Kept(s.conns[c], Do(s, a).conns[c])
  {
  }

  lemma OldKept(s: State, a: Action, c: nat)
    requires IsReachable(s) && CanDo(s, a) && c + 1 < |s.conns|
    ensures c + 1 < |Do(s, a).conns| && Kept(s.conns[c], Do(s, a).conns[c])
  {
    hide CanDo, Do, OnlyRead, Kept;
    OldConnectionsFrozen(s, a, c);
    MoreConns(s, a);
    if Do(s, a).conns[c] == s.conns[c] {
      KeptSame(s.conns[c]);
    } else {
      OwnKept(s, a, c);
    }
  }

  lemma KeptSame(k: Conn)
    ensures Kept(k, k)
  {
  }

  lemma KeptTrans(a: Conn, b: Conn, d: Conn)
    requires Kept(a, b) && Kept(b, d)
    ensures Kept(a, d)
  {
  }

  /** Whatever happens, a connection that is not the newest keeps what it has delivered. */
  lemma {:induction false} OldKeptRun(s: State, actions: seq<Action>, c: nat)
    requires IsReachable(s) && c + 1 < |s.conns|
    ensures c + 1 < |Run(s, actions).conns| && Kept(s.conns[c], Run(s, actions).conns[c])
    decreases |actions|
  {
    hide CanDo, Do, Kept;
    if actions == [] {
      KeptSame(s.conns[c]);
    } else if CanDo(s, actions[0]) {
      var s1 := Do(s, actions[0]);
      OldKept(s, actions[0], c);
      RunOne(s, actions[0]);
      ReachableRun(s, [actions[0]]);
      OldKeptRun(s1, actions[1..], c);
      KeptTrans(s.conns[c], s1.conns[c], Run(s1, actions[1..]).conns[c]);
    } else {
      OldKeptRun(s, actions[1..], c);
    }
  }

  lemma AllKeptRun(s: State, conns: seq<Conn>, actions: seq<Action>)
    requires IsReachable(s) && |s.conns| == |conns| + 1 && s.conns[..|conns|] == conns
    ensures AllKept(conns, Run(s, actions).conns)
  {
    hide Run, Kept;
    if conns != [] {
      OldKeptRun(s, actions, |conns| - 1);
    }
    forall c | 0 <= c < |conns|
      ensures Kept(conns[c], Run(s, actions).conns[c])
    {
      OldKeptRun(s, actions, c);
      assert s.conns[..|conns|][c] == s.conns[c];
    }
  }

  lemma AllKeptSame(conns: seq<Conn>)
    ensures AllKept(conns, conns)
  {
  }

  lemma AllKeptTrans(a: seq<Conn>, b: seq<Conn>, d: seq<Conn>)
    requires AllKept(a, b) && AllKept(b, d)
    ensures AllKept(a, d)
  {
    hide Kept;
    forall c | 0 <= c < |a|
      ensures Kept(a[c], d[c])
    {
      KeptTrans(a[c], b[c], d[c]);
    }
  }

  lemma ExchangedKept(k: Conn, k': Conn, there: seq<Bytes>, back: seq<Bytes>)
    requires Exchanged(k, there, back) && Kept(k, k')
    ensures Exchanged(k', there, back)
  {
  }

  // ----------------------------------------------------------- whole connections

  /** A whole connection: from any state in which the host can start and the device is ready, for any
      packets within the limits, some run opens a new connection, delivers exactly these packets in
      both directions and the ends of both streams, announces the number of bytes, closes, and
      leaves the host able to start again. */
  lemma Session(s: State, j: Job) returns (actions: seq<Action>)
    requires Ready(s) && JobOk(j, s.hostUsize, s.dev.usize)
    ensures var s' := Run(s, actions);
            && Ready(s') && SameSizes(s, s') && |s'.conns| == |s.conns| + 1 && s'.dev.inTask.Vacant?
            && Exchanged(s'.conns[|s.conns|], j.there, j.back)
            && (s.dev.inTask.Vacant? ==> AllKept(s.conns, s'.conns))
            && s'.host.log == [CloseSendRequest(Total(j.there) % TWO_TO_THE_64), CloseRequest]
  {
    hide SystemInv, Run, CanDo, Do, OutwardFits, InwardFits, Total, Exchanged, JobOk, AllKept, Connecting;
    PlanFits(s, j);
    var s1 := Run(s, Connecting(j.plan));
    var serve := Serve(s, j);
    SessionSizes(s, Run(s1, serve));
    var finish := Finish(Run(s1, serve), |s.conns|);
    RunMore(s1, serve, finish);
    RunMore(s, Connecting(j.plan), serve + finish);
    actions := Connecting(j.plan) + (serve + finish);
    if s.dev.inTask.Vacant? {
      AllKeptRun(s1, s.conns, serve + finish);
    }
  }

  lemma PlanFits(s: State, j: Job)
    requires Ready(s) && JobOk(j, s.hostUsize, s.dev.usize)
    ensures PlanOk(s, j.plan)
    ensures var s' := Run(s, Connecting(j.plan));
            && IsReachable(s') && |s'.conns| == |s.conns| + 1
            && (s.dev.inTask.Vacant? ==> s'.conns[..|s.conns|] == s.conns)
  {
    hide Run, SystemInv;
    Connects(s, j.plan);
  }

  lemma SessionSizes(s: State, s': State)
    requires CanStart(s) && SameSizes(s, s')
    ensures s'.dev.mps == Some(s'.mps)
  {
  }

  /** Where a host that gives up, or dies, leaves things. */
  function GivingUp(s: State): seq<Action> {
    if CanClaim(s) then [] else if s.host.phase == Running then [HostCrash] else [ConnectAbort]
  }

  lemma GivesUp(s: State)
    requires IsReachable(s) && s.up && s.dev.mps == Some(s.mps)
    ensures var s' := Run(s, GivingUp(s)); Ready(s') && SameSizes(s, s') && |s'.conns| == |s.conns|
  {
    ReachableRun(s, GivingUp(s));
    hide Turns, Enabled, Step, SystemInv;
    if s.host.phase == Running {
      ReachableNewest(s);
      if !CanClaim(s) {
        RunOne(s, HostCrash);
      }
    } else if s.host.phase != Idle {
      RunOne(s, ConnectAbort);
    }
    hide Run, CanDo, Do;
  }

  /** Whatever state a run leads to, as long as the device's loop turns: a host that gives up what it is
      doing, however abruptly, can carry the next connection in full. */
  lemma Recovers(s: State, j: Job) returns (actions: seq<Action>)
    requires IsReachable(s) && s.up && s.dev.mps == Some(s.mps) && JobOk(j, s.hostUsize, s.dev.usize)
    ensures var s' := Run(s, actions);
            && Ready(s') && |s'.conns| == |s.conns| + 1 && Exchanged(s'.conns[|s.conns|], j.there, j.back)
  {
    hide Run, Exchanged, JobOk, AllKept, CanStart;
    GivesUp(s);
    var session := Session(Run(s, GivingUp(s)), j);
    RunMore(s, GivingUp(s), session);
    actions := GivingUp(s) + session;
  }

  predicate JobsOk(jobs: seq<Job>, hostUsize: nat, usize: nat) {
    forall i :: 0 <= i < |jobs| ==> JobOk(jobs[i], hostUsize, usize)
  }

  /** The connections from `c` on have carried the jobs. */
  predicate AllExchanged(conns: seq<Conn>, c: nat, jobs: seq<Job>) {
    && |conns| == c + |jobs|
    && forall i :: 0 <= i < |jobs| ==> Exchanged(conns[c + i], jobs[i].there, jobs[i].back)
  }

  lemma FirstExchanged(conns: seq<Conn>, conns': seq<Conn>, c: nat, jobs: seq<Job>)
    requires jobs != [] && |conns| == c + 1 && Exchanged(conns[c], jobs[0].there, jobs[0].back)
    requires AllKept(conns, conns') && AllExchanged(conns', c + 1, jobs[1..])
    ensures AllExchanged(conns', c, jobs)
  {
    hide Exchanged, Kept;
    ExchangedKept(conns[c], conns'[c], jobs[0].there, jobs[0].back);
    forall i | 0 <= i < |jobs|
      ensures Exchanged(conns'[c + i], jobs[i].there, jobs[i].back)
    {
      if i > 0 {
        assert jobs[1..][i - 1] == jobs[i];
        assert Exchanged(conns'[c + 1 + (i - 1)], jobs[1..][i - 1].there, jobs[1..][i - 1].back);
      }
    }
  }

  /** Any number of connections, one after another, each with its own limits and packets: some run carries
      them all, and nothing of one is lost or shows up in another. */
  lemma {:induction false} Sessions(s: State, jobs: seq<Job>) returns (actions: seq<Action>)
    requires Ready(s) && s.dev.inTask.Vacant? && JobsOk(jobs, s.hostUsize, s.dev.usize)
    ensures var s' := Run(s, actions);
            && Ready(s') && AllExchanged(s'.conns, |s.conns|, jobs) && AllKept(s.conns, s'.conns)
    decreases |jobs|
  {
    hide Run, Exchanged, Kept, JobOk, CanStart;
    if jobs == [] {
      actions := [];
      NothingRuns(s);
      AllKeptSame(s.conns);
    } else {
      var first := Session(s, jobs[0]);
      var s1 := Run(s, first);
      var rest := Sessions(s1, jobs[1..]);
      RunMore(s, first, rest);
      actions := first + rest;
      FirstExchanged(s1.conns, Run(s1, rest).conns, |s.conns|, jobs);
      AllKeptTrans(s.conns, s1.conns, Run(s1, rest).conns);
    }
  }

  /** From the start: whatever the packet size and the two usizes, for any list of connections to carry
      some run carries exactly these. */
  lemma Service(mps: nat, hostUsize: nat, usize: nat, jobs: seq<Job>) returns (actions: seq<Action>)
    requires mps > 0 && JobsOk(jobs, hostUsize, usize)
    ensures var s := Run(Start(mps, hostUsize, usize), actions);
            && Ready(s) && AllExchanged(s.conns, 0, jobs)
  {
    hide Run, CanStart, JobOk, Exchanged, AllKept;
    var s0 := Start(mps, hostUsize, usize);
    var enable := [DevOther(Enable(mps))];
    Starts(mps, hostUsize, usize);
    var carry := Sessions(Run(s0, enable), jobs);
    RunMore(s0, enable, carry);
    actions := enable + carry;
  }
}
