/** The device's receive task, and what its byte count can and cannot tell. */
module Drain {
  import opened Prelude
  import opened Framing
  import opened Pipeline
  import opened Flow

  /** What the task's `select!`s may find ready. */
  datatype Ready = QueueHasRoom | QueueGone | DataReady | NoData | Failure | Count(n: nat)

  datatype Verdict = Pending | Finished(hostClosed: bool) | Failed

  /** The task: completed transfers at the endpoint, oldest first; the channel to the receiver; the
      u64 counter; the watch CLOSE_SEND writes to. */
  datatype Task = Task(endpoint: seq<Bytes>, queue: seq<Bytes>, total: nat, close: Option<nat>)

  /** How one turn of the loop ends, and what of the schedule is left. */
  datatype Turn = Again(task: Task, rest: seq<Ready>) | Over(task: Task, verdict: Verdict)

  /** A transfer moves from the endpoint to the queue and is counted. */
  function Moved(s: Task): Task {
    if s.endpoint == [] then s
    else s.(endpoint := s.endpoint[1..], queue := s.queue + [s.endpoint[0]], total := (s.total + |s.endpoint[0]|) % TWO_TO_THE_64)
  }

  /** With room in the queue: data first, then a dropped receiver, then a count. */
  function Receive(s: Task, r: Ready, rest: seq<Ready>): Turn {
    match r
    case DataReady => Again(Moved(s), rest)
    case Failure => Over(s, Failed)
    case QueueGone => Over(s, Finished(false))
    case Count(n) => Again(s.(close := Some(n)), rest)
    case _ => Again(s, rest)
  }

  /** One turn: room in the queue comes first. */
  function OneTurn(s: Task, schedule: seq<Ready>): Turn
    requires schedule != []
  {
    match schedule[0]
    case QueueGone => Over(s, Finished(false))
    case Count(n) => Again(s.(close := Some(n)), schedule[1..])
    case QueueHasRoom => if |schedule| > 1 then Receive(s, schedule[1], schedule[2..]) else Again(s, [])
    case _ => Again(s, schedule[1..])
  }

  /** The loop as a function of its schedule. */
  function Outcome(s: Task, schedule: seq<Ready>): (Task, Verdict)
    decreases |schedule|
  {
    if s.close == Some(s.total) then (s, Finished(true))
    else if schedule == [] then (s, Pending)
    else
      match OneTurn(s, schedule)
      case Again(s', rest) => Outcome(s', rest)
      case Over(s', v) => (s', v)
  }

  /** Every count that the schedule announces is `n`. */
  predicate Announces(schedule: seq<Ready>, n: nat) {
    forall i :: 0 <= i < |schedule| && schedule[i].Count? ==> schedule[i].n == n
  }

  /** The counter is the number of bytes moved; a count that has come is `n`. */
  predicate Counted(s: Task, n: nat) {
    s.total == Total(s.queue) % TWO_TO_THE_64 && (s.close.Some? ==> s.close == Some(n))
  }

  /** Transfers have gone from the endpoint to the queue, in order. */
  predicate Forward(s: Task, s': Task) {
    s'.queue + s'.endpoint == s.queue + s.endpoint && s.queue <= s'.queue
  }

  lemma MovedExact(s: Task, n: nat)
    requires Counted(s, n)
    ensures Counted(Moved(s), n) && Forward(s, Moved(s))
  {
    if s.endpoint != [] {
      TotalLast(s.queue, s.endpoint[0]);
      ModStep(Total(s.queue), |s.endpoint[0]|, TWO_TO_THE_64);
      assert s.queue + s.endpoint == s.queue + [s.endpoint[0]] + s.endpoint[1..];
    }
  }

  lemma TurnExact(s: Task, schedule: seq<Ready>, n: nat)
    requires Counted(s, n) && Announces(schedule, n) && schedule != []
    ensures var turn := OneTurn(s, schedule);
            && Counted(turn.task, n) && Forward(s, turn.task)
            && (turn.Again? ==> |turn.rest| < |schedule| && Announces(turn.rest, n))
            && (turn.Over? ==> turn.task == s && turn.verdict != Finished(true))
  {
    MovedExact(s, n);
  }

  /** Under every schedule: transfers go to the queue in order and none is lost; the counter is the
      number of bytes moved, modulo 2^64; the task reports a close by the host exactly when the
      counter equals the announced count. */
  lemma {:induction false} OutcomeExact(s: Task, schedule: seq<Ready>, n: nat)
    requires Counted(s, n) && Announces(schedule, n)
    ensures var (s', v) := Outcome(s, schedule);
            Counted(s', n) && Forward(s, s') && (v == Finished(true) <==> s'.close == Some(s'.total))
    decreases |schedule|
  {
    hide Counted, Announces, OneTurn;
    if s.close != Some(s.total) && schedule != [] {
      TurnExact(s, schedule, n);
      var turn := OneTurn(s, schedule);
      if turn.Again? {
        OutcomeExact(turn.task, turn.rest, n);
      }
    }
  }

  // -------------------------------------------------------------- why the task ends

  /** The schedule ends with a turn that is complete, so that the next event starts a new one. */
  predicate Aligned(schedule: seq<Ready>)
    decreases |schedule|
  {
    schedule == [] || (
      if schedule[0] == QueueHasRoom then |schedule| > 1 && Aligned(schedule[2..]) else Aligned(schedule[1..]))
  }

  /** What happened in complete turns stays: the rest of the schedule goes on from there. */
  lemma {:induction false} OutcomeContinues(s: Task, a: seq<Ready>, b: seq<Ready>)
    requires Aligned(a) && Outcome(s, a).1 == Pending
    ensures Outcome(s, a + b) == Outcome(Outcome(s, a).0, b)
    decreases |a|
  {
    if a == [] {
      assert a + b == b;
    } else {
      assert (a + b)[0] == a[0] && (a + b)[1..] == a[1..] + b;
      if a[0] == QueueHasRoom {
        assert (a + b)[1] == a[1] && (a + b)[2..] == a[2..] + b;
      }
      var turn := OneTurn(s, a);
      assert OneTurn(s, a + b) == Again(turn.task, turn.rest + b);
      OutcomeContinues(turn.task, turn.rest, b);
    }
  }

  /** A receiver that is dropped ends the task with the verdict that lets the device halt OUT, at
      either await; a failed transfer ends it with an error; the count comes first. */
  lemma EndsAtOnce(s: Task, rest: seq<Ready>)
    ensures var over := s.close == Some(s.total);
            && Outcome(s, [QueueGone] + rest) == (s, Finished(over))
            && Outcome(s, [QueueHasRoom, QueueGone] + rest) == (s, Finished(over))
            && Outcome(s, [QueueHasRoom, Failure] + rest) == (s, if over then Finished(true) else Failed)
  {
    assert ([QueueGone] + rest)[0] == QueueGone;
    assert ([QueueHasRoom, QueueGone] + rest)[1] == QueueGone;
    assert ([QueueHasRoom, Failure] + rest)[1] == Failure;
  }

  /** The same anywhere in a run: whatever complete turns `a` came before without ending the task. */
  lemma EndsAnywhere(s: Task, a: seq<Ready>, rest: seq<Ready>)
    requires Aligned(a) && Outcome(s, a).1 == Pending
    ensures Outcome(s, a + ([QueueGone] + rest)) == (Outcome(s, a).0, Finished(false))
    ensures Outcome(s, a + ([QueueHasRoom, QueueGone] + rest)) == (Outcome(s, a).0, Finished(false))
    ensures Outcome(s, a + ([QueueHasRoom, Failure] + rest)) == (Outcome(s, a).0, Failed)
  {
    OutcomeContinues(s, a, [QueueGone] + rest);
    OutcomeContinues(s, a, [QueueHasRoom, QueueGone] + rest);
    OutcomeContinues(s, a, [QueueHasRoom, Failure] + rest);
    PendingMeans(s, a);
    EndsAtOnce(Outcome(s, a).0, rest);
  }

  lemma {:induction false} PendingMeans(s: Task, schedule: seq<Ready>)
    ensures Outcome(s, schedule).1 == Pending ==> Outcome(s, schedule).0.close != Some(Outcome(s, schedule).0.total)
    decreases |schedule|
  {
    if s.close != Some(s.total) && schedule != [] && OneTurn(s, schedule).Again? {
      PendingMeans(OneTurn(s, schedule).task, OneTurn(s, schedule).rest);
    }
  }

  /** Conversely, the verdict says what happened: the task read the schedule up to a dropped receiver, up
      to a failure at the data await, or to its end. */
  lemma {:induction false} VerdictExact(s: Task, schedule: seq<Ready>) returns (used: nat)
    ensures used <= |schedule|
    ensures var v := Outcome(s, schedule).1;
            && (v == Finished(false) ==> used > 0 && schedule[used - 1] == QueueGone)
            && (v == Failed ==> used > 1 && schedule[used - 1] == Failure && schedule[used - 2] == QueueHasRoom)
            && (v == Pending ==> used == |schedule|)
            && (v != Finished(true) ==> |Outcome(s, schedule).0.queue| <= |s.queue| + used)
    decreases |schedule|
  {
    used := 0;
    if s.close != Some(s.total) && schedule != [] {
      var turn := OneTurn(s, schedule);
      if turn.Again? {
        var n := |schedule| - |turn.rest|;
        assert turn.rest == schedule[n..];
        var more := VerdictExact(turn.task, turn.rest);
        used := n + more;
      } else {
        used := if schedule[0] == QueueGone then 1 else 2;
      }
    }
  }

  /** The receive task in its own form. */
  class InTask {
    var endpoint: seq<Bytes>      // completed transfers, oldest first
    var queue: seq<Bytes>         // the channel to the receiver
    var totalReceived: nat        // a u64
    var close: Option<nat>        // the watch CLOSE_SEND writes to

    ghost function State(): Task
      reads this
    {
      Task(endpoint, queue, totalReceived, close)
    }

    constructor (endpoint: seq<Bytes>, close: Option<nat>)
      ensures State() == Task(endpoint, [], 0, close)
    {
      this.endpoint, queue, totalReceived, this.close := endpoint, [], 0, close;
    }

    /** The loop, under any schedule. */
    method Run(schedule: seq<Ready>) returns (v: Verdict)
      modifies this
      ensures (State(), v) == Outcome(old(State()), schedule)
      ensures v == Finished(true) <==> close == Some(totalReceived)
      ensures v == Finished(false) ==> QueueGone in schedule
      ensures v == Failed ==> Failure in schedule
    {
      ghost var used := VerdictExact(State(), schedule);
      var i := 0;
      assert schedule[i..] == schedule;
      while i < |schedule|
        invariant 0 <= i <= |schedule|
        invariant Outcome(old(State()), schedule) == Outcome(State(), schedule[i..])
      {
        if close == Some(totalReceived) {
          return Finished(true);
        }
        ghost var before, left := State(), schedule[i..];
        // Reserve room in the receive queue.
        var reserved := schedule[i];
        i := i + 1;
        assert left[0] == reserved && left[1..] == schedule[i..];
        if reserved == QueueGone {
          return Finished(false);
        }
        if reserved.Count? {
          close := Some(reserved.n);
        }
        if reserved == QueueHasRoom && i < |schedule| {
          // Receive one transfer, unless the receiver goes away or the count arrives first.
          var received := schedule[i];
          i := i + 1;
          assert left[1] == received && left[2..] == schedule[i..];
          match received {
            case DataReady =>
              if endpoint != [] {
                var data := endpoint[0];
                totalReceived := (totalReceived + |data|) % TWO_TO_THE_64;
                queue := queue + [data];
                endpoint := endpoint[1..];
              }
            case NoData =>
            case QueueHasRoom =>
            case Failure =>
              return Failed;
            case QueueGone =>
              return Finished(false);
            case Count(n) =>
              close := Some(n);
          }
        }
        assert OneTurn(before, left) == Again(State(), schedule[i..]);
      }
      return if close == Some(totalReceived) then Finished(true) else Pending;
    }
  }

  // ------------------------------------------------------------ what is missed

  /** The transfers in which the packets `msgs` reach the device. */
  function Arrivals(msgs: seq<Bytes>, mps: nat, t: nat): seq<Bytes>
    requires Sizes(mps, t)
  {
    CutDone([], FrameAll(msgs, mps), mps, t)
  }

  /** All arrivals together carry exactly the packets, and no partial transfer is left. */
  lemma ArrivalsExact(msgs: seq<Bytes>, mps: nat, t: nat)
    requires Sizes(mps, t)
    ensures JoinDone([], Arrivals(msgs, mps, t), t) == msgs
    ensures JoinRest([], Arrivals(msgs, mps, t), t) == []
    ensures forall i :: 0 <= i < |Arrivals(msgs, mps, t)| ==> |Arrivals(msgs, mps, t)[i]| <= t
    ensures Total(Arrivals(msgs, mps, t)) == Total(msgs)
  {
    var w := FrameAll(msgs, mps);
    FrameAllFits(msgs, mps);
    assert 0 % mps == 0;
    var none: Bytes := [];
    CutJoin([], [], w, mps, t);
    CutBounds([], w, mps, t);
    DeframeFrame(msgs, mps);
    assert none + none == none;
    CutTotal([], w, mps, t);
    FrameAllTotal(msgs, mps);
    assert CutRest([], w, mps, t) == [];
  }

  lemma {:induction false} CutTotal(acc: Bytes, w: seq<Bytes>, mps: nat, t: nat)
    ensures Total(CutDone(acc, w, mps, t)) + |CutRest(acc, w, mps, t)| == |acc| + Total(w)
    decreases |w|
  {
    if w != [] {
      var a := acc + w[0];
      if |w[0]| < mps || |a| >= t {
        CutTotal([], w[1..], mps, t);
        assert CutDone(acc, w, mps, t)[1..] == CutDone([], w[1..], mps, t);
      } else {
        CutTotal(a, w[1..], mps, t);
      }
    }
  }

  /** The packets that the receiver gets if the task stops after `n` arrivals. */
  function Kept(msgs: seq<Bytes>, n: nat, mps: nat, t: nat): seq<Bytes>
    requires Sizes(mps, t) && n <= |Arrivals(msgs, mps, t)|
  {
    JoinDone([], Arrivals(msgs, mps, t)[..n], t)
  }

  /** The counter matches here: as many bytes have been moved as were sent, modulo 2^64. */
  predicate CountReached(msgs: seq<Bytes>, n: nat, mps: nat, t: nat)
    requires Sizes(mps, t)
  {
    && n <= |Arrivals(msgs, mps, t)|
    && Total(Arrivals(msgs, mps, t)[..n]) % TWO_TO_THE_64 == Total(msgs) % TWO_TO_THE_64
  }

  /** Below 2^64 bytes, the count matches only when every payload byte has been moved. */
  lemma CountMeansAll(msgs: seq<Bytes>, n: nat, mps: nat, t: nat)
    requires Sizes(mps, t) && CountReached(msgs, n, mps, t) && Total(msgs) < TWO_TO_THE_64
    ensures var ts := Arrivals(msgs, mps, t); Total(ts[..n]) == Total(msgs) && Total(ts[n..]) == 0
  {
    var ts := Arrivals(msgs, mps, t);
    ArrivalsExact(msgs, mps, t);
    assert ts == ts[..n] + ts[n..];
    TotalConcat(ts[..n], ts[n..]);
  }

  /** Whenever the count is reached, all that is missing is at most one packet whose length is a
      multiple of the transfer size, and empty packets behind it. */
  lemma StopMisses(msgs: seq<Bytes>, n: nat, mps: nat, t: nat)
    requires Sizes(mps, t) && CountReached(msgs, n, mps, t) && Total(msgs) < TWO_TO_THE_64
    ensures var kept := Kept(msgs, n, mps, t);
            && kept <= msgs
            && (|kept| < |msgs| ==> |msgs[|kept|]| % t == 0)
            && (forall i :: |kept| < i < |msgs| ==> msgs[i] == [])
            && |msgs| - |kept| == |Arrivals(msgs, mps, t)| - n
  {
    var ts := Arrivals(msgs, mps, t);
    ArrivalsExact(msgs, mps, t);
    CountMeansAll(msgs, n, mps, t);
    var a, b := ts[..n], ts[n..];
    assert ts == a + b;
    JoinConcat([], a, b, t);
    var r := JoinRest([], a, t);
    assert 0 % t == 0;
    RestIsFull([], a, t);
    JoinEmpty(r, b, t);
    var lost := JoinDone(r, b, t);
    assert msgs == Kept(msgs, n, mps, t) + lost;
    if b == [] {
      assert lost == [];
    }
  }

  /** The transfer that ends the stream ends the last packet. */
  lemma LastJoin(a: seq<Bytes>, e: Bytes, msgs: seq<Bytes>, t: nat)
    requires t > 0 && |e| <= t && JoinDone([], a + [e], t) == msgs && JoinRest([], a + [e], t) == []
    ensures |e| < t && msgs != [] && msgs[|msgs| - 1] == JoinRest([], a, t) + e
  {
    JoinConcat([], a, [e], t);
    FeedOne(Got(JoinDone([], a, t), JoinRest([], a, t)), e, t);
    hide JoinDone, JoinRest;
    assert |JoinRest([], a, t) + e| >= |e|;
  }

  lemma LastLength(r: Bytes, e: Bytes, t: nat)
    requires t > 0 && |r| % t == 0 && |e| < t
    ensures e == [] <==> |r + e| % t == 0
  {
    ModSum(|r|, |e|, t);
    DivUnique(|e|, t, 0, |e|);
  }

  /** The last transfer is empty exactly when the last packet's length is a multiple of `t`. */
  lemma LastArrival(msgs: seq<Bytes>, mps: nat, t: nat)
    requires Sizes(mps, t) && msgs != []
    ensures var ts := Arrivals(msgs, mps, t);
            ts != [] && (ts[|ts| - 1] == [] <==> |msgs[|msgs| - 1]| % t == 0)
  {
    var ts := Arrivals(msgs, mps, t);
    ArrivalsExact(msgs, mps, t);
    if ts == [] {
      assert false;
    }
    hide JoinDone, JoinRest, Arrivals;
    var a, e := ts[..|ts| - 1], ts[|ts| - 1];
    assert ts == a + [e];
    assert 0 % t == 0;
    RestIsFull([], a, t);
    LastJoin(a, e, msgs, t);
    LastLength(JoinRest([], a, t), e, t);
  }

  // ------------------------------------------------------------- where the task stops

  /** The task when the connection opens, and everything the host will send on its way to it. */
  function Opened(msgs: seq<Bytes>, mps: nat, t: nat): Task
    requires Sizes(mps, t)
  {
    Task(Arrivals(msgs, mps, t), [], 0, None)
  }

  /** A schedule of a half-close: the count announced, at any time, is that of CLOSE_SEND. */
  predicate HalfClosed(msgs: seq<Bytes>, schedule: seq<Ready>) {
    Announces(schedule, Total(msgs) % TWO_TO_THE_64)
  }

  /** The task reports the close by the host, having moved `n` transfers. */
  predicate StopsAfter(msgs: seq<Bytes>, schedule: seq<Ready>, n: nat, mps: nat, t: nat)
    requires Sizes(mps, t)
  {
    var (s, v) := Outcome(Opened(msgs, mps, t), schedule);
    v == Finished(true) && |s.queue| == n
  }

  /** What the receiver gets in the end. */
  function Delivered(msgs: seq<Bytes>, schedule: seq<Ready>, mps: nat, t: nat): seq<Bytes>
    requires Sizes(mps, t)
  {
    JoinDone([], Outcome(Opened(msgs, mps, t), schedule).0.queue, t)
  }

  /** The task stops only where the count matches, with exactly the transfers before that. */
  lemma StopsWhereReached(msgs: seq<Bytes>, schedule: seq<Ready>, n: nat, mps: nat, t: nat)
    requires Sizes(mps, t) && HalfClosed(msgs, schedule) && StopsAfter(msgs, schedule, n, mps, t)
    ensures CountReached(msgs, n, mps, t) && Delivered(msgs, schedule, mps, t) == Kept(msgs, n, mps, t)
  {
    var s := Outcome(Opened(msgs, mps, t), schedule).0;
    OutcomeExact(Opened(msgs, mps, t), schedule, Total(msgs) % TWO_TO_THE_64);
    var none: seq<Bytes> := [];
    assert none + Arrivals(msgs, mps, t) == Arrivals(msgs, mps, t);
    assert Arrivals(msgs, mps, t) == s.queue + s.endpoint;
    assert Arrivals(msgs, mps, t)[..n] == s.queue;
  }

  /** `n` transfers are moved, and then the count comes. */
  function LateCount(n: nat, count: nat): seq<Ready> {
    if n == 0 then [Count(count)] else [QueueHasRoom, DataReady] + LateCount(n - 1, count)
  }

  lemma MoveTurn(s: Task, more: seq<Ready>)
    requires s.close.None?
    ensures Outcome(s, [QueueHasRoom, DataReady] + more) == Outcome(Moved(s), more)
  {
    assert ([QueueHasRoom, DataReady] + more)[2..] == more;
  }

  lemma {:induction false} LateCountMoves(s: Task, n: nat, count: nat)
    requires n <= |s.endpoint| && s.close.None? && s.total == Total(s.queue) % TWO_TO_THE_64
    requires Total(s.queue + s.endpoint[..n]) % TWO_TO_THE_64 == count
    ensures Announces(LateCount(n, count), count)
    ensures Outcome(s, LateCount(n, count)) == (Task(s.endpoint[n..], s.queue + s.endpoint[..n], count, Some(count)), Finished(true))
    decreases n
  {
    var schedule := LateCount(n, count);
    if n == 0 {
      assert s.queue + s.endpoint[..0] == s.queue && s.endpoint[0..] == s.endpoint;
      assert schedule[1..] == [];
    } else {
      var s' := Moved(s);
      MoveTurn(s, LateCount(n - 1, count));
      MovedExact(s, count);
      assert s'.queue + s'.endpoint[..n - 1] == s.queue + s.endpoint[..n];
      assert s'.endpoint[n - 1..] == s.endpoint[n..];
      LateCountMoves(s', n - 1, count);
    }
  }

  /** Wherever the count matches, some schedule stops. */
  lemma StopsAnywhere(msgs: seq<Bytes>, n: nat, mps: nat, t: nat) returns (schedule: seq<Ready>)
    requires Sizes(mps, t) && CountReached(msgs, n, mps, t)
    ensures HalfClosed(msgs, schedule) && StopsAfter(msgs, schedule, n, mps, t)
  {
    var ts, none: seq<Bytes> := Arrivals(msgs, mps, t), [];
    assert none + ts[..n] == ts[..n];
    schedule := LateCount(n, Total(msgs) % TWO_TO_THE_64);
    LateCountMoves(Opened(msgs, mps, t), n, Total(msgs) % TWO_TO_THE_64);
  }

  /** The half-close promises that the device drains what is left.  Of fewer than 2^64 bytes, it
      keeps the promise under every schedule if and only if nothing was sent or the last packet's
      length is not a multiple of the transfer size (in particular, is not zero). */
  lemma DrainCompleteExactly(msgs: seq<Bytes>, mps: nat, t: nat)
    requires Sizes(mps, t) && Total(msgs) < TWO_TO_THE_64
    ensures (forall schedule, n :: HalfClosed(msgs, schedule) && StopsAfter(msgs, schedule, n, mps, t) ==>
               Delivered(msgs, schedule, mps, t) == msgs)
       <==> msgs == [] || |msgs[|msgs| - 1]| % t != 0
  {
    forall schedule, n | HalfClosed(msgs, schedule) && StopsAfter(msgs, schedule, n, mps, t)
      ensures msgs == [] || |msgs[|msgs| - 1]| % t != 0 ==> Delivered(msgs, schedule, mps, t) == msgs
    {
      StopsWhereReached(msgs, schedule, n, mps, t);
      StopMisses(msgs, n, mps, t);
      assert 0 % t == 0;
    }
    if msgs != [] && |msgs[|msgs| - 1]| % t == 0 {
      var schedule, n := LosingRun(msgs, mps, t);
    }
  }

  /** If the last packet's length is a multiple of the transfer size, some run loses it: the task
      stops before the last transfer. */
  lemma LosingRun(msgs: seq<Bytes>, mps: nat, t: nat) returns (schedule: seq<Ready>, n: nat)
    requires Sizes(mps, t) && Total(msgs) < TWO_TO_THE_64
    requires msgs != [] && |msgs[|msgs| - 1]| % t == 0
    ensures HalfClosed(msgs, schedule) && StopsAfter(msgs, schedule, n, mps, t)
    ensures Delivered(msgs, schedule, mps, t) == msgs[..|msgs| - 1]
  {
    var ts := Arrivals(msgs, mps, t);
    LastArrival(msgs, mps, t);
    ArrivalsExact(msgs, mps, t);
    n := |ts| - 1;
    assert ts == ts[..n] + [ts[n]];
    TotalLast(ts[..n], ts[n]);
    schedule := StopsAnywhere(msgs, n, mps, t);
    StopsWhereReached(msgs, schedule, n, mps, t);
    StopMisses(msgs, n, mps, t);
  }

  /** The smallest losing run: a packet of exactly one transfer is received, the count comes, and the
      task stops before the terminator.  The packet is never delivered. */
  lemma LostPacketExample(m: Bytes, mps: nat, t: nat)
    requires Sizes(mps, t) && |m| == t < TWO_TO_THE_64
    ensures var schedule := [QueueHasRoom, DataReady, Count(t)];
            && Outcome(Opened([m], mps, t), schedule) == (Task([[]], [m], t, Some(t)), Finished(true))
            && Delivered([m], schedule, mps, t) == []
  {
    ArrivalsExact([m], mps, t);
    var ts := Arrivals([m], mps, t);
    DivUnique(t, t, 1, 0);
    LastArrival([m], mps, t);
    OneTransfer(ts, m, t);
    var none: seq<Bytes> := [];
    assert [m][1..] == none && Total(none) == 0;
    assert JoinDone([], [m], t) == JoinDone([] + m, none, t);
    LostRun(m, t);
  }

  lemma LostRun(m: Bytes, t: nat)
    requires |m| == t < TWO_TO_THE_64 && t > 0
    ensures Outcome(Task([m, []], [], 0, None), [QueueHasRoom, DataReady, Count(t)]) == (Task([[]], [m], t, Some(t)), Finished(true))
  {
    LateCountMoves(Task([m, []], [], 0, None), 1, t);
    var none: seq<Bytes> := [];
    assert none + [m, []][..1] == [m] && [m, []][1..] == [[]];
    assert [m][1..] == none && Total([m]) == t;
    assert LateCount(1, t) == [QueueHasRoom, DataReady] + [Count(t)] == [QueueHasRoom, DataReady, Count(t)];
  }

  /** At 2^64 bytes the count starts again: a task that has received nothing takes the count of
      CLOSE_SEND for its own, and everything is lost. */
  lemma WrappedCountExample(msgs: seq<Bytes>, mps: nat, t: nat)
    requires Sizes(mps, t) && Total(msgs) % TWO_TO_THE_64 == 0
    ensures HalfClosed(msgs, [Count(0)]) && StopsAfter(msgs, [Count(0)], 0, mps, t)
    ensures Delivered(msgs, [Count(0)], mps, t) == []
  {
    var one: seq<Ready> := [Count(0)];
    assert one[1..] == [];
    assert Outcome(Opened(msgs, mps, t), one) == Outcome(Opened(msgs, mps, t).(close := Some(0)), one[1..]);
  }

  lemma OneTransfer(ts: seq<Bytes>, m: Bytes, t: nat)
    requires 0 < t && |m| == t && JoinDone([], ts, t) == [m] && JoinRest([], ts, t) == []
    requires forall i :: 0 <= i < |ts| ==> |ts[i]| <= t
    requires ts != [] && ts[|ts| - 1] == []
    ensures ts == [m, []]
  {
    var a, rest := ts[0], ts[1..];
    var none: Bytes := [];
    assert none + a == a;
    JoinFirst([], ts, t);
    assert [m][0] == m;
    assert JoinDone([], ts, t) == JoinDone(a, rest, t);
    if |rest[0]| < t {
      var more := JoinDone([], rest[1..], t);
      assert [a + rest[0]] + more == [m];
      assert ([a + rest[0]] + more)[0] == a + rest[0] && |more| == 0;
      assert rest[0] == none && a + none == a;
      NothingAfter(rest[1..], t);
      assert rest == [none] + rest[1..];
      assert ts == [a] + rest;
    } else {
      JoinLonger(a + rest[0], rest[1..], t);
      assert false;
    }
  }

  lemma JoinFirst(buf: Bytes, ts: seq<Bytes>, t: nat)
    requires ts != []
    ensures |ts[0]| < t ==> JoinDone(buf, ts, t) != [] && JoinDone(buf, ts, t)[0] == buf + ts[0]
  {
  }

  lemma NothingAfter(ts: seq<Bytes>, t: nat)
    requires 0 < t && JoinDone([], ts, t) == [] && JoinRest([], ts, t) == []
    ensures ts == []
  {
    if ts != [] && |ts[0]| >= t {
      JoinLonger([] + ts[0], ts[1..], t);
    }
  }

  lemma {:induction false} JoinLonger(buf: Bytes, ts: seq<Bytes>, t: nat)
    ensures JoinDone(buf, ts, t) != [] ==> |JoinDone(buf, ts, t)[0]| >= |buf|
    ensures JoinDone(buf, ts, t) == [] ==> |JoinRest(buf, ts, t)| >= |buf|
    decreases |ts|
  {
    if ts != [] && |ts[0]| >= t {
      JoinLonger(buf + ts[0], ts[1..], t);
    }
  }
}
