/** The ping: how often the host asks for the status, and that this is often enough. */
module Liveness {
  import opened Prelude
  import opened Capabilities
  import opened DeviceControl

  /** What the host polls with after decoding the device's answer. */
  function HostInterval(pingInterval: Option<nat>, ping: Option<nat>, maxSize: nat): Option<nat> {
    match DecodeDevice(CapsReply(ping, maxSize))
    case Err => None
    case Ok(c) => StatusInterval(pingInterval, c)
  }

  /** The timeout crosses the wire rounded down, so half of it is at most half the device's. */
  lemma Rounded(ping: nat)
    ensures FromMillis(Millis(Some(ping))).Some? <==> ping >= NANOS_PER_MILLI
    ensures ping >= NANOS_PER_MILLI ==> FromMillis(Millis(Some(ping))).value <= ping
  {
    var m := ping / NANOS_PER_MILLI;
    assert ping == NANOS_PER_MILLI * m + ping % NANOS_PER_MILLI;
    assert m >= 1 <==> ping >= NANOS_PER_MILLI;
    assert Millis(Some(ping)) == Min(m, TWO_TO_THE_32 - 1);
    if m >= TWO_TO_THE_32 {
      assert (TWO_TO_THE_32 - 1) * NANOS_PER_MILLI <= m * NANOS_PER_MILLI;
    }
  }

  /** Every host, whatever ping interval it was given or none, polls at most half the device's
      timeout apart if and only if that timeout is at least one millisecond: a shorter one is
      encoded as "no timeout", although the device goes on enforcing it. */
  lemma PollsOftenEnoughExactly(ping: nat, maxSize: nat)
    requires maxSize < TWO_TO_THE_64
    ensures (forall pingInterval: Option<nat> ::
               var i := HostInterval(pingInterval, Some(ping), maxSize); i.Some? && i.value <= ping / 2)
       <==> ping >= NANOS_PER_MILLI
  {
    var c := DeviceCaps(Some(ping), true, true, maxSize);
    DeviceRoundTrip(c);
    Rounded(ping);
    forall pingInterval: Option<nat>
      ensures HostInterval(pingInterval, Some(ping), maxSize) == StatusInterval(pingInterval, Normalise(c))
    {
    }
    if ping < NANOS_PER_MILLI {
      assert HostInterval(None, Some(ping), maxSize).None?;
    }
  }

  /** The host polls as often as it was asked to and as it has to, and no more often than both: not at all
      without a need, which is also the case for a device that has no STATUS. */
  lemma IntervalExactly(pingInterval: Option<nat>, c: DeviceCaps)
    ensures var i := StatusInterval(pingInterval, c);
            && (i.Some? <==> c.status && (pingInterval.Some? || c.pingTimeout.Some?))
            && (i.Some? && pingInterval.Some? ==> i.value <= pingInterval.value)
            && (i.Some? && c.pingTimeout.Some? ==> i.value <= c.pingTimeout.value / 2)
            && (i.Some? ==> i == pingInterval || (c.pingTimeout.Some? && i.value == c.pingTimeout.value / 2))
  {
  }

  /** The gap between two STATUS requests as the device sees them: the delay of the first answer,
      the interval, the delay of the second request. */
  lemma GapBelowTimeout(ping: nat, maxSize: nat, pingInterval: Option<nat>, delay: nat)
    requires maxSize < TWO_TO_THE_64 && ping >= NANOS_PER_MILLI && 2 * delay < ping
    ensures var i := HostInterval(pingInterval, Some(ping), maxSize);
            i.Some? && i.value + delay < ping
  {
    PollsOftenEnoughExactly(ping, maxSize);
    assert HostInterval(pingInterval, Some(ping), maxSize).Some?;
  }

  // ------------------------------------------------------------------- runs

  /** Inputs of the loop between two STATUS requests: no OPEN, no query that changes the timeout, and
      timers no later than the next request. */
  predicate Between(inputs: seq<Input>, next: nat, ping: nat) {
    forall i :: 0 <= i < |inputs| ==>
      var e := inputs[i].event;
      !e.Open? && !e.GetStatus? && (e.GetCaps? ==> e.cfgPing == Some(ping)) && (e.Timer? ==> e.now <= next)
  }

  function WithoutTimers(inputs: seq<Input>): seq<Input> {
    if inputs == [] then []
    else (if inputs[0].event.Timer? then [] else [inputs[0]]) + WithoutTimers(inputs[1..])
  }

  /** The timer is set for `last + ping`, as long as the connection is open. */
  predicate TimerSet(c: Control, last: nat, ping: nat) {
    Inv(c) && c.pingTimeout == Some(ping) && DeadlineInv(c, last)
  }

  /** Until the next request comes in time, the timer does nothing. */
  lemma {:induction false} TimerSilent(c: Control, last: nat, ping: nat, inputs: seq<Input>, next: nat)
    requires TimerSet(c, last, ping) && Between(inputs, next, ping) && next < last + ping
    ensures RunFrom(c, inputs) == RunFrom(c, WithoutTimers(inputs))
    ensures RunFrom(c, inputs).Next? ==> TimerSet(RunFrom(c, inputs).control, last, ping)
    decreases |inputs|
  {
    if inputs != [] {
      var e, ok := inputs[0].event, inputs[0].ok;
      var rest := inputs[1..];
      assert Between(rest, next, ping);
      if e.Timer? {
        assert !Enabled(c, e);
        TimerSilent(c, last, ping, rest, next);
        assert WithoutTimers(inputs) == WithoutTimers(rest);
      } else {
        var kept := WithoutTimers(inputs);
        assert kept == [inputs[0]] + WithoutTimers(rest) && kept[1..] == WithoutTimers(rest);
        if !Enabled(c, e) {
          TimerSilent(c, last, ping, rest, next);
        } else if Step(c, e, ok).Next? {
          KeepsTimer(c, e, ok, last, ping);
          TimerSilent(Step(c, e, ok).control, last, ping, rest, next);
        }
      }
    }
  }

  lemma KeepsTimer(c: Control, e: Event, ok: bool, last: nat, ping: nat)
    requires TimerSet(c, last, ping) && Enabled(c, e) && Step(c, e, ok).Next?
    requires !e.Open? && !e.GetStatus? && (e.GetCaps? ==> e.cfgPing == Some(ping))
    ensures TimerSet(Step(c, e, ok).control, last, ping)
  {
    InvStep(c, e, ok);
    DeadlineExactly(c, e, ok, last);
  }

  /** A poll: what happens before it, and the delays around it. */
  datatype Poll = Poll(before: seq<Input>, answer: nat, request: nat)

  /** When the next STATUS request reaches the device. */
  function Arrival(last: nat, p: Poll, interval: nat): nat {
    last + p.answer + interval + p.request
  }

  function PollInputs(last: nat, polls: seq<Poll>, interval: nat, timers: bool): seq<Input>
    decreases |polls|
  {
    if polls == [] then []
    else
      var next := Arrival(last, polls[0], interval);
      var before := polls[0].before;
      (if timers then before else WithoutTimers(before)) + ([Input(GetStatus(next), true)]
        + PollInputs(next, polls[1..], interval, timers))
  }

  predicate Timely(last: nat, polls: seq<Poll>, interval: nat, ping: nat)
    decreases |polls|
  {
    polls == [] || (
      var next := Arrival(last, polls[0], interval);
      2 * (polls[0].answer + polls[0].request) < ping && Between(polls[0].before, next, ping)
      && Timely(next, polls[1..], interval, ping))
  }

  /** The device never gives up a host that polls: as long as the two delays around an interval
      stay below half the timeout, a run in which the timer strikes wherever it likes is the same
      run without timer, for any other requests, data and half-closes in between. */
  lemma {:induction false} NeverTimesOut(c: Control, last: nat, ping: nat, maxSize: nat, pingInterval: Option<nat>, polls: seq<Poll>)
    requires maxSize < TWO_TO_THE_64 && ping >= NANOS_PER_MILLI
    requires HostInterval(pingInterval, Some(ping), maxSize).Some?
    requires Timely(last, polls, HostInterval(pingInterval, Some(ping), maxSize).value, ping)
    requires TimerSet(c, last, ping)
    ensures var i := HostInterval(pingInterval, Some(ping), maxSize).value;
            RunFrom(c, PollInputs(last, polls, i, true)) == RunFrom(c, PollInputs(last, polls, i, false))
    decreases |polls|
  {
    if polls != [] {
      var i := HostInterval(pingInterval, Some(ping), maxSize).value;
      var p, rest := polls[0], polls[1..];
      var next := Arrival(last, p, i);
      GapBelowTimeout(ping, maxSize, pingInterval, p.answer + p.request);
      TimerSilent(c, last, ping, p.before, next);
      var status := [Input(GetStatus(next), true)];
      var more, fewer := PollInputs(next, rest, i, true), PollInputs(next, rest, i, false);
      RunConcat(c, p.before, status + more);
      RunConcat(c, WithoutTimers(p.before), status + fewer);
      var r := RunFrom(c, p.before);
      if r.Next? {
        var d := Step(r.control, GetStatus(next), true).control;
        StatusSets(r.control, last, next, ping);
        RunCons(r.control, status[0], more, d);
        RunCons(r.control, status[0], fewer, d);
        NeverTimesOut(d, next, ping, maxSize, pingInterval, rest);
      }
    }
  }

  lemma StatusSets(c: Control, last: nat, now: nat, ping: nat)
    requires TimerSet(c, last, ping)
    ensures Step(c, GetStatus(now), true).Next? && TimerSet(Step(c, GetStatus(now), true).control, now, ping)
  {
    InvStep(c, GetStatus(now), true);
    DeadlineExactly(c, GetStatus(now), true, last);
  }

  /** OPEN sets the timer for the first time, in every set-up. */
  lemma OpenSets(c: Control, r: Reset, ping: nat, maxSize: nat, caps: Bytes, topic: Bytes, now: nat,
                 gaps: (seq<Input>, seq<Input>, seq<Input>))
    requires Inv(c) && c.mps.Some? && GapsInternal(gaps)
    ensures var o := RunFrom(c, Setup(r, Some(ping), maxSize, caps, topic, now, gaps));
            o.Next? && o.control.Open() && TimerSet(o.control, now, ping)
  {
    hide RunFrom, Setup, Step, HostCapsIn;
    SetupRuns(c, r, Some(ping), maxSize, caps, topic, now, gaps);
    InvRun(c, Setup(r, Some(ping), maxSize, caps, topic, now, gaps));
  }
}
