/** The DMA buffers of the native host's receive path, from submission to reuse. */
module DmaBuffers {
  const DMA_BUFFERS: nat := 8

  type Id = nat

  /** How often a buffer occurs. */
  function Occurs(x: Id, s: seq<Id>): nat {
    if s == [] then 0 else (if s[0] == x then 1 else 0) + Occurs(x, s[1..])
  }

  lemma {:induction false} OccursConcat(x: Id, a: seq<Id>, b: seq<Id>)
    ensures Occurs(x, a + b) == Occurs(x, a) + Occurs(x, b)
  {
    if a == [] {
      assert a + b == b;
    } else {
      assert (a + b)[1..] == a[1..] + b;
      OccursConcat(x, a[1..], b);
    }
  }

  lemma {:induction false} OccursIn(x: Id, s: seq<Id>)
    ensures x in s <==> Occurs(x, s) > 0
  {
    if s != [] {
      OccursIn(x, s[1..]);
    }
  }

  /** Moving the first element of one sequence behind another. */
  lemma Moved(a: seq<Id>, b: seq<Id>)
    requires a != []
    ensures forall x: Id :: Occurs(x, a[1..]) + Occurs(x, b + [a[0]]) == Occurs(x, a) + Occurs(x, b)
  {
    forall x: Id
      ensures Occurs(x, a[1..]) + Occurs(x, b + [a[0]]) == Occurs(x, a) + Occurs(x, b)
    {
      Appended(b, a[0]);
    }
  }

  lemma Appended(b: seq<Id>, y: Id)
    ensures forall x: Id :: Occurs(x, b + [y]) == Occurs(x, b) + if x == y then 1 else 0
  {
    forall x: Id
      ensures Occurs(x, b + [y]) == Occurs(x, b) + if x == y then 1 else 0
    {
      OccursConcat(x, b, [y]);
    }
  }

  /** How a turn of the receive task ends: a transfer is in the channel; the task was told to stop; the
      transfer failed; the receiver is gone. */
  datatype TurnEnd = Delivered | Interrupted | TransferFailed | ReceiverGone

  class Buffers {
    var pending: seq<Id>        // submitted to the endpoint, oldest first
    var held: seq<Id>           // completed, in the hands of the receive task
    var channel: seq<Id>        // in the queue to the receiver
    var batch: seq<Id>          // taken by the receiver, being read
    var returned: seq<Id>       // in the return channel
    ghost var gone: seq<Id>     // memory adopted by a packet, or freed
    var running: bool           // the receive task is in its loop
    var next: Id                // buffers allocated so far

    ghost function Places(x: Id): nat
      reads this
    {
      Occurs(x, pending) + Occurs(x, held) + Occurs(x, channel) + Occurs(x, batch) + Occurs(x, returned) + Occurs(x, gone)
    }

    /** Every buffer ever allocated is in exactly one place, once. */
    ghost predicate Valid()
      reads this
    {
      && (forall x: Id :: Places(x) == if x < next then 1 else 0)
      && (!running ==> pending == held == returned == [])
    }

    /** Nobody is reading the buffer, or may still read it. */
    ghost predicate Unread(x: Id)
      reads this
    {
      x !in pending && x !in held && x !in channel && x !in batch && x !in gone
    }

    constructor ()
      ensures Valid() && running && |pending| == DMA_BUFFERS && held == channel == batch == returned == []
    {
      running := true;
      pending, held, channel, batch, returned, gone := [], [], [], [], [], [];
      next := 0;
      new;
      for i := 0 to DMA_BUFFERS
        invariant Valid() && running && |pending| == i == next && held == channel == batch == returned == []
      {
        label head:
        Submit(next);
        next := next + 1;
        assert forall x: Id :: Places(x) == old@head(Places(x)) + if x + 1 == next then 1 else 0;
      }
    }

    /** A buffer to submit: a returned one, or a new one if none is back.  It is in no other place. */
    method Obtain() returns (x: Id)
      requires Valid() && running
      modifies this`returned, this`next
      ensures forall y: Id :: Places(y) == if y < next && y != x then 1 else 0
      ensures x < next && old(Unread(x))
      ensures old(returned) != [] ==> x == old(returned)[0] && returned == old(returned)[1..] && next == old(next)
      ensures old(returned) == [] ==> x == old(next) && next == old(next) + 1 && returned == []
    {
      if returned != [] {
        x := returned[0];
        returned := returned[1..];
        assert forall y: Id :: Places(y) == old(Places(y)) - if y == x then 1 else 0;
      } else {
        x := next;
        next := next + 1;
        assert forall y: Id :: Places(y) == old(Places(y));
      }
      assert Places(x) == 0;
      OccursIn(x, pending);
      OccursIn(x, held);
      OccursIn(x, channel);
      OccursIn(x, batch);
      OccursIn(x, gone);
    }

    method Submit(b: Id)
      modifies this`pending
      ensures pending == old(pending) + [b]
      ensures forall x: Id :: Places(x) == old(Places(x)) + if x == b then 1 else 0
    {
      Appended(pending, b);
      pending := pending + [b];
    }

    /** The head of the loop: one more buffer is submitted, which nobody is reading. */
    method SubmitNext() returns (submitted: Id)
      requires Valid() && running
      modifies this`pending, this`returned, this`next
      ensures Valid() && pending == old(pending) + [submitted] && old(Unread(submitted))
      ensures old(returned) != [] ==> submitted == old(returned)[0] && returned == old(returned)[1..] && next == old(next)
      ensures old(returned) == [] ==> submitted == old(next) && next == old(next) + 1 && returned == []
    {
      submitted := Obtain();
      Submit(submitted);
    }

    /** The oldest transfer completes. */
    method Complete()
      requires Valid() && running && pending != [] && held == []
      modifies this`pending, this`held
      ensures Valid() && held == [old(pending)[0]] && pending == old(pending)[1..]
    {
      Moved(pending, held);
      held := held + [pending[0]];
      pending := pending[1..];
      assert forall x: Id :: Places(x) == old(Places(x));
    }

    /** The completed transfer goes to the receiver. */
    method Deliver()
      requires Valid() && |held| == 1
      modifies this`held, this`channel
      ensures Valid() && channel == old(channel) + old(held) && held == []
    {
      Moved(held, channel);
      channel := channel + [held[0]];
      held := held[1..];
      assert forall x: Id :: Places(x) == old(Places(x));
    }

    /** A failed transfer's buffer is freed; one that the channel does not take goes back. */
    method Discard(failed: bool)
      requires Valid() && running && |held| == 1
      modifies this`held, this`gone, this`returned
      ensures Valid() && held == []
      ensures gone == (if failed then old(gone) + old(held) else old(gone))
      ensures returned == (if failed then old(returned) else old(returned) + old(held))
    {
      Moved(held, gone);
      Moved(held, returned);
      if failed {
        gone := gone + [held[0]];
      } else {
        returned := returned + [held[0]];
      }
      held := held[1..];
      assert forall x: Id :: Places(x) == old(Places(x));
    }

    /** The receiver takes a completed transfer into its batch. */
    method Take()
      requires Valid() && channel != []
      modifies this`batch, this`channel
      ensures Valid() && batch == old(batch) + [old(channel)[0]] && channel == old(channel)[1..]
    {
      Moved(channel, batch);
      batch := batch + [channel[0]];
      channel := channel[1..];
      assert forall x: Id :: Places(x) == old(Places(x));
    }

    /** The oldest packet of the batch is used up: its memory is adopted, or it is dropped, and then
        the buffer goes back, or is freed if the receive task is gone. */
    method Finish(adopt: bool)
      requires Valid() && batch != []
      modifies this`batch, this`gone, this`returned
      ensures Valid() && batch == old(batch)[1..]
      ensures if adopt || !running then gone == old(gone) + [old(batch)[0]] && returned == old(returned)
              else returned == old(returned) + [old(batch)[0]] && gone == old(gone)
    {
      Moved(batch, gone);
      Moved(batch, returned);
      if adopt || !running {
        gone := gone + [batch[0]];
      } else {
        returned := returned + [batch[0]];
      }
      batch := batch[1..];
      assert forall x: Id :: Places(x) == old(Places(x));
    }

    /** What the receiver does while the task waits: any number of buffers change hands. */
    method Receiver(steps: nat)
      requires Valid()
      modifies this`channel, this`batch, this`gone, this`returned
      ensures Valid()
    {
      for i := 0 to steps
        invariant Valid()
      {
        var take, adopt := *, *;
        if take && channel != [] {
          Take();
        } else if batch != [] {
          Finish(adopt);
        }
      }
    }

    /** One turn of the loop, with the receiver at work at both awaits.  Whatever happens, each buffer
        is in one place and the one submitted was read by nobody; as many are pending as before
        if the loop goes on, and none if it ends. */
    method Turn(during: nat, after: nat, interrupted: bool, failed: bool, closed: bool) returns (submitted: Id, end: TurnEnd)
      requires Valid() && running && |pending| == DMA_BUFFERS && held == []
      modifies this
      ensures Valid() && held == [] && old(Unread(submitted))
      ensures end.Delivered? ==> running && pending == old(pending)[1..] + [submitted]
      ensures !end.Delivered? ==> !running
      ensures end == if interrupted then Interrupted else if failed then TransferFailed
                     else if closed then ReceiverGone else Delivered
    {
      submitted := SubmitNext();
      Receiver(during);
      if interrupted {
        end := Interrupted;
      } else {
        Complete();
        if failed {
          Discard(true);
          end := TransferFailed;
        } else {
          Receiver(after);
          if closed {
            Discard(false);
            end := ReceiverGone;
          } else {
            Deliver();
            return submitted, Delivered;
          }
        }
      }
      Stop();
    }

    /** The receive task ends: what is pending or returned is freed; what the receiver still has
        stays readable. */
    method Stop()
      requires Valid() && held == []
      modifies this`gone, this`pending, this`returned, this`running
      ensures Valid() && !running
      ensures gone == old(gone) + old(pending) + old(returned)
    {
      forall x: Id
        ensures Occurs(x, gone + pending + returned) == Occurs(x, gone) + Occurs(x, pending) + Occurs(x, returned)
      {
        OccursConcat(x, gone, pending);
        OccursConcat(x, gone + pending, returned);
      }
      gone := gone + pending + returned;
      pending, returned, running := [], [], false;
      assert forall x: Id :: Places(x) == old(Places(x));
    }
  }
}
