/** The in-use guard of the web host: one connection at a time for a device handle and interface. */
module Guard {

  datatype Key = Key(handle: nat, interface: nat)

  /** The parts of a connection attempt that hold a clone of its guard. */
  datatype Holder = Connector | StatusTask | InTask | OutTask

  /** A guard: its key, and who holds it. */
  datatype Guarded = Guarded(key: Key, holders: set<Holder>)

  /** What a device can see of guards: an attempt gets past its guard, before it sends anything; a
      CLOSE is sent on behalf of an attempt. */
  datatype Mark = Passed(g: nat) | Closed(g: nat)

  /** The registered keys, every guard ever created, and what happened in which order. */
  datatype Registry = Registry(inUse: set<Key>, guards: seq<Guarded>, log: seq<Mark>)

  datatype Step = New(key: Key) | Spawn(g: nat, h: Holder) | Close(g: nat, h: Holder) | Drop(g: nat, h: Holder)

  predicate Holds(r: Registry, g: nat, h: Holder) {
    g < |r.guards| && h in r.guards[g].holders
  }

  /** `InUseGuard::new` fails while the key is registered; a clone is made only by the connector; a
      CLOSE is sent only by a holder, for a task sends its requests before it lets go; the last clone
      to go takes the key out. */
  function Apply(r: Registry, s: Step): Registry {
    match s
    case New(key) =>
      if key in r.inUse then r
      else Registry(r.inUse + {key}, r.guards + [Guarded(key, {Connector})], r.log + [Passed(|r.guards|)])
    case Spawn(g, h) =>
      if Holds(r, g, Connector) then
        r.(guards := r.guards[g := r.guards[g].(holders := r.guards[g].holders + {h})])
      else r
    case Close(g, h) =>
      if Holds(r, g, h) then r.(log := r.log + [Closed(g)]) else r
    case Drop(g, h) =>
      if Holds(r, g, h) then
        var rest := r.guards[g].holders - {h};
        r.(inUse := if rest == {} then r.inUse - {r.guards[g].key} else r.inUse,
           guards := r.guards[g := r.guards[g].(holders := rest)])
      else r
  }

  function ApplyAll(r: Registry, ss: seq<Step>): Registry
    decreases |ss|
  {
    if ss == [] then r else ApplyAll(Apply(r, ss[0]), ss[1..])
  }

  const EMPTY := Registry({}, [], [])

  /** Nobody holds a guard for the key. */
  predicate Free(r: Registry, key: Key) {
    forall g :: 0 <= g < |r.guards| && r.guards[g].key == key ==> r.guards[g].holders == {}
  }

  /** A key is registered exactly while some guard for it is held, and by one guard only. */
  predicate GuardInv(r: Registry) {
    && (forall k :: k in r.inUse ==> exists g :: 0 <= g < |r.guards| && r.guards[g].key == k && r.guards[g].holders != {})
    && (forall g :: 0 <= g < |r.guards| && r.guards[g].holders != {} ==> r.guards[g].key in r.inUse)
    && (forall g, h :: 0 <= g < h < |r.guards| && r.guards[g].key == r.guards[h].key ==> r.guards[g].holders == {})
  }

  lemma GuardNew(r: Registry, key: Key)
    requires GuardInv(r) && key !in r.inUse
    ensures GuardInv(Apply(r, New(key)))
  {
    var r' := Apply(r, New(key));
    forall k | k in r'.inUse
      ensures exists g :: 0 <= g < |r'.guards| && r'.guards[g].key == k && r'.guards[g].holders != {}
    {
      if k == key {
        assert r'.guards[|r.guards|].key == k && Connector in r'.guards[|r.guards|].holders;
      } else {
        var g :| 0 <= g < |r.guards| && r.guards[g].key == k && r.guards[g].holders != {};
        assert r'.guards[g] == r.guards[g];
      }
    }
  }

  lemma GuardGone(r: Registry, g: nat, h: Holder)
    requires GuardInv(r) && g < |r.guards| && r.guards[g].holders == {h}
    ensures GuardInv(Apply(r, Drop(g, h)))
  {
    var r' := Apply(r, Drop(g, h));
    forall k | k in r'.inUse
      ensures exists i :: 0 <= i < |r'.guards| && r'.guards[i].key == k && r'.guards[i].holders != {}
    {
      var i :| 0 <= i < |r.guards| && r.guards[i].key == k && r.guards[i].holders != {};
      assert r'.guards[i] == r.guards[i];
    }
  }

  lemma GuardStep(r: Registry, s: Step)
    requires GuardInv(r)
    ensures GuardInv(Apply(r, s))
  {
    hide GuardInv;
    match s {
      case New(key) =>
        if key !in r.inUse {
          GuardNew(r, key);
        }
      case Spawn(g, h) =>
        if Holds(r, g, Connector) {
          SameHeld(r, Apply(r, s), g);
        }
      case Close(g, h) =>
        if Holds(r, g, h) {
          SameGuards(r, Apply(r, s));
        }
      case Drop(g, h) =>
        if Holds(r, g, h) {
          if r.guards[g].holders - {h} == {} {
            assert r.guards[g].holders == {h};
            GuardGone(r, g, h);
          } else {
            SameHeld(r, Apply(r, s), g);
          }
        }
    }
  }

  lemma SameGuards(r: Registry, r': Registry)
    requires GuardInv(r) && r' == r.(log := r'.log)
    ensures GuardInv(r')
  {
    assert r'.guards == r.guards && r'.inUse == r.inUse;
  }

  lemma SameHeld(r: Registry, r': Registry, g: nat)
    requires GuardInv(r) && g < |r.guards| && r'.inUse == r.inUse
    requires |r'.guards| == |r.guards| && r.guards[g].holders != {} && r'.guards == r.guards[g := r'.guards[g]]
    requires r'.guards[g].key == r.guards[g].key && r'.guards[g].holders != {}
    ensures GuardInv(r')
  {
    forall k | k in r'.inUse
      ensures exists i :: 0 <= i < |r'.guards| && r'.guards[i].key == k && r'.guards[i].holders != {}
    {
      var i :| 0 <= i < |r.guards| && r.guards[i].key == k && r.guards[i].holders != {};
      assert r'.guards[i].key == k && r'.guards[i].holders != {};
    }
  }

  /** In every run: a key is registered exactly while one guard for it is held. */
  lemma {:induction false} GuardRun(r: Registry, ss: seq<Step>)
    requires GuardInv(r)
    ensures GuardInv(ApplyAll(r, ss))
    decreases |ss|
  {
    if ss != [] {
      GuardStep(r, ss[0]);
      GuardRun(Apply(r, ss[0]), ss[1..]);
    }
  }

  /** Who holds a guard: the connector that made it, and each task it made a clone for, until that
      clone is dropped. */
  lemma HoldsExactly(r: Registry, s: Step, g: nat, h: Holder)
    requires GuardInv(r)
    ensures Holds(Apply(r, s), g, h) <==>
              || (Holds(r, g, h) && s != Drop(g, h))
              || (s == Spawn(g, h) && Holds(r, g, Connector))
              || (s.New? && Free(r, s.key) && g == |r.guards| && h == Connector)
    ensures g < |r.guards| ==> g < |Apply(r, s).guards| && Apply(r, s).guards[g].key == r.guards[g].key
  {
    if s.New? {
      FreeExactly(r, s.key);
    }
  }

  /** A key is free exactly when it is not registered. */
  lemma FreeExactly(r: Registry, key: Key)
    requires GuardInv(r)
    ensures Free(r, key) <==> key !in r.inUse
  {
    if key in r.inUse {
      var g :| 0 <= g < |r.guards| && r.guards[g].key == key && r.guards[g].holders != {};
      assert !Free(r, key);
    }
  }

  /** What is in the log: attempts that got past, and the requests of holders, in order. */
  lemma LogExactly(r: Registry, s: Step)
    requires GuardInv(r)
    ensures Apply(r, s).log == r.log + if s.New? && Free(r, s.key) then [Passed(|r.guards|)]
                                       else if s.Close? && Holds(r, s.g, s.h) then [Closed(s.g)]
                                       else []
  {
    if s.New? {
      FreeExactly(r, s.key);
    }
    assert r.log + [] == r.log;
  }

  /** A clone lasts: over any run in which it is not dropped, its task holds the guard, new attempts at
      the interface are refused, and a CLOSE the task sends is seen. */
  lemma {:induction false} HeldUntilDropped(r: Registry, ss: seq<Step>, g: nat, h: Holder)
    requires GuardInv(r) && Holds(r, g, h) && forall i :: 0 <= i < |ss| ==> ss[i] != Drop(g, h)
    ensures var r' := ApplyAll(r, ss);
            && Holds(r', g, h) && r'.guards[g].key == r.guards[g].key
            && Apply(r', New(r.guards[g].key)) == r'
            && Apply(r', Close(g, h)).log == r'.log + [Closed(g)]
    decreases |ss|
  {
    if ss != [] {
      GuardStep(r, ss[0]);
      HoldsExactly(r, ss[0], g, h);
      HeldUntilDropped(Apply(r, ss[0]), ss[1..], g, h);
    }
  }

  /** In every run: a clone the connector makes for a task counts as much as its own guard. */
  lemma CloneCounts(before: seq<Step>, after: seq<Step>, g: nat, h: Holder)
    requires Holds(ApplyAll(EMPTY, before), g, Connector) && forall i :: 0 <= i < |after| ==> after[i] != Drop(g, h)
    ensures var r := Apply(ApplyAll(EMPTY, before), Spawn(g, h));
            var r' := ApplyAll(r, after);
            && Holds(r', g, h) && r'.guards[g].key == r.guards[g].key
            && Apply(r', New(r.guards[g].key)) == r'
            && Apply(r', Close(g, h)).log == r'.log + [Closed(g)]
  {
    var r := ApplyAll(EMPTY, before);
    GuardRun(EMPTY, before);
    HoldsExactly(r, Spawn(g, h), g, h);
    GuardStep(r, Spawn(g, h));
    HeldUntilDropped(Apply(r, Spawn(g, h)), after, g, h);
  }

  /** A guard that nobody holds any more is never held again: no clone can be made of it. */
  lemma {:induction false} ReleasedForGood(r: Registry, ss: seq<Step>, g: nat)
    requires g < |r.guards| && r.guards[g].holders == {}
    ensures var r' := ApplyAll(r, ss);
            g < |r'.guards| && r'.guards[g] == r.guards[g]
    decreases |ss|
  {
    if ss != [] {
      ReleasedForGood(Apply(r, ss[0]), ss[1..], g);
    }
  }

  /** No CLOSE comes behind the start of a later attempt at the same interface. */
  predicate Ordered(r: Registry) {
    && (forall i :: 0 <= i < |r.log| ==> r.log[i].g < |r.guards|)
    && (forall i, j :: 0 <= i < j < |r.log| && r.log[i].Passed? && r.log[j].Closed? ==>
          (r.guards[r.log[i].g].key == r.guards[r.log[j].g].key ==> r.log[i].g <= r.log[j].g))
  }

  lemma OrderedClose(r: Registry, g: nat, h: Holder)
    requires GuardInv(r) && Ordered(r) && Holds(r, g, h)
    ensures Ordered(Apply(r, Close(g, h)))
  {
    forall i | 0 <= i < |r.log| && r.log[i].Passed? && r.guards[r.log[i].g].key == r.guards[g].key
      ensures r.log[i].g <= g
    {
      // A guard made later for the same key would mean that this one is not held.
      if g < r.log[i].g {
        assert false;
      }
    }
  }

  lemma OrderedStep(r: Registry, s: Step)
    requires GuardInv(r) && Ordered(r)
    ensures Ordered(Apply(r, s))
  {
    if s.Close? && Holds(r, s.g, s.h) {
      OrderedClose(r, s.g, s.h);
    }
  }

  lemma {:induction false} OrderedRun(r: Registry, ss: seq<Step>)
    requires GuardInv(r) && Ordered(r)
    ensures Ordered(ApplyAll(r, ss))
    decreases |ss|
  {
    if ss != [] {
      GuardStep(r, ss[0]);
      OrderedStep(r, ss[0]);
      OrderedRun(Apply(r, ss[0]), ss[1..]);
    }
  }

  /** In every run: after an attempt has got past its guard, and so after its OPEN, no CLOSE of an
      earlier attempt at the same interface is ever sent. */
  lemma NoLateClose(ss: seq<Step>, i: nat, j: nat)
    requires var r := ApplyAll(EMPTY, ss); i < j < |r.log| && r.log[i].Passed? && r.log[j].Closed?
    ensures var r := ApplyAll(EMPTY, ss);
            && r.log[i].g < |r.guards| && r.log[j].g < |r.guards|
            && (r.guards[r.log[i].g].key == r.guards[r.log[j].g].key ==> r.log[i].g <= r.log[j].g)
  {
    OrderedRun(EMPTY, ss);
  }

  /** While a guard is held, nobody else gets past. */
  lemma ExclusiveWhileHeld(ss: seq<Step>, g: nat)
    requires var r := ApplyAll(EMPTY, ss); g < |r.guards| && r.guards[g].holders != {}
    ensures var r := ApplyAll(EMPTY, ss); Apply(r, New(r.guards[g].key)) == r
  {
    GuardRun(EMPTY, ss);
  }

  /** The registry in its own form, a shared set that guards insert into and remove from. */
  class InUse {
    var keys: set<Key>
    ghost var registry: Registry

    ghost predicate Valid()
      reads this
    {
      keys == registry.inUse && GuardInv(registry) && Ordered(registry)
    }

    constructor ()
      ensures Valid() && registry == EMPTY
    {
      keys, registry := {}, EMPTY;
    }

    /** Succeeds if and only if nobody holds a guard for the key. */
    method New(handle: nat, interface: nat) returns (ok: bool)
      requires Valid()
      modifies this
      ensures Valid() && registry == Apply(old(registry), Step.New(Key(handle, interface)))
      ensures ok <==> Free(old(registry), Key(handle, interface))
    {
      var key := Key(handle, interface);
      GuardStep(registry, Step.New(key));
      OrderedStep(registry, Step.New(key));
      ok := key !in keys;
      registry := Apply(registry, Step.New(key));
      if ok {
        keys := keys + {key};
      }
    }

    /** The last clone of guard `g` goes: from now on nobody holds the key. */
    method Drop(handle: nat, interface: nat, ghost g: nat, ghost h: Holder)
      requires Valid() && g < |registry.guards| && registry.guards[g] == Guarded(Key(handle, interface), {h})
      modifies this
      ensures Valid() && registry == Apply(old(registry), Step.Drop(g, h))
      ensures Free(registry, Key(handle, interface))
    {
      GuardStep(registry, Step.Drop(g, h));
      OrderedStep(registry, Step.Drop(g, h));
      registry := Apply(registry, Step.Drop(g, h));
      assert Key(handle, interface) !in registry.inUse;
      keys := keys - {Key(handle, interface)};
    }
  }
}
