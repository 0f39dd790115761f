/** The pool from which the device carves its receive buffers. */
module Pool {
  import opened Prelude
  import opened Framing

  /** A run of bytes of one allocation. */
  datatype Region = Region(alloc: nat, start: nat, size: nat)

  predicate Disjoint(a: Region, b: Region) {
    a.alloc != b.alloc || a.start + a.size <= b.start || b.start + b.size <= a.start
  }

  /** How many chunks one allocation of the pool yields. */
  function PerAllocation(poolSize: nat, chunkSize: nat): nat
    requires chunkSize > 0
  {
    Max(1, poolSize / chunkSize)
  }

  class BytesPool {
    const poolSize: nat
    var alloc: nat               // the current allocation; earlier ones have smaller numbers
    var start: nat               // `buf` is what is left of it: capacity bytes from start
    var capacity: nat
    ghost var chunks: seq<Region>   // everything handed out
    ghost var sizes: seq<nat>       // the capacity of each allocation

    /** What has been handed out lies in its allocation, before what is left of the current one,
        and no two chunks overlap. */
    ghost predicate Valid()
      reads this
    {
      && |sizes| == alloc + 1 && start + capacity == sizes[alloc]
      && (forall i :: 0 <= i < |chunks| ==> chunks[i].alloc <= alloc)
      && (forall i :: 0 <= i < |chunks| ==>
            chunks[i].start + chunks[i].size <= if chunks[i].alloc == alloc then start else sizes[chunks[i].alloc])
      && (forall i, j :: 0 <= i < j < |chunks| ==> Disjoint(chunks[i], chunks[j]))
    }

    constructor (poolSize: nat)
      ensures Valid() && this.poolSize == poolSize && alloc == 0 && start == 0 && capacity == poolSize && chunks == []
    {
      this.poolSize := poolSize;
      alloc, start, capacity := 0, 0, poolSize;
      chunks, sizes := [], [poolSize];
    }

    /** Takes a chunk: from what is left if it is enough, else from a new allocation that is large
        enough.  It overlaps no earlier chunk, and follows the previous one unless a new
        allocation came between. */
    method Chunk(chunkSize: nat) returns (r: Region)
      requires Valid()
      modifies this
      ensures Valid() && chunks == old(chunks) + [r] && r.size == chunkSize
      ensures old(capacity) >= chunkSize ==> alloc == old(alloc) && capacity == old(capacity) - chunkSize
      ensures old(capacity) < chunkSize ==> alloc == old(alloc) + 1 && capacity == Max(poolSize, chunkSize) - chunkSize
      ensures r.alloc == alloc && r.start + r.size == start && start + capacity == sizes[alloc]
      ensures old(capacity) >= chunkSize ==> r.start == old(start)
      ensures forall i :: 0 <= i < |old(chunks)| ==> Disjoint(old(chunks)[i], r)
    {
      if capacity < chunkSize {
        alloc := alloc + 1;
        start, capacity := 0, Max(poolSize, chunkSize);
        sizes := sizes + [capacity];
      }
      // split_off needs the split point to lie within the capacity.
      assert chunkSize <= capacity;
      r := Region(alloc, start, chunkSize);
      start, capacity := start + chunkSize, capacity - chunkSize;
      chunks := chunks + [r];
    }

    /** A run of `n` chunks of one size, as the receive task takes them: all but the chunks that
        follow a new allocation are adjacent to their predecessors, and exactly
        ceil(n / PerAllocation) allocations are used, the initial one counted only if it holds a chunk. */
    method Run(chunkSize: nat, n: nat) returns (rs: seq<Region>)
      requires Valid() && chunkSize > 0 && alloc == 0 && start == 0 && capacity == poolSize && chunks == []
      modifies this
      ensures Valid() && chunks == rs && |rs| == n
      ensures forall i :: 0 <= i < n ==> rs[i].size == chunkSize
      ensures forall i :: 0 < i < n && rs[i].alloc == rs[i - 1].alloc ==> rs[i].start == rs[i - 1].start + chunkSize
      ensures n > 0 ==> Used(poolSize, chunkSize, alloc) * PerAllocation(poolSize, chunkSize) >= n
      ensures n > 0 ==> (Used(poolSize, chunkSize, alloc) - 1) * PerAllocation(poolSize, chunkSize) < n
    {
      rs := [];
      ghost var left := FirstCount(poolSize, chunkSize);
      for i := 0 to n
        invariant Valid() && chunks == rs && |rs| == i
        invariant forall j :: 0 <= j < i ==> rs[j].size == chunkSize
        invariant i > 0 ==> rs[i - 1].alloc == alloc && rs[i - 1].start + chunkSize == start
        invariant forall j :: 0 < j < i && rs[j].alloc == rs[j - 1].alloc ==> rs[j].start == rs[j - 1].start + chunkSize
        invariant CountInv(poolSize, chunkSize, capacity, alloc, i, left)
      {
        ghost var capacity0, alloc0 := capacity, alloc;
        var r := Chunk(chunkSize);
        rs := rs + [r];
        left := CountStep(poolSize, chunkSize, capacity0, alloc0, capacity, alloc, i, left);
      }
      if n > 0 {
        CountEnd(poolSize, chunkSize, capacity, alloc, n, left);
      }
    }
  }

  /** The allocations that hold chunks. */
  function Used(poolSize: nat, chunkSize: nat, alloc: nat): nat {
    alloc + if poolSize >= chunkSize then 1 else 0
  }

  /** After `i` chunks the current allocation holds `left` more. */
  predicate CountInv(poolSize: nat, chunkSize: nat, capacity: nat, alloc: nat, i: nat, left: nat)
    requires chunkSize > 0
  {
    var k := PerAllocation(poolSize, chunkSize);
    && chunkSize * left <= capacity < chunkSize * (left + 1)
    && Used(poolSize, chunkSize, alloc) * k == i + left
    && left <= k && (i > 0 ==> left < k)
  }

  lemma FirstCount(poolSize: nat, chunkSize: nat) returns (left: nat)
    requires chunkSize > 0
    ensures CountInv(poolSize, chunkSize, poolSize, 0, 0, left)
  {
    left := poolSize / chunkSize;
    LeftOf(poolSize, chunkSize);
    HasChunk(poolSize, chunkSize, left);
  }

  lemma CountStep(poolSize: nat, chunkSize: nat, capacity: nat, alloc: nat, capacity': nat, alloc': nat, i: nat, left: nat)
    returns (left': nat)
    requires chunkSize > 0 && CountInv(poolSize, chunkSize, capacity, alloc, i, left)
    requires capacity >= chunkSize ==> alloc' == alloc && capacity' == capacity - chunkSize
    requires capacity < chunkSize ==> alloc' == alloc + 1 && capacity' == Max(poolSize, chunkSize) - chunkSize
    ensures CountInv(poolSize, chunkSize, capacity', alloc', i + 1, left')
  {
    var k := PerAllocation(poolSize, chunkSize);
    HasChunk(capacity, chunkSize, left);
    if capacity >= chunkSize {
      left' := left - 1;
    } else {
      left' := k - 1;
      FreshLeft(poolSize, chunkSize);
      OneMore(Used(poolSize, chunkSize, alloc), k, i);
    }
    Shrink(chunkSize, left');
  }

  lemma CountEnd(poolSize: nat, chunkSize: nat, capacity: nat, alloc: nat, n: nat, left: nat)
    requires chunkSize > 0 && n > 0 && CountInv(poolSize, chunkSize, capacity, alloc, n, left)
    ensures Used(poolSize, chunkSize, alloc) * PerAllocation(poolSize, chunkSize) >= n
    ensures (Used(poolSize, chunkSize, alloc) - 1) * PerAllocation(poolSize, chunkSize) < n
  {
    var u, k := Used(poolSize, chunkSize, alloc), PerAllocation(poolSize, chunkSize);
    assert (u - 1) * k == u * k - k;
  }

  lemma LeftOf(capacity: nat, chunkSize: nat)
    requires chunkSize > 0
    ensures chunkSize * (capacity / chunkSize) <= capacity < chunkSize * (capacity / chunkSize + 1)
  {
    assert capacity == chunkSize * (capacity / chunkSize) + capacity % chunkSize;
  }

  lemma HasChunk(capacity: nat, chunkSize: nat, left: nat)
    requires chunkSize > 0 && chunkSize * left <= capacity < chunkSize * (left + 1)
    ensures left > 0 <==> capacity >= chunkSize
  {
    if left > 0 {
      MulMonotone(1, left, chunkSize);
    } else {
      assert chunkSize * (0 + 1) == chunkSize;
    }
  }

  lemma Shrink(chunkSize: nat, left: nat)
    ensures chunkSize * (left + 1) == chunkSize * left + chunkSize
    ensures chunkSize * (left + 2) == chunkSize * (left + 1) + chunkSize
  {
  }

  lemma FreshLeft(poolSize: nat, chunkSize: nat)
    requires chunkSize > 0
    ensures var k := PerAllocation(poolSize, chunkSize); var c := Max(poolSize, chunkSize);
            k >= 1 && chunkSize * k <= c < chunkSize * (k + 1)
  {
    LeftOf(poolSize, chunkSize);
    if poolSize < chunkSize {
      DivUnique(poolSize, chunkSize, 0, poolSize);
      assert chunkSize * 1 == chunkSize && chunkSize * 2 > chunkSize;
    } else {
      HasChunk(poolSize, chunkSize, poolSize / chunkSize);
    }
  }

  lemma OneMore(used: nat, k: nat, i: nat)
    requires used * k == i
    ensures (used + 1) * k == i + k
  {
    assert (used + 1) * k == used * k + k;
  }
}
