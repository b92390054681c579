/** The block pool of rt-thread/src/mempool.c: equal blocks threaded through their own headers.

    `Pool` is the list of free blocks and the set of blocks that are out; the class keeps the
    headers and is proved against the functions on `Pool`. */
module MemPool {
  import opened Lists
  import opened Kernel

  datatype Pool = Pool(free: seq<nat>, live: set<nat>)

  function Countup(from: nat, n: nat): (r: seq<nat>)
    requires from <= n
    ensures |r| == n - from && forall i | 0 <= i < |r| :: r[i] == from + i
    decreases n - from
  {
    if from == n then [] else [from] + Countup(from + 1, n)
  }

  function Fresh(n: nat): Pool { Pool(Countup(0, n), {}) }

  function Alloc(p: Pool): (Pool, Option<nat>) {
    if p.free == [] then (p, None)
    else (Pool(p.free[1..], p.live + {p.free[0]}), Some(p.free[0]))
  }

  function Free(p: Pool, b: nat): Pool {
    Pool([b] + p.free, p.live - {b})
  }

  ghost predicate Inv(n: nat, p: Pool) {
    && Distinct(p.free)
    && (forall b | b in p.free :: b < n && b !in p.live)
    && (forall b | b in p.live :: b < n)
    && |p.free| + |p.live| == n
  }

  lemma FreshInv(n: nat)
    ensures Inv(n, Fresh(n))
  {
  }

  /** No block is handed out twice: what Alloc returns was not out, and is out afterwards. */
  lemma AllocKeeps(n: nat, p: Pool)
    requires Inv(n, p)
    ensures var (q, b) := Alloc(p);
            && Inv(n, q) && (b == None <==> |p.live| == n)
            && (b.Some? ==> b.value < n && b.value !in p.live && q.live == p.live + {b.value})
  {
    if p.free != [] {
      assert p.free[1..] == RemoveAt(p.free, 0);
      RemoveDistinct(p.free, 0);
    }
  }

  lemma FreeKeeps(n: nat, p: Pool, b: nat)
    requires Inv(n, p) && b in p.live
    ensures Inv(n, Free(p, b)) && Alloc(Free(p, b)) == (p, Some(b))
  {
    InsertDistinct(p.free, 0, b);
    assert InsertAt(p.free, 0, b) == [b] + p.free;
    assert p.live - {b} + {b} == p.live;
  }

  datatype Action = AllocOne | FreeOne(b: nat)

  /** Only blocks that are out are freed. */
  function Step(p: Pool, a: Action): Pool {
    match a
    case AllocOne => Alloc(p).0
    case FreeOne(b) => if b in p.live then Free(p, b) else p
  }

  function Run(p: Pool, actions: seq<Action>): Pool
    decreases actions
  {
    if actions == [] then p else Run(Step(p, actions[0]), actions[1..])
  }

  lemma {:induction false} RunKeeps(n: nat, p: Pool, actions: seq<Action>)
    requires Inv(n, p)
    ensures Inv(n, Run(p, actions))
    decreases actions
  {
    if actions != [] {
      match actions[0] {
        case AllocOne => AllocKeeps(n, p);
        case FreeOne(b) => if b in p.live { FreeKeeps(n, p, b); }
      }
      RunKeeps(n, Step(p, actions[0]), actions[1..]);
    }
  }

  /** Through any run of allocations and frees: the free list has distinct blocks, none of them
      out, and free plus outstanding is the total. */
  lemma {:induction false} EveryRun(n: nat, actions: seq<Action>)
    ensures Inv(n, Run(Fresh(n), actions))
  {
    FreshInv(n);
    RunKeeps(n, Fresh(n), actions);
  }

  // ----- layout -------------------------------------------------------------------------------------

  const WORD: nat := 4

  function AlignUp(x: nat): nat { (x + 3) / WORD * WORD }

  function AlignDown(x: nat): nat { x / WORD * WORD }

  /** A block and the pointer in front of it. */
  function Stride(blockSize: nat): nat { AlignUp(blockSize) + WORD }

  function Count(size: nat, blockSize: nat): nat { AlignDown(size) / Stride(blockSize) }

  function Address(start: nat, blockSize: nat, i: nat): nat { start + i * Stride(blockSize) }

  /** Block sizes are rounded up to the next multiple of four, the pool's size down. */
  lemma AlignMeans(x: nat)
    ensures AlignUp(x) % 4 == 0 && x <= AlignUp(x) < x + 4
    ensures AlignDown(x) % 4 == 0 && AlignDown(x) <= x < AlignDown(x) + 4
  {
  }

  /** There are as many blocks as fit. */
  lemma CountMeans(size: nat, blockSize: nat)
    ensures var n, s := Count(size, blockSize), AlignUp(blockSize) + 4; n * s <= AlignDown(size) < (n + 1) * s
  {
    var n, s := Count(size, blockSize), Stride(blockSize);
    assert AlignDown(size) == n * s + AlignDown(size) % s;
  }

  /** Every block lies inside the pool and leaves room for `blockSize` bytes behind its header. */
  lemma {:induction false} Inside(start: nat, size: nat, blockSize: nat, i: nat)
    requires i < Count(size, blockSize)
    ensures start <= Address(start, blockSize, i)
    ensures Address(start, blockSize, i) + WORD + blockSize <= start + size
  {
    var s, n := Stride(blockSize), Count(size, blockSize);
    assert blockSize <= AlignUp(blockSize);
    MulMono(i + 1, n, s);
    assert n * s <= AlignDown(size) <= size;
  }

  /** A block ends where the next one begins, or before. */
  lemma {:induction false} Disjoint(start: nat, blockSize: nat, i: nat, j: nat)
    requires i < j
    ensures Address(start, blockSize, i) + WORD + blockSize <= Address(start, blockSize, j)
  {
    assert blockSize <= AlignUp(blockSize);
    MulMono(i + 1, j, Stride(blockSize));
  }

  lemma MulMono(a: nat, b: nat, s: nat)
    requires a <= b
    ensures a * s <= b * s
  {
  }

  // ----- the pool as the source keeps it -----------------------------------------------------------

  const OWNED := -2       // the header of a block that is out points back at the pool

  lemma InitialChain(h: seq<int>)
    requires h != [] && h[|h| - 1] == NULL && forall b | 0 <= b < |h| - 1 :: h[b] == b + 1
    ensures Chained(h, 0, Countup(0, |h|)) && Distinct(Countup(0, |h|))
    ensures forall b: nat | b < |h| :: b in Countup(0, |h|)
  {
    var c := Countup(0, |h|);
    forall b: nat | b < |h| ensures b in c { assert c[b] == b; }
  }

  class PoolObject {
    const header: array<int>
    var list: int
    var freeCount: nat
    var waiters: seq<Tid>
    ghost var freed: seq<nat>

    ghost predicate Valid()
      reads this, header
    {
      && header.Length > 0
      && Chained(header[..], list, freed) && Distinct(freed) && freeCount == |freed|
      && forall b | 0 <= b < header.Length :: b in freed || header[b] == OWNED
    }

    ghost function Model(): Pool
      reads this, header
    {
      Pool(freed, set b: nat | b < header.Length && b !in freed)
    }

    /** rt_mp_init: every header points at the next block, the last one nowhere. */
    constructor (n: nat)
      requires n > 0
      ensures Valid() && fresh(header) && header.Length == n
      ensures Model() == Fresh(n) && waiters == []
    {
      header := new int[n];
      list, freeCount, waiters, freed := 0, n, [], Countup(0, n);
      new;
      for offset := 0 to n
        invariant list == 0 && freeCount == n && freed == Countup(0, n) && waiters == []
        invariant forall b | 0 <= b < offset :: header[b] == b + 1
      {
        header[offset] := offset + 1;
      }
      header[n - 1] := NULL;
      InitialChain(header[..]);
    }

    /** rt_mp_alloc without waiting. */
    method AllocNow() returns (block: int, err: Err)
      requires Valid()
      modifies this, header
      ensures Valid() && waiters == old(waiters)
      ensures var (q, b) := Alloc(old(Model()));
              && Model() == q && (err == EOK <==> b.Some?)
              && block == if b.Some? then b.value else NULL
    {
      if freeCount == 0 {
        return NULL, ETIMEOUT;
      }
      freeCount := freeCount - 1;
      block := list;
      ghost var h0, f0 := header[..], freed;
      ChainedPop(h0, list, f0);
      assert f0[1..] == RemoveAt(f0, 0);
      RemoveDistinct(f0, 0);
      list := header[block];
      ChainedFrame(h0, list, f0[1..], block, OWNED);
      header[block] := OWNED;
      assert header[..] == h0[block := OWNED];
      freed := freed[1..];
      err := EOK;
    }

    /** The header tells whether a block is out. */
    lemma OwnedExactly(block: nat)
      requires Valid()
      ensures block in Model().live <==> block < header.Length && header[block] == OWNED
    {
      if block in freed {
        var i :| 0 <= i < |freed| && freed[i] == block;
        assert header[..][freed[i]] == if i + 1 < |freed| then freed[i + 1] else NULL;
      }
    }

    /** rt_mp_free of a block that is out. */
    method FreeBlock(block: nat) returns (woken: Option<Tid>)
      requires Valid() && block in Model().live
      modifies this, header
      ensures Valid() && Model() == Free(old(Model()), block)
      ensures woken == First(old(waiters)) && waiters == Rest(old(waiters))
    {
      freeCount := freeCount + 1;
      ghost var h0, l0, f0 := header[..], list, freed;
      ChainedPush(h0, l0, f0, block);
      InsertDistinct(f0, 0, block);
      assert InsertAt(f0, 0, block) == [block] + f0;
      header[block] := list;
      assert header[..] == h0[block := l0];
      list := block;
      freed := [block] + freed;
      woken := First(waiters);
      waiters := Rest(waiters);
    }
  }
}
