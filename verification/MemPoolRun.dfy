/** Runs of a block pool shared by any number of threads (rt-thread/src/mempool.c), with threads that
    sleep until a block is freed.

    A thread that finds no block puts itself in front of the threads already waiting, so the one that
    came last is resumed first. */
module MemPoolRun {
  import opened Lists
  import opened Kernel
  import opened MemPool

  datatype Pc =
    | Idle
    | Asleep(timeout: int)
    | Awake(timeout: int)
    | Got(block: nat)
    | Failed

  datatype State = State(pool: Pool, waiters: seq<Tid>, pcs: map<Tid, Pc>)

  datatype Call =
    | Take(t: Tid, timeout: int)
    | Give(block: nat)
    | Recheck(t: Tid, elapsed: nat)
    | Expire(t: Tid)
    | Return(t: Tid)

  predicate IsAsleep(p: Pc) { p.Asleep? }

  predicate IsAwake(p: Pc) { p.Awake? }

  function PcOf(s: State, t: Tid): Pc {
    if t in s.pcs then s.pcs[t] else Idle
  }

  function Wake(pcs: map<Tid, Pc>, w: Option<Tid>): map<Tid, Pc> {
    if w.Some? && w.value in pcs && pcs[w.value].Asleep? then pcs[w.value := Awake(pcs[w.value].timeout)] else pcs
  }

  /** rt_mp_alloc from one test of its loop condition to the next. */
  function TryTake(s: State, t: Tid, timeout: int): State {
    if s.pool.free == [] then
      if timeout == 0 then s.(pcs := s.pcs[t := Failed])
      else State(s.pool, [t] + s.waiters, s.pcs[t := Asleep(timeout)])
    else State(Alloc(s.pool).0, s.waiters, s.pcs[t := Got(s.pool.free[0])])
  }

  /** rt_mp_free of a block that is out. */
  function GiveBack(s: State, b: nat): State {
    if b !in s.pool.live then s
    else State(Free(s.pool, b), Rest(s.waiters), Wake(s.pcs, First(s.waiters)))
  }

  function ExpireTimer(s: State, t: Tid): State {
    if PcOf(s, t).Asleep? && PcOf(s, t).timeout > 0 then State(s.pool, Without(s.waiters, t), s.pcs[t := Failed])
    else s
  }

  function Next(s: State, a: Call): State {
    match a
    case Take(t, timeout) => if PcOf(s, t).Idle? then TryTake(s, t, timeout) else s
    case Give(b) => GiveBack(s, b)
    case Recheck(t, elapsed) =>
      if PcOf(s, t).Awake? then TryTake(s, t, Remaining(PcOf(s, t).timeout, elapsed)) else s
    case Expire(t) => ExpireTimer(s, t)
    case Return(t) => if PcOf(s, t).Got? || PcOf(s, t).Failed? then s.(pcs := s.pcs[t := Idle]) else s
  }

  function RunAll(s: State, calls: seq<Call>): State
    decreases calls
  {
    if calls == [] then s else RunAll(Next(s, calls[0]), calls[1..])
  }

  function Boot(n: nat): State { State(Fresh(n), [], map[]) }

  // ----- what every run keeps ---------------------------------------------------------------

  /** The pool is in order, the wait list is exact, and while somebody sleeps every free block is
      promised to a thread that has been resumed and has yet to look. */
  ghost predicate Ordered(n: nat, s: State) {
    && Inv(n, s.pool) && Exact(s.waiters, s.pcs, IsAsleep)
    && (s.waiters != [] ==> |s.pool.free| <= |Placed(s.pcs, IsAwake)|)
  }

  lemma TryTakeKeeps(n: nat, s: State, t: Tid, timeout: int)
    requires Ordered(n, s) && (PcOf(s, t).Idle? || PcOf(s, t).Awake?)
    ensures Ordered(n, TryTake(s, t, timeout))
  {
    var s' := TryTake(s, t, timeout);
    PlacedMove(s.pcs, IsAwake, t, s'.pcs[t]);
    AllocKeeps(n, s.pool);
    if s.pool.free == [] && timeout != 0 {
      InsertDistinct(s.waiters, 0, t);
      assert InsertAt(s.waiters, 0, t) == [t] + s.waiters;
    }
    ExactMove(s.waiters, s'.waiters, s.pcs, IsAsleep, t, s'.pcs[t]);
  }

  lemma GiveKeeps(n: nat, s: State, b: nat)
    requires Ordered(n, s) && b in s.pool.live
    ensures Ordered(n, GiveBack(s, b))
  {
    FreeKeeps(n, s.pool, b);
    if s.waiters != [] {
      var w, s' := s.waiters[0], GiveBack(s, b);
      assert s.pcs[w].Asleep?;
      PlacedMove(s.pcs, IsAwake, w, s'.pcs[w]);
      assert s.waiters[1..] == RemoveAt(s.waiters, 0);
      RemoveDistinct(s.waiters, 0);
      ExactMove(s.waiters, s'.waiters, s.pcs, IsAsleep, w, s'.pcs[w]);
    }
  }

  /** A thread that is not about to look again leaves the wait list, or was not in it. */
  lemma PlaceKeeps(n: nat, s: State, t: Tid, ws: seq<Tid>, p: Pc)
    requires Ordered(n, s) && !PcOf(s, t).Awake? && !p.Awake? && !p.Asleep?
    requires Distinct(ws) && forall u :: u in ws <==> u in s.waiters && u != t
    ensures Ordered(n, State(s.pool, ws, s.pcs[t := p]))
  {
    PlacedMove(s.pcs, IsAwake, t, p);
    ExactMove(s.waiters, ws, s.pcs, IsAsleep, t, p);
    assert ws != [] ==> ws[0] in s.waiters;
    assert Placed(s.pcs, IsAwake) - {t} == Placed(s.pcs, IsAwake);
  }

  lemma ExpireKeeps(n: nat, s: State, t: Tid)
    requires Ordered(n, s)
    ensures Ordered(n, ExpireTimer(s, t))
  {
    if PcOf(s, t).Asleep? && PcOf(s, t).timeout > 0 {
      WithoutDistinct(s.waiters, t);
      PlaceKeeps(n, s, t, Without(s.waiters, t), Failed);
    }
  }

  lemma NextKeeps(n: nat, s: State, a: Call)
    requires Ordered(n, s)
    ensures Ordered(n, Next(s, a))
  {
    match a {
      case Take(t, timeout) => if PcOf(s, t).Idle? { TryTakeKeeps(n, s, t, timeout); }
      case Give(b) => if b in s.pool.live { GiveKeeps(n, s, b); }
      case Recheck(t, elapsed) =>
        if PcOf(s, t).Awake? { TryTakeKeeps(n, s, t, Remaining(PcOf(s, t).timeout, elapsed)); }
      case Expire(t) => ExpireKeeps(n, s, t);
      case Return(t) => if PcOf(s, t).Got? || PcOf(s, t).Failed? { PlaceKeeps(n, s, t, s.waiters, Idle); }
    }
  }

  lemma BootOrdered(n: nat)
    ensures Ordered(n, Boot(n))
  {
    FreshInv(n);
  }

  lemma {:induction false} RunOrdered(n: nat, s: State, calls: seq<Call>)
    requires Ordered(n, s)
    ensures Ordered(n, RunAll(s, calls))
    decreases calls
  {
    if calls != [] {
      NextKeeps(n, s, calls[0]);
      RunOrdered(n, Next(s, calls[0]), calls[1..]);
    }
  }

  /** In every interleaving of allocations that wait, frees and timeouts: no block is out twice, none
      gets lost, the wait list is exact, and no wakeup is lost. */
  lemma {:induction false} EveryInterleaving(n: nat, calls: seq<Call>)
    ensures Ordered(n, RunAll(Boot(n), calls))
  {
    BootOrdered(n);
    RunOrdered(n, Boot(n), calls);
  }

  /** Once every resumed thread has looked again, nobody sleeps unless all blocks are out. */
  lemma {:induction false} NobodySleepsOnBlocks(n: nat, calls: seq<Call>, t: Tid)
    requires var s := RunAll(Boot(n), calls);
             PcOf(s, t).Asleep? && forall u | u in s.pcs :: !s.pcs[u].Awake?
    ensures |RunAll(Boot(n), calls).pool.live| == n
  {
    EveryInterleaving(n, calls);
    var s := RunAll(Boot(n), calls);
    assert Placed(s.pcs, IsAwake) == {};
    assert t in s.waiters;
  }

  /** An allocation gets the block at the front at once if there is one; else it fails, or sleeps in front of
      all others. */
  lemma TakeStarts(s: State, t: Tid, timeout: int)
    requires PcOf(s, t).Idle?
    ensures var s' := Next(s, Take(t, timeout));
            && (s.pool.free != [] ==>
                  PcOf(s', t) == Got(s.pool.free[0]) && s'.pool.free == s.pool.free[1..]
                  && s'.pool.live == s.pool.live + {s.pool.free[0]} && s'.waiters == s.waiters)
            && (s.pool.free == [] && timeout == 0 ==>
                  PcOf(s', t).Failed? && s'.pool == s.pool && s'.waiters == s.waiters)
            && (s.pool.free == [] && timeout != 0 ==>
                  PcOf(s', t) == Asleep(timeout) && s'.pool == s.pool && s'.waiters == [t] + s.waiters)
  {
  }

  /** Looking again with what is left of the timeout: a block, the end, or sleep for the rest. */
  lemma RecheckOutcome(s: State, t: Tid, elapsed: nat)
    requires PcOf(s, t).Awake?
    ensures var s', timeout := Next(s, Recheck(t, elapsed)), PcOf(s, t).timeout;
            && (s.pool.free != [] ==> PcOf(s', t) == Got(s.pool.free[0]) && s'.pool.free == s.pool.free[1..])
            && (s.pool.free == [] && timeout >= 0 && elapsed >= timeout ==> PcOf(s', t).Failed?)
            && (s.pool.free == [] && timeout >= 0 && elapsed < timeout ==> PcOf(s', t) == Asleep(timeout - elapsed))
            && (s.pool.free == [] && timeout < 0 ==> PcOf(s', t) == Asleep(timeout))
  {
  }

  /** A block given back is the next one handed out, and the sleeper in front wakes for it; a sleeper whose
      time runs out fails and leaves. */
  lemma GiveOutcome(n: nat, s: State, b: nat)
    requires Ordered(n, s) && b in s.pool.live
    ensures var s' := Next(s, Give(b));
            && s'.pool.free == [b] + s.pool.free && s'.pool.live == s.pool.live - {b}
            && (s.waiters != [] ==>
                  && s.waiters == [s.waiters[0]] + s'.waiters
                  && PcOf(s', s.waiters[0]) == Awake(PcOf(s, s.waiters[0]).timeout))
  {
    if s.waiters != [] { assert s.pcs[s.waiters[0]].Asleep?; }
  }

  lemma ExpireOutcome(n: nat, s: State, t: Tid)
    requires Ordered(n, s) && PcOf(s, t).Asleep?
    ensures var s' := Next(s, Expire(t));
            && s'.pool == s.pool
            && (PcOf(s, t).timeout > 0 ==>
                  PcOf(s', t).Failed? && forall u :: u in s'.waiters <==> u in s.waiters && u != t)
            && (PcOf(s, t).timeout <= 0 ==> s' == s)
  {
    WithoutDistinct(s.waiters, t);
  }

  /** A call that is over leaves its thread free for the next one. */
  lemma ReturnOutcome(s: State, t: Tid)
    ensures var s' := Next(s, Return(t));
            && s'.pool == s.pool && s'.waiters == s.waiters
            && PcOf(s', t) == if PcOf(s, t).Failed? || PcOf(s, t).Got? then Idle else PcOf(s, t)
  {
  }

  /** Whoever fell asleep last is resumed first: two threads go to sleep, and the next block that is
      freed wakes the second. */
  lemma LastInFirstOut(s: State, t: Tid, u: Tid, x: int, y: int, b: nat)
    requires s.pool.free == [] && b in s.pool.live && t != u && x != 0 && y != 0
    requires PcOf(s, t).Idle? && PcOf(s, u).Idle?
    ensures var r := RunAll(s, [Take(t, x), Take(u, y), Give(b)]);
            PcOf(r, u) == Awake(y) && PcOf(r, t) == Asleep(x) && r.waiters == [t] + s.waiters
  {
    var s1 := TryTake(s, t, x);
    var s2 := TryTake(s1, u, y);
    assert [Take(t, x), Take(u, y), Give(b)][1..] == [Take(u, y), Give(b)];
    assert [Take(u, y), Give(b)][1..] == [Give(b)] && [Give(b)][1..] == [];
    assert RunAll(s, [Take(t, x), Take(u, y), Give(b)]) == RunAll(s1, [Take(u, y), Give(b)]);
    assert RunAll(s1, [Take(u, y), Give(b)]) == RunAll(s2, [Give(b)]);
    assert RunAll(s2, [Give(b)]) == RunAll(GiveBack(s2, b), []);
    assert s2.waiters == [u] + ([t] + s.waiters) && s2.waiters[1..] == [t] + s.waiters;
  }

  // ----- the same on the headers ---------------------------------------------------------------

  class SharedPool {
    const pool: PoolObject
    var pcs: map<Tid, Pc>

    ghost function Model(): State
      reads this, pool, pool.header
    {
      State(pool.Model(), pool.waiters, pcs)
    }

    ghost predicate Valid()
      reads this, pool, pool.header
    {
      pool.Valid() && Ordered(pool.header.Length, Model())
    }

    constructor (n: nat)
      requires n > 0
      ensures Valid() && Model() == Boot(n) && pool.header.Length == n
      ensures fresh(pool) && fresh(pool.header)
    {
      pool := new PoolObject(n);
      pcs := map[];
      new;
      BootOrdered(n);
    }

    /** rt_mp_alloc from one test of its loop condition to the next: a block is detached, or the thread
        gives up, or it sleeps in front of all others. */
    method TakeSection(t: Tid, timeout: int)
      requires pool.Valid()
      modifies this, pool, pool.header
      ensures pool.Valid() && Model() == TryTake(old(Model()), t, timeout)
    {
      if pool.freeCount > 0 {
        var block, err := pool.AllocNow();
        pcs := pcs[t := Got(block)];
      } else if timeout == 0 {
        pcs := pcs[t := Failed];
      } else {
        pool.waiters := [t] + pool.waiters;
        pcs := pcs[t := Asleep(timeout)];
      }
    }

    method GiveSection(block: nat)
      requires pool.Valid()
      modifies this, pool, pool.header
      ensures pool.Valid() && Model() == GiveBack(old(Model()), block)
    {
      pool.OwnedExactly(block);
      if block < pool.header.Length && pool.header[block] == OWNED {
        var woken := pool.FreeBlock(block);
        pcs := Wake(pcs, woken);
      }
    }

    method ExpireSection(t: Tid)
      requires pool.Valid()
      modifies this, pool
      ensures pool.Valid() && Model() == ExpireTimer(old(Model()), t)
    {
      if t in pcs && pcs[t].Asleep? && pcs[t].timeout > 0 {
        pool.waiters := Without(pool.waiters, t);
        pcs := pcs[t := Failed];
      }
    }

    /** Any call of any thread, while any number of others sleep or are about to look again. */
    method Perform(a: Call)
      requires Valid()
      modifies this, pool, pool.header
      ensures Valid() && Model() == Next(old(Model()), a)
    {
      NextKeeps(pool.header.Length, Model(), a);
      match a {
        case Take(t, timeout) => if t !in pcs || pcs[t].Idle? { TakeSection(t, timeout); }
        case Give(block) => GiveSection(block);
        case Recheck(t, elapsed) =>
          if t in pcs && pcs[t].Awake? { TakeSection(t, Remaining(pcs[t].timeout, elapsed)); }
        case Expire(t) => ExpireSection(t);
        case Return(t) => if t in pcs && (pcs[t].Got? || pcs[t].Failed?) { pcs := pcs[t := Idle]; }
      }
    }

    /** Every interleaving leaves the headers, the list and the counter valid, in the state of the run. */
    method PerformAll(calls: seq<Call>)
      requires Valid()
      modifies this, pool, pool.header
      ensures Valid() && Model() == RunAll(old(Model()), calls)
    {
      var i := 0;
      assert calls[0..] == calls;
      while i < |calls|
        invariant 0 <= i <= |calls| && Valid()
        invariant RunAll(Model(), calls[i..]) == RunAll(old(Model()), calls)
      {
        assert calls[i..][1..] == calls[i + 1..];
        Perform(calls[i]);
        i := i + 1;
      }
      assert calls[i..] == [];
    }
  }
}
