/** The message queue of rt-thread/src/ipc.c: a pool of blocks threaded into a free list and a
    head/tail message chain.

    `Mq` is what the chains mean, and the functions on it say what each stretch between
    rt_hw_interrupt_disable and rt_hw_interrupt_enable does.  The class keeps the pointers the
    source keeps and is proved against those functions. */
module MessageQueue {
  import opened Lists
  import opened Kernel

  datatype Mq = Mq(queue: seq<nat>, free: seq<nat>, receivers: seq<Tid>, senders: seq<Tid>)

  function Reverse<T>(s: seq<T>): (r: seq<T>)
    ensures |r| == |s| && forall i | 0 <= i < |s| :: r[i] == s[|s| - 1 - i]
  {
    if s == [] then [] else Reverse(s[1..]) + [s[0]]
  }

  /** Moving the first of `q` over to `f` does not change where everything ends up. */
  lemma ReverseRound<T>(q: seq<T>, f: seq<T>)
    requires q != []
    ensures Reverse(q[1..]) + ([q[0]] + f) == Reverse(q) + f
  {
  }

  function Countdown(n: nat): (r: seq<nat>)
    ensures |r| == n && forall i | 0 <= i < n :: r[i] == n - 1 - i
  {
    if n == 0 then [] else [n - 1] + Countdown(n - 1)
  }

  function Init(maxMsgs: nat): Mq {
    Mq([], Countdown(maxMsgs), [], [])
  }

  function TakeFree(m: Mq): Mq {
    if m.free == [] then m else m.(free := m.free[1..])
  }

  function LinkTail(m: Mq, b: nat): Mq {
    m.(queue := m.queue + [b], receivers := Rest(m.receivers))
  }

  function LinkHead(m: Mq, b: nat): Mq {
    m.(queue := [b] + m.queue, receivers := Rest(m.receivers))
  }

  function PopHead(m: Mq): Mq {
    if m.queue == [] then m else m.(queue := m.queue[1..])
  }

  function PutFree(m: Mq, b: nat): Mq {
    m.(free := [b] + m.free, senders := Rest(m.senders))
  }

  function Reset(m: Mq): Mq {
    Mq([], Reverse(m.queue) + m.free, [], [])
  }

  /** Queue chain and free chain of one pool. */
  ghost predicate Pool(next: seq<int>, head: int, tail: int, free: int, q: seq<nat>, f: seq<nat>) {
    && Chained(next, head, q)
    && tail == (if q == [] then NULL else q[|q| - 1])
    && Chained(next, free, f)
    && Distinct(q + f)
  }

  lemma PoolPop(next: seq<int>, head: int, tail: int, free: int, q: seq<nat>, f: seq<nat>)
    requires Pool(next, head, tail, free, q, f) && q != []
    ensures head == q[0] && head !in q[1..] + f && head != NULL
    ensures Pool(next, next[head], if tail == head then NULL else tail, free, q[1..], f)
  {
    ChainedPop(next, head, q);
    assert q[1..] + f == RemoveAt(q + f, 0);
    RemoveDistinct(q + f, 0);
    assert |q| > 1 ==> (q + f)[|q| - 1] != (q + f)[0];
  }

  lemma PoolTake(next: seq<int>, head: int, tail: int, free: int, q: seq<nat>, f: seq<nat>)
    requires Pool(next, head, tail, free, q, f) && f != []
    ensures free == f[0] && free !in q + f[1..]
    ensures Pool(next, head, tail, next[free], q, f[1..])
  {
    ChainedPop(next, free, f);
    assert q + f[1..] == RemoveAt(q + f, |q|);
    RemoveDistinct(q + f, |q|);
  }

  lemma DistinctWith(q: seq<nat>, f: seq<nat>, b: nat)
    requires Distinct(q + f) && b !in q + f
    ensures Distinct(([b] + q) + f) && Distinct((q + [b]) + f) && Distinct(q + ([b] + f))
  {
    InsertDistinct(q + f, 0, b);
    InsertDistinct(q + f, |q|, b);
    assert InsertAt(q + f, 0, b) == ([b] + q) + f;
    assert InsertAt(q + f, |q|, b) == (q + [b]) + f == q + ([b] + f);
  }

  lemma PoolGive(next: seq<int>, head: int, tail: int, free: int, q: seq<nat>, f: seq<nat>, b: nat)
    requires Pool(next, head, tail, free, q, f) && b < |next| && b !in q + f
    ensures Pool(next[b := free], head, tail, b, q, [b] + f)
  {
    ChainedPush(next, free, f, b);
    ChainedFrame(next, head, q, b, free);
    DistinctWith(q, f, b);
  }

  lemma PoolPrepend(next: seq<int>, head: int, tail: int, free: int, q: seq<nat>, f: seq<nat>, b: nat)
    requires Pool(next, head, tail, free, q, f) && b < |next| && b !in q + f
    ensures Pool(next[b := head], b, if tail == NULL then b else tail, free, [b] + q, f)
  {
    ChainedPush(next, head, q, b);
    ChainedFrame(next, free, f, b, head);
    DistinctWith(q, f, b);
    assert (if tail == NULL then b else tail) == ([b] + q)[|q|];
  }

  lemma PoolAppend(next: seq<int>, head: int, tail: int, free: int, q: seq<nat>, f: seq<nat>, b: nat)
    requires Pool(next, head, tail, free, q, f) && b < |next| && b !in q + f && next[b] == NULL
    ensures tail != NULL ==> tail in q && tail >= 0
    ensures Pool(if tail != NULL then next[tail := b] else next, if head == NULL then b else head, b, free, q + [b], f)
  {
    if q != [] {
      assert Distinct(q) by { assert forall i | 0 <= i < |q| :: q[i] == (q + f)[i]; }
      ChainedAppend(next, head, q, b);
      forall x | x in f ensures x != tail {
        var i :| 0 <= i < |f| && f[i] == x;
        assert (q + f)[|q| + i] != (q + f)[|q| - 1];
      }
      ChainedFrame(next, free, f, tail, b);
    }
    DistinctWith(q, f, b);
  }

  /** A block outside both chains leaves room in the queue chain, so `entry` cannot overflow. */
  lemma RoomForOne(next: seq<int>, head: int, tail: int, free: int, q: seq<nat>, f: seq<nat>, b: nat)
    requires Pool(next, head, tail, free, q, f) && b < |next| && b !in q + f
    ensures |q| < |next|
  {
    var t := InsertAt(q + f, 0, b);
    InsertDistinct(q + f, 0, b);
    forall x | x in t ensures x < |next| {
      assert x == b || x in q || x in f;
    }
    Pigeonhole(t, |next|);
  }

  lemma OneByte(buffer: seq<bv8>, was: seq<bv8>, i: nat)
    requires i < |buffer| <= |was|
    ensures (buffer[..i] + was[i..])[i := buffer[i]] == buffer[..i + 1] + was[i + 1..]
  {
  }

  /** An unused block. */
  function Blank(size: nat): (b: seq<bv8>)
    ensures |b| == size
  {
    seq(size, _ => 0)
  }

  /** The headers of blocks in flight, other than `msg`, are as they were. */
  ghost predicate OthersKept(was: seq<int>, now: seq<int>, chained: seq<nat>, msg: nat) {
    |now| == |was| && forall b | 0 <= b < |was| && b !in chained && b != msg :: now[b] == was[b]
  }

  ghost predicate FlightKept(was: seq<int>, now: seq<int>, chained: seq<nat>) {
    |now| == |was| && forall b | 0 <= b < |was| && b !in chained :: now[b] == was[b]
  }

  ghost predicate Inside(a: seq<nat>, b: seq<nat>) { forall x | x in a :: x in b }

  /** One block of the chains moves, and only its header is written. */
  lemma FlightStep(was: seq<int>, mid: seq<int>, now: seq<int>, chained: seq<nat>, q: seq<nat>, f: seq<nat>)
    requires FlightKept(was, mid, chained) && q != [] && Inside(q + f, chained)
    requires OthersKept(mid, now, q + f, q[0])
    ensures FlightKept(was, now, chained) && Inside(q[1..] + ([q[0]] + f), chained)
  {
    assert (q + f)[0] == q[0];
    forall x | x in q[1..] + ([q[0]] + f) ensures x in q + f {}
  }

  class Queue {
    const maxMsgs: nat
    const next: array<int>            // the header of every block
    const data: array<seq<bv8>>       // the bytes behind the header
    var head: int
    var tail: int
    var free: int
    var entry: nat
    var receivers: seq<Tid>
    var senders: seq<Tid>
    ghost var queued: seq<nat>
    ghost var freed: seq<nat>

    ghost predicate Links()
      reads this, next
    {
      && maxMsgs <= UINT16_MAX && next.Length == data.Length == maxMsgs
      && Pool(next[..], head, tail, free, queued, freed)
    }

    ghost predicate Valid()
      reads this, next
    {
      Links() && entry == |queued|
    }

    ghost function Model(): Mq
      reads this
    {
      Mq(queued, freed, receivers, senders)
    }

    /** rt_mq_init */
    constructor (max: nat, size: nat)
      requires max <= UINT16_MAX
      ensures Valid() && fresh(next) && fresh(data)
      ensures maxMsgs == max && Model() == Init(max)
      ensures forall b | 0 <= b < max :: data[b] == Blank(size)
    {
      maxMsgs := max;
      next := new int[max];
      data := new seq<bv8>[max](_ => Blank(size));
      head, tail, free, entry, receivers, senders := NULL, NULL, NULL, 0, [], [];
      queued, freed := [], [];
      new;
      ChainAll();
    }

    /** The loop of rt_mq_init: blocks are pushed on the free list one by one. */
    method ChainAll()
      requires Links() && queued == freed == []
      modifies `free, `freed, next
      ensures Links() && freed == Countdown(maxMsgs)
    {
      for temp := 0 to maxMsgs
        invariant Links() && queued == [] && freed == Countdown(temp)
      {
        PoolGive(next[..], head, tail, free, queued, freed, temp);
        ghost var n0 := next[..];
        next[temp] := free;
        assert next[..] == n0[temp := free];
        free := temp;
        freed := [temp] + freed;
      }
    }

    /** First section of send and urgent: detach the head of the free list. */
    method Take() returns (msg: int)
      requires Valid()
      modifies `free, `freed
      ensures Valid() && Model() == TakeFree(old(Model()))
      ensures msg == if old(freed) == [] then NULL else old(freed)[0]
    {
      msg := free;
      if msg != NULL {
        PoolTake(next[..], head, tail, free, queued, freed);
        free := next[msg];
        freed := freed[1..];
      }
    }

    /** The gap of send: the block is in neither list, so writing it disturbs nobody. */
    method Clear(msg: nat)
      requires Valid() && msg < maxMsgs && msg !in queued + freed
      modifies next
      ensures Valid() && Model() == old(Model()) && next[msg] == NULL
      ensures forall b | 0 <= b < maxMsgs && b != msg :: next[b] == old(next[b])
    {
      ChainedFrame(next[..], head, queued, msg, NULL);
      ChainedFrame(next[..], free, freed, msg, NULL);
      ghost var n0 := next[..];
      next[msg] := NULL;
      assert next[..] == n0[msg := NULL];
    }

    /** rt_memcpy(msg + 1, buffer, size): the block's first bytes become the buffer, and no other
        block changes. */
    method CopyIn(msg: nat, buffer: seq<bv8>)
      requires Valid() && msg < maxMsgs && |buffer| <= |data[msg]|
      modifies data
      ensures data[msg] == buffer + old(data[msg])[|buffer|..]
      ensures forall b | 0 <= b < maxMsgs && b != msg :: data[b] == old(data[b])
    {
      ghost var was := data[msg];
      for i := 0 to |buffer|
        invariant data[msg] == buffer[..i] + was[i..]
        invariant forall b | 0 <= b < maxMsgs && b != msg :: data[b] == old(data[b])
      {
        OneByte(buffer, was, i);
        data[msg] := data[msg][i := buffer[i]];
      }
      assert buffer[..|buffer|] == buffer;
    }

    /** One byte of that copy. */
    method PutByte(msg: nat, i: nat, b: bv8)
      requires Valid() && msg < maxMsgs && i < |data[msg]|
      modifies data
      ensures Valid() && Model() == old(Model()) && next[..] == old(next[..])
      ensures data[..] == old(data[..])[msg := old(data[msg])[i := b]]
    {
      data[msg] := data[msg][i := b];
    }

    /** rt_memcpy(buffer, msg + 1, ...): at most a whole message comes out. */
    method CopyOut(msg: nat, size: nat) returns (buffer: seq<bv8>)
      requires Valid() && msg < maxMsgs
      ensures buffer == data[msg][..if size > |data[msg]| then |data[msg]| else size]
    {
      var n := if size > |data[msg]| then |data[msg]| else size;
      buffer := [];
      for i := 0 to n
        invariant buffer == data[msg][..i]
      {
        buffer := buffer + [data[msg][i]];
      }
    }

    /** Second section of send.  The overflow branch is in the code, and never taken. */
    method Append(msg: nat) returns (err: Err, woken: Option<Tid>)
      requires Valid() && msg < maxMsgs && msg !in queued + freed && next[msg] == NULL
      modifies this, next
      ensures Valid() && err == EOK && woken == First(old(receivers))
      ensures Model() == LinkTail(old(Model()), msg)
      ensures OthersKept(old(next[..]), next[..], old(queued + freed), msg)
    {
      PoolAppend(next[..], head, tail, free, queued, freed, msg);
      RoomForOne(next[..], head, tail, free, queued, freed, msg);
      ghost var n0, t0 := next[..], tail;
      if tail != NULL {
        next[tail] := msg;
      }
      assert next[..] == if t0 != NULL then n0[t0 := msg] else n0;
      tail := msg;
      if head == NULL { head := msg; }
      if entry < UINT16_MAX { entry := entry + 1; } else { return EFULL, None; }
      queued := queued + [msg];
      woken := First(receivers);
      receivers := Rest(receivers);
      err := EOK;
    }

    /** Second section of urgent. */
    method Prepend(msg: nat) returns (err: Err, woken: Option<Tid>)
      requires Valid() && msg < maxMsgs && msg !in queued + freed
      modifies this, next
      ensures Valid() && err == EOK && woken == First(old(receivers))
      ensures Model() == LinkHead(old(Model()), msg)
      ensures OthersKept(old(next[..]), next[..], old(queued + freed), msg)
    {
      PoolPrepend(next[..], head, tail, free, queued, freed, msg);
      RoomForOne(next[..], head, tail, free, queued, freed, msg);
      ghost var n0, h0 := next[..], head;
      next[msg] := head;
      assert next[..] == n0[msg := h0];
      head := msg;
      if tail == NULL { tail := msg; }
      if entry < UINT16_MAX { entry := entry + 1; } else { return EFULL, None; }
      queued := [msg] + queued;
      woken := First(receivers);
      receivers := Rest(receivers);
      err := EOK;
    }

    /** First section of recv, once a message is there. */
    method Pop() returns (msg: nat)
      requires Valid() && entry > 0
      modifies this
      ensures Valid() && msg == old(queued)[0] && Model() == PopHead(old(Model()))
      ensures msg < maxMsgs && msg !in queued + freed
    {
      PoolPop(next[..], head, tail, free, queued, freed);
      msg := head;
      head := next[msg];
      if tail == msg {
        tail := NULL;
      }
      if entry > 0 { entry := entry - 1; }
      queued := queued[1..];
    }

    /** Second section of recv. */
    method Give(msg: nat) returns (woken: Option<Tid>)
      requires Valid() && msg < maxMsgs && msg !in queued + freed
      modifies this, next
      ensures Valid() && woken == First(old(senders)) && Model() == PutFree(old(Model()), msg)
      ensures OthersKept(old(next[..]), next[..], old(queued + freed), msg)
    {
      PoolGive(next[..], head, tail, free, queued, freed, msg);
      ghost var n0 := next[..];
      next[msg] := free;
      assert next[..] == n0[msg := free];
      free := msg;
      freed := [msg] + freed;
      woken := First(senders);
      senders := Rest(senders);
    }

    /** One round of the reset loop: the head message goes to the free list. */
    method MoveHead()
      requires Links() && head != NULL
      modifies `head, `tail, `free, `queued, `freed, next
      ensures Links() && queued == old(queued)[1..] && freed == [old(queued)[0]] + old(freed)
      ensures OthersKept(old(next[..]), next[..], old(queued + freed), old(queued)[0])
    {
      PoolPop(next[..], head, tail, free, queued, freed);
      var msg: nat := head;
      head := next[msg];
      if tail == msg { tail := NULL; }
      queued := queued[1..];
      PoolGive(next[..], head, tail, free, queued, freed, msg);
      ghost var n0 := next[..];
      next[msg] := free;
      assert next[..] == n0[msg := free];
      free := msg;
      freed := [msg] + freed;
    }

    /** The round, seen from the blocks in flight and from the pool as a whole. */
    method Round(ghost start: seq<int>, ghost chained: seq<nat>)
      requires Links() && head != NULL && Inside(queued + freed, chained) && FlightKept(start, next[..], chained)
      modifies `head, `tail, `free, `queued, `freed, next
      ensures Links() && queued == old(queued)[1..]
      ensures Reverse(queued) + freed == old(Reverse(queued) + freed)
      ensures Inside(queued + freed, chained) && FlightKept(start, next[..], chained)
    {
      ReverseRound(queued, freed);
      ghost var mid, q, f := next[..], queued, freed;
      MoveHead();
      FlightStep(start, mid, next[..], chained, q, f);
    }

    /** The reset loop. */
    method MoveAll()
      requires Links()
      modifies `head, `tail, `free, `queued, `freed, next
      ensures Links() && queued == [] && freed == old(Reverse(queued) + freed)
      ensures FlightKept(old(next[..]), next[..], old(queued + freed))
    {
      ghost var chained, start, all := queued + freed, next[..], Reverse(queued) + freed;
      while head != NULL
        invariant Links() && Reverse(queued) + freed == all
        invariant Inside(queued + freed, chained) && FlightKept(start, next[..], chained)
        decreases |queued|
      {
        Round(start, chained);
      }
      assert [] + freed == freed;
    }

    /** rt_mq_control with RT_IPC_CMD_RESET. */
    method ResetAll()
      requires Valid()
      modifies this, next
      ensures Valid() && Model() == Reset(old(Model()))
      ensures FlightKept(old(next[..]), next[..], old(queued + freed))
    {
      receivers, senders := [], [];
      MoveAll();
      entry := 0;
    }
  }
}
