/** The mailbox of rt-thread/src/ipc.c: a ring of words with an in and an out offset.

    `Box` is the bounded sequence the ring stands for; the class keeps the source's ring and is
    proved against the functions on `Box`.  Runs of many threads follow in MailboxSteps. */
module Mailbox {
  import opened Lists
  import opened Kernel

  datatype Box<V> = Box(size: nat, msgs: seq<V>, receivers: seq<Tid>, senders: seq<Tid>)

  function PushBack<V>(b: Box<V>, v: V): Box<V> {
    b.(msgs := b.msgs + [v], receivers := Rest(b.receivers))
  }

  function PushFront<V>(b: Box<V>, v: V): Box<V> {
    b.(msgs := [v] + b.msgs, receivers := Rest(b.receivers))
  }

  function PopFront<V>(b: Box<V>): Box<V> {
    if b.msgs == [] then b else b.(msgs := b.msgs[1..], senders := Rest(b.senders))
  }

  function Emptied<V>(b: Box<V>): Box<V> {
    Box(b.size, [], [], [])
  }

  /** The cell `i` places after offset `out` in a ring of `n` cells. */
  function Slot(out: nat, i: nat, n: nat): (k: nat)
    requires out < n && i <= n
    ensures k < n && k == (out + i) % n
  {
    if out + i < n then out + i
    else
      assert (out + i) % n == out + i - n by { WrapOnce(out + i, n); }
      out + i - n
  }

  lemma WrapOnce(x: nat, n: nat)
    requires n <= x < 2 * n
    ensures x % n == x - n
  {
    assert x == n * 1 + (x - n);
  }

  class Ring {
    const pool: array<int>
    var entry: nat
    var inOffset: nat
    var outOffset: nat
    var receivers: seq<Tid>
    var senders: seq<Tid>

    ghost predicate Valid()
      reads this
    {
      && entry <= pool.Length <= UINT16_MAX
      && if pool.Length == 0 then inOffset == outOffset == 0
         else outOffset < pool.Length && inOffset == (outOffset + entry) % pool.Length
    }

    ghost function Contents(): (c: seq<int>)
      requires Valid()
      reads this, pool
      ensures |c| == entry
    {
      seq(entry, i requires 0 <= i < entry && Valid() reads this, pool => pool[Slot(outOffset, i, pool.Length)])
    }

    ghost function Model(): Box<int>
      requires Valid()
      reads this, pool
    {
      Box(pool.Length, Contents(), receivers, senders)
    }

    /** rt_mb_init */
    constructor (n: nat)
      requires n <= UINT16_MAX
      ensures Valid() && Model() == Box(n, [], [], []) && fresh(pool)
    {
      pool := new int[n];
      entry, inOffset, outOffset, receivers, senders := 0, 0, 0, [], [];
    }

    /** The tail of rt_mb_send_wait, once there is room. */
    method Send(value: int) returns (err: Err, woken: Option<Tid>)
      requires Valid() && entry < pool.Length
      modifies this, pool
      ensures Valid() && err == EOK && woken == First(old(receivers))
      ensures Model() == PushBack(old(Model()), value)
    {
      ghost var c := Contents();
      pool[inOffset] := value;
      Advance(outOffset, entry, pool.Length);
      inOffset := inOffset + 1;
      if inOffset >= pool.Length { inOffset := 0; }
      if entry < UINT16_MAX { entry := entry + 1; } else { return EFULL, None; }
      woken := First(receivers);
      receivers := Rest(receivers);
      err := EOK;
      assert Contents() == c + [value];
    }

    /** rt_mb_urgent */
    method Urgent(value: int) returns (err: Err, woken: Option<Tid>)
      requires Valid()
      modifies this, pool
      ensures Valid()
      ensures old(entry) == pool.Length ==> err == EFULL && woken == None && Model() == old(Model())
      ensures old(entry) < pool.Length ==>
                err == EOK && woken == First(old(receivers)) && Model() == PushFront(old(Model()), value)
    {
      if entry == pool.Length {
        return EFULL, None;
      }
      ghost var c, out := Contents(), outOffset;
      if outOffset > 0 { outOffset := outOffset - 1; } else { outOffset := pool.Length - 1; }
      Retreat(outOffset, out, entry, pool.Length);
      pool[outOffset] := value;
      entry := entry + 1;
      woken := First(receivers);
      receivers := Rest(receivers);
      err := EOK;
      assert Contents() == [value] + c;
    }

    /** The tail of rt_mb_recv, once there is a message. */
    method Recv() returns (value: int, woken: Option<Tid>)
      requires Valid() && entry > 0
      modifies this
      ensures Valid() && woken == First(old(senders))
      ensures value == old(Model()).msgs[0] && Model() == PopFront(old(Model()))
    {
      ghost var c, out := Contents(), outOffset;
      value := pool[outOffset];
      assert Slot(outOffset, 0, pool.Length) == outOffset;
      outOffset := outOffset + 1;
      if outOffset >= pool.Length { outOffset := 0; }
      Retreat(out, outOffset, entry - 1, pool.Length);
      if entry > 0 { entry := entry - 1; }
      woken := First(senders);
      senders := Rest(senders);
      assert Contents() == c[1..];
    }

    /** rt_mb_control with RT_IPC_CMD_RESET */
    method ResetAll()
      requires Valid()
      modifies this
      ensures Valid() && Model() == Emptied(old(Model()))
    {
      receivers, senders := [], [];
      entry, inOffset, outOffset := 0, 0, 0;
    }
  }

  lemma Advance(out: nat, entry: nat, n: nat)
    requires out < n && entry < n
    ensures var i := (out + entry) % n; (out + entry + 1) % n == if i + 1 >= n then 0 else i + 1
    ensures forall i | 0 <= i < entry :: Slot(out, i, n) != (out + entry) % n
  {
    assert Slot(out, entry, n) == (out + entry) % n && Slot(out, entry + 1, n) == (out + (entry + 1)) % n;
  }

  /** `b` is the offset just before `a`. */
  lemma Retreat(b: nat, a: nat, entry: nat, n: nat)
    requires a < n && entry < n && b == if a > 0 then a - 1 else n - 1
    ensures (b + (entry + 1)) % n == (a + entry) % n
    ensures forall i | 0 <= i < entry :: Slot(a, i, n) == Slot(b, i + 1, n) != b
  {
    assert Slot(b, entry + 1, n) == Slot(a, entry, n);
  }
}
