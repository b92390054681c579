/** Runs of a message queue shared by any number of threads.

    One action is one stretch with interrupts disabled (rt-thread/src/ipc.c), or, in the gaps
    where a block is in neither list, the copy of one byte.  Between any two actions any other
    thread may act. */
module MessageQueueSteps {
  import opened Lists
  import opened Kernel
  import opened MessageQueue

  type Byte = bv8

  datatype Config = Config(maxMsgs: nat, msgSize: nat, flag: Flag, prio: map<Tid, int>)

  /** Where a thread stands.  `...Ready` is "resumed with error EOK, loop condition not yet
      rechecked"; `Received` and `Failed` are "about to return". */
  datatype Pc =
    | Idle
    | SendWait(buf: seq<Byte>, timeout: int)
    | SendReady(buf: seq<Byte>, timeout: int)
    | Filling(block: nat, buf: seq<Byte>, copied: nat, urgent: bool)
    | RecvWait(size: nat, timeout: int)
    | RecvReady(size: nat, timeout: int)
    | Draining(block: nat, size: nat, msg: seq<Byte>, got: seq<Byte>)
    | Received(bytes: seq<Byte>)
    | Failed(err: Err)

  datatype State = State(mq: Mq, data: seq<seq<Byte>>, pcs: map<Tid, Pc>)

  datatype Action =
    | Send(t: Tid, buf: seq<Byte>, timeout: int)
    | Urgent(t: Tid, buf: seq<Byte>)
    | Recv(t: Tid, size: nat, timeout: int)
    | Recheck(t: Tid, elapsed: nat)
    | CopyByte(t: Tid)
    | Link(t: Tid)
    | Give(t: Tid)
    | Expire(t: Tid)
    | ResetQueue
    | Return(t: Tid)

  function PcOf(s: State, t: Tid): Pc {
    if t in s.pcs then s.pcs[t] else Idle
  }

  function BlockAt(data: seq<seq<Byte>>, b: nat): seq<Byte> {
    if b < |data| then data[b] else []
  }

  function Boot(c: Config): State {
    State(Init(c.maxMsgs), seq(c.maxMsgs, _ => Blank(c.msgSize)), map[])
  }

  // ----- the sections ---------------------------------------------------------------------

  /** The loop of send up to the end of its first section. */
  function TrySend(c: Config, s: State, t: Tid, buf: seq<Byte>, timeout: int): State {
    if s.mq.free == [] then
      if timeout == 0 then s.(pcs := s.pcs[t := Failed(EFULL)])
      else s.(mq := s.mq.(senders := Enqueue(c.flag, s.mq.senders, c.prio, t)),
              pcs := s.pcs[t := SendWait(buf, timeout)])
    else
      s.(mq := TakeFree(s.mq), pcs := s.pcs[t := Filling(s.mq.free[0], buf, 0, false)])
  }

  function TryUrgent(s: State, t: Tid, buf: seq<Byte>): State {
    if s.mq.free == [] then s.(pcs := s.pcs[t := Failed(EFULL)])
    else s.(mq := TakeFree(s.mq), pcs := s.pcs[t := Filling(s.mq.free[0], buf, 0, true)])
  }

  function TryRecv(c: Config, s: State, t: Tid, size: nat, timeout: int): State {
    if s.mq.queue == [] then
      if timeout == 0 then s.(pcs := s.pcs[t := Failed(ETIMEOUT)])
      else s.(mq := s.mq.(receivers := Enqueue(c.flag, s.mq.receivers, c.prio, t)),
              pcs := s.pcs[t := RecvWait(size, timeout)])
    else
      var b := s.mq.queue[0];
      var msg := BlockAt(s.data, b);
      s.(mq := PopHead(s.mq), pcs := s.pcs[t := Draining(b, size, msg, [])])
  }

  function Min(a: nat, b: nat): nat { if a < b then a else b }

  /** One byte of rt_memcpy, into or out of the block the thread holds. */
  function Copy(c: Config, s: State, t: Tid): State {
    match PcOf(s, t)
    case Filling(b, buf, n, urgent) =>
      if n < |buf| && b < |s.data| && n < |s.data[b]| then
        s.(data := s.data[b := s.data[b][n := buf[n]]], pcs := s.pcs[t := Filling(b, buf, n + 1, urgent)])
      else s
    case Draining(b, size, msg, got) =>
      if |got| < Min(size, c.msgSize) && b < |s.data| && |got| < |s.data[b]| then
        s.(pcs := s.pcs[t := Draining(b, size, msg, got + [s.data[b][|got|]])])
      else s
    case _ => s
  }

  /** _ipc_list_resume: the thread is runnable again and will recheck its loop condition. */
  function Wake(pcs: map<Tid, Pc>, w: Option<Tid>): map<Tid, Pc> {
    if w.None? || w.value !in pcs then pcs
    else match pcs[w.value]
      case SendWait(buf, timeout) => pcs[w.value := SendReady(buf, timeout)]
      case RecvWait(size, timeout) => pcs[w.value := RecvReady(size, timeout)]
      case _ => pcs
  }

  function LinkBlock(s: State, t: Tid): State {
    match PcOf(s, t)
    case Filling(b, buf, n, urgent) =>
      if n != |buf| then s
      else s.(mq := if urgent then LinkHead(s.mq, b) else LinkTail(s.mq, b),
              pcs := Wake(s.pcs, First(s.mq.receivers))[t := Idle])
    case _ => s
  }

  function GiveBlock(c: Config, s: State, t: Tid): State {
    match PcOf(s, t)
    case Draining(b, size, msg, got) =>
      if |got| != Min(size, c.msgSize) then s
      else s.(mq := PutFree(s.mq, b), pcs := Wake(s.pcs, First(s.mq.senders))[t := Received(got)])
    case _ => s
  }

  function ExpireTimer(s: State, t: Tid): State {
    match PcOf(s, t)
    case SendWait(_, timeout) =>
      if timeout > 0 then
        s.(mq := s.mq.(senders := Without(s.mq.senders, t)), pcs := s.pcs[t := Failed(ETIMEOUT)])
      else s
    case RecvWait(_, timeout) =>
      if timeout > 0 then
        s.(mq := s.mq.(receivers := Without(s.mq.receivers, t)), pcs := s.pcs[t := Failed(ETIMEOUT)])
      else s
    case _ => s
  }

  function ResetState(s: State): State {
    s.(mq := Reset(s.mq),
       pcs := map t | t in s.pcs :: if s.pcs[t].SendWait? || s.pcs[t].RecvWait? then Failed(ERROR) else s.pcs[t])
  }

  function Step(c: Config, s: State, a: Action): State {
    match a
    case Send(t, buf, timeout) =>
      if !PcOf(s, t).Idle? || |buf| == 0 then s
      else if |buf| > c.msgSize then s.(pcs := s.pcs[t := Failed(ERROR)])
      else TrySend(c, s, t, buf, timeout)
    case Urgent(t, buf) =>
      if !PcOf(s, t).Idle? || |buf| == 0 then s
      else if |buf| > c.msgSize then s.(pcs := s.pcs[t := Failed(ERROR)])
      else TryUrgent(s, t, buf)
    case Recv(t, size, timeout) =>
      if PcOf(s, t).Idle? && 0 < size then TryRecv(c, s, t, size, timeout) else s
    case Recheck(t, elapsed) =>
      (match PcOf(s, t)
       case SendReady(buf, timeout) => TrySend(c, s, t, buf, Remaining(timeout, elapsed))
       case RecvReady(size, timeout) => TryRecv(c, s, t, size, Remaining(timeout, elapsed))
       case _ => s)
    case CopyByte(t) => Copy(c, s, t)
    case Link(t) => LinkBlock(s, t)
    case Give(t) => GiveBlock(c, s, t)
    case Expire(t) => ExpireTimer(s, t)
    case ResetQueue => ResetState(s)
    case Return(t) => if PcOf(s, t).Failed? || PcOf(s, t).Received? then s.(pcs := s.pcs[t := Idle]) else s
  }

  function Run(c: Config, s: State, actions: seq<Action>): State
    decreases actions
  {
    if actions == [] then s else Run(c, Step(c, s, actions[0]), actions[1..])
  }

  // ----- what every run keeps ---------------------------------------------------------------

  predicate Busy(p: Pc) { p.Filling? || p.Draining? }

  /** Which thread has which block in flight. */
  ghost function Held(pcs: map<Tid, Pc>): map<Tid, nat> {
    map t | t in pcs && Busy(pcs[t]) :: pcs[t].block
  }

  /** Queue chain `q`, free chain `f` and the blocks in flight partition the pool of `n` blocks. */
  ghost predicate Partition(n: nat, q: seq<nat>, f: seq<nat>, held: map<Tid, nat>) {
    && Distinct(q + f)
    && (forall b | b in q + f :: b < n)
    && (forall t | t in held :: held[t] < n && held[t] !in q + f)
    && (forall t, u | t in held && u in held && held[t] == held[u] :: t == u)
    && (forall b | 0 <= b < n :: b in q + f || b in held.Values)
  }

  /** The wait lists hold exactly the threads that are suspended there, each once. */
  predicate IsRecvWait(p: Pc) { p.RecvWait? }

  predicate IsSendWait(p: Pc) { p.SendWait? }

  ghost predicate Waiting(s: State) {
    Exact(s.mq.receivers, s.pcs, IsRecvWait) && Exact(s.mq.senders, s.pcs, IsSendWait)
  }

  ghost predicate PayloadOk(c: Config, data: seq<seq<Byte>>, p: Pc) {
    match p
    case Filling(b, buf, n, _) =>
      n <= |buf| && 0 < |buf| <= c.msgSize && (b < |data| && |data[b]| == c.msgSize ==> data[b][..n] == buf[..n])
    case Draining(b, size, msg, got) =>
      |msg| == c.msgSize && (b < |data| ==> data[b] == msg) && |got| <= Min(size, c.msgSize) && got == msg[..|got|]
    case SendWait(buf, _) => 0 < |buf| <= c.msgSize
    case SendReady(buf, _) => 0 < |buf| <= c.msgSize
    case _ => true
  }

  /** A block being filled holds the bytes copied so far; a block being drained still holds the
      message that was popped, and its reader has a prefix of it. */
  ghost predicate Payloads(c: Config, s: State) {
    && |s.data| == c.maxMsgs && (forall b | 0 <= b < |s.data| :: |s.data[b]| == c.msgSize)
    && forall t | t in s.pcs :: PayloadOk(c, s.data, s.pcs[t])
  }

  predicate IsRecvReady(p: Pc) { p.RecvReady? }

  predicate IsSendReady(p: Pc) { p.SendReady? }

  ghost function ReadyReceivers(pcs: map<Tid, Pc>): set<Tid> { Placed(pcs, IsRecvReady) }

  ghost function ReadySenders(pcs: map<Tid, Pc>): set<Tid> { Placed(pcs, IsSendReady) }

  /** No lost wakeups: while somebody waits, whatever he waits for is already promised to
      threads that have been resumed and have yet to look. */
  ghost predicate NoLostWakeups(s: State) {
    && (s.mq.receivers != [] ==> |s.mq.queue| <= |ReadyReceivers(s.pcs)|)
    && (s.mq.senders != [] ==> |s.mq.free| <= |ReadySenders(s.pcs)|)
  }

  ghost predicate Inv(c: Config, s: State) {
    && Partition(c.maxMsgs, s.mq.queue, s.mq.free, Held(s.pcs))
    && Waiting(s) && Payloads(c, s) && NoLostWakeups(s)
  }

  // ----- one thread changes its place -----------------------------------------------------------

  lemma MoveHeld(pcs: map<Tid, Pc>, t: Tid, p: Pc)
    ensures Held(pcs[t := p]) == if Busy(p) then Held(pcs)[t := p.block] else Held(pcs) - {t}
    ensures !Busy(p) && t !in Held(pcs) ==> Held(pcs[t := p]) == Held(pcs)
  {
    assert t !in Held(pcs) ==> Held(pcs) - {t} == Held(pcs);
  }

  lemma MoveReady(pcs: map<Tid, Pc>, t: Tid, p: Pc)
    ensures |ReadyReceivers(pcs[t := p])| == |ReadyReceivers(pcs) - {t}| + (if p.RecvReady? then 1 else 0)
    ensures |ReadySenders(pcs[t := p])| == |ReadySenders(pcs) - {t}| + (if p.SendReady? then 1 else 0)
  {
    PlacedMove(pcs, IsRecvReady, t, p);
    PlacedMove(pcs, IsSendReady, t, p);
  }

  /** A block leaves the chains, from position `k` of the two put together. */
  lemma PartitionOut(n: nat, q: seq<nat>, f: seq<nat>, held: map<Tid, nat>, t: Tid, k: nat, q': seq<nat>, f': seq<nat>)
    requires Partition(n, q, f, held) && t !in held && k < |q + f|
    requires q' + f' == RemoveAt(q + f, k)
    ensures Partition(n, q', f', held[t := (q + f)[k]])
  {
    var s, s', x := q + f, q' + f', (q + f)[k];
    RemoveDistinct(s, k);
    ValuesAdd(held, t, x);
    forall b | 0 <= b < n ensures b in s' || b in held[t := x].Values {
      assert b in s || b in held.Values;
    }
    assert x in s;
  }

  lemma PartitionTake(n: nat, q: seq<nat>, f: seq<nat>, held: map<Tid, nat>, t: Tid)
    requires Partition(n, q, f, held) && f != [] && t !in held
    ensures Partition(n, q, f[1..], held[t := f[0]])
  {
    assert q + f[1..] == RemoveAt(q + f, |q|) && (q + f)[|q|] == f[0];
    PartitionOut(n, q, f, held, t, |q|, q, f[1..]);
  }

  lemma PartitionPop(n: nat, q: seq<nat>, f: seq<nat>, held: map<Tid, nat>, t: Tid)
    requires Partition(n, q, f, held) && q != [] && t !in held
    ensures Partition(n, q[1..], f, held[t := q[0]])
  {
    PartitionOut(n, q, f, held, t, 0, q[1..], f);
  }

  /** The block goes back into a chain, at position `k` of the two put together. */
  lemma PartitionReturn(n: nat, q: seq<nat>, f: seq<nat>, held: map<Tid, nat>,
                        t: Tid, k: nat, q': seq<nat>, f': seq<nat>)
    requires Partition(n, q, f, held) && t in held && k <= |q + f|
    requires q' + f' == InsertAt(q + f, k, held[t])
    ensures Partition(n, q', f', held - {t})
  {
    InsertDistinct(q + f, k, held[t]);
    forall b | b in held.Values && b != held[t] ensures b in (held - {t}).Values {
      var u :| u in held && held[u] == b;
      assert u in held - {t};
    }
  }

  lemma ValuesAdd(held: map<Tid, nat>, t: Tid, b: nat)
    requires t !in held
    ensures held[t := b].Values == held.Values + {b}
  {
    assert held[t := b][t] == b;
    forall v | v in held.Values ensures v in held[t := b].Values {
      var u :| u in held && held[u] == v;
      assert held[t := b][u] == v;
    }
  }

  // ----- every section keeps the invariant -------------------------------------------------------

  lemma WaitingMove(s: State, s': State, t: Tid, p: Pc)
    requires Waiting(s) && s'.pcs == s.pcs[t := p]
    requires Distinct(s'.mq.receivers) && Distinct(s'.mq.senders)
    requires forall u :: u in s'.mq.receivers <==> if u == t then p.RecvWait? else u in s.mq.receivers
    requires forall u :: u in s'.mq.senders <==> if u == t then p.SendWait? else u in s.mq.senders
    ensures Waiting(s')
  {
    ExactMove(s.mq.receivers, s'.mq.receivers, s.pcs, IsRecvWait, t, p);
    ExactMove(s.mq.senders, s'.mq.senders, s.pcs, IsSendWait, t, p);
  }

  lemma PayloadsMove(c: Config, s: State, s': State, t: Tid, p: Pc)
    requires Payloads(c, s) && s'.pcs == s.pcs[t := p] && s'.data == s.data && PayloadOk(c, s.data, p)
    ensures Payloads(c, s')
  {
  }

  lemma WakeupsMove(s: State, s': State, t: Tid, p: Pc)
    requires NoLostWakeups(s) && s'.pcs == s.pcs[t := p] && !p.RecvReady? && !p.SendReady?
    requires var used := if PcOf(s, t).RecvReady? then 1 else 0;
             s'.mq.receivers == [] || |s'.mq.queue| == 0
             || (s.mq.receivers != [] && |s'.mq.queue| <= |s.mq.queue| - used)
    requires var used := if PcOf(s, t).SendReady? then 1 else 0;
             s'.mq.senders == [] || |s'.mq.free| == 0 || (s.mq.senders != [] && |s'.mq.free| <= |s.mq.free| - used)
    ensures NoLostWakeups(s')
  {
    MoveReady(s.pcs, t, p);
  }

  lemma TrySendKeeps(c: Config, s: State, t: Tid, buf: seq<Byte>, timeout: int)
    requires Inv(c, s) && 0 < |buf| <= c.msgSize
    requires PcOf(s, t).Idle? || PcOf(s, t).SendReady?
    ensures Inv(c, TrySend(c, s, t, buf, timeout))
  {
    var s' := TrySend(c, s, t, buf, timeout);
    var p := s'.pcs[t];
    MoveHeld(s.pcs, t, p);
    WakeupsMove(s, s', t, p);
    PayloadsMove(c, s, s', t, p);
    if s.mq.free != [] {
      PartitionTake(c.maxMsgs, s.mq.queue, s.mq.free, Held(s.pcs), t);
    } else if timeout != 0 {
      EnqueueDistinct(c.flag, s.mq.senders, c.prio, t);
    }
    WaitingMove(s, s', t, p);
  }

  lemma TryUrgentKeeps(c: Config, s: State, t: Tid, buf: seq<Byte>)
    requires Inv(c, s) && 0 < |buf| <= c.msgSize && PcOf(s, t).Idle?
    ensures Inv(c, TryUrgent(s, t, buf))
  {
    var s' := TryUrgent(s, t, buf);
    if s.mq.free == [] {
      RestKeeps(c, s, t, Failed(EFULL));
    } else {
      var p := s'.pcs[t];
      MoveHeld(s.pcs, t, p);
      WakeupsMove(s, s', t, p);
      PayloadsMove(c, s, s', t, p);
      PartitionTake(c.maxMsgs, s.mq.queue, s.mq.free, Held(s.pcs), t);
      WaitingMove(s, s', t, p);
    }
  }

  lemma TryRecvKeeps(c: Config, s: State, t: Tid, size: nat, timeout: int)
    requires Inv(c, s)
    requires PcOf(s, t).Idle? || PcOf(s, t).RecvReady?
    ensures Inv(c, TryRecv(c, s, t, size, timeout))
  {
    var s' := TryRecv(c, s, t, size, timeout);
    var p := s'.pcs[t];
    MoveHeld(s.pcs, t, p);
    WakeupsMove(s, s', t, p);
    if s.mq.queue != [] {
      assert s.mq.queue[0] in s.mq.queue + s.mq.free;
      PartitionPop(c.maxMsgs, s.mq.queue, s.mq.free, Held(s.pcs), t);
    } else if timeout != 0 {
      EnqueueDistinct(c.flag, s.mq.receivers, c.prio, t);
    }
    PayloadsMove(c, s, s', t, p);
    WaitingMove(s, s', t, p);
  }

  /** Blocks in flight are private: a copy into one of them is seen by its holder alone. */
  lemma CopyPayloads(c: Config, s: State, t: Tid)
    requires Payloads(c, s)
    requires forall u, v | u in Held(s.pcs) && v in Held(s.pcs) && Held(s.pcs)[u] == Held(s.pcs)[v] :: u == v
    ensures Payloads(c, Copy(c, s, t))
  {
    var s' := Copy(c, s, t);
    forall u | u in s'.pcs && u != t ensures PayloadOk(c, s'.data, s'.pcs[u]) {
      assert PayloadOk(c, s.data, s.pcs[u]);
      assert Busy(s.pcs[u]) && Busy(PcOf(s, t)) ==> Held(s.pcs)[u] != Held(s.pcs)[t];
    }
    if t in s.pcs {
      assert PayloadOk(c, s.data, s.pcs[t]);
    }
  }

  lemma CopyKeeps(c: Config, s: State, t: Tid)
    requires Inv(c, s)
    ensures Inv(c, Copy(c, s, t))
  {
    var s' := Copy(c, s, t);
    CopyPayloads(c, s, t);
    if s' != s {
      var p := s'.pcs[t];
      MoveHeld(s.pcs, t, p);
      assert Held(s.pcs)[t := p.block] == Held(s.pcs);
      WakeupsMove(s, s', t, p);
      WaitingMove(s, s', t, p);
    }
  }

  lemma ExpireKeeps(c: Config, s: State, t: Tid)
    requires Inv(c, s)
    ensures Inv(c, ExpireTimer(s, t))
  {
    var s' := ExpireTimer(s, t);
    if s' != s {
      var p := s'.pcs[t];
      MoveHeld(s.pcs, t, p);
      WithoutDistinct(s.mq.receivers, t);
      WithoutDistinct(s.mq.senders, t);
      WakeupsMove(s, s', t, p);
      WaitingMove(s, s', t, p);
      PayloadsMove(c, s, s', t, p);
    }
  }

  lemma ReverseFront(q: seq<nat>, f: seq<nat>)
    requires Distinct(q + f)
    ensures Distinct(Reverse(q) + f)
    ensures forall b :: b in Reverse(q) <==> b in q
  {
    var s, s', n := q + f, Reverse(q) + f, |q|;
    forall i, j | 0 <= i < j < |s'| ensures s'[i] != s'[j] {
      var i', j' := if i < n then n - 1 - i else i, if j < n then n - 1 - j else j;
      assert s'[i] == s[i'] && s'[j] == s[j'];
    }
    forall b | b in q ensures b in Reverse(q) {
      var i :| 0 <= i < n && q[i] == b;
      assert Reverse(q)[n - 1 - i] == b;
    }
  }

  lemma PartitionReset(n: nat, q: seq<nat>, f: seq<nat>, held: map<Tid, nat>)
    requires Partition(n, q, f, held)
    ensures Partition(n, [], Reverse(q) + f, held)
  {
    var s' := Reverse(q) + f;
    ReverseFront(q, f);
    assert [] + s' == s';
    assert forall b :: b in s' <==> b in q + f;
  }

  lemma ResetKeeps(c: Config, s: State)
    requires Inv(c, s)
    ensures Inv(c, ResetState(s))
  {
    var s' := ResetState(s);
    assert Held(s'.pcs) == Held(s.pcs);
    PartitionReset(c.maxMsgs, s.mq.queue, s.mq.free, Held(s.pcs));
    forall u ensures !PcOf(s', u).RecvWait? && !PcOf(s', u).SendWait? {}
    forall u | u in s'.pcs ensures PayloadOk(c, s'.data, s'.pcs[u]) {
      assert PayloadOk(c, s.data, s.pcs[u]);
    }
  }

  /** Resuming the first receiver promises it one more message. */
  lemma WakeReceiver(c: Config, s: State, s': State)
    requires Inv(c, s)
    requires s' == s.(mq := s.mq.(receivers := Rest(s.mq.receivers)), pcs := Wake(s.pcs, First(s.mq.receivers)))
    ensures Held(s'.pcs) == Held(s.pcs) && Waiting(s') && Payloads(c, s')
    ensures s'.mq.receivers != [] ==> |s.mq.queue| + 1 <= |ReadyReceivers(s'.pcs)|
    ensures s'.mq.senders != [] ==> |s.mq.free| <= |ReadySenders(s'.pcs)|
    ensures forall u | !PcOf(s, u).RecvWait? :: PcOf(s', u) == PcOf(s, u)
  {
    if s.mq.receivers != [] {
      var t := s.mq.receivers[0];
      assert PcOf(s, t).RecvWait?;
      var p := s'.pcs[t];
      MoveHeld(s.pcs, t, p);
      MoveReady(s.pcs, t, p);
      RemoveDistinct(s.mq.receivers, 0);
      assert s.mq.receivers[1..] == RemoveAt(s.mq.receivers, 0);
      WaitingMove(s, s', t, p);
      PayloadsMove(c, s, s', t, p);
    }
  }

  /** Resuming the first sender promises it one more block. */
  lemma WakeSender(c: Config, s: State, s': State)
    requires Inv(c, s)
    requires s' == s.(mq := s.mq.(senders := Rest(s.mq.senders)), pcs := Wake(s.pcs, First(s.mq.senders)))
    ensures Held(s'.pcs) == Held(s.pcs) && Waiting(s') && Payloads(c, s')
    ensures s'.mq.senders != [] ==> |s.mq.free| + 1 <= |ReadySenders(s'.pcs)|
    ensures s'.mq.receivers != [] ==> |s.mq.queue| <= |ReadyReceivers(s'.pcs)|
    ensures forall u | !PcOf(s, u).SendWait? :: PcOf(s', u) == PcOf(s, u)
  {
    if s.mq.senders != [] {
      var t := s.mq.senders[0];
      assert PcOf(s, t).SendWait?;
      assert PayloadOk(c, s.data, s.pcs[t]);
      var p := s'.pcs[t];
      MoveHeld(s.pcs, t, p);
      MoveReady(s.pcs, t, p);
      RemoveDistinct(s.mq.senders, 0);
      assert s.mq.senders[1..] == RemoveAt(s.mq.senders, 0);
      WaitingMove(s, s', t, p);
      PayloadsMove(c, s, s', t, p);
    }
  }

  lemma StayUnready(pcs: map<Tid, Pc>, t: Tid, p: Pc)
    requires t in pcs && !pcs[t].RecvReady? && !pcs[t].SendReady? && !p.RecvReady? && !p.SendReady?
    ensures |ReadyReceivers(pcs[t := p])| == |ReadyReceivers(pcs)|
    ensures |ReadySenders(pcs[t := p])| == |ReadySenders(pcs)|
  {
    assert ReadyReceivers(pcs[t := p]) == ReadyReceivers(pcs);
    assert ReadySenders(pcs[t := p]) == ReadySenders(pcs);
  }

  /** Places in which a thread neither waits, nor is about to look again, nor has a block. */
  predicate AtRest(p: Pc) { p.Idle? || p.Received? || p.Failed? }

  /** The holder of a block is done with it. */
  lemma GapEnds(c: Config, w: State, s': State, t: Tid, p: Pc)
    requires Waiting(w) && Payloads(c, w) && Busy(PcOf(w, t)) && AtRest(p)
    requires s'.pcs == w.pcs[t := p] && s'.data == w.data
    requires s'.mq.receivers == w.mq.receivers && s'.mq.senders == w.mq.senders
    ensures Waiting(s') && Payloads(c, s') && Held(s'.pcs) == Held(w.pcs) - {t}
    ensures |ReadyReceivers(s'.pcs)| == |ReadyReceivers(w.pcs)| && |ReadySenders(s'.pcs)| == |ReadySenders(w.pcs)|
  {
    MoveHeld(w.pcs, t, p);
    StayUnready(w.pcs, t, p);
    WaitingMove(w, s', t, p);
    PayloadsMove(c, w, s', t, p);
  }

  lemma LinkKeeps(c: Config, s: State, t: Tid)
    requires Inv(c, s)
    ensures Inv(c, LinkBlock(s, t))
  {
    var s' := LinkBlock(s, t);
    if s' != s {
      var b := PcOf(s, t).block;
      var w := s.(mq := s.mq.(receivers := Rest(s.mq.receivers)), pcs := Wake(s.pcs, First(s.mq.receivers)));
      WakeReceiver(c, s, w);
      GapEnds(c, w, s', t, Idle);
      PartitionLink(c.maxMsgs, s.mq.queue, s.mq.free, Held(s.pcs), t, PcOf(s, t).urgent);
    }
  }

  lemma PartitionLink(n: nat, q: seq<nat>, f: seq<nat>, held: map<Tid, nat>, t: Tid, urgent: bool)
    requires Partition(n, q, f, held) && t in held
    ensures Partition(n, if urgent then [held[t]] + q else q + [held[t]], f, held - {t})
  {
    var b := held[t];
    assert InsertAt(q + f, 0, b) == ([b] + q) + f && InsertAt(q + f, |q|, b) == (q + [b]) + f;
    PartitionReturn(n, q, f, held, t, if urgent then 0 else |q|, if urgent then [b] + q else q + [b], f);
  }

  lemma PartitionGive(n: nat, q: seq<nat>, f: seq<nat>, held: map<Tid, nat>, t: Tid)
    requires Partition(n, q, f, held) && t in held
    ensures Partition(n, q, [held[t]] + f, held - {t})
  {
    assert InsertAt(q + f, |q|, held[t]) == q + ([held[t]] + f);
    PartitionReturn(n, q, f, held, t, |q|, q, [held[t]] + f);
  }

  lemma GiveKeeps(c: Config, s: State, t: Tid)
    requires Inv(c, s)
    ensures Inv(c, GiveBlock(c, s, t))
  {
    var s' := GiveBlock(c, s, t);
    if s' != s {
      var w := s.(mq := s.mq.(senders := Rest(s.mq.senders)), pcs := Wake(s.pcs, First(s.mq.senders)));
      WakeSender(c, s, w);
      GapEnds(c, w, s', t, s'.pcs[t]);
      PartitionGive(c.maxMsgs, s.mq.queue, s.mq.free, Held(s.pcs), t);
    }
  }

  // ----- main results ---------------------------------------------------------------------------------

  lemma StepKeeps(c: Config, s: State, a: Action)
    requires Inv(c, s)
    ensures Inv(c, Step(c, s, a))
  {
    match a {
      case Send(t, buf, timeout) =>
        if PcOf(s, t).Idle? && |buf| > c.msgSize { RestKeeps(c, s, t, Failed(ERROR)); }
        else if PcOf(s, t).Idle? && |buf| > 0 { TrySendKeeps(c, s, t, buf, timeout); }
      case Urgent(t, buf) =>
        if PcOf(s, t).Idle? && |buf| > c.msgSize { RestKeeps(c, s, t, Failed(ERROR)); }
        else if PcOf(s, t).Idle? && |buf| > 0 { TryUrgentKeeps(c, s, t, buf); }
      case Recv(t, size, timeout) =>
        if PcOf(s, t).Idle? && 0 < size { TryRecvKeeps(c, s, t, size, timeout); }
      case Recheck(t, elapsed) =>
        var p := PcOf(s, t);
        if p.SendReady? {
          assert PayloadOk(c, s.data, p);
          TrySendKeeps(c, s, t, p.buf, Remaining(p.timeout, elapsed));
        } else if p.RecvReady? {
          TryRecvKeeps(c, s, t, p.size, Remaining(p.timeout, elapsed));
        }
      case CopyByte(t) => CopyKeeps(c, s, t);
      case Link(t) => LinkKeeps(c, s, t);
      case Give(t) => GiveKeeps(c, s, t);
      case Expire(t) => ExpireKeeps(c, s, t);
      case ResetQueue => ResetKeeps(c, s);
      case Return(t) => if PcOf(s, t).Failed? || PcOf(s, t).Received? { RestKeeps(c, s, t, Idle); }
    }
  }

  /** A thread at rest starts over, or comes back with an error. */
  lemma RestKeeps(c: Config, s: State, t: Tid, p: Pc)
    requires Inv(c, s) && AtRest(PcOf(s, t)) && AtRest(p)
    ensures Inv(c, s.(pcs := s.pcs[t := p]))
  {
    var s' := s.(pcs := s.pcs[t := p]);
    MoveHeld(s.pcs, t, p);
    WakeupsMove(s, s', t, p);
    WaitingMove(s, s', t, p);
    PayloadsMove(c, s, s', t, p);
  }

  lemma PartitionBoot(n: nat)
    ensures Partition(n, [], Countdown(n), map[])
  {
    var f := Countdown(n);
    assert [] + f == f;
    forall b: nat | b < n ensures b in f {
      assert f[n - 1 - b] == b;
    }
  }

  lemma BootInv(c: Config)
    ensures Inv(c, Boot(c))
  {
    PartitionBoot(c.maxMsgs);
    assert Held(Boot(c).pcs) == map[];
  }

  /** Whatever the threads do and however they interleave: the pool stays partitioned, payloads in
      flight stay intact, wait lists are exact and no wakeup is lost. */
  lemma {:induction false} RunKeeps(c: Config, s: State, actions: seq<Action>)
    requires Inv(c, s)
    ensures Inv(c, Run(c, s, actions))
    decreases actions
  {
    if actions != [] {
      StepKeeps(c, s, actions[0]);
      RunKeeps(c, Step(c, s, actions[0]), actions[1..]);
    }
  }

  lemma {:induction false} EveryRun(c: Config, actions: seq<Action>)
    ensures Inv(c, Run(c, Boot(c), actions))
  {
    BootInv(c);
    RunKeeps(c, Boot(c), actions);
  }

  /** Whoever is about to link a block finds `entry` below its maximum: the overflow branches of
      send and urgent are dead code. */
  lemma {:induction false} NoOverflow(c: Config, s: State, t: Tid)
    requires Inv(c, s) && PcOf(s, t).Filling? && c.maxMsgs <= UINT16_MAX
    ensures |s.mq.queue| < c.maxMsgs <= UINT16_MAX
  {
    var q, b := s.mq.queue, Held(s.pcs)[t];
    assert forall x | x in q :: x in q + s.mq.free;
    assert Distinct(q) by {
      assert forall i | 0 <= i < |q| :: q[i] == (q + s.mq.free)[i];
    }
    InsertDistinct(q, 0, b);
    Pigeonhole(InsertAt(q, 0, b), c.maxMsgs);
  }

  /** The queue as its users see it: the messages in order. */
  ghost function Contents(s: State): seq<seq<Byte>> {
    Messages(s.mq.queue, s.data)
  }

  ghost function Messages(q: seq<nat>, data: seq<seq<Byte>>): (m: seq<seq<Byte>>)
    ensures |m| == |q|
  {
    seq(|q|, i requires 0 <= i < |q| => BlockAt(data, q[i]))
  }

  lemma MessagesCat(q: seq<nat>, r: seq<nat>, data: seq<seq<Byte>>)
    ensures Messages(q + r, data) == Messages(q, data) + Messages(r, data)
  {
  }

  lemma MessagesWrite(q: seq<nat>, data: seq<seq<Byte>>, b: nat, bytes: seq<Byte>)
    requires b < |data| && b !in q
    ensures Messages(q, data[b := bytes]) == Messages(q, data)
  {
  }

  /** A block's bytes after `buf` has been stored in it. */
  predicate Carries(c: Config, buf: seq<Byte>, m: seq<Byte>) {
    |m| == c.msgSize && |buf| <= |m| && m[..|buf|] == buf
  }

  /** send appends its buffer, urgent prepends it, recv pops the front, reset empties the queue,
      and every other action, including every byte copied in a gap, leaves the queue as it is. */
  ghost predicate QueueEffect(c: Config, s: State, a: Action, s': State) {
    match a
    case Link(t) =>
      var p := PcOf(s, t);
      if p.Filling? && p.copied == |p.buf| then
        exists m | Carries(c, p.buf, m) ::
          Contents(s') == if p.urgent then [m] + Contents(s) else Contents(s) + [m]
      else Contents(s') == Contents(s)
    case ResetQueue => Contents(s') == []
    case Recv(t, _, _) => PopEffect(s, t, s')
    case Recheck(t, _) => PopEffect(s, t, s')
    case _ => Contents(s') == Contents(s)
  }

  /** Either `t` has just popped the front message, or the queue is unchanged. */
  ghost predicate PopEffect(s: State, t: Tid, s': State) {
    if PcOf(s', t).Draining? && !PcOf(s, t).Draining? then Contents(s) == [PcOf(s', t).msg] + Contents(s')
    else Contents(s') == Contents(s)
  }

  lemma RefinesSequence(c: Config, s: State, a: Action)
    requires Inv(c, s)
    ensures QueueEffect(c, s, a, Step(c, s, a))
  {
    match a {
      case Link(t) =>
        var p := PcOf(s, t);
        if p.Filling? && p.copied == |p.buf| {
          LinkRefines(c, s, t);
          assert Carries(c, p.buf, BlockAt(s.data, p.block));
        }
      case CopyByte(t) => CopyRefines(c, s, t);
      case Recv(t, size, timeout) =>
        if PcOf(s, t).Idle? && 0 < size { PopRefines(c, s, t, size, timeout); }
      case Recheck(t, elapsed) =>
        var p := PcOf(s, t);
        if p.RecvReady? { PopRefines(c, s, t, p.size, Remaining(p.timeout, elapsed)); }
      case _ =>
    }
  }

  lemma LinkRefines(c: Config, s: State, t: Tid)
    requires Inv(c, s) && PcOf(s, t).Filling? && PcOf(s, t).copied == |PcOf(s, t).buf|
    ensures var p := PcOf(s, t);
            var m := BlockAt(s.data, p.block);
            && Carries(c, p.buf, m)
            && Contents(LinkBlock(s, t)) == if p.urgent then [m] + Contents(s) else Contents(s) + [m]
  {
    var p, q := PcOf(s, t), s.mq.queue;
    assert PayloadOk(c, s.data, s.pcs[t]);
    assert Held(s.pcs)[t] == p.block;
    MessagesCat([p.block], q, s.data);
    MessagesCat(q, [p.block], s.data);
    assert Messages([p.block], s.data) == [BlockAt(s.data, p.block)];
  }

  lemma CopyRefines(c: Config, s: State, t: Tid)
    requires Inv(c, s)
    ensures Contents(Copy(c, s, t)) == Contents(s)
  {
    var p := PcOf(s, t);
    if p.Filling? && p.copied < |p.buf| {
      assert Held(s.pcs)[t] == p.block;
      assert PayloadOk(c, s.data, s.pcs[t]);
      assert p.block !in s.mq.queue + s.mq.free;
      MessagesWrite(s.mq.queue, s.data, p.block, s.data[p.block][p.copied := p.buf[p.copied]]);
    }
  }

  lemma PopRefines(c: Config, s: State, t: Tid, size: nat, timeout: int)
    requires Inv(c, s)
    ensures var s' := TryRecv(c, s, t, size, timeout);
            if s.mq.queue == [] then Contents(s') == Contents(s)
            else PcOf(s', t).Draining? && Contents(s) == [PcOf(s', t).msg] + Contents(s')
  {
    if s.mq.queue != [] {
      MessagesCat(s.mq.queue[..1], s.mq.queue[1..], s.data);
      assert s.mq.queue[..1] + s.mq.queue[1..] == s.mq.queue;
      assert Messages(s.mq.queue[..1], s.data) == [BlockAt(s.data, s.mq.queue[0])];
    }
  }

  /** What a completed receive hands over is the message it popped, cut to the size asked for,
      whatever happened while it was being copied out. */
  lemma {:induction false} ReceivedIntact(c: Config, actions: seq<Action>, t: Tid)
    ensures var s := Run(c, Boot(c), actions);
            var p, q := PcOf(s, t), PcOf(Step(c, s, Give(t)), t);
            p.Draining? && q.Received? ==> |p.msg| == c.msgSize && q.bytes == p.msg[..Min(p.size, c.msgSize)]
  {
    EveryRun(c, actions);
    var s := Run(c, Boot(c), actions);
    if PcOf(s, t).Draining? { assert PayloadOk(c, s.data, s.pcs[t]); }
  }

  /** Deadlock view of the wakeup invariant: in any run, once every resumed thread has rechecked,
      nobody waits for a message while one is queued, nor for a block while one is free. */
  lemma {:induction false} NobodySleepsOnWork(c: Config, actions: seq<Action>)
    ensures var s := Run(c, Boot(c), actions);
            && ((forall t | t in s.pcs :: !s.pcs[t].RecvReady?) && (exists t :: PcOf(s, t).RecvWait?)
                ==> Contents(s) == [])
            && ((forall t | t in s.pcs :: !s.pcs[t].SendReady?) && (exists t :: PcOf(s, t).SendWait?)
                ==> s.mq.free == [])
  {
    EveryRun(c, actions);
    var s := Run(c, Boot(c), actions);
    if forall t | t in s.pcs :: !s.pcs[t].RecvReady? { assert ReadyReceivers(s.pcs) == {}; }
    if forall t | t in s.pcs :: !s.pcs[t].SendReady? { assert ReadySenders(s.pcs) == {}; }
  }
}
