/** The message queue object under arbitrary interleaving: every action of MessageQueueSteps, carried
    out on the link words, the counter and the blocks themselves.

    Any number of threads may be in the gaps of their calls, each with a block in neither chain, while
    another thread runs a whole section. */
module MessageQueueRun {
  import opened Lists
  import opened Kernel
  import opened MessageQueue
  import opened MessageQueueSteps

  /** In the gap of a send the header of the block is cleared before the first byte is copied. */
  ghost predicate Cleared(next: seq<int>, pcs: map<Tid, Pc>) {
    forall t | t in pcs && pcs[t].Filling? && !pcs[t].urgent && pcs[t].copied > 0 ::
      pcs[t].block < |next| && next[pcs[t].block] == NULL
  }

  /** Threads filling a block after a section were filling it before, and their blocks are neither in
      a chain nor the one the section handles. */
  ghost predicate StillFilling(pcs: map<Tid, Pc>, now: map<Tid, Pc>, chained: seq<nat>, msg: int) {
    forall t | t in now && now[t].Filling? ::
      t in pcs && now[t] == pcs[t] && pcs[t].block !in chained && pcs[t].block != msg
  }

  lemma ClearedKept(was: seq<int>, next: seq<int>, pcs: map<Tid, Pc>, now: map<Tid, Pc>, chained: seq<nat>, msg: nat)
    requires Cleared(was, pcs) && OthersKept(was, next, chained, msg) && StillFilling(pcs, now, chained, msg)
    ensures Cleared(next, now)
  {
  }

  lemma ClearedByReset(was: seq<int>, next: seq<int>, pcs: map<Tid, Pc>, now: map<Tid, Pc>, chained: seq<nat>)
    requires Cleared(was, pcs) && FlightKept(was, next, chained) && StillFilling(pcs, now, chained, NULL)
    ensures Cleared(next, now)
  {
  }

  /** The block of a busy thread is in no chain. */
  lemma InFlight(c: Config, s: State, t: Tid)
    requires Inv(c, s) && Busy(PcOf(s, t))
    ensures t in s.pcs && s.pcs[t].block < c.maxMsgs && s.pcs[t].block !in s.mq.queue + s.mq.free
  {
    assert Held(s.pcs)[t] == s.pcs[t].block;
  }

  /** A thread finishes its gap, possibly waking another: whoever else fills a block goes on. */
  lemma OthersFill(c: Config, s: State, t: Tid, w: Option<Tid>, p: Pc)
    requires Inv(c, s) && Busy(PcOf(s, t)) && AtRest(p)
    ensures StillFilling(s.pcs, Wake(s.pcs, w)[t := p], s.mq.queue + s.mq.free, s.pcs[t].block)
  {
    var now := Wake(s.pcs, w)[t := p];
    forall u | u in now && now[u].Filling?
      ensures u in s.pcs && now[u] == s.pcs[u]
      ensures s.pcs[u].block !in s.mq.queue + s.mq.free && s.pcs[u].block != s.pcs[t].block
    {
      InFlight(c, s, u);
      assert Held(s.pcs)[u] == s.pcs[u].block && Held(s.pcs)[t] == s.pcs[t].block;
    }
  }

  lemma ResetFills(c: Config, s: State)
    requires Inv(c, s)
    ensures StillFilling(s.pcs, ResetState(s).pcs, s.mq.queue + s.mq.free, NULL)
  {
    forall u | u in ResetState(s).pcs && ResetState(s).pcs[u].Filling?
      ensures s.pcs[u].block !in s.mq.queue + s.mq.free
    {
      InFlight(c, s, u);
    }
  }

  /** One byte goes into the block the thread holds. */
  lemma FillsOne(c: Config, s: State, t: Tid)
    requires Inv(c, s) && PcOf(s, t).Filling? && PcOf(s, t).copied < |PcOf(s, t).buf|
    ensures var p := PcOf(s, t);
            && t in s.pcs && p.block < c.maxMsgs == |s.data| && p.block !in s.mq.queue + s.mq.free
            && p.copied < |s.data[p.block]|
            && Copy(c, s, t) == s.(data := s.data[p.block := s.data[p.block][p.copied := p.buf[p.copied]]],
                                   pcs := s.pcs[t := Filling(p.block, p.buf, p.copied + 1, p.urgent)])
  {
    InFlight(c, s, t);
    assert PayloadOk(c, s.data, s.pcs[t]);
  }

  /** One byte comes out of it. */
  lemma DrainsOne(c: Config, s: State, t: Tid)
    requires Inv(c, s) && PcOf(s, t).Draining? && |PcOf(s, t).got| < Min(PcOf(s, t).size, c.msgSize)
    ensures var p := PcOf(s, t);
            && t in s.pcs && p.block < c.maxMsgs == |s.data| && |p.got| < |s.data[p.block]|
            && Copy(c, s, t)
               == s.(pcs := s.pcs[t := Draining(p.block, p.size, p.msg, p.got + [s.data[p.block][|p.got|]])])
  {
    InFlight(c, s, t);
    assert PayloadOk(c, s.data, s.pcs[t]);
  }

  lemma CopyDone(c: Config, s: State, t: Tid)
    requires var p := PcOf(s, t);
             && (p.Filling? ==> p.copied >= |p.buf|)
             && (p.Draining? ==> |p.got| >= Min(p.size, c.msgSize))
    ensures Copy(c, s, t) == s
  {
  }

  class Channel {
    const c: Config
    const queue: Queue
    var pcs: map<Tid, Pc>

    ghost function Model(): State
      reads this, queue, queue.data
    {
      State(queue.Model(), queue.data[..], pcs)
    }

    ghost predicate Valid()
      reads this, queue, queue.next, queue.data
    {
      && queue.Valid() && queue.maxMsgs == c.maxMsgs
      && Inv(c, Model()) && Cleared(queue.next[..], pcs)
    }

    constructor (c: Config)
      requires c.maxMsgs <= UINT16_MAX
      ensures Valid() && Model() == MessageQueueSteps.Boot(c) && this.c == c
      ensures fresh(queue) && fresh(queue.next) && fresh(queue.data)
    {
      this.c := c;
      queue := new Queue(c.maxMsgs, c.msgSize);
      pcs := map[];
      new;
      assert queue.data[..] == MessageQueueSteps.Boot(c).data;
      BootInv(c);
    }

    /** The first section of send, or one more turn of its loop. */
    method SendSection(t: Tid, buf: seq<Byte>, timeout: int)
      requires queue.Valid() && Cleared(queue.next[..], pcs)
      modifies this, queue
      ensures queue.Valid() && Model() == TrySend(c, old(Model()), t, buf, timeout)
      ensures Cleared(queue.next[..], pcs)
    {
      var msg := queue.Take();
      if msg != NULL {
        pcs := pcs[t := Filling(msg, buf, 0, false)];
      } else if timeout == 0 {
        pcs := pcs[t := Failed(EFULL)];
      } else {
        SuspendSender(t, buf, timeout);
      }
    }

    method SuspendSender(t: Tid, buf: seq<Byte>, timeout: int)
      requires queue.Valid() && Cleared(queue.next[..], pcs)
      modifies this, queue
      ensures queue.Valid() && Cleared(queue.next[..], pcs)
      ensures var s := old(Model());
              Model() == s.(mq := s.mq.(senders := Enqueue(c.flag, s.mq.senders, c.prio, t)),
                            pcs := s.pcs[t := SendWait(buf, timeout)])
    {
      queue.senders := Enqueue(c.flag, queue.senders, c.prio, t);
      pcs := pcs[t := SendWait(buf, timeout)];
    }

    method UrgentSection(t: Tid, buf: seq<Byte>)
      requires queue.Valid() && Cleared(queue.next[..], pcs)
      modifies this, queue
      ensures queue.Valid() && Model() == TryUrgent(old(Model()), t, buf)
      ensures Cleared(queue.next[..], pcs)
    {
      var msg := queue.Take();
      if msg != NULL {
        pcs := pcs[t := Filling(msg, buf, 0, true)];
      } else {
        pcs := pcs[t := Failed(EFULL)];
      }
    }

    method RecvSection(t: Tid, size: nat, timeout: int)
      requires queue.Valid() && Cleared(queue.next[..], pcs)
      modifies this, queue
      ensures queue.Valid() && Model() == TryRecv(c, old(Model()), t, size, timeout)
      ensures Cleared(queue.next[..], pcs)
    {
      if queue.entry > 0 {
        var msg := queue.Pop();
        pcs := pcs[t := Draining(msg, size, queue.data[msg], [])];
      } else if timeout == 0 {
        pcs := pcs[t := Failed(ETIMEOUT)];
      } else {
        SuspendReceiver(t, size, timeout);
      }
    }

    method SuspendReceiver(t: Tid, size: nat, timeout: int)
      requires queue.Valid() && Cleared(queue.next[..], pcs)
      modifies this, queue
      ensures queue.Valid() && Cleared(queue.next[..], pcs)
      ensures var s := old(Model());
              Model() == s.(mq := s.mq.(receivers := Enqueue(c.flag, s.mq.receivers, c.prio, t)),
                            pcs := s.pcs[t := RecvWait(size, timeout)])
    {
      queue.receivers := Enqueue(c.flag, queue.receivers, c.prio, t);
      pcs := pcs[t := RecvWait(size, timeout)];
    }

    /** One byte of a copy; the first byte of a send comes after the header is cleared. */
    method CopySection(t: Tid)
      requires Valid()
      modifies this, queue.next, queue.data
      ensures queue.Valid() && Model() == Copy(c, old(Model()), t)
      ensures Cleared(queue.next[..], pcs)
    {
      ghost var s := Model();
      var p := if t in pcs then pcs[t] else Idle;
      if p.Filling? && p.copied < |p.buf| {
        FillsOne(c, s, t);
        FillByte(t, p);
      } else if p.Draining? && |p.got| < Min(p.size, c.msgSize) {
        DrainsOne(c, s, t);
        DrainByte(t, p);
      } else {
        CopyDone(c, s, t);
      }
    }

    method DrainByte(t: Tid, p: Pc)
      requires Cleared(queue.next[..], pcs) && p.Draining?
      requires p.block < queue.data.Length && |p.got| < |queue.data[p.block]|
      modifies `pcs
      ensures pcs == old(pcs)[t := Draining(p.block, p.size, p.msg, p.got + [queue.data[p.block][|p.got|]])]
      ensures Cleared(queue.next[..], pcs)
    {
      pcs := pcs[t := Draining(p.block, p.size, p.msg, p.got + [queue.data[p.block][|p.got|]])];
    }

    method FillByte(t: Tid, p: Pc)
      requires queue.Valid() && Cleared(queue.next[..], pcs)
      requires p.Filling? && p.copied < |p.buf| && t in pcs && pcs[t] == p
      requires p.block < queue.maxMsgs && p.block !in queue.queued + queue.freed
      requires p.copied < |queue.data[p.block]|
      modifies this, queue.next, queue.data
      ensures queue.Valid() && Cleared(queue.next[..], pcs)
      ensures var s := old(Model());
              Model() == s.(data := s.data[p.block := s.data[p.block][p.copied := p.buf[p.copied]]],
                            pcs := s.pcs[t := Filling(p.block, p.buf, p.copied + 1, p.urgent)])
    {
      if p.copied == 0 && !p.urgent { ClearHeader(p.block); }
      queue.PutByte(p.block, p.copied, p.buf[p.copied]);
      Advance(t, p);
    }

    method ClearHeader(block: nat)
      requires queue.Valid() && Cleared(queue.next[..], pcs)
      requires block < queue.maxMsgs && block !in queue.queued + queue.freed
      modifies queue.next
      ensures queue.Valid() && queue.Model() == old(queue.Model()) && Cleared(queue.next[..], pcs)
      ensures queue.next[block] == NULL
    {
      queue.Clear(block);
    }

    /** The thread's own place in its copy. */
    method Advance(t: Tid, p: Pc)
      requires Cleared(queue.next[..], pcs) && p.Filling? && t in pcs && pcs[t] == p
      requires p.copied == 0 && !p.urgent ==> 0 <= p.block < queue.next.Length && queue.next[p.block] == NULL
      modifies `pcs
      ensures pcs == old(pcs)[t := Filling(p.block, p.buf, p.copied + 1, p.urgent)]
      ensures Cleared(queue.next[..], pcs)
    {
      pcs := pcs[t := Filling(p.block, p.buf, p.copied + 1, p.urgent)];
    }

    /** The second section of send and of urgent: never EFULL. */
    method LinkSection(t: Tid)
      requires Valid()
      modifies this, queue, queue.next
      ensures queue.Valid() && Model() == LinkBlock(old(Model()), t)
      ensures Cleared(queue.next[..], pcs)
    {
      ghost var s := Model();
      var p := if t in pcs then pcs[t] else Idle;
      if p.Filling? && p.copied == |p.buf| {
        InFlight(c, s, t);
        assert PayloadOk(c, s.data, s.pcs[t]);
        ghost var was := queue.next[..];
        var err, woken;
        if p.urgent { err, woken := queue.Prepend(p.block); } else { err, woken := queue.Append(p.block); }
        assert err == EOK;
        OthersFill(c, s, t, woken, Idle);
        pcs := Wake(pcs, woken)[t := Idle];
        ClearedKept(was, queue.next[..], s.pcs, pcs, s.mq.queue + s.mq.free, p.block);
      }
    }

    /** The second section of recv. */
    method GiveSection(t: Tid)
      requires Valid()
      modifies this, queue, queue.next
      ensures queue.Valid() && Model() == GiveBlock(c, old(Model()), t)
      ensures Cleared(queue.next[..], pcs)
    {
      ghost var s := Model();
      var p := if t in pcs then pcs[t] else Idle;
      if p.Draining? && |p.got| == Min(p.size, c.msgSize) {
        InFlight(c, s, t);
        ghost var was := queue.next[..];
        var woken := queue.Give(p.block);
        OthersFill(c, s, t, woken, Received(p.got));
        pcs := Wake(pcs, woken)[t := Received(p.got)];
        ClearedKept(was, queue.next[..], s.pcs, pcs, s.mq.queue + s.mq.free, p.block);
      }
    }

    method ExpireSection(t: Tid)
      requires Valid()
      modifies this, queue
      ensures queue.Valid() && Model() == ExpireTimer(old(Model()), t)
      ensures Cleared(queue.next[..], pcs)
    {
      var p := if t in pcs then pcs[t] else Idle;
      if p.SendWait? && p.timeout > 0 {
        queue.senders := Without(queue.senders, t);
        pcs := pcs[t := Failed(ETIMEOUT)];
      } else if p.RecvWait? && p.timeout > 0 {
        queue.receivers := Without(queue.receivers, t);
        pcs := pcs[t := Failed(ETIMEOUT)];
      }
    }

    method ResetSection()
      requires Valid()
      modifies this, queue, queue.next
      ensures queue.Valid() && Model() == ResetState(old(Model()))
      ensures Cleared(queue.next[..], pcs)
    {
      ghost var s, was := Model(), queue.next[..];
      queue.ResetAll();
      pcs := map t | t in pcs :: if pcs[t].SendWait? || pcs[t].RecvWait? then Failed(ERROR) else pcs[t];
      ResetFills(c, s);
      ClearedByReset(was, queue.next[..], s.pcs, pcs, s.mq.queue + s.mq.free);
    }

    /** A resumed thread looks again with what is left of its timeout. */
    method RecheckSection(t: Tid, elapsed: nat)
      requires Valid()
      modifies this, queue
      ensures queue.Valid() && Model() == Step(c, old(Model()), Recheck(t, elapsed))
      ensures Cleared(queue.next[..], pcs)
    {
      var p := if t in pcs then pcs[t] else Idle;
      if p.SendReady? {
        SendSection(t, p.buf, Remaining(p.timeout, elapsed));
      } else if p.RecvReady? {
        RecvSection(t, p.size, Remaining(p.timeout, elapsed));
      }
    }

    /** A buffer longer than a message. */
    method Refuse(t: Tid)
      requires queue.Valid() && Cleared(queue.next[..], pcs)
      modifies `pcs
      ensures queue.Valid() && Model() == old(Model()).(pcs := old(pcs)[t := Failed(ERROR)])
      ensures Cleared(queue.next[..], pcs)
    {
      pcs := pcs[t := Failed(ERROR)];
    }

    /** The calls: rt_mq_send_wait, rt_mq_urgent and rt_mq_recv are not to be called with an empty buffer. */
    method CallSection(a: Action)
      requires Valid() && (a.Send? || a.Urgent? || a.Recv?)
      modifies this, queue
      ensures queue.Valid() && Model() == Step(c, old(Model()), a)
      ensures Cleared(queue.next[..], pcs)
    {
      var p := if a.t in pcs then pcs[a.t] else Idle;
      if p.Idle? {
        match a {
          case Send(t, buf, timeout) =>
            if |buf| > c.msgSize { Refuse(t); } else if |buf| > 0 { SendSection(t, buf, timeout); }
          case Urgent(t, buf) =>
            if |buf| > c.msgSize { Refuse(t); } else if |buf| > 0 { UrgentSection(t, buf); }
          case Recv(t, size, timeout) => if 0 < size { RecvSection(t, size, timeout); }
        }
      }
    }

    method ReturnSection(t: Tid)
      requires Valid()
      modifies this
      ensures queue.Valid() && Model() == Step(c, old(Model()), Return(t))
      ensures Cleared(queue.next[..], pcs)
    {
      if t in pcs && (pcs[t].Failed? || pcs[t].Received?) { pcs := pcs[t := Idle]; }
    }

    method Act(a: Action)
      requires Valid()
      modifies this, queue, queue.next, queue.data
      ensures queue.Valid() && Model() == Step(c, old(Model()), a)
      ensures Cleared(queue.next[..], pcs)
    {
      match a {
        case Recheck(t, elapsed) => RecheckSection(t, elapsed);
        case CopyByte(t) => CopySection(t);
        case Link(t) => LinkSection(t);
        case Give(t) => GiveSection(t);
        case Expire(t) => ExpireSection(t);
        case ResetQueue => ResetSection();
        case Return(t) => ReturnSection(t);
        case Send(_, _, _) => CallSection(a);
        case Urgent(_, _) => CallSection(a);
        case Recv(_, _, _) => CallSection(a);
      }
    }

    /** Whatever action comes next, of whatever thread: the words of the object change as the model says,
        entry is the length of the queue chain, head and tail are null together, both chains are intact,
        and the headers of the blocks in flight are as their threads left them. */
    method Perform(a: Action)
      requires Valid()
      modifies this, queue, queue.next, queue.data
      ensures Valid() && Model() == Step(c, old(Model()), a)
    {
      StepKeeps(c, Model(), a);
      Act(a);
    }

    /** Every interleaving: from an initialised object, any sequence of actions leaves it valid, in the
        state of the run. */
    method PerformAll(actions: seq<Action>)
      requires Valid()
      modifies this, queue, queue.next, queue.data
      ensures Valid() && Model() == Run(c, old(Model()), actions)
    {
      var i := 0;
      assert actions[0..] == actions;
      while i < |actions|
        invariant 0 <= i <= |actions| && Valid()
        invariant Run(c, Model(), actions[i..]) == Run(c, old(Model()), actions)
      {
        assert actions[i..][1..] == actions[i + 1..];
        Perform(actions[i]);
        i := i + 1;
      }
      assert actions[i..] == [];
    }

    /** What Valid() means for the words the source keeps. */
    lemma Words()
      requires Valid()
      ensures queue.entry == |Contents(Model())|
      ensures (queue.head == NULL <==> queue.tail == NULL) && (queue.head == NULL <==> queue.entry == 0)
      ensures Chained(queue.next[..], queue.head, Model().mq.queue)
              && Chained(queue.next[..], queue.free, Model().mq.free)
    {
    }
  }
}
