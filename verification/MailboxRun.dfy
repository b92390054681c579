/** The mailbox object under arbitrary interleaving: every action of MailboxSteps, carried out on the
    cells, the two offsets and the counter. */
module MailboxRun {
  import opened Lists
  import opened Kernel
  import opened Mailbox
  import opened MailboxSteps

  class Postbox {
    const c: Config
    const ring: Ring
    var pcs: map<Tid, Pc>

    ghost function Model(): State
      requires ring.Valid()
      reads this, ring, ring.pool
    {
      State(ring.Model(), pcs)
    }

    ghost predicate Valid()
      reads this, ring, ring.pool
    {
      ring.Valid() && Inv(c, Model())
    }

    constructor (c: Config)
      requires c.size <= UINT16_MAX
      ensures Valid() && Model() == MailboxSteps.Boot(c) && this.c == c
      ensures fresh(ring) && fresh(ring.pool)
    {
      this.c := c;
      ring := new Ring(c.size);
      pcs := map[];
    }

    /** rt_mb_send_wait from its last look at the counter on: the message goes in without overflow, or
        the thread gives up or goes to sleep. */
    method SendSection(t: Tid, value: int, timeout: int)
      requires ring.Valid()
      modifies this, ring, ring.pool
      ensures ring.Valid() && Model() == TrySend(c, old(Model()), t, value, timeout)
    {
      if ring.entry < ring.pool.Length {
        var err, woken := ring.Send(value);
        assert err == EOK;
        pcs := Wake(pcs, woken)[t := Idle];
      } else if timeout == 0 {
        pcs := pcs[t := Failed(EFULL)];
      } else {
        ring.senders := Enqueue(c.flag, ring.senders, c.prio, t);
        pcs := pcs[t := SendWait(value, timeout)];
      }
    }

    method UrgentSection(t: Tid, value: int)
      requires ring.Valid()
      modifies this, ring, ring.pool
      ensures ring.Valid() && Model() == TryUrgent(old(Model()), t, value)
    {
      var err, woken := ring.Urgent(value);
      if err == EOK {
        pcs := Wake(pcs, woken)[t := Idle];
      } else {
        pcs := pcs[t := Failed(err)];
      }
    }

    /** rt_mb_recv from its last look at the counter on. */
    method RecvSection(t: Tid, timeout: int)
      requires ring.Valid()
      modifies this, ring
      ensures ring.Valid() && Model() == TryRecv(c, old(Model()), t, timeout)
    {
      if ring.entry > 0 {
        var value, woken := ring.Recv();
        pcs := Wake(pcs, woken)[t := Received(value)];
      } else if timeout == 0 {
        pcs := pcs[t := Failed(ETIMEOUT)];
      } else {
        ring.receivers := Enqueue(c.flag, ring.receivers, c.prio, t);
        pcs := pcs[t := RecvWait(timeout)];
      }
    }

    method ExpireSection(t: Tid)
      requires ring.Valid()
      modifies this, ring
      ensures ring.Valid() && Model() == ExpireTimer(old(Model()), t)
    {
      var p := if t in pcs then pcs[t] else Idle;
      if p.SendWait? && p.timeout > 0 {
        ring.senders := Without(ring.senders, t);
        pcs := pcs[t := Failed(ETIMEOUT)];
      } else if p.RecvWait? && p.timeout > 0 {
        ring.receivers := Without(ring.receivers, t);
        pcs := pcs[t := Failed(ETIMEOUT)];
      }
    }

    method ResetSection()
      requires ring.Valid()
      modifies this, ring
      ensures ring.Valid() && Model() == Step(c, old(Model()), Reset)
    {
      ring.ResetAll();
      pcs := map t | t in pcs :: if pcs[t].SendWait? || pcs[t].RecvWait? then Failed(ERROR) else pcs[t];
    }

    /** A resumed thread looks again with what is left of its timeout. */
    method RecheckSection(t: Tid, elapsed: nat)
      requires ring.Valid()
      modifies this, ring, ring.pool
      ensures ring.Valid() && Model() == Step(c, old(Model()), Recheck(t, elapsed))
    {
      var p := if t in pcs then pcs[t] else Idle;
      if p.SendReady? {
        SendSection(t, p.value, Remaining(p.timeout, elapsed));
      } else if p.RecvReady? {
        RecvSection(t, Remaining(p.timeout, elapsed));
      }
    }

    method CallSection(a: Action)
      requires ring.Valid() && (a.Send? || a.Urgent? || a.Recv?)
      modifies this, ring, ring.pool
      ensures ring.Valid() && Model() == Step(c, old(Model()), a)
    {
      var p := if a.t in pcs then pcs[a.t] else Idle;
      if p.Idle? {
        match a {
          case Send(t, value, timeout) => SendSection(t, value, timeout);
          case Urgent(t, value) => UrgentSection(t, value);
          case Recv(t, timeout) => RecvSection(t, timeout);
        }
      }
    }

    method ReturnSection(t: Tid)
      requires ring.Valid()
      modifies this
      ensures ring.Valid() && Model() == Step(c, old(Model()), Return(t))
    {
      if t in pcs && (pcs[t].Failed? || pcs[t].Received?) { pcs := pcs[t := Idle]; }
    }

    /** Whatever action comes next, of whatever thread: cells, offsets and counter change as the model
        says, and the object stays valid. */
    method Perform(a: Action)
      requires Valid()
      modifies this, ring, ring.pool
      ensures Valid() && Model() == Step(c, old(Model()), a)
    {
      StepKeeps(c, Model(), a);
      match a {
        case Send(_, _, _) => CallSection(a);
        case Urgent(_, _) => CallSection(a);
        case Recv(_, _) => CallSection(a);
        case Recheck(t, elapsed) => RecheckSection(t, elapsed);
        case Expire(t) => ExpireSection(t);
        case Reset => ResetSection();
        case Return(t) => ReturnSection(t);
      }
    }

    /** Every interleaving: from an initialised object, any sequence of actions leaves it valid, in the
        state of the run. */
    method PerformAll(actions: seq<Action>)
      requires Valid()
      modifies this, ring, ring.pool
      ensures Valid() && Model() == Run(c, old(Model()), actions)
    {
      var i := 0;
      assert actions[0..] == actions;
      while i < |actions|
        invariant 0 <= i <= |actions| && Valid()
        invariant Run(c, Model(), actions[i..]) == Run(c, old(Model()), actions)
      {
        assert actions[i..][1..] == actions[i + 1..];
        Perform(actions[i]);
        i := i + 1;
      }
      assert actions[i..] == [];
    }

    /** What Valid() means for the words the source keeps: the counter is the number of messages, the next
        free cell lies that far behind the first message, and the k-th message lies k cells behind it. */
    lemma Words()
      requires Valid()
      ensures ring.entry == |Model().box.msgs| <= c.size == ring.pool.Length <= UINT16_MAX
      ensures c.size > 0 ==> ring.inOffset == (ring.outOffset + ring.entry) % c.size
      ensures forall k | 0 <= k < ring.entry ::
                (ring.outOffset + k) % c.size < c.size
                && Model().box.msgs[k] == ring.pool[(ring.outOffset + k) % c.size]
    {
      forall k | 0 <= k < ring.entry
        ensures (ring.outOffset + k) % c.size < c.size
        ensures Model().box.msgs[k] == ring.pool[(ring.outOffset + k) % c.size]
      {
        assert Slot(ring.outOffset, k, c.size) == (ring.outOffset + k) % c.size;
      }
    }
  }
}
