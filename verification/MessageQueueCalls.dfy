/** What the callers of a message queue get: a record of each thread's last call, kept beside the run,
    against what happens to the queue and to the thread later on, whoever acts in between. */
module MessageQueueCalls {
  import opened Lists
  import opened Kernel
  import opened MessageQueue
  import opened MessageQueueSteps

  /** A thread's last call, how long it has slept in it, and, of a receive, the message that stood in front
      when it took one out. */
  datatype Pending = Pending(call: Action, slept: nat, front: seq<Byte>)

  /** The message an action took off the front of the queue, if it took one. */
  ghost function TakenBy(s: State, s': State): seq<Byte> {
    if |Contents(s')| < |Contents(s)| then Contents(s)[0] else []
  }

  /** The record after one more action; only a thread that is in no call can make one. */
  ghost function Note(s: State, a: Action, s': State, calls: map<Tid, Pending>): map<Tid, Pending> {
    match a
    case Send(t, _, _) => if PcOf(s, t).Idle? then calls[t := Pending(a, 0, [])] else calls
    case Urgent(t, _) => if PcOf(s, t).Idle? then calls[t := Pending(a, 0, [])] else calls
    case Recv(t, _, _) => if PcOf(s, t).Idle? then calls[t := Pending(a, 0, TakenBy(s, s'))] else calls
    case Recheck(t, elapsed) =>
      if t in calls && (PcOf(s, t).SendReady? || PcOf(s, t).RecvReady?) then
        calls[t := Pending(calls[t].call, calls[t].slept + elapsed, TakenBy(s, s'))]
      else calls
    case _ => calls
  }

  /** The record of a whole run. */
  ghost function Recorded(c: Config, s: State, actions: seq<Action>, calls: map<Tid, Pending>): map<Tid, Pending>
    decreases actions
  {
    if actions == [] then calls
    else
      var s' := Step(c, s, actions[0]);
      Recorded(c, s', actions[1..], Note(s, actions[0], s', calls))
  }

  predicate IsSend(a: Action, t: Tid, buf: seq<Byte>) { a.Send? && a.t == t && a.buf == buf }

  predicate IsUrgent(a: Action, t: Tid, buf: seq<Byte>) { a.Urgent? && a.t == t && a.buf == buf }

  predicate IsRecv(a: Action, t: Tid, size: nat) { a.Recv? && a.t == t && a.size == size }

  /** A thread in the middle of a call is at work for the call it made last, and sleeps no longer in all
      than that call said. */
  ghost predicate Serves(t: Tid, p: Pc, calls: map<Tid, Pending>) {
    match p
    case SendWait(buf, left) => SendsFor(t, buf, left, calls)
    case SendReady(buf, left) => SendsFor(t, buf, left, calls)
    case Filling(_, buf, _, urgent) =>
      t in calls && if urgent then IsUrgent(calls[t].call, t, buf) else IsSend(calls[t].call, t, buf)
    case RecvWait(size, left) => RecvsFor(t, size, left, calls)
    case RecvReady(size, left) => RecvsFor(t, size, left, calls)
    case Draining(_, size, msg, _) => t in calls && IsRecv(calls[t].call, t, size) && calls[t].front == msg
    case _ => true
  }

  ghost predicate SendsFor(t: Tid, buf: seq<Byte>, left: int, calls: map<Tid, Pending>) {
    t in calls && IsSend(calls[t].call, t, buf) && LeftOver(calls[t].call.timeout, calls[t].slept, left)
  }

  ghost predicate RecvsFor(t: Tid, size: nat, left: int, calls: map<Tid, Pending>) {
    t in calls && IsRecv(calls[t].call, t, size) && LeftOver(calls[t].call.timeout, calls[t].slept, left)
  }

  ghost predicate AllServe(s: State, calls: map<Tid, Pending>) {
    forall t :: Serves(t, PcOf(s, t), calls)
  }

  // ----- every action keeps it -------------------------------------------------------------------

  /** One thread moves, on a record that differs for that thread alone; everybody else stays, or wakes. */
  ghost predicate Stays(p: Pc, q: Pc) {
    || p == q
    || (p.SendWait? && q == SendReady(p.buf, p.timeout))
    || (p.RecvWait? && q == RecvReady(p.size, p.timeout))
    || AtRest(q)
  }

  ghost predicate SameBut(t: Tid, calls: map<Tid, Pending>, now: map<Tid, Pending>) {
    forall u | u != t :: (u in now <==> u in calls) && (u in now ==> now[u] == calls[u])
  }

  lemma OthersServe(s: State, s': State, t: Tid, calls: map<Tid, Pending>, now: map<Tid, Pending>)
    requires AllServe(s, calls) && Serves(t, PcOf(s', t), now)
    requires forall u | u != t :: Stays(PcOf(s, u), PcOf(s', u))
    requires SameBut(t, calls, now)
    ensures AllServe(s', now)
  {
    forall u ensures Serves(u, PcOf(s', u), now) {
      if u != t {
        assert Serves(u, PcOf(s, u), calls) && Stays(PcOf(s, u), PcOf(s', u));
      }
    }
  }

  lemma WakeStays(s: State, s': State, w: Option<Tid>, t: Tid, p: Pc)
    requires s'.pcs == Wake(s.pcs, w)[t := p]
    ensures forall u | u != t :: Stays(PcOf(s, u), PcOf(s', u))
    ensures PcOf(s', t) == p
  {
  }

  lemma SendServes(c: Config, s: State, t: Tid, buf: seq<Byte>, timeout: int, calls: map<Tid, Pending>,
                   now: map<Tid, Pending>)
    requires AllServe(s, calls) && SendsFor(t, buf, timeout, now) && SameBut(t, calls, now)
    ensures AllServe(TrySend(c, s, t, buf, timeout), now)
  {
    OthersServe(s, TrySend(c, s, t, buf, timeout), t, calls, now);
  }

  lemma Shorter(s: State, s': State, m: seq<Byte>, front: seq<Byte>)
    requires Contents(s) == [m] + Contents(s') && front == TakenBy(s, s')
    ensures front == m
  {
    assert |Contents(s)| == 1 + |Contents(s')|;
  }

  /** The thread is at work on the message it took. */
  lemma PopServes(c: Config, s: State, t: Tid, size: nat, timeout: int, now: map<Tid, Pending>)
    requires Inv(c, s) && s.mq.queue != [] && RecvsFor(t, size, timeout, now)
    requires now[t].front == TakenBy(s, TryRecv(c, s, t, size, timeout))
    ensures Serves(t, PcOf(TryRecv(c, s, t, size, timeout), t), now)
  {
    var s' := TryRecv(c, s, t, size, timeout);
    PopRefines(c, s, t, size, timeout);
    Shorter(s, s', PcOf(s', t).msg, now[t].front);
  }

  lemma RecvMoves(c: Config, s: State, t: Tid, size: nat, timeout: int)
    ensures forall u | u != t :: PcOf(TryRecv(c, s, t, size, timeout), u) == PcOf(s, u)
    ensures s.mq.queue == [] ==>
              PcOf(TryRecv(c, s, t, size, timeout), t)
              == if timeout == 0 then Failed(ETIMEOUT) else RecvWait(size, timeout)
  {
  }

  lemma RecvServes(c: Config, s: State, t: Tid, size: nat, timeout: int, calls: map<Tid, Pending>,
                   now: map<Tid, Pending>)
    requires Inv(c, s) && AllServe(s, calls) && RecvsFor(t, size, timeout, now) && SameBut(t, calls, now)
    requires now[t].front == TakenBy(s, TryRecv(c, s, t, size, timeout))
    ensures AllServe(TryRecv(c, s, t, size, timeout), now)
  {
    RecvMoves(c, s, t, size, timeout);
    if s.mq.queue != [] { PopServes(c, s, t, size, timeout, now); }
    OthersServe(s, TryRecv(c, s, t, size, timeout), t, calls, now);
  }

  lemma CallServes(c: Config, s: State, a: Action, calls: map<Tid, Pending>)
    requires Inv(c, s) && AllServe(s, calls) && (a.Send? || a.Urgent? || a.Recv?)
    ensures AllServe(Step(c, s, a), Note(s, a, Step(c, s, a), calls))
  {
    var s' := Step(c, s, a);
    var now := Note(s, a, s', calls);
    if PcOf(s, a.t).Idle? {
      match a {
        case Send(t, buf, timeout) =>
          if 0 < |buf| <= c.msgSize { SendServes(c, s, t, buf, timeout, calls, now); }
          else { OthersServe(s, s', t, calls, now); }
        case Urgent(t, buf) => OthersServe(s, s', t, calls, now);
        case Recv(t, size, timeout) =>
          if size > 0 { RecvServes(c, s, t, size, timeout, calls, now); } else { OthersServe(s, s', t, calls, now); }
      }
    }
  }

  lemma RecheckServes(c: Config, s: State, t: Tid, elapsed: nat, calls: map<Tid, Pending>)
    requires Inv(c, s) && AllServe(s, calls)
    ensures var s' := Step(c, s, Recheck(t, elapsed)); AllServe(s', Note(s, Recheck(t, elapsed), s', calls))
  {
    var p, now := PcOf(s, t), Note(s, Recheck(t, elapsed), Step(c, s, Recheck(t, elapsed)), calls);
    assert Serves(t, p, calls);
    if p.SendReady? {
      RemainingAdds(calls[t].call.timeout, calls[t].slept, p.timeout, elapsed);
      SendServes(c, s, t, p.buf, Remaining(p.timeout, elapsed), calls, now);
    } else if p.RecvReady? {
      RemainingAdds(calls[t].call.timeout, calls[t].slept, p.timeout, elapsed);
      RecvServes(c, s, t, p.size, Remaining(p.timeout, elapsed), calls, now);
    }
  }

  lemma OtherServes(c: Config, s: State, a: Action, calls: map<Tid, Pending>)
    requires Inv(c, s) && AllServe(s, calls) && (a.CopyByte? || a.Link? || a.Give? || a.Expire? || a.Return?)
    ensures AllServe(Step(c, s, a), calls)
  {
    var s' := Step(c, s, a);
    assert Serves(a.t, PcOf(s, a.t), calls);
    if s' != s {
      match a {
        case Link(t) => WakeStays(s, s', First(s.mq.receivers), t, Idle);
        case Give(t) => WakeStays(s, s', First(s.mq.senders), t, Received(PcOf(s, t).got));
        case _ =>
      }
      OthersServe(s, s', a.t, calls, calls);
    }
  }

  lemma ResetServes(c: Config, s: State, calls: map<Tid, Pending>)
    requires AllServe(s, calls)
    ensures AllServe(ResetState(s), calls)
  {
    forall u ensures Serves(u, PcOf(ResetState(s), u), calls) {
      assert Serves(u, PcOf(s, u), calls);
    }
  }

  lemma StepServes(c: Config, s: State, a: Action, calls: map<Tid, Pending>)
    requires Inv(c, s) && AllServe(s, calls)
    ensures AllServe(Step(c, s, a), Note(s, a, Step(c, s, a), calls))
  {
    if a.Send? || a.Urgent? || a.Recv? {
      CallServes(c, s, a, calls);
    } else if a.Recheck? {
      RecheckServes(c, s, a.t, a.elapsed, calls);
    } else if a.ResetQueue? {
      ResetServes(c, s, calls);
    } else {
      OtherServes(c, s, a, calls);
    }
  }

  lemma {:induction false} RunServes(c: Config, s: State, actions: seq<Action>, calls: map<Tid, Pending>)
    requires Inv(c, s) && AllServe(s, calls)
    ensures Inv(c, Run(c, s, actions)) && AllServe(Run(c, s, actions), Recorded(c, s, actions, calls))
    decreases actions
  {
    if actions != [] {
      var s' := Step(c, s, actions[0]);
      StepKeeps(c, s, actions[0]);
      StepServes(c, s, actions[0], calls);
      RunServes(c, s', actions[1..], Note(s, actions[0], s', calls));
    }
  }

  // ----- what a caller gets --------------------------------------------------------------------------

  /** What the end of a call does: a send's buffer goes to the end of the queue, an urgent one's to the
      front, and a receive hands over the message that stood in front, cut to the size asked for. */
  ghost predicate Honoured(c: Config, p: Pending, before: seq<seq<Byte>>, after: seq<seq<Byte>>, place: Pc) {
    match p.call
    case Send(_, buf, _) => exists m | Carries(c, buf, m) :: after == before + [m]
    case Urgent(_, buf) => exists m | Carries(c, buf, m) :: after == [m] + before
    case Recv(_, size, _) =>
      after == before && |p.front| == c.msgSize && place == Received(p.front[..Min(size, c.msgSize)])
    case _ => false
  }

  /** In every run, with anybody acting in between: a thread that finishes its call, by linking its
      block or by giving it back, has done what it was asked for in the call it made last. */
  lemma {:induction false} CallsHonoured(c: Config, actions: seq<Action>, t: Tid, a: Action)
    requires a == Link(t) || a == Give(t)
    requires var s := Run(c, Boot(c), actions); PcOf(Step(c, s, a), t) != PcOf(s, t)
    ensures var s := Run(c, Boot(c), actions);
            var s', calls := Step(c, s, a), Recorded(c, Boot(c), actions, map[]);
            t in calls && Honoured(c, calls[t], Contents(s), Contents(s'), PcOf(s', t))
  {
    BootInv(c);
    RunServes(c, Boot(c), actions, map[]);
    var s, calls := Run(c, Boot(c), actions), Recorded(c, Boot(c), actions, map[]);
    var p := PcOf(s, t);
    assert Serves(t, p, calls);
    if a == Link(t) {
      LinkRefines(c, s, t);
      assert Carries(c, p.buf, BlockAt(s.data, p.block));
    } else {
      assert PayloadOk(c, s.data, s.pcs[t]);
    }
  }

  /** In every run: whoever sleeps sleeps for his own call, and will have slept no longer in all than that
      call said; forever if it said so. */
  lemma {:induction false} SleepsForItsCall(c: Config, actions: seq<Action>, t: Tid)
    ensures var p, calls := PcOf(Run(c, Boot(c), actions), t), Recorded(c, Boot(c), actions, map[]);
            && (p.SendWait? ==> SendsFor(t, p.buf, p.timeout, calls))
            && (p.RecvWait? ==> RecvsFor(t, p.size, p.timeout, calls))
  {
    BootInv(c);
    RunServes(c, Boot(c), actions, map[]);
    assert Serves(t, PcOf(Run(c, Boot(c), actions), t), Recorded(c, Boot(c), actions, map[]));
  }

  /** A message that is linked resumes the receiver that stands in front, a block that is given back the
      sender that does; the others stay in order, and the one resumed has all that was left of its timeout. */
  lemma FrontResumed(c: Config, s: State, t: Tid)
    requires Inv(c, s)
    ensures var s', q := Step(c, s, Link(t)), s.mq.receivers;
            PcOf(s', t) != PcOf(s, t) && q != [] ==>
              q == [q[0]] + s'.mq.receivers && PcOf(s', q[0]) == RecvReady(PcOf(s, q[0]).size, PcOf(s, q[0]).timeout)
    ensures var s', q := Step(c, s, Give(t)), s.mq.senders;
            PcOf(s', t) != PcOf(s, t) && q != [] ==>
              q == [q[0]] + s'.mq.senders && PcOf(s', q[0]) == SendReady(PcOf(s, q[0]).buf, PcOf(s, q[0]).timeout)
  {
    if s.mq.receivers != [] { assert PcOf(s, s.mq.receivers[0]).RecvWait?; }
    if s.mq.senders != [] { assert PcOf(s, s.mq.senders[0]).SendWait?; }
  }

  /** A sleeper whose time runs out comes back with ETIMEOUT, one that sleeps for ever never does. */
  lemma ExpireOutcome(c: Config, s: State, t: Tid)
    requires Inv(c, s)
    ensures var s', p := Step(c, s, Expire(t)), PcOf(s, t);
            && s'.mq.queue == s.mq.queue && s'.mq.free == s.mq.free && s'.data == s.data
            && (if (p.SendWait? || p.RecvWait?) && p.timeout > 0 then
                  && PcOf(s', t) == Failed(ETIMEOUT)
                  && (forall u :: u in s'.mq.senders <==> u in s.mq.senders && u != t)
                  && (forall u :: u in s'.mq.receivers <==> u in s.mq.receivers && u != t)
                else s' == s)
  {
    WithoutDistinct(s.mq.senders, t);
    WithoutDistinct(s.mq.receivers, t);
  }

  /** A reset frees the blocks of all messages, the last one first in line, and sends every sleeper back with
      an error; blocks in flight stay with their threads. */
  lemma ResetOutcome(c: Config, s: State)
    ensures var s', n := Step(c, s, ResetQueue), |s.mq.queue|;
            && s'.mq.queue == [] && s'.mq.senders == [] && s'.mq.receivers == [] && s'.data == s.data
            && |s'.mq.free| == n + |s.mq.free| && s'.mq.free[n..] == s.mq.free
            && (forall i | 0 <= i < n :: s'.mq.free[i] == s.mq.queue[n - 1 - i])
            && forall t :: PcOf(s', t) ==
                  if PcOf(s, t).SendWait? || PcOf(s, t).RecvWait? then Failed(ERROR) else PcOf(s, t)
  {
  }

  /** A call that is over leaves its thread free for the next one. */
  lemma ReturnOutcome(c: Config, s: State, t: Tid)
    ensures var s' := Step(c, s, Return(t));
            && s'.mq == s.mq && s'.data == s.data
            && PcOf(s', t) == if PcOf(s, t).Failed? || PcOf(s, t).Received? then Idle else PcOf(s, t)
  {
  }

  // ----- how a call starts, and how it goes through ---------------------------------------------------

  /** A send starts on a block at once, comes back with EFULL, or sleeps in its place of the wait list. */
  lemma SendStarts(c: Config, s: State, t: Tid, buf: seq<Byte>, timeout: int)
    requires PcOf(s, t).Idle? && 0 < |buf|
    ensures var s' := Step(c, s, Send(t, buf, timeout));
            && s'.data == s.data && s'.mq.queue == s.mq.queue && s'.mq.receivers == s.mq.receivers
            && (|buf| > c.msgSize ==> s'.mq == s.mq && PcOf(s', t) == Failed(ERROR))
            && (|buf| <= c.msgSize && s.mq.free != [] ==> PcOf(s', t).Filling? && PcOf(s', t).copied == 0)
            && (|buf| <= c.msgSize && s.mq.free == [] && timeout == 0 ==>
                  s'.mq == s.mq && PcOf(s', t) == Failed(EFULL))
            && (|buf| <= c.msgSize && s.mq.free == [] && timeout != 0 ==>
                  PcOf(s', t).SendWait? && JoinsQueue(c.flag, s.mq.senders, c.prio, t, s'.mq.senders))
  {
    EnqueueJoins(c.flag, s.mq.senders, c.prio, t);
  }

  /** An urgent send never sleeps. */
  lemma UrgentStarts(c: Config, s: State, t: Tid, buf: seq<Byte>)
    requires PcOf(s, t).Idle? && 0 < |buf|
    ensures var s' := Step(c, s, Urgent(t, buf));
            && s'.data == s.data && s'.mq.queue == s.mq.queue
            && s'.mq.receivers == s.mq.receivers && s'.mq.senders == s.mq.senders
            && (|buf| > c.msgSize ==> s'.mq == s.mq && PcOf(s', t) == Failed(ERROR))
            && (|buf| <= c.msgSize && s.mq.free == [] ==> s'.mq == s.mq && PcOf(s', t) == Failed(EFULL))
            && (|buf| <= c.msgSize && s.mq.free != [] ==> PcOf(s', t).Filling? && PcOf(s', t).copied == 0)
  {
  }

  /** A receive takes the front message at once, comes back with ETIMEOUT, or sleeps. */
  lemma RecvStarts(c: Config, s: State, t: Tid, size: nat, timeout: int)
    requires Inv(c, s) && PcOf(s, t).Idle? && size > 0
    ensures var s' := Step(c, s, Recv(t, size, timeout));
            && s'.data == s.data && s'.mq.free == s.mq.free && s'.mq.senders == s.mq.senders
            && (s.mq.queue != [] ==>
                  && PcOf(s', t).Draining? && PcOf(s', t).got == [] && PcOf(s', t).msg == Contents(s)[0]
                  && Contents(s') == Contents(s)[1..])
            && (s.mq.queue == [] && timeout == 0 ==> s'.mq == s.mq && PcOf(s', t) == Failed(ETIMEOUT))
            && (s.mq.queue == [] && timeout != 0 ==>
                  PcOf(s', t).RecvWait? && JoinsQueue(c.flag, s.mq.receivers, c.prio, t, s'.mq.receivers))
  {
    EnqueueJoins(c.flag, s.mq.receivers, c.prio, t);
    PopRefines(c, s, t, size, timeout);
  }

  function Repeat(a: Action, n: nat): seq<Action> {
    if n == 0 then [] else [a] + Repeat(a, n - 1)
  }

  lemma RunOne(c: Config, s: State, a: Action, rest: seq<Action>)
    ensures Run(c, s, [a] + rest) == Run(c, Step(c, s, a), rest)
  {
    assert ([a] + rest)[1..] == rest;
  }

  lemma {:induction false} RunCat(c: Config, s: State, first: seq<Action>, rest: seq<Action>)
    ensures Run(c, s, first + rest) == Run(c, Run(c, s, first), rest)
    decreases first
  {
    if first == [] {
      assert [] + rest == rest;
    } else {
      assert first + rest == [first[0]] + (first[1..] + rest);
      RunOne(c, s, first[0], first[1..] + rest);
      RunCat(c, Step(c, s, first[0]), first[1..], rest);
    }
  }

  lemma FillsByte(c: Config, s: State, t: Tid)
    requires Inv(c, s) && PcOf(s, t).Filling? && PcOf(s, t).copied < |PcOf(s, t).buf|
    ensures var s', p := Step(c, s, CopyByte(t)), PcOf(s, t);
            && Inv(c, s') && Contents(s') == Contents(s)
            && PcOf(s', t) == Filling(p.block, p.buf, p.copied + 1, p.urgent)
  {
    StepKeeps(c, s, CopyByte(t));
    CopyRefines(c, s, t);
    assert PayloadOk(c, s.data, s.pcs[t]) && Held(s.pcs)[t] == PcOf(s, t).block;
  }

  lemma DrainsPlace(c: Config, s: State, t: Tid)
    requires Inv(c, s) && PcOf(s, t).Draining? && |PcOf(s, t).got| < Min(PcOf(s, t).size, c.msgSize)
    ensures var s', p := Copy(c, s, t), PcOf(s, t);
            PcOf(s', t) == Draining(p.block, p.size, p.msg, p.msg[..|p.got| + 1])
  {
    var p := PcOf(s, t);
    assert PayloadOk(c, s.data, s.pcs[t]) && Held(s.pcs)[t] == p.block;
    assert p.msg[..|p.got|] + [p.msg[|p.got|]] == p.msg[..|p.got| + 1];
  }

  lemma DrainsByte(c: Config, s: State, t: Tid)
    requires Inv(c, s) && PcOf(s, t).Draining? && |PcOf(s, t).got| < Min(PcOf(s, t).size, c.msgSize)
    ensures var s', p := Step(c, s, CopyByte(t)), PcOf(s, t);
            && Inv(c, s') && Contents(s') == Contents(s)
            && PcOf(s', t) == Draining(p.block, p.size, p.msg, p.msg[..|p.got| + 1])
  {
    StepKeeps(c, s, CopyByte(t));
    CopyRefines(c, s, t);
    DrainsPlace(c, s, t);
  }

  /** The copy of a send goes on byte by byte to its end. */
  lemma {:induction false} Fills(c: Config, s: State, t: Tid, n: nat)
    requires Inv(c, s) && PcOf(s, t).Filling? && PcOf(s, t).copied + n == |PcOf(s, t).buf|
    ensures var s', p := Run(c, s, Repeat(CopyByte(t), n)), PcOf(s, t);
            && Inv(c, s') && Contents(s') == Contents(s)
            && PcOf(s', t) == Filling(p.block, p.buf, |p.buf|, p.urgent)
    decreases n
  {
    if n > 0 {
      FillsByte(c, s, t);
      RunOne(c, s, CopyByte(t), Repeat(CopyByte(t), n - 1));
      Fills(c, Step(c, s, CopyByte(t)), t, n - 1);
    }
  }

  /** So does the copy of a receive. */
  lemma {:induction false} Drains(c: Config, s: State, t: Tid, n: nat)
    requires Inv(c, s) && PcOf(s, t).Draining? && |PcOf(s, t).got| + n == Min(PcOf(s, t).size, c.msgSize)
    ensures var s', p := Run(c, s, Repeat(CopyByte(t), n)), PcOf(s, t);
            && Inv(c, s') && Contents(s') == Contents(s)
            && |p.msg| == c.msgSize
            && PcOf(s', t) == Draining(p.block, p.size, p.msg, p.msg[..Min(p.size, c.msgSize)])
    decreases n
  {
    if n > 0 {
      DrainsByte(c, s, t);
      RunOne(c, s, CopyByte(t), Repeat(CopyByte(t), n - 1));
      Drains(c, Step(c, s, CopyByte(t)), t, n - 1);
    } else {
      assert PayloadOk(c, s.data, s.pcs[t]);
    }
  }

  /** A whole send with a block free: its buffer is the last message. */
  lemma {:induction false} SendGoesThrough(c: Config, s: State, t: Tid, buf: seq<Byte>, timeout: int)
    requires Inv(c, s) && PcOf(s, t).Idle? && 0 < |buf| <= c.msgSize && s.mq.free != []
    ensures var s' := Run(c, s, [Send(t, buf, timeout)] + (Repeat(CopyByte(t), |buf|) + [Link(t)]));
            && PcOf(s', t).Idle?
            && exists m | Carries(c, buf, m) :: Contents(s') == Contents(s) + [m]
  {
    var s1 := Step(c, s, Send(t, buf, timeout));
    StepKeeps(c, s, Send(t, buf, timeout));
    Fills(c, s1, t, |buf|);
    var s2 := Run(c, s1, Repeat(CopyByte(t), |buf|));
    RunOne(c, s, Send(t, buf, timeout), Repeat(CopyByte(t), |buf|) + [Link(t)]);
    RunCat(c, s1, Repeat(CopyByte(t), |buf|), [Link(t)]);
    LinkEnds(c, s2, t);
  }

  lemma LinkEnds(c: Config, s: State, t: Tid)
    requires Inv(c, s) && PcOf(s, t).Filling? && PcOf(s, t).copied == |PcOf(s, t).buf|
    ensures var p, s' := PcOf(s, t), Run(c, s, [Link(t)]);
            && s' == Step(c, s, Link(t)) && PcOf(s', t).Idle?
            && exists m | Carries(c, p.buf, m) ::
                 Contents(s') == if p.urgent then [m] + Contents(s) else Contents(s) + [m]
  {
    assert [Link(t)] == [Link(t)] + [];
    RunOne(c, s, Link(t), []);
    LinkRefines(c, s, t);
    assert Carries(c, PcOf(s, t).buf, BlockAt(s.data, PcOf(s, t).block));
  }

  /** A whole urgent send: its buffer is the first message. */
  lemma {:induction false} UrgentGoesThrough(c: Config, s: State, t: Tid, buf: seq<Byte>)
    requires Inv(c, s) && PcOf(s, t).Idle? && 0 < |buf| <= c.msgSize && s.mq.free != []
    ensures var s' := Run(c, s, [Urgent(t, buf)] + (Repeat(CopyByte(t), |buf|) + [Link(t)]));
            && PcOf(s', t).Idle?
            && exists m | Carries(c, buf, m) :: Contents(s') == [m] + Contents(s)
  {
    var s1 := Step(c, s, Urgent(t, buf));
    StepKeeps(c, s, Urgent(t, buf));
    Fills(c, s1, t, |buf|);
    var s2 := Run(c, s1, Repeat(CopyByte(t), |buf|));
    RunOne(c, s, Urgent(t, buf), Repeat(CopyByte(t), |buf|) + [Link(t)]);
    RunCat(c, s1, Repeat(CopyByte(t), |buf|), [Link(t)]);
    LinkEnds(c, s2, t);
  }

  lemma GiveEnds(c: Config, s: State, t: Tid)
    requires PcOf(s, t).Draining? && |PcOf(s, t).got| == Min(PcOf(s, t).size, c.msgSize)
    ensures var s' := Run(c, s, [Give(t)]); PcOf(s', t) == Received(PcOf(s, t).got) && Contents(s') == Contents(s)
  {
    assert [Give(t)] == [Give(t)] + [];
    RunOne(c, s, Give(t), []);
  }

  /** Every queued message has the size of a block. */
  lemma FrontSize(c: Config, s: State)
    requires Inv(c, s) && Contents(s) != []
    ensures |Contents(s)[0]| == c.msgSize
  {
    assert s.mq.queue[0] in s.mq.queue + s.mq.free;
  }

  /** A whole receive with a message there: it hands the first one over, cut to size. */
  lemma {:induction false} RecvGoesThrough(c: Config, s: State, t: Tid, size: nat, timeout: int)
    requires Inv(c, s) && PcOf(s, t).Idle? && size > 0 && Contents(s) != []
    ensures var n := Min(size, c.msgSize);
            var s' := Run(c, s, [Recv(t, size, timeout)] + (Repeat(CopyByte(t), n) + [Give(t)]));
            && |Contents(s)[0]| == c.msgSize
            && PcOf(s', t) == Received(Contents(s)[0][..n]) && Contents(s') == Contents(s)[1..]
  {
    var n, s1 := Min(size, c.msgSize), Step(c, s, Recv(t, size, timeout));
    FrontSize(c, s);
    StepKeeps(c, s, Recv(t, size, timeout));
    RecvStarts(c, s, t, size, timeout);
    assert PcOf(s1, t).size == size;
    Drains(c, s1, t, n);
    RunOne(c, s, Recv(t, size, timeout), Repeat(CopyByte(t), n) + [Give(t)]);
    RunCat(c, s1, Repeat(CopyByte(t), n), [Give(t)]);
    GiveEnds(c, Run(c, s1, Repeat(CopyByte(t), n)), t);
  }
}
