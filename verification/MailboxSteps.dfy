/** Runs of a mailbox shared by any number of threads (rt-thread/src/ipc.c).

    The mailbox has no gaps: a whole send or receive, from the last check of the loop condition to
    the resumption of a waiter, is one action.  Threads suspend, are resumed, recheck, and may find
    that another thread was faster. */
module MailboxSteps {
  import opened Lists
  import opened Kernel
  import opened Mailbox

  datatype Config = Config(size: nat, flag: Flag, prio: map<Tid, int>)

  datatype Pc =
    | Idle
    | SendWait(value: int, timeout: int)
    | SendReady(value: int, timeout: int)
    | RecvWait(timeout: int)
    | RecvReady(timeout: int)
    | Received(value: int)
    | Failed(err: Err)

  datatype State = State(box: Box<int>, pcs: map<Tid, Pc>)

  datatype Action =
    | Send(t: Tid, value: int, timeout: int)
    | Urgent(t: Tid, value: int)
    | Recv(t: Tid, timeout: int)
    | Recheck(t: Tid, elapsed: nat)
    | Expire(t: Tid)
    | Reset
    | Return(t: Tid)

  function PcOf(s: State, t: Tid): Pc {
    if t in s.pcs then s.pcs[t] else Idle
  }

  function Wake(pcs: map<Tid, Pc>, w: Option<Tid>): map<Tid, Pc> {
    if w.None? || w.value !in pcs then pcs
    else match pcs[w.value]
      case SendWait(v, timeout) => pcs[w.value := SendReady(v, timeout)]
      case RecvWait(timeout) => pcs[w.value := RecvReady(timeout)]
      case _ => pcs
  }

  function TrySend(c: Config, s: State, t: Tid, v: int, timeout: int): State {
    if |s.box.msgs| == s.box.size then
      if timeout == 0 then s.(pcs := s.pcs[t := Failed(EFULL)])
      else State(s.box.(senders := Enqueue(c.flag, s.box.senders, c.prio, t)), s.pcs[t := SendWait(v, timeout)])
    else State(PushBack(s.box, v), Wake(s.pcs, First(s.box.receivers))[t := Idle])
  }

  function TryUrgent(s: State, t: Tid, v: int): State {
    if |s.box.msgs| == s.box.size then s.(pcs := s.pcs[t := Failed(EFULL)])
    else State(PushFront(s.box, v), Wake(s.pcs, First(s.box.receivers))[t := Idle])
  }

  function TryRecv(c: Config, s: State, t: Tid, timeout: int): State {
    if s.box.msgs == [] then
      if timeout == 0 then s.(pcs := s.pcs[t := Failed(ETIMEOUT)])
      else State(s.box.(receivers := Enqueue(c.flag, s.box.receivers, c.prio, t)), s.pcs[t := RecvWait(timeout)])
    else State(PopFront(s.box), Wake(s.pcs, First(s.box.senders))[t := Received(s.box.msgs[0])])
  }

  function ExpireTimer(s: State, t: Tid): State {
    match PcOf(s, t)
    case SendWait(_, timeout) =>
      if timeout > 0 then State(s.box.(senders := Without(s.box.senders, t)), s.pcs[t := Failed(ETIMEOUT)]) else s
    case RecvWait(timeout) =>
      if timeout > 0 then State(s.box.(receivers := Without(s.box.receivers, t)), s.pcs[t := Failed(ETIMEOUT)]) else s
    case _ => s
  }

  function Step(c: Config, s: State, a: Action): State {
    match a
    case Send(t, v, timeout) => if PcOf(s, t).Idle? then TrySend(c, s, t, v, timeout) else s
    case Urgent(t, v) => if PcOf(s, t).Idle? then TryUrgent(s, t, v) else s
    case Recv(t, timeout) => if PcOf(s, t).Idle? then TryRecv(c, s, t, timeout) else s
    case Recheck(t, elapsed) =>
      (match PcOf(s, t)
       case SendReady(v, timeout) => TrySend(c, s, t, v, Remaining(timeout, elapsed))
       case RecvReady(timeout) => TryRecv(c, s, t, Remaining(timeout, elapsed))
       case _ => s)
    case Expire(t) => ExpireTimer(s, t)
    case Reset =>
      State(Emptied(s.box),
            map t | t in s.pcs :: if s.pcs[t].SendWait? || s.pcs[t].RecvWait? then Failed(ERROR) else s.pcs[t])
    case Return(t) => if PcOf(s, t).Failed? || PcOf(s, t).Received? then s.(pcs := s.pcs[t := Idle]) else s
  }

  function Run(c: Config, s: State, actions: seq<Action>): State
    decreases actions
  {
    if actions == [] then s else Run(c, Step(c, s, actions[0]), actions[1..])
  }

  function Boot(c: Config): State { State(Box(c.size, [], [], []), map[]) }

  // ----- what every run keeps ---------------------------------------------------------------

  predicate IsRecvWait(p: Pc) { p.RecvWait? }

  predicate IsSendWait(p: Pc) { p.SendWait? }

  ghost predicate Waiting(s: State) {
    Exact(s.box.receivers, s.pcs, IsRecvWait) && Exact(s.box.senders, s.pcs, IsSendWait)
  }

  predicate IsRecvReady(p: Pc) { p.RecvReady? }

  predicate IsSendReady(p: Pc) { p.SendReady? }

  ghost function ReadyReceivers(pcs: map<Tid, Pc>): set<Tid> { Placed(pcs, IsRecvReady) }

  ghost function ReadySenders(pcs: map<Tid, Pc>): set<Tid> { Placed(pcs, IsSendReady) }

  /** While a receiver is suspended, the messages in the box are at most the receivers resumed and
      not yet back; while a sender is suspended, the same holds of free cells and senders. */
  ghost predicate NoLostWakeups(s: State) {
    && (s.box.receivers != [] ==> |s.box.msgs| <= |ReadyReceivers(s.pcs)|)
    && (s.box.senders != [] ==> s.box.size - |s.box.msgs| <= |ReadySenders(s.pcs)|)
  }

  ghost predicate Inv(c: Config, s: State) {
    s.box.size == c.size && |s.box.msgs| <= c.size && Waiting(s) && NoLostWakeups(s)
  }

  lemma MoveReady(pcs: map<Tid, Pc>, t: Tid, p: Pc)
    ensures |ReadyReceivers(pcs[t := p])| == |ReadyReceivers(pcs) - {t}| + (if p.RecvReady? then 1 else 0)
    ensures |ReadySenders(pcs[t := p])| == |ReadySenders(pcs) - {t}| + (if p.SendReady? then 1 else 0)
  {
    PlacedMove(pcs, IsRecvReady, t, p);
    PlacedMove(pcs, IsSendReady, t, p);
  }

  lemma WaitingMove(s: State, s': State, t: Tid, p: Pc)
    requires Waiting(s) && s'.pcs == s.pcs[t := p]
    requires Distinct(s'.box.receivers) && Distinct(s'.box.senders)
    requires forall u :: u in s'.box.receivers <==> if u == t then p.RecvWait? else u in s.box.receivers
    requires forall u :: u in s'.box.senders <==> if u == t then p.SendWait? else u in s.box.senders
    ensures Waiting(s')
  {
    ExactMove(s.box.receivers, s'.box.receivers, s.pcs, IsRecvWait, t, p);
    ExactMove(s.box.senders, s'.box.senders, s.pcs, IsSendWait, t, p);
  }

  /** A thread goes to sleep, or wakes with an error, or starts over: messages stay put. */
  lemma IdleMove(c: Config, s: State, s': State, t: Tid, p: Pc)
    requires Inv(c, s) && s'.pcs == s.pcs[t := p] && !p.RecvReady? && !p.SendReady?
    requires s'.box.size == s.box.size && s'.box.msgs == s.box.msgs && Waiting(s')
    requires s'.box.receivers != [] ==> s.box.msgs == [] || (s.box.receivers != [] && !PcOf(s, t).RecvReady?)
    requires s'.box.senders != [] ==> |s.box.msgs| == s.box.size || (s.box.senders != [] && !PcOf(s, t).SendReady?)
    ensures Inv(c, s')
  {
    MoveReady(s.pcs, t, p);
  }

  /** A message goes in: the first receiver is promised it. */
  lemma PutKeeps(c: Config, s: State, t: Tid, b: Box<int>)
    requires Inv(c, s) && |s.box.msgs| < s.box.size
    requires PcOf(s, t).Idle? || PcOf(s, t).SendReady?
    requires b == s.box.(msgs := b.msgs, receivers := Rest(s.box.receivers)) && |b.msgs| == |s.box.msgs| + 1
    ensures Inv(c, State(b, Wake(s.pcs, First(s.box.receivers))[t := Idle]))
  {
    var w := State(b, Wake(s.pcs, First(s.box.receivers)));
    if s.box.receivers != [] {
      var r := s.box.receivers[0];
      assert PcOf(s, r).RecvWait?;
      MoveReady(s.pcs, r, w.pcs[r]);
      assert s.box.receivers[1..] == RemoveAt(s.box.receivers, 0);
      RemoveDistinct(s.box.receivers, 0);
      WaitingMove(s, w, r, w.pcs[r]);
    }
    MoveReady(w.pcs, t, Idle);
    WaitingMove(w, State(b, w.pcs[t := Idle]), t, Idle);
  }

  lemma WakeSender(c: Config, s: State, w: State)
    requires Inv(c, s) && s.box.msgs != []
    requires w == State(PopFront(s.box), Wake(s.pcs, First(s.box.senders)))
    ensures Waiting(w) && |ReadyReceivers(w.pcs)| == |ReadyReceivers(s.pcs)|
    ensures w.box.senders != [] ==> w.box.size - |w.box.msgs| <= |ReadySenders(w.pcs)|
    ensures forall u | !PcOf(s, u).SendWait? :: PcOf(w, u) == PcOf(s, u)
  {
    if s.box.senders != [] {
      var r := s.box.senders[0];
      assert PcOf(s, r).SendWait?;
      MoveReady(s.pcs, r, w.pcs[r]);
      assert s.box.senders[1..] == RemoveAt(s.box.senders, 0);
      RemoveDistinct(s.box.senders, 0);
      WaitingMove(s, w, r, w.pcs[r]);
    }
  }

  /** A message comes out: the first sender is promised its cell. */
  lemma TakeKeeps(c: Config, s: State, t: Tid)
    requires Inv(c, s) && s.box.msgs != []
    requires PcOf(s, t).Idle? || PcOf(s, t).RecvReady?
    ensures Inv(c, State(PopFront(s.box), Wake(s.pcs, First(s.box.senders))[t := Received(s.box.msgs[0])]))
  {
    var p := Received(s.box.msgs[0]);
    var w := State(PopFront(s.box), Wake(s.pcs, First(s.box.senders)));
    WakeSender(c, s, w);
    MoveReady(w.pcs, t, p);
    WaitingMove(w, State(w.box, w.pcs[t := p]), t, p);
  }

  lemma TrySendKeeps(c: Config, s: State, t: Tid, v: int, timeout: int)
    requires Inv(c, s) && (PcOf(s, t).Idle? || PcOf(s, t).SendReady?)
    ensures Inv(c, TrySend(c, s, t, v, timeout))
  {
    var s' := TrySend(c, s, t, v, timeout);
    if |s.box.msgs| < s.box.size {
      PutKeeps(c, s, t, PushBack(s.box, v));
    } else {
      EnqueueDistinct(c.flag, s.box.senders, c.prio, t);
      WaitingMove(s, s', t, s'.pcs[t]);
      IdleMove(c, s, s', t, s'.pcs[t]);
    }
  }

  lemma TryRecvKeeps(c: Config, s: State, t: Tid, timeout: int)
    requires Inv(c, s) && (PcOf(s, t).Idle? || PcOf(s, t).RecvReady?)
    ensures Inv(c, TryRecv(c, s, t, timeout))
  {
    var s' := TryRecv(c, s, t, timeout);
    if s.box.msgs != [] {
      TakeKeeps(c, s, t);
    } else {
      EnqueueDistinct(c.flag, s.box.receivers, c.prio, t);
      WaitingMove(s, s', t, s'.pcs[t]);
      IdleMove(c, s, s', t, s'.pcs[t]);
    }
  }

  lemma StepKeeps(c: Config, s: State, a: Action)
    requires Inv(c, s)
    ensures Inv(c, Step(c, s, a))
  {
    var s' := Step(c, s, a);
    match a {
      case Send(t, v, timeout) => if PcOf(s, t).Idle? { TrySendKeeps(c, s, t, v, timeout); }
      case Urgent(t, v) =>
        if PcOf(s, t).Idle? {
          if |s.box.msgs| < s.box.size { PutKeeps(c, s, t, PushFront(s.box, v)); }
          else { WaitingMove(s, s', t, s'.pcs[t]); IdleMove(c, s, s', t, s'.pcs[t]); }
        }
      case Recv(t, timeout) => if PcOf(s, t).Idle? { TryRecvKeeps(c, s, t, timeout); }
      case Recheck(t, elapsed) =>
        var p := PcOf(s, t);
        if p.SendReady? { TrySendKeeps(c, s, t, p.value, Remaining(p.timeout, elapsed)); }
        else if p.RecvReady? { TryRecvKeeps(c, s, t, Remaining(p.timeout, elapsed)); }
      case Expire(t) => ExpireKeeps(c, s, t);
      case Reset => assert forall u :: !PcOf(s', u).RecvWait? && !PcOf(s', u).SendWait?;
      case Return(t) => if s' != s { WaitingMove(s, s', t, Idle); IdleMove(c, s, s', t, Idle); }
    }
  }

  lemma ExpireKeeps(c: Config, s: State, t: Tid)
    requires Inv(c, s)
    ensures Inv(c, ExpireTimer(s, t))
  {
    var s' := ExpireTimer(s, t);
    if s' != s {
      WithoutDistinct(s.box.receivers, t);
      WithoutDistinct(s.box.senders, t);
      WaitingMove(s, s', t, s'.pcs[t]);
      IdleMove(c, s, s', t, s'.pcs[t]);
    }
  }

  // ----- main results ---------------------------------------------------------------------------

  lemma {:induction false} RunKeeps(c: Config, s: State, actions: seq<Action>)
    requires Inv(c, s)
    ensures Inv(c, Run(c, s, actions))
    decreases actions
  {
    if actions != [] {
      StepKeeps(c, s, actions[0]);
      RunKeeps(c, Step(c, s, actions[0]), actions[1..]);
    }
  }

  /** In every run: no more messages than cells, exact wait lists, no lost wakeup. */
  lemma {:induction false} EveryRun(c: Config, actions: seq<Action>)
    ensures Inv(c, Run(c, Boot(c), actions))
  {
    RunKeeps(c, Boot(c), actions);
  }

  /** Once every resumed thread has rechecked, no receiver sleeps on a message and no sender on a
      free cell, whoever stole what in between. */
  lemma {:induction false} NobodySleepsOnWork(c: Config, actions: seq<Action>)
    ensures var s := Run(c, Boot(c), actions);
            && ((forall t | t in s.pcs :: !s.pcs[t].RecvReady?) && (exists t :: PcOf(s, t).RecvWait?)
                ==> s.box.msgs == [])
            && ((forall t | t in s.pcs :: !s.pcs[t].SendReady?) && (exists t :: PcOf(s, t).SendWait?)
                ==> |s.box.msgs| == c.size)
  {
    EveryRun(c, actions);
    var s := Run(c, Boot(c), actions);
    if forall t | t in s.pcs :: !s.pcs[t].RecvReady? { assert ReadyReceivers(s.pcs) == {}; }
    if forall t | t in s.pcs :: !s.pcs[t].SendReady? { assert ReadySenders(s.pcs) == {}; }
  }
}
