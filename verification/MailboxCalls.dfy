/** What the callers of a mailbox get: a record of each thread's last call, kept beside the run, against
    what happens to the mailbox and to the thread, whoever acts in between. */
module MailboxCalls {
  import opened Lists
  import opened Kernel
  import opened Mailbox
  import opened MailboxSteps

  /** A thread's last call, and how long it has slept in it. */
  datatype Pending = Pending(call: Action, slept: nat)

  /** The record after one more action; only a thread that is in no call can make one. */
  function Note(s: State, a: Action, calls: map<Tid, Pending>): map<Tid, Pending> {
    match a
    case Send(t, _, _) => if PcOf(s, t).Idle? then calls[t := Pending(a, 0)] else calls
    case Urgent(t, _) => if PcOf(s, t).Idle? then calls[t := Pending(a, 0)] else calls
    case Recv(t, _) => if PcOf(s, t).Idle? then calls[t := Pending(a, 0)] else calls
    case Recheck(t, elapsed) =>
      if t in calls && (PcOf(s, t).SendReady? || PcOf(s, t).RecvReady?) then
        calls[t := Pending(calls[t].call, calls[t].slept + elapsed)]
      else calls
    case _ => calls
  }

  function Recorded(c: Config, s: State, actions: seq<Action>, calls: map<Tid, Pending>): map<Tid, Pending>
    decreases actions
  {
    if actions == [] then calls
    else Recorded(c, Step(c, s, actions[0]), actions[1..], Note(s, actions[0], calls))
  }

  predicate SendsFor(t: Tid, value: int, left: int, calls: map<Tid, Pending>) {
    && t in calls && calls[t].call.Send? && calls[t].call.t == t && calls[t].call.value == value
    && LeftOver(calls[t].call.timeout, calls[t].slept, left)
  }

  predicate RecvsFor(t: Tid, left: int, calls: map<Tid, Pending>) {
    && t in calls && calls[t].call.Recv? && calls[t].call.t == t
    && LeftOver(calls[t].call.timeout, calls[t].slept, left)
  }

  /** A thread in the middle of a call is at work for the call it made last, and sleeps no longer in all
      than that call said. */
  predicate Serves(t: Tid, p: Pc, calls: map<Tid, Pending>) {
    match p
    case SendWait(value, left) => SendsFor(t, value, left, calls)
    case SendReady(value, left) => SendsFor(t, value, left, calls)
    case RecvWait(left) => RecvsFor(t, left, calls)
    case RecvReady(left) => RecvsFor(t, left, calls)
    case _ => true
  }

  ghost predicate AllServe(s: State, calls: map<Tid, Pending>) {
    forall t :: Serves(t, PcOf(s, t), calls)
  }

  // ----- every action keeps it -------------------------------------------------------------------

  predicate Stays(p: Pc, q: Pc) {
    || p == q
    || (p.SendWait? && q == SendReady(p.value, p.timeout))
    || (p.RecvWait? && q == RecvReady(p.timeout))
    || q.Idle? || q.Received? || q.Failed?
  }

  ghost predicate SameBut(t: Tid, calls: map<Tid, Pending>, now: map<Tid, Pending>) {
    forall u | u != t :: (u in now <==> u in calls) && (u in now ==> now[u] == calls[u])
  }

  lemma OthersServe(s: State, s': State, t: Tid, calls: map<Tid, Pending>, now: map<Tid, Pending>)
    requires AllServe(s, calls) && Serves(t, PcOf(s', t), now) && SameBut(t, calls, now)
    requires forall u | u != t :: Stays(PcOf(s, u), PcOf(s', u))
    ensures AllServe(s', now)
  {
    forall u ensures Serves(u, PcOf(s', u), now) {
      if u != t {
        assert Serves(u, PcOf(s, u), calls) && Stays(PcOf(s, u), PcOf(s', u));
      }
    }
  }

  lemma SendServes(c: Config, s: State, t: Tid, v: int, timeout: int, calls: map<Tid, Pending>, now: map<Tid, Pending>)
    requires AllServe(s, calls) && SendsFor(t, v, timeout, now) && SameBut(t, calls, now)
    ensures AllServe(TrySend(c, s, t, v, timeout), now)
  {
    OthersServe(s, TrySend(c, s, t, v, timeout), t, calls, now);
  }

  lemma RecvServes(c: Config, s: State, t: Tid, timeout: int, calls: map<Tid, Pending>, now: map<Tid, Pending>)
    requires AllServe(s, calls) && RecvsFor(t, timeout, now) && SameBut(t, calls, now)
    ensures AllServe(TryRecv(c, s, t, timeout), now)
  {
    OthersServe(s, TryRecv(c, s, t, timeout), t, calls, now);
  }

  lemma RecheckServes(c: Config, s: State, t: Tid, elapsed: nat, calls: map<Tid, Pending>)
    requires AllServe(s, calls)
    ensures AllServe(Step(c, s, Recheck(t, elapsed)), Note(s, Recheck(t, elapsed), calls))
  {
    var p, now := PcOf(s, t), Note(s, Recheck(t, elapsed), calls);
    assert Serves(t, p, calls);
    if p.SendReady? {
      RemainingAdds(calls[t].call.timeout, calls[t].slept, p.timeout, elapsed);
      SendServes(c, s, t, p.value, Remaining(p.timeout, elapsed), calls, now);
    } else if p.RecvReady? {
      RemainingAdds(calls[t].call.timeout, calls[t].slept, p.timeout, elapsed);
      RecvServes(c, s, t, Remaining(p.timeout, elapsed), calls, now);
    }
  }

  lemma StepServes(c: Config, s: State, a: Action, calls: map<Tid, Pending>)
    requires AllServe(s, calls)
    ensures AllServe(Step(c, s, a), Note(s, a, calls))
  {
    var s', now := Step(c, s, a), Note(s, a, calls);
    match a {
      case Send(t, v, timeout) => if PcOf(s, t).Idle? { SendServes(c, s, t, v, timeout, calls, now); }
      case Urgent(t, v) => if PcOf(s, t).Idle? { OthersServe(s, s', t, calls, now); }
      case Recv(t, timeout) => if PcOf(s, t).Idle? { RecvServes(c, s, t, timeout, calls, now); }
      case Recheck(t, elapsed) => RecheckServes(c, s, t, elapsed, calls);
      case Expire(t) =>
        assert Serves(t, PcOf(s, t), calls);
        OthersServe(s, s', t, calls, now);
      case Return(t) =>
        assert Serves(t, PcOf(s, t), calls);
        OthersServe(s, s', t, calls, now);
      case Reset =>
        forall u ensures Serves(u, PcOf(s', u), now) {
          assert Serves(u, PcOf(s, u), calls);
        }
    }
  }

  lemma {:induction false} RunServes(c: Config, s: State, actions: seq<Action>, calls: map<Tid, Pending>)
    requires AllServe(s, calls)
    ensures AllServe(Run(c, s, actions), Recorded(c, s, actions, calls))
    decreases actions
  {
    if actions != [] {
      StepServes(c, s, actions[0], calls);
      RunServes(c, Step(c, s, actions[0]), actions[1..], Note(s, actions[0], calls));
    }
  }

  // ----- what a caller gets --------------------------------------------------------------------------

  /** The end of a call: a sent value is the last message, an urgent one the first, and a receive hands
      over the message that stood in front. */
  predicate Honoured(call: Action, before: seq<int>, after: seq<int>, place: Pc) {
    match call
    case Send(_, value, _) => after == before + [value] && place.Idle?
    case Urgent(_, value) => after == [value] + before && place.Idle?
    case Recv(_, _) => place.Received? && before == [place.value] + after
    case _ => false
  }

  predicate Ended(s: State, s': State, t: Tid) {
    var q := PcOf(s', t);
    (q != PcOf(s, t) && (q.Idle? || q.Received?)) || s'.box.msgs != s.box.msgs
  }

  lemma SendHonoured(c: Config, s: State, t: Tid, v: int, timeout: int, call: Action)
    requires call.Send? && call.value == v && !PcOf(s, t).Received?
    requires Ended(s, TrySend(c, s, t, v, timeout), t)
    ensures var s' := TrySend(c, s, t, v, timeout); Honoured(call, s.box.msgs, s'.box.msgs, PcOf(s', t))
  {
  }

  lemma RecvHonoured(c: Config, s: State, t: Tid, timeout: int, call: Action)
    requires call.Recv? && Ended(s, TryRecv(c, s, t, timeout), t)
    ensures var s' := TryRecv(c, s, t, timeout); Honoured(call, s.box.msgs, s'.box.msgs, PcOf(s', t))
  {
  }

  lemma StepHonoured(c: Config, s: State, t: Tid, a: Action, calls: map<Tid, Pending>)
    requires (a.Send? || a.Urgent? || a.Recv? || a.Recheck?) && a.t == t && AllServe(s, calls)
    requires Ended(s, Step(c, s, a), t)
    ensures var s', now := Step(c, s, a), Note(s, a, calls);
            t in now && Honoured(now[t].call, s.box.msgs, s'.box.msgs, PcOf(s', t))
  {
    assert Serves(t, PcOf(s, t), calls);
    match a {
      case Send(_, v, timeout) => SendHonoured(c, s, t, v, timeout, a);
      case Urgent(_, v) =>
      case Recv(_, timeout) => RecvHonoured(c, s, t, timeout, a);
      case Recheck(_, elapsed) =>
        var p := PcOf(s, t);
        if p.SendReady? {
          SendHonoured(c, s, t, p.value, Remaining(p.timeout, elapsed), calls[t].call);
        } else if p.RecvReady? {
          RecvHonoured(c, s, t, Remaining(p.timeout, elapsed), calls[t].call);
        }
    }
  }

  /** In every run, with anybody acting in between: whenever a thread's place turns to the end of a call
      by an action of its own, its last call has done to the mailbox just what it was asked for. */
  lemma {:induction false} CallsHonoured(c: Config, actions: seq<Action>, t: Tid, a: Action)
    requires (a.Send? || a.Urgent? || a.Recv? || a.Recheck?) && a.t == t
    requires var s := Run(c, Boot(c), actions); Ended(s, Step(c, s, a), t)
    ensures var s := Run(c, Boot(c), actions);
            var s', calls := Step(c, s, a), Note(s, a, Recorded(c, Boot(c), actions, map[]));
            t in calls && Honoured(calls[t].call, s.box.msgs, s'.box.msgs, PcOf(s', t))
  {
    RunServes(c, Boot(c), actions, map[]);
    StepHonoured(c, Run(c, Boot(c), actions), t, a, Recorded(c, Boot(c), actions, map[]));
  }

  /** A message that comes in resumes the receiver that stands in front, one that goes out the sender that
      does; the others stay in order, and the one resumed has all that was left of its timeout. */
  lemma FrontResumed(c: Config, s: State, a: Action)
    requires Inv(c, s) && !a.Reset?
    ensures var s' := Step(c, s, a);
            && (|s'.box.msgs| > |s.box.msgs| && s.box.receivers != [] ==>
                  var r := s.box.receivers[0];
                  && s.box.receivers == [r] + s'.box.receivers
                  && PcOf(s', r) == RecvReady(PcOf(s, r).timeout))
            && (|s'.box.msgs| < |s.box.msgs| && s.box.senders != [] ==>
                  var r := s.box.senders[0];
                  && s.box.senders == [r] + s'.box.senders
                  && PcOf(s', r) == SendReady(PcOf(s, r).value, PcOf(s, r).timeout))
  {
    if s.box.receivers != [] { assert PcOf(s, s.box.receivers[0]).RecvWait?; }
    if s.box.senders != [] { assert PcOf(s, s.box.senders[0]).SendWait?; }
  }

  /** A sleeper whose time runs out comes back with ETIMEOUT, one that sleeps for ever never does. */
  lemma ExpireOutcome(c: Config, s: State, t: Tid)
    requires Inv(c, s)
    ensures var s', p := Step(c, s, Expire(t)), PcOf(s, t);
            && s'.box.msgs == s.box.msgs
            && (if (p.SendWait? || p.RecvWait?) && p.timeout > 0 then
                  && PcOf(s', t) == Failed(ETIMEOUT)
                  && (forall u :: u in s'.box.senders <==> u in s.box.senders && u != t)
                  && (forall u :: u in s'.box.receivers <==> u in s.box.receivers && u != t)
                else s' == s)
  {
    WithoutDistinct(s.box.senders, t);
    WithoutDistinct(s.box.receivers, t);
  }

  /** A reset empties the mailbox and sends every sleeper back with an error. */
  lemma ResetOutcome(c: Config, s: State)
    ensures var s' := Step(c, s, Reset);
            && s'.box.msgs == [] && s'.box.senders == [] && s'.box.receivers == [] && s'.box.size == s.box.size
            && forall t :: PcOf(s', t) ==
                  if PcOf(s, t).SendWait? || PcOf(s, t).RecvWait? then Failed(ERROR) else PcOf(s, t)
  {
  }

  /** A call that is over leaves its thread free for the next one. */
  lemma ReturnOutcome(c: Config, s: State, t: Tid)
    ensures var s' := Step(c, s, Return(t));
            && s'.box == s.box
            && PcOf(s', t) == if PcOf(s, t).Failed? || PcOf(s, t).Received? then Idle else PcOf(s, t)
  {
  }

  /** A send goes through at once if there is room; else it comes back with EFULL, or sleeps in its place
      of the wait list.  An urgent one never sleeps. */
  lemma SendStarts(c: Config, s: State, t: Tid, v: int, timeout: int)
    requires PcOf(s, t).Idle?
    ensures var s', u := Step(c, s, Send(t, v, timeout)), Step(c, s, Urgent(t, v));
            && (|s.box.msgs| != s.box.size ==> s'.box.msgs == s.box.msgs + [v] && u.box.msgs == [v] + s.box.msgs)
            && (|s.box.msgs| == s.box.size ==>
                  && s'.box.msgs == s.box.msgs && u.box == s.box && PcOf(u, t) == Failed(EFULL)
                  && (timeout == 0 ==> s'.box == s.box && PcOf(s', t) == Failed(EFULL))
                  && (timeout != 0 ==>
                        PcOf(s', t).SendWait? && JoinsQueue(c.flag, s.box.senders, c.prio, t, s'.box.senders)))
  {
    EnqueueJoins(c.flag, s.box.senders, c.prio, t);
  }

  /** A receive takes the first message if there is one; else it comes back with ETIMEOUT, or sleeps. */
  lemma RecvStarts(c: Config, s: State, t: Tid, timeout: int)
    requires PcOf(s, t).Idle?
    ensures var s' := Step(c, s, Recv(t, timeout));
            && (s.box.msgs != [] ==> PcOf(s', t) == Received(s.box.msgs[0]) && s'.box.msgs == s.box.msgs[1..])
            && (s.box.msgs == [] ==>
                  && s'.box.msgs == []
                  && (timeout == 0 ==> s'.box == s.box && PcOf(s', t) == Failed(ETIMEOUT))
                  && (timeout != 0 ==>
                        PcOf(s', t).RecvWait? && JoinsQueue(c.flag, s.box.receivers, c.prio, t, s'.box.receivers)))
  {
    EnqueueJoins(c.flag, s.box.receivers, c.prio, t);
  }
}
