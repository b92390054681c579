/** The counting semaphore of rt-thread/src/ipc.c: a release hands its permit to the first waiter,
    or adds it to the value. */
module Semaphore {
  import opened Lists
  import opened Kernel

  datatype Sem = Sem(value: nat, waiters: seq<Tid>)

  datatype Taken = Granted | TimedOut | Blocked

  /** rt_sem_take up to the point where the thread returns or is suspended; trytake is timeout 0. */
  function Take(s: Sem, flag: Flag, prio: map<Tid, int>, t: Tid, timeout: int): (Sem, Taken) {
    if s.value > 0 then (s.(value := s.value - 1), Granted)
    else if timeout == 0 then (s, TimedOut)
    else (s.(waiters := Enqueue(flag, s.waiters, prio, t)), Blocked)
  }

  /** rt_sem_release, with the thread it resumes. */
  function Release(s: Sem): (Sem, Err, Option<Tid>) {
    if s.waiters != [] then (s.(waiters := s.waiters[1..]), EOK, Some(s.waiters[0]))
    else if s.value < UINT16_MAX then (s.(value := s.value + 1), EOK, None)
    else (s, EFULL, None)
  }

  /** With a permit there it is granted; without one the caller comes back at once if it does not want to
      wait, and otherwise sleeps in its place of the wait list. */
  lemma TakeOutcome(s: Sem, flag: Flag, prio: map<Tid, int>, t: Tid, timeout: int)
    ensures var (q, r) := Take(s, flag, prio, t, timeout);
            && (s.value > 0 ==> r == Granted && q.value == s.value - 1 && q.waiters == s.waiters)
            && (s.value == 0 && timeout == 0 ==> r == TimedOut && q == s)
            && (s.value == 0 && timeout != 0 ==>
                  r == Blocked && q.value == 0 && JoinsQueue(flag, s.waiters, prio, t, q.waiters))
  {
    EnqueueJoins(flag, s.waiters, prio, t);
  }

  /** RT_IPC_CMD_RESET: everybody is resumed with an error; the new value is truncated. */
  function Reset(value: nat): Sem { Sem(value % (UINT16_MAX + 1), []) }

  /** A release wakes the thread in front, or adds a permit, or finds the value at its maximum. */
  lemma ReleaseOutcome(s: Sem)
    ensures var (q, err, woken) := Release(s);
            && (s.waiters != [] ==>
                  err == EOK && q.value == s.value && woken.Some? && s.waiters == [woken.value] + q.waiters)
            && (s.waiters == [] && s.value < 65535 ==>
                  err == EOK && woken == None && q.value == s.value + 1 && q.waiters == [])
            && (s.waiters == [] && s.value >= 65535 ==> err == EFULL && woken == None && q == s)
  {
    if s.waiters != [] {
      assert s.waiters == [s.waiters[0]] + s.waiters[1..];
    } else if s.value < UINT16_MAX {
    }
  }

  // ----- runs ---------------------------------------------------------------------------------------

  datatype Action = TakeBy(t: Tid, timeout: int) | ReleaseOne | ExpireOf(t: Tid) | ResetTo(value: nat)

  /** `initial` is the value at the start or the last reset; `given` counts the releases that
      returned EOK since then, `taken` the takes that succeeded. */
  datatype History = History(sem: Sem, initial: nat, given: nat, taken: nat)

  function Step(flag: Flag, prio: map<Tid, int>, h: History, a: Action): History {
    match a
    case TakeBy(t, timeout) =>
      if t in h.sem.waiters then h
      else
        var (s, r) := Take(h.sem, flag, prio, t, timeout);
        h.(sem := s, taken := if r == Granted then h.taken + 1 else h.taken)
    case ReleaseOne =>
      var (s, err, woken) := Release(h.sem);
      h.(sem := s, given := if err == EOK then h.given + 1 else h.given,
         taken := if woken.Some? then h.taken + 1 else h.taken)
    case ExpireOf(t) => h.(sem := h.sem.(waiters := Without(h.sem.waiters, t)))
    case ResetTo(value) => History(Reset(value), Reset(value).value, 0, 0)
  }

  function Run(flag: Flag, prio: map<Tid, int>, h: History, actions: seq<Action>): History
    decreases actions
  {
    if actions == [] then h else Run(flag, prio, Step(flag, prio, h, actions[0]), actions[1..])
  }

  /** No permit is lost or made up, and nobody waits while there is one. */
  ghost predicate Inv(h: History) {
    && Distinct(h.sem.waiters) && h.sem.value <= UINT16_MAX
    && h.sem.value + h.taken == h.initial + h.given
    && (h.sem.waiters != [] ==> h.sem.value == 0)
  }

  /** A waiter that times out leaves, the others stay, and no permit moves; a reset starts afresh. */
  lemma OtherSteps(flag: Flag, prio: map<Tid, int>, h: History, t: Tid, value: nat)
    requires Inv(h) && value <= 65535
    ensures var q := Step(flag, prio, h, ExpireOf(t));
            && q == h.(sem := q.sem) && q.sem.value == h.sem.value
            && forall u :: u in q.sem.waiters <==> u in h.sem.waiters && u != t
    ensures Step(flag, prio, h, ResetTo(value)) == History(Sem(value, []), value, 0, 0)
  {
    WithoutDistinct(h.sem.waiters, t);
  }

  lemma ReleaseKeeps(flag: Flag, prio: map<Tid, int>, h: History)
    requires Inv(h)
    ensures Inv(Step(flag, prio, h, ReleaseOne))
  {
    if h.sem.waiters != [] {
      assert h.sem.waiters[1..] == RemoveAt(h.sem.waiters, 0);
      RemoveDistinct(h.sem.waiters, 0);
    } else if h.sem.value < UINT16_MAX {
    }
  }

  lemma StepKeeps(flag: Flag, prio: map<Tid, int>, h: History, a: Action)
    requires Inv(h)
    ensures Inv(Step(flag, prio, h, a))
  {
    match a
    case TakeBy(t, timeout) =>
      if t !in h.sem.waiters && h.sem.value == 0 && timeout != 0 {
        EnqueueDistinct(flag, h.sem.waiters, prio, t);
      }
    case ReleaseOne => ReleaseKeeps(flag, prio, h);
    case ExpireOf(t) => WithoutDistinct(h.sem.waiters, t);
    case ResetTo(_) =>
  }

  lemma {:induction false} RunKeeps(flag: Flag, prio: map<Tid, int>, h: History, actions: seq<Action>)
    requires Inv(h)
    ensures Inv(Run(flag, prio, h, actions))
    decreases actions
  {
    if actions != [] {
      StepKeeps(flag, prio, h, actions[0]);
      RunKeeps(flag, prio, Step(flag, prio, h, actions[0]), actions[1..]);
    }
  }

  /** In every run the takes that succeeded are at most the permits there were, and a thread waits
      only when all of them are out. */
  lemma {:induction false} EveryRun(flag: Flag, prio: map<Tid, int>, value: nat, actions: seq<Action>)
    requires value <= UINT16_MAX
    ensures var h := Run(flag, prio, History(Sem(value, []), value, 0, 0), actions);
            && h.taken <= h.initial + h.given
            && (h.sem.waiters != [] ==> h.taken == h.initial + h.given)
  {
    RunKeeps(flag, prio, History(Sem(value, []), value, 0, 0), actions);
  }

  /** The object with a record of what it has given out. */
  class SemObject {
    const flag: Flag
    var value: nat
    var waiters: seq<Tid>
    ghost var history: History

    /** Value plus successful takes is the initial value plus releases; nobody waits for a permit that
        is there. */
    ghost predicate Valid()
      reads this
    {
      history.sem == Sem(value, waiters) && Inv(history)
    }

    constructor (value: nat, flag: Flag)
      requires value <= UINT16_MAX
      ensures Valid() && history == History(Sem(value, []), value, 0, 0) && this.flag == flag
    {
      this.value, this.flag, waiters := value, flag, [];
      history := History(Sem(value, []), value, 0, 0);
    }

    method TakeIt(thread: Tid, prio: map<Tid, int>, timeout: int) returns (r: Taken)
      requires Valid() && thread !in waiters
      modifies this
      ensures Valid() && history == Step(flag, prio, old(history), TakeBy(thread, timeout))
      ensures r == Granted <==> history.taken == old(history).taken + 1
      ensures r != Granted ==> history.taken == history.initial + history.given
      ensures r == Blocked <==> thread in waiters
      ensures old(value) > 0 ==> r == Granted && value == old(value) - 1 && waiters == old(waiters)
      ensures old(value) == 0 ==> value == 0 && r == (if timeout == 0 then TimedOut else Blocked)
      ensures r == TimedOut ==> waiters == old(waiters)
      ensures r == Blocked ==> JoinsQueue(flag, old(waiters), prio, thread, waiters)
    {
      StepKeeps(flag, prio, history, TakeBy(thread, timeout));
      EnqueueDistinct(flag, waiters, prio, thread);
      EnqueueJoins(flag, waiters, prio, thread);
      history := Step(flag, prio, history, TakeBy(thread, timeout));
      if value > 0 {
        value := value - 1;
        return Granted;
      }
      if timeout == 0 { return TimedOut; }
      waiters := Enqueue(flag, waiters, prio, thread);
      r := Blocked;
    }

    method ReleaseIt(ghost prio: map<Tid, int>) returns (err: Err, woken: Option<Tid>)
      requires Valid()
      modifies this
      ensures Valid() && history == Step(flag, prio, old(history), ReleaseOne)
      ensures err == EOK <==> history.given == old(history).given + 1
      ensures woken.Some? <==> history.taken == old(history).taken + 1
      ensures err != EOK ==> history == old(history) && waiters == [] && value == UINT16_MAX
      ensures old(waiters) != [] ==> woken.Some? && woken.value !in waiters && value == old(value)
      ensures old(waiters) == (if woken.Some? then [woken.value] else []) + waiters
    {
      StepKeeps(flag, prio, history, ReleaseOne);
      history := Step(flag, prio, history, ReleaseOne);
      if waiters != [] {
        woken := Some(waiters[0]);
        waiters := waiters[1..];
      } else if value < UINT16_MAX {
        value, woken := value + 1, None;
      } else {
        return EFULL, None;
      }
      err := EOK;
    }

    method ExpireIt(thread: Tid, ghost prio: map<Tid, int>)
      requires Valid()
      modifies this
      ensures Valid() && history == Step(flag, prio, old(history), ExpireOf(thread))
      ensures thread !in waiters && value == old(value)
      ensures forall u | u != thread :: u in waiters <==> u in old(waiters)
    {
      StepKeeps(flag, prio, history, ExpireOf(thread));
      WithoutDistinct(waiters, thread);
      history := Step(flag, prio, history, ExpireOf(thread));
      waiters := Without(waiters, thread);
    }

    method ResetIt(newValue: nat)
      requires Valid()
      modifies this
      ensures Valid() && waiters == [] && history.taken == history.given == 0
      ensures newValue <= UINT16_MAX ==> value == newValue
    {
      waiters := [];
      value := newValue % (UINT16_MAX + 1);
      history := History(Sem(value, []), value, 0, 0);
    }
  }
}
