/** The mutex of rt-thread/src/ipc.c: recursive, owned, with priority inheritance.

    `Mutex` is the object together with the current priorities of the threads that use it; nothing
    but this mutex changes those priorities.  `base` is what each thread starts with. */
module Mutex {
  import opened Lists
  import opened Kernel

  datatype Mutex = Mutex(
    value: nat,
    hold: nat,
    owner: Option<Tid>,
    original: int,
    waiters: seq<Tid>,
    prio: map<Tid, int>)

  datatype Taken = Granted | Overflow | TimedOut | Blocked

  function Fresh(base: map<Tid, int>): Mutex {
    Mutex(1, 0, None, 255, [], base)
  }

  /** rt_mutex_take up to the point where the thread returns or is suspended. */
  function Take(m: Mutex, t: Tid, timeout: int): (Mutex, Taken) {
    if m.owner == Some(t) then
      if m.hold < UINT8_MAX then (m.(hold := m.hold + 1), Granted) else (m, Overflow)
    else if m.value > 0 then
      var m' := m.(value := m.value - 1, owner := Some(t), original := PrioOf(m.prio, t));
      if m.hold < UINT8_MAX then (m'.(hold := m.hold + 1), Granted) else (m', Overflow)
    else if timeout == 0 then (m, TimedOut)
    else (Suspended(Inherit(m, t), t), Blocked)
  }

  /** The owner gets the newcomer's priority if that is more urgent. */
  function Inherit(m: Mutex, t: Tid): Mutex {
    if m.owner.Some? && PrioOf(m.prio, t) < PrioOf(m.prio, m.owner.value)
    then m.(prio := m.prio[m.owner.value := PrioOf(m.prio, t)])
    else m
  }

  function Suspended(m: Mutex, t: Tid): Mutex {
    m.(waiters := Enqueue(PRIO, m.waiters, m.prio, t))
  }

  /** rt_mutex_release: nested releases count down; the last one restores the owner's priority and
      hands the mutex to the first waiter, or frees it. */
  function Release(m: Mutex, t: Tid): (Mutex, Err) {
    if m.owner != Some(t) then (m, ERROR)
    else if m.hold != 1 then (m.(hold := if m.hold > 0 then m.hold - 1 else UINT8_MAX), EOK)
    else
      var m1 := m.(hold := 0, prio := Restored(m, t));
      if m.waiters != [] then
        var w := m.waiters[0];
        (m1.(owner := Some(w), original := PrioOf(m1.prio, w), hold := 1, waiters := m.waiters[1..]), EOK)
      else if m.value < UINT16_MAX then
        (m1.(value := m.value + 1, owner := None, original := 255), EOK)
      else (m1, EFULL)
  }

  function Restored(m: Mutex, t: Tid): map<Tid, int> {
    if m.original != PrioOf(m.prio, t) then m.prio[t := m.original] else m.prio
  }

  /** The timer of a suspended thread fires. */
  function Expire(m: Mutex, t: Tid): Mutex {
    m.(waiters := Without(m.waiters, t))
  }

  // ----- what every call keeps ------------------------------------------------------------------

  ghost predicate Inv(base: map<Tid, int>, m: Mutex) {
    && m.value <= 1 && m.hold <= UINT8_MAX
    && (m.value == 1 <==> m.owner == None)
    && (m.hold == 0 <==> m.owner == None)
    && (m.waiters != [] ==> m.owner.Some?)
    && Distinct(m.waiters) && Sorted(Prios(m.waiters, m.prio))
    && (forall t: Tid | m.owner != Some(t) :: PrioOf(m.prio, t) == PrioOf(base, t))
    && (m.owner.Some? ==> OwnerInv(base, m, m.owner.value))
  }

  /** The owner runs at least as urgently as itself and every waiter, and what will be restored is
      its own base priority. */
  ghost predicate OwnerInv(base: map<Tid, int>, m: Mutex, o: Tid) {
    && o !in m.waiters
    && m.original == PrioOf(base, o)
    && PrioOf(m.prio, o) <= PrioOf(base, o)
    && forall w | w in m.waiters :: PrioOf(m.prio, o) <= PrioOf(m.prio, w)
  }

  lemma PriosFrame(ws: seq<Tid>, p: map<Tid, int>, q: map<Tid, int>)
    requires forall w | w in ws :: PrioOf(p, w) == PrioOf(q, w)
    ensures Prios(ws, p) == Prios(ws, q)
  {
  }

  /** The only overflow a caller can see is nesting the same mutex 256 deep. */
  lemma TakeKeeps(base: map<Tid, int>, m: Mutex, t: Tid, timeout: int)
    requires Inv(base, m) && t !in m.waiters
    ensures Inv(base, Take(m, t, timeout).0)
    ensures Take(m, t, timeout).1 == Overflow <==> m.owner == Some(t) && m.hold == UINT8_MAX
    ensures Take(m, t, timeout).1 == Granted ==> Take(m, t, timeout).0.owner == Some(t)
  {
    if m.owner.Some? && m.owner != Some(t) {
      BlockKeeps(base, m, t);
    }
  }

  /** A mutex of one's own is nested, up to 255 deep; a free one is granted; of one that another thread holds
      the caller comes back at once if it does not want to wait.  Otherwise it sleeps behind exactly the
      waiters that are at least as urgent, and the owner runs at least as urgently as the caller. */
  lemma TakeOutcome(base: map<Tid, int>, m: Mutex, t: Tid, timeout: int)
    requires Inv(base, m) && t !in m.waiters
    ensures var (q, r) := Take(m, t, timeout);
            && (m.owner == Some(t) && m.hold < 255 ==> r == Granted && q == m.(hold := m.hold + 1))
            && (m.owner == Some(t) && m.hold == 255 ==> r == Overflow && q == m)
            && (m.owner == None ==> r == Granted && Owns(m, q, t))
            && (m.owner.Some? && m.owner != Some(t) && timeout == 0 ==> r == TimedOut && q == m)
            && (m.owner.Some? && m.owner != Some(t) && timeout != 0 ==> r == Blocked && SleepsOn(m, q, t))
  {
    if m.owner.Some? && m.owner != Some(t) && timeout != 0 { BlockOutcome(base, m, t); }
  }

  predicate Owns(m: Mutex, q: Mutex, t: Tid) {
    && q.value == 0 && q.hold == 1 && q.owner == Some(t) && q.original == PrioOf(m.prio, t)
    && q.waiters == m.waiters && q.prio == m.prio
  }

  /** Thread `t` sleeps on a mutex that another thread holds. */
  ghost predicate SleepsOn(m: Mutex, q: Mutex, t: Tid) {
    && q.value == m.value && q.hold == m.hold && q.owner == m.owner && q.original == m.original
    && JoinsBehind(m.waiters, m.prio, t, q.waiters)
    && forall u: Tid :: PrioOf(q.prio, u) ==
         if m.owner == Some(u) && PrioOf(m.prio, t) < PrioOf(m.prio, u) then PrioOf(m.prio, t) else PrioOf(m.prio, u)
  }

  /** Behind exactly the waiters that are at least as urgent. */
  ghost predicate JoinsBehind(ws: seq<Tid>, prio: map<Tid, int>, t: Tid, ws': seq<Tid>) {
    exists k | 0 <= k <= |ws| && ws' == ws[..k] + [t] + ws[k..] ::
      forall i | 0 <= i < |ws| :: PrioOf(prio, ws[i]) <= PrioOf(prio, t) <==> i < k
  }

  lemma BlockOutcome(base: map<Tid, int>, m: Mutex, t: Tid)
    requires Inv(base, m) && t !in m.waiters && m.owner.Some? && m.owner != Some(t)
    ensures SleepsOn(m, Suspended(Inherit(m, t), t), t)
  {
    var i := Inherit(m, t);
    PriosFrame(m.waiters, m.prio, i.prio);
    assert PrioOf(i.prio, t) == PrioOf(m.prio, t);
    EnqueueBehind(m.waiters, m.prio, i.prio, t);
  }

  lemma EnqueueBehind(ws: seq<Tid>, prio: map<Tid, int>, now: map<Tid, int>, t: Tid)
    requires Sorted(Prios(ws, prio)) && Prios(ws, now) == Prios(ws, prio) && PrioOf(now, t) == PrioOf(prio, t)
    ensures JoinsBehind(ws, prio, t, Enqueue(PRIO, ws, now, t))
  {
    var ps, p := Prios(ws, prio), PrioOf(prio, t);
    var k := InsertPos(ps, p);
    forall i | 0 <= i < |ws| ensures PrioOf(prio, ws[i]) <= p <==> i < k {
      assert ps[i] == PrioOf(prio, ws[i]);
      if k <= i { assert ps[k] <= ps[i]; }
    }
    assert Enqueue(PRIO, ws, now, t) == ws[..k] + [t] + ws[k..];
  }

  /** A release by anybody else fails and changes nothing; a nested one counts down; the last one gives the
      owner's own priority back and hands the mutex to the first waiter, or frees it. */
  lemma ReleaseOutcome(base: map<Tid, int>, m: Mutex, t: Tid)
    requires Inv(base, m) && t !in m.waiters
    ensures var (q, err) := Release(m, t);
            && (m.owner != Some(t) ==> err == ERROR && q == m)
            && (m.owner == Some(t) && m.hold > 1 ==> err == EOK && q == m.(hold := m.hold - 1))
            && (m.owner == Some(t) && m.hold == 1 ==>
                  && err == EOK && (forall u: Tid :: PrioOf(q.prio, u) == PrioOf(base, u))
                  && (m.waiters == [] ==> q.owner == None && q.hold == 0 && q.value == 1 && q.waiters == [])
                  && (m.waiters == [] ==> q.original == 255)
                  && (m.waiters != [] ==>
                        && q.owner.Some? && q.hold == 1 && q.value == m.value
                        && m.waiters == [q.owner.value] + q.waiters && q.original == PrioOf(base, q.owner.value)))
  {
    if m.owner == Some(t) && m.hold == 1 {
      assert PrioOf(Restored(m, t), t) == PrioOf(base, t);
      forall u: Tid ensures PrioOf(Restored(m, t), u) == PrioOf(base, u) {
        if u != t { assert PrioOf(m.prio, u) == PrioOf(base, u); }
      }
    }
  }

  lemma InheritKeeps(base: map<Tid, int>, m: Mutex, t: Tid)
    requires Inv(base, m) && t !in m.waiters && m.owner.Some? && m.owner != Some(t)
    ensures Inv(base, Inherit(m, t))
    ensures PrioOf(Inherit(m, t).prio, m.owner.value) <= PrioOf(Inherit(m, t).prio, t)
  {
    PriosFrame(m.waiters, m.prio, Inherit(m, t).prio);
  }

  lemma BlockKeeps(base: map<Tid, int>, m: Mutex, t: Tid)
    requires Inv(base, m) && t !in m.waiters && m.owner.Some? && m.owner != Some(t)
    ensures Inv(base, Suspended(Inherit(m, t), t))
  {
    var i := Inherit(m, t);
    InheritKeeps(base, m, t);
    EnqueueDistinct(PRIO, i.waiters, i.prio, t);
    EnqueueSorted(i.waiters, i.prio, t);
    assert OwnerInv(base, Suspended(i, t), i.owner.value);
  }

  lemma ReleaseKeeps(base: map<Tid, int>, m: Mutex, t: Tid)
    requires Inv(base, m) && t !in m.waiters
    ensures var r := Release(m, t);
            && Inv(base, r.0) && r.1 == (if m.owner == Some(t) then EOK else ERROR)
            && (r.1 == ERROR ==> r.0 == m)
            && (m.owner == Some(t) && m.hold == 1 ==>
                  PrioOf(r.0.prio, t) == PrioOf(base, t) && r.0.owner == First(m.waiters))
  {
    if m.owner == Some(t) && m.hold == 1 && m.waiters != [] {
      PriosFrame(m.waiters, m.prio, Restored(m, t));
      HeadIsLeast(m.waiters, Restored(m, t));
    }
  }

  /** The first waiter is the most urgent one. */
  lemma HeadIsLeast(ws: seq<Tid>, prio: map<Tid, int>)
    requires ws != [] && Distinct(ws) && Sorted(Prios(ws, prio))
    ensures ws[0] !in ws[1..] && Distinct(ws[1..]) && Sorted(Prios(ws[1..], prio))
    ensures forall x | x in ws[1..] :: PrioOf(prio, ws[0]) <= PrioOf(prio, x)
  {
    assert ws[1..] == RemoveAt(ws, 0);
    RemoveDistinct(ws, 0);
    var ps := Prios(ws, prio);
    SortedRemove(ps, 0);
    assert Prios(ws[1..], prio) == RemoveAt(ps, 0);
    forall i | 1 <= i < |ws| ensures PrioOf(prio, ws[0]) <= PrioOf(prio, ws[i]) {
      assert ps[0] <= ps[i];
    }
  }

  lemma ExpireKeeps(base: map<Tid, int>, m: Mutex, t: Tid)
    requires Inv(base, m) && t in m.waiters
    ensures Inv(base, Expire(m, t))
  {
    WithoutDistinct(m.waiters, t);
    WithoutSorted(m.waiters, m.prio, t);
  }

  /** A waiter that times out leaves; nothing else changes. */
  lemma ExpireOutcome(base: map<Tid, int>, m: Mutex, t: Tid)
    requires Inv(base, m)
    ensures var q := Expire(m, t);
            q == m.(waiters := q.waiters) && forall u :: u in q.waiters <==> u in m.waiters && u != t
  {
    WithoutDistinct(m.waiters, t);
  }

  // ----- runs -------------------------------------------------------------------------------------

  datatype Action = TakeBy(t: Tid, timeout: int) | ReleaseBy(t: Tid) | ExpireOf(t: Tid)

  /** A suspended thread cannot call anything; only a suspended thread's timer can fire. */
  function Step(m: Mutex, a: Action): Mutex {
    match a
    case TakeBy(t, timeout) => if t in m.waiters then m else Take(m, t, timeout).0
    case ReleaseBy(t) => if t in m.waiters then m else Release(m, t).0
    case ExpireOf(t) => if t in m.waiters then Expire(m, t) else m
  }

  function Run(m: Mutex, actions: seq<Action>): Mutex
    decreases actions
  {
    if actions == [] then m else Run(Step(m, actions[0]), actions[1..])
  }

  lemma {:induction false} RunKeeps(base: map<Tid, int>, m: Mutex, actions: seq<Action>)
    requires Inv(base, m)
    ensures Inv(base, Run(m, actions))
    decreases actions
  {
    if actions != [] {
      match actions[0] {
        case TakeBy(t, timeout) => if t !in m.waiters { TakeKeeps(base, m, t, timeout); }
        case ReleaseBy(t) => if t !in m.waiters { ReleaseKeeps(base, m, t); }
        case ExpireOf(t) => if t in m.waiters { ExpireKeeps(base, m, t); }
      }
      RunKeeps(base, Step(m, actions[0]), actions[1..]);
    }
  }

  lemma {:induction false} EveryRun(base: map<Tid, int>, actions: seq<Action>)
    ensures Inv(base, Run(Fresh(base), actions))
  {
    RunKeeps(base, Fresh(base), actions);
  }

  /** No unbounded inversion: in every run whoever owns the mutex is at least as urgent as every
      thread waiting for it, and whoever does not own it runs at its own priority. */
  lemma {:induction false} Inheritance(base: map<Tid, int>, actions: seq<Action>, t: Tid)
    ensures var m := Run(Fresh(base), actions);
            if m.owner == Some(t) then forall w | w in m.waiters :: PrioOf(m.prio, t) <= PrioOf(base, w)
            else PrioOf(m.prio, t) == PrioOf(base, t)
  {
    EveryRun(base, actions);
    var m := Run(Fresh(base), actions);
    if m.owner == Some(t) {
      forall w | w in m.waiters ensures PrioOf(m.prio, t) <= PrioOf(base, w) {
        assert PrioOf(m.prio, w) == PrioOf(base, w);
      }
    }
  }

  function Repeat(a: Action, n: nat): seq<Action> {
    if n == 0 then [] else [a] + Repeat(a, n - 1)
  }

  /** Nesting: `n` takes by the owner are undone by `n` releases, and only by that many. */
  lemma {:induction false} NestedTakes(m: Mutex, t: Tid, n: nat, timeout: int)
    requires m.owner == Some(t) && t !in m.waiters && m.hold >= 1 && m.hold + n <= UINT8_MAX
    ensures Run(m, Repeat(TakeBy(t, timeout), n)) == m.(hold := m.hold + n)
    ensures Run(m.(hold := m.hold + n), Repeat(ReleaseBy(t), n)) == m
    decreases n
  {
    if n > 0 {
      NestedTakes(m.(hold := m.hold + 1), t, n - 1, timeout);
      NestedTakes(m, t, n - 1, timeout);
      var up, down := Repeat(TakeBy(t, timeout), n), Repeat(ReleaseBy(t), n);
      assert up[1..] == Repeat(TakeBy(t, timeout), n - 1);
      assert down[1..] == Repeat(ReleaseBy(t), n - 1);
    }
  }

  // ----- the object as the source keeps it ----------------------------------------------------------

  class MutexObject {
    ghost const base: map<Tid, int>
    var value: nat
    var hold: nat
    var owner: Option<Tid>
    var original: int
    var waiters: seq<Tid>
    var prio: map<Tid, int>

    ghost function Model(): Mutex
      reads this
    {
      Mutex(value, hold, owner, original, waiters, prio)
    }

    /** Free iff not held iff value is 1; waiters imply an owner at least as urgent as each of them;
        whoever is not the owner runs at its base priority. */
    ghost predicate Valid()
      reads this
    {
      Inv(base, Model())
    }

    constructor (base: map<Tid, int>)
      ensures Valid() && Model() == Fresh(base) && this.base == base
    {
      this.base := base;
      value, hold, owner, original, waiters, prio := 1, 0, None, 255, [], base;
    }

    method TakeIt(thread: Tid, timeout: int) returns (r: Taken)
      requires Valid() && thread !in waiters
      modifies this
      ensures Valid() && (Model(), r) == Take(old(Model()), thread, timeout)
      ensures r == Granted <==> owner == Some(thread) && hold > old(if owner == Some(thread) then hold else 0)
      ensures r == Overflow <==> old(owner) == Some(thread) && old(hold) == UINT8_MAX
      ensures r == Blocked ==> owner.Some? && owner.value != thread && PrioOf(prio, owner.value) <= PrioOf(base, thread)
      ensures old(owner) == None ==> r == Granted && Owns(old(Model()), Model(), thread)
      ensures old(owner).Some? && old(owner) != Some(thread) ==>
                if timeout == 0 then r == TimedOut && Model() == old(Model())
                else r == Blocked && SleepsOn(old(Model()), Model(), thread)
    {
      TakeKeeps(base, Model(), thread, timeout);
      TakeOutcome(base, Model(), thread, timeout);
      if owner == Some(thread) {
        if hold < UINT8_MAX { hold := hold + 1; } else { return Overflow; }
      } else if value > 0 {
        value := value - 1;
        owner := Some(thread);
        original := PrioOf(prio, thread);
        if hold < UINT8_MAX { hold := hold + 1; } else { return Overflow; }
      } else {
        if timeout == 0 { return TimedOut; }
        Block(thread);
        return Blocked;
      }
      return Granted;
    }

    /** The owner inherits, and the thread is suspended. */
    method Block(thread: Tid)
      requires Valid() && thread !in waiters && owner.Some? && owner != Some(thread)
      modifies `prio, `waiters
      ensures Model() == Suspended(Inherit(old(Model()), thread), thread)
      ensures PrioOf(prio, owner.value) <= PrioOf(base, thread)
    {
      InheritKeeps(base, Model(), thread);
      if PrioOf(prio, thread) < PrioOf(prio, owner.value) {
        prio := prio[owner.value := PrioOf(prio, thread)];
      }
      waiters := Enqueue(PRIO, waiters, prio, thread);
    }

    method ReleaseIt(thread: Tid) returns (err: Err)
      requires Valid() && thread !in waiters
      modifies this
      ensures Valid() && (Model(), err) == Release(old(Model()), thread)
      ensures err == (if old(owner) == Some(thread) then EOK else ERROR)
      ensures owner != Some(thread) ==> PrioOf(prio, thread) == PrioOf(base, thread)
      ensures err == EOK && old(hold) == 1 ==> (owner.Some? <==> old(waiters) != [])
      ensures err == EOK && old(hold) == 1 && owner.Some? ==>
                old(waiters) == [owner.value] + waiters && owner.value !in waiters
    {
      ReleaseKeeps(base, Model(), thread);
      if owner != Some(thread) { return ERROR; }
      hold := hold - 1;
      if hold == 0 {
        if original != PrioOf(prio, thread) {
          prio := prio[thread := original];
        }
        if waiters != [] {
          var next := waiters[0];
          owner := Some(next);
          original := PrioOf(prio, next);
          if hold < UINT8_MAX { hold := hold + 1; } else { return EFULL; }
          waiters := waiters[1..];
        } else {
          if value < UINT16_MAX { value := value + 1; } else { return EFULL; }
          owner := None;
          original := 255;
        }
      }
      return EOK;
    }

    method ExpireIt(thread: Tid)
      requires Valid() && thread in waiters
      modifies `waiters
      ensures Valid() && waiters == Without(old(waiters), thread) && thread !in waiters
      ensures forall u | u != thread :: u in waiters <==> u in old(waiters)
    {
      ExpireKeeps(base, Model(), thread);
      WithoutDistinct(waiters, thread);
      waiters := Without(waiters, thread);
    }
  }
}
