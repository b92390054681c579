/** What the IPC objects of rt-thread/src/ipc.c share: result codes, threads, and the order in
    which suspended threads stand in a wait list.

    Threads are modelled by number.  Suspending puts a thread in a wait list, resuming takes it
    out and leaves its error code alone, and a timer that expires takes it out with ETIMEOUT. */
module Kernel {
  import opened Lists

  datatype Err = EOK | ERROR | ETIMEOUT | EFULL

  datatype Option<+T> = None | Some(value: T)

  type Tid = nat

  /** RT_IPC_FLAG_FIFO and RT_IPC_FLAG_PRIO */
  datatype Flag = FIFO | PRIO

  const UINT16_MAX: nat := 65535
  const UINT8_MAX: nat := 255

  /** A thread's current priority; a smaller number is more urgent. */
  function PrioOf(prio: map<Tid, int>, t: Tid): int {
    if t in prio then prio[t] else 0
  }

  function Prios(ws: seq<Tid>, prio: map<Tid, int>): (ps: seq<int>)
    ensures |ps| == |ws| && forall i | 0 <= i < |ws| :: ps[i] == PrioOf(prio, ws[i])
  {
    seq(|ws|, i requires 0 <= i < |ws| => PrioOf(prio, ws[i]))
  }

  /** _ipc_list_suspend on the sequence of waiters. */
  function Enqueue(flag: Flag, ws: seq<Tid>, prio: map<Tid, int>, t: Tid): seq<Tid> {
    InsertAt(ws, if flag == FIFO then |ws| else InsertPos(Prios(ws, prio), PrioOf(prio, t)), t)
  }

  /** `t` joins the wait list: under FIFO at its end, under PRIO in front of the first waiter that is less
      urgent, so that waiters as urgent as `t` keep their places before it. */
  ghost predicate JoinsQueue(flag: Flag, ws: seq<Tid>, prio: map<Tid, int>, t: Tid, ws': seq<Tid>) {
    exists k: nat :: StandsAt(flag, ws, prio, t, k, ws')
  }

  ghost predicate StandsAt(flag: Flag, ws: seq<Tid>, prio: map<Tid, int>, t: Tid, k: nat, ws': seq<Tid>) {
    && k <= |ws| && ws' == ws[..k] + [t] + ws[k..]
    && (flag == FIFO ==> k == |ws|)
    && (flag == PRIO ==>
          && (forall i | 0 <= i < k :: PrioOf(prio, ws[i]) <= PrioOf(prio, t))
          && (k < |ws| ==> PrioOf(prio, t) < PrioOf(prio, ws[k])))
  }

  lemma EnqueueJoins(flag: Flag, ws: seq<Tid>, prio: map<Tid, int>, t: Tid)
    ensures JoinsQueue(flag, ws, prio, t, Enqueue(flag, ws, prio, t))
  {
    var k := if flag == FIFO then |ws| else InsertPos(Prios(ws, prio), PrioOf(prio, t));
    assert StandsAt(flag, ws, prio, t, k, Enqueue(flag, ws, prio, t));
  }

  lemma EnqueueDistinct(flag: Flag, ws: seq<Tid>, prio: map<Tid, int>, t: Tid)
    requires Distinct(ws) && t !in ws
    ensures Distinct(Enqueue(flag, ws, prio, t))
    ensures forall u :: u in Enqueue(flag, ws, prio, t) <==> u == t || u in ws
  {
    InsertDistinct(ws, if flag == FIFO then |ws| else InsertPos(Prios(ws, prio), PrioOf(prio, t)), t);
  }

  /** A priority wait list stays sorted by the waiters' priorities. */
  lemma {:induction false} EnqueueSorted(ws: seq<Tid>, prio: map<Tid, int>, t: Tid)
    requires Sorted(Prios(ws, prio))
    ensures Sorted(Prios(Enqueue(PRIO, ws, prio, t), prio))
  {
    var ps, p := Prios(ws, prio), PrioOf(prio, t);
    PriorityInsertion(ps, p);
    assert Prios(Enqueue(PRIO, ws, prio, t), prio) == InsertAt(ps, InsertPos(ps, p), p);
  }

  function IndexOf(ws: seq<Tid>, t: Tid): (i: nat)
    ensures i <= |ws| && t !in ws[..i]
    ensures i < |ws| ==> ws[i] == t
    ensures i == |ws| <==> t !in ws
  {
    if ws == [] || ws[0] == t then 0
    else
      assert ws == [ws[0]] + ws[1..];
      1 + IndexOf(ws[1..], t)
  }

  /** rt_list_remove on the sequence of waiters. */
  function Without(ws: seq<Tid>, t: Tid): seq<Tid> {
    var i := IndexOf(ws, t);
    if i < |ws| then RemoveAt(ws, i) else ws
  }

  lemma WithoutDistinct(ws: seq<Tid>, t: Tid)
    requires Distinct(ws)
    ensures Distinct(Without(ws, t))
    ensures forall u :: u in Without(ws, t) <==> u in ws && u != t
  {
    if t in ws { RemoveDistinct(ws, IndexOf(ws, t)); }
  }

  lemma {:induction false} WithoutSorted(ws: seq<Tid>, prio: map<Tid, int>, t: Tid)
    requires Sorted(Prios(ws, prio))
    ensures Sorted(Prios(Without(ws, t), prio))
  {
    if t in ws {
      var ps, i := Prios(ws, prio), IndexOf(ws, t);
      assert Prios(Without(ws, t), prio) == RemoveAt(ps, i);
      SortedRemove(ps, i);
    }
  }

  lemma SortedRemove(ps: seq<int>, i: nat)
    requires Sorted(ps) && i < |ps|
    ensures Sorted(RemoveAt(ps, i))
  {
  }

  /** The thread that _ipc_list_resume would take from a wait list, if any. */
  function First(ws: seq<Tid>): Option<Tid> {
    if ws == [] then None else Some(ws[0])
  }

  function Rest(ws: seq<Tid>): seq<Tid> {
    if ws == [] then ws else ws[1..]
  }

  /** Whoever stands in front is resumed; the others keep their order. */
  lemma FrontLeaves(ws: seq<Tid>)
    ensures ws == (if First(ws).Some? then [First(ws).value] else []) + Rest(ws)
  {
  }

  /** Whoever times out leaves; the others keep their order. */
  lemma OneLeaves(ws: seq<Tid>, t: Tid)
    requires t in ws
    ensures exists i | 0 <= i < |ws| && ws[i] == t :: Without(ws, t) == ws[..i] + ws[i + 1..]
  {
    var i := IndexOf(ws, t);
    assert ws[i] == t && Without(ws, t) == ws[..i] + ws[i + 1..];
  }

  /** The threads whose place in the code satisfies `at`. */
  ghost function Placed<P>(pcs: map<Tid, P>, at: P -> bool): set<Tid> {
    set t | t in pcs && at(pcs[t])
  }

  lemma PlacedMove<P>(pcs: map<Tid, P>, at: P -> bool, t: Tid, p: P)
    ensures |Placed(pcs[t := p], at)| == |Placed(pcs, at) - {t}| + (if at(p) then 1 else 0)
  {
    assert Placed(pcs[t := p], at) == Placed(pcs, at) - {t} + if at(p) then {t} else {};
  }

  /** A wait list holds exactly the threads that are suspended in it, each once. */
  ghost predicate Exact<P(!new)>(ws: seq<Tid>, pcs: map<Tid, P>, at: P -> bool) {
    Distinct(ws) && forall t :: t in ws <==> t in pcs && at(pcs[t])
  }

  lemma ExactMove<P(!new)>(ws: seq<Tid>, ws': seq<Tid>, pcs: map<Tid, P>, at: P -> bool, t: Tid, p: P)
    requires Exact(ws, pcs, at) && Distinct(ws')
    requires forall u :: u in ws' <==> if u == t then at(p) else u in ws
    ensures Exact(ws', pcs[t := p], at)
  {
  }

  /** What is left of a timeout after sleeping `elapsed` ticks; a negative one waits forever. */
  function Remaining(timeout: int, elapsed: nat): int {
    if timeout > 0 then (if timeout - elapsed < 0 then 0 else timeout - elapsed) else timeout
  }

  /** After `slept` ticks in all, a call that was given `timeout` may sleep `left` more: what is left of
      it, or forever. */
  predicate LeftOver(timeout: int, slept: nat, left: int) {
    if timeout < 0 then left == timeout else left == if slept < timeout then timeout - slept else 0
  }

  /** Sleeping piece by piece is sleeping once. */
  lemma RemainingAdds(timeout: int, slept: nat, left: int, elapsed: nat)
    requires LeftOver(timeout, slept, left)
    ensures LeftOver(timeout, slept + elapsed, Remaining(left, elapsed))
  {
  }

  /** Distinct numbers below `n` are at most `n` many. */
  lemma {:induction false} Pigeonhole(s: seq<nat>, n: nat)
    requires Distinct(s) && forall x | x in s :: x < n
    ensures |s| <= n
  {
    DistinctCount(s);
    SubsetCard((set x | x in s), Below(n));
  }

  ghost function Below(n: nat): (b: set<nat>)
    ensures |b| == n && forall i: nat :: i in b <==> i < n
  {
    if n == 0 then {} else Below(n - 1) + {n - 1}
  }

  lemma DistinctCount<T>(s: seq<T>)
    requires Distinct(s)
    ensures |set x | x in s| == |s|
  {
    if s != [] {
      assert Distinct(s[1..]);
      DistinctCount(s[1..]);
      assert (set x | x in s) == (set x | x in s[1..]) + {s[0]};
      assert s[0] !in s[1..];
    }
  }

  lemma SubsetCard<T>(a: set<T>, b: set<T>)
    requires a <= b
    ensures |a| <= |b|
  {
    assert b == a + (b - a);
  }
}
