/** The kernel's intrusive lists (rt-thread/include/rtservice.h) and the wait-list
    discipline built on them (rt-thread/src/ipc.c).

    A circular list is a ring of nodes whose first element is the list object itself; the
    remaining elements are its contents, in order.  A node stands for the `tlist` member of a
    thread, so it carries the thread's current priority. */
module Lists {

  // ----- wait-queue positions, on values ------------------------------------------------

  ghost predicate Distinct<T>(s: seq<T>) {
    forall i, j | 0 <= i < j < |s| :: s[i] != s[j]
  }

  predicate Sorted(ps: seq<int>) {
    forall i, j | 0 <= i < j < |ps| :: ps[i] <= ps[j]
  }

  function InsertAt<T>(s: seq<T>, k: nat, x: T): (r: seq<T>)
    requires k <= |s|
    ensures |r| == |s| + 1 && r[k] == x
    ensures forall i | 0 <= i < k :: r[i] == s[i]
    ensures forall i {:trigger r[i]} | k < i < |r| :: r[i] == s[i - 1]
  {
    s[..k] + [x] + s[k..]
  }

  function RemoveAt<T>(s: seq<T>, k: nat): (r: seq<T>)
    requires k < |s|
    ensures |r| == |s| - 1
    ensures forall i | 0 <= i < k :: r[i] == s[i]
    ensures forall i | k <= i < |r| :: r[i] == s[i + 1]
  {
    s[..k] + s[k + 1..]
  }

  /** Where a waiter of priority `p` goes: in front of the first strictly larger number. */
  function InsertPos(ps: seq<int>, p: int): (k: nat)
    ensures k <= |ps|
    ensures forall i | 0 <= i < k :: ps[i] <= p
    ensures k < |ps| ==> p < ps[k]
  {
    if ps == [] || p < ps[0] then 0 else 1 + InsertPos(ps[1..], p)
  }

  /** A priority-ordered wait list stays ordered, and among equal priorities the newcomer is
      last: it stands behind exactly the waiters whose number is not larger than its own. */
  lemma {:induction false} PriorityInsertion(ps: seq<int>, p: int)
    requires Sorted(ps)
    ensures Sorted(InsertAt(ps, InsertPos(ps, p), p))
    ensures forall i | 0 <= i < |ps| :: ps[i] <= p <==> i < InsertPos(ps, p)
  {
    var k := InsertPos(ps, p);
    var r := InsertAt(ps, k, p);
    forall i, j | 0 <= i < j < |r| ensures r[i] <= r[j] {
      assert i != k ==> r[i] == ps[if i < k then i else i - 1];
      assert j != k ==> r[j] == ps[if j < k then j else j - 1];
      assert k < |ps| ==> p < ps[k];
    }
  }

  lemma InsertDistinct<T>(s: seq<T>, k: nat, x: T)
    requires k <= |s| && Distinct(s) && x !in s
    ensures Distinct(InsertAt(s, k, x))
    ensures forall y :: y in InsertAt(s, k, x) <==> y == x || y in s
  {
    var r := InsertAt(s, k, x);
    forall i, j | 0 <= i < j < |r| ensures r[i] != r[j] {
      assert i != k ==> r[i] == s[if i < k then i else i - 1];
      assert j != k ==> r[j] == s[if j < k then j else j - 1];
    }
    forall y | y in s ensures y in r {
      var i :| 0 <= i < |s| && s[i] == y;
      assert r[if i < k then i else i + 1] == y;
    }
  }

  lemma RemoveDistinct<T>(s: seq<T>, k: nat)
    requires k < |s| && Distinct(s)
    ensures Distinct(RemoveAt(s, k)) && s[k] !in RemoveAt(s, k)
    ensures forall y :: y in RemoveAt(s, k) <==> y != s[k] && y in s
  {
    var r := RemoveAt(s, k);
    forall y | y != s[k] && y in s ensures y in r {
      var i :| 0 <= i < |s| && s[i] == y;
      assert r[if i < k then i else i - 1] == y;
    }
  }

  // ----- circular doubly linked lists ----------------------------------------------------

  class Node {
    var next: Node
    var prev: Node
    var prio: int

    /** rt_list_init */
    constructor (p: int)
      ensures next == this && prev == this && prio == p
      ensures Ring([this])
    {
      next, prev, prio := this, this, p;
    }
  }

  function Succ(i: nat, n: nat): nat
    requires i < n
  {
    if i + 1 == n then 0 else i + 1
  }

  /** Two neighbours: the first one's `next` and the second one's `prev` agree. */
  ghost predicate Linked(a: Node, b: Node)
    reads a, b
  {
    a.next == b && b.prev == a
  }

  /** Well-formed links: following `next` visits `r` in order and returns to its start, and
      `prev` mirrors `next`. */
  ghost predicate Ring(r: seq<Node>)
    reads r
  {
    && |r| > 0
    && Distinct(r)
    && forall i | 0 <= i < |r| :: Linked(r[i], r[Succ(i, |r|)])
  }

  ghost function NodePrios(r: seq<Node>): (ps: seq<int>)
    reads r
    ensures |ps| == |r| && forall i | 0 <= i < |r| :: ps[i] == r[i].prio
  {
    seq(|r|, i requires 0 <= i < |r| reads r => r[i].prio)
  }

  method InsertAfter(l: Node, n: Node, ghost r: seq<Node>, ghost k: nat)
    requires Ring(r) && k < |r| && r[k] == l && n !in r
    modifies l`next, l.next`prev, n`next, n`prev
    ensures Ring(InsertAt(r, k + 1, n))
  {
    ghost var m, p := |r| + 1, k + 1;
    ghost var q, x := InsertAt(r, p, n), r[Succ(k, |r|)];
    InsertDistinct(r, p, n);
    assert Linked(r[p - 1], x);
    l.next.prev := n;
    n.next := l.next;
    l.next := n;
    n.prev := l;
    assert q[p - 1] == l && q[p] == n && q[Succ(p, m)] == x;
    forall i | 0 <= i < m ensures Linked(q[i], q[Succ(i, m)]) {
      if i != p - 1 && i != p {
        ghost var j := if i < p then i else i - 1;
        assert q[i] == r[j] && q[Succ(i, m)] == r[Succ(j, |r|)];
        assert old(Linked(r[j], r[Succ(j, |r|)]));
        assert r[Succ(j, |r|)] != x;
      }
    }
  }

  method InsertBefore(l: Node, n: Node, ghost r: seq<Node>, ghost k: nat)
    requires Ring(r) && k < |r| && r[k] == l && n !in r
    modifies l`prev, l.prev`next, n`next, n`prev
    ensures Ring(InsertAt(r, if k == 0 then |r| else k, n))
  {
    ghost var m := |r| + 1;
    ghost var p := if k == 0 then |r| else k;
    ghost var q := InsertAt(r, p, n);
    InsertDistinct(r, p, n);
    assert Linked(r[p - 1], r[Succ(p - 1, |r|)]);
    l.prev.next := n;
    n.prev := l.prev;
    l.prev := n;
    n.next := l;
    forall i | 0 <= i < m ensures Linked(q[i], q[Succ(i, m)]) {
      if i != p - 1 && i != p {
        ghost var j := if i < p then i else i - 1;
        assert q[i] == r[j] && q[Succ(i, m)] == r[Succ(j, |r|)];
        assert old(Linked(r[j], r[Succ(j, |r|)]));
        assert r[Succ(j, |r|)] != l;
      }
    }
  }

  /** Unlinks `n` and leaves it a ring of its own. */
  method Remove(n: Node, ghost r: seq<Node>, ghost k: nat)
    requires Ring(r) && 0 < k < |r| && r[k] == n
    modifies n`next, n`prev, n.next`prev, n.prev`next
    ensures Ring(RemoveAt(r, k)) && Ring([n])
  {
    ghost var q, m := RemoveAt(r, k), |r| - 1;
    RemoveDistinct(r, k);
    assert Linked(r[k], r[Succ(k, |r|)]) && Linked(r[k - 1], r[Succ(k - 1, |r|)]);
    n.next.prev := n.prev;
    n.prev.next := n.next;
    n.prev := n;
    n.next := n;
    forall i | 0 <= i < m ensures Linked(q[i], q[Succ(i, m)]) {
      if i != k - 1 {
        ghost var j := if i < k then i else i + 1;
        assert q[i] == r[j] && q[Succ(i, m)] == r[Succ(j, |r|)];
        assert old(Linked(r[j], r[Succ(j, |r|)]));
        assert r[Succ(j, |r|)] != r[Succ(k, |r|)];
      }
    }
  }

  method IsEmpty(l: Node, ghost r: seq<Node>) returns (e: bool)
    requires Ring(r) && r[0] == l
    ensures e <==> |r| == 1
  {
    assert Linked(r[0], r[Succ(0, |r|)]);
    e := l.next == l;
  }

  method Length(l: Node, ghost r: seq<Node>) returns (len: nat)
    requires Ring(r) && r[0] == l
    ensures len == |r| - 1
  {
    len := 0;
    var p := l;
    assert Linked(r[0], r[Succ(0, |r|)]);
    while p.next != l
      invariant len < |r| && p == r[len]
      decreases |r| - len
    {
      assert Linked(r[len], r[Succ(len, |r|)]);
      p := p.next;
      len := len + 1;
      assert Linked(r[len], r[Succ(len, |r|)]);
    }
    assert Linked(r[len], r[Succ(len, |r|)]);
  }

  // ----- wait lists ------------------------------------------------------------------------

  /** The walk of a PRIO wait list, to the first waiter with a larger priority number or to the end. */
  method FindPlace(list: Node, prio: int, ghost r: seq<Node>) returns (n: Node, ghost k: nat)
    requires Ring(r) && r[0] == list
    ensures k == 1 + InsertPos(NodePrios(r[1..]), prio) && k <= |r|
    ensures n == if k < |r| then r[k] else list
  {
    ghost var ps := NodePrios(r[1..]);
    k := 1;
    assert Linked(r[0], r[Succ(0, |r|)]);
    n := list.next;
    while n != list && n.prio <= prio
      invariant 1 <= k <= |r|
      invariant n == (if k < |r| then r[k] else list)
      invariant forall i | 0 <= i < k - 1 :: ps[i] <= prio
      decreases |r| - k
    {
      assert ps[k - 1] == r[k].prio;
      assert Linked(r[k], r[Succ(k, |r|)]);
      n := n.next;
      k := k + 1;
    }
    assert k < |r| ==> ps[k - 1] == r[k].prio;
    InsertPosUnique(ps, prio, k - 1);
  }

  /** _ipc_list_suspend with RT_IPC_FLAG_PRIO: the thread is spliced in at its place. */
  method SuspendByPriority(list: Node, t: Node, ghost r: seq<Node>)
    requires Ring(r) && r[0] == list && t !in r
    modifies r, t
    ensures Ring(InsertAt(r, 1 + InsertPos(NodePrios(r[1..]), t.prio), t))
    ensures t.prio == old(t.prio) && NodePrios(r) == old(NodePrios(r))
  {
    ghost var ps := NodePrios(r[1..]);
    var n, k := FindPlace(list, t.prio, r);
    ghost var e := if k < |r| then k else |r|;
    assert Linked(r[e - 1], r[Succ(e - 1, |r|)]);
    InsertBefore(n, t, r, if k < |r| then k else 0);
    assert NodePrios(r[1..]) == ps;
  }

  lemma {:induction false} InsertPosUnique(ps: seq<int>, p: int, k: nat)
    requires k <= |ps|
    requires forall i | 0 <= i < k :: ps[i] <= p
    requires k < |ps| ==> p < ps[k]
    ensures k == InsertPos(ps, p)
  {
    if k > 0 {
      InsertPosUnique(ps[1..], p, k - 1);
    }
  }

  /** _ipc_list_resume followed by the removal that rt_thread_resume performs. */
  method ResumeFirst(list: Node, ghost r: seq<Node>) returns (t: Node)
    requires Ring(r) && r[0] == list && |r| > 1
    modifies r
    ensures t == r[1] && Ring(RemoveAt(r, 1)) && Ring([t])
    ensures NodePrios(r) == old(NodePrios(r))
  {
    assert Linked(r[0], r[Succ(0, |r|)]);
    t := list.next;
    assert Linked(r[1], r[Succ(1, |r|)]);
    Remove(t, r, 1);
  }

  // ----- singly linked lists -----------------------------------------------------------------

  class Cell {
    var next: Cell?
    const kind: int
    const id: int
    constructor (k: int, i: int) ensures kind == k && id == i && next == null { kind, id, next := k, i, null; }
  }

  /** `h` is the list object; `s` its members in order. */
  ghost predicate Chain(h: Cell, s: seq<Cell>)
    reads h, s
  {
    && Distinct([h] + s)
    && (forall i {:trigger s[i].next} | 0 <= i < |s| :: s[i].next == if i + 1 < |s| then s[i + 1] else null)
    && h.next == if s == [] then null else s[0]
  }

  ghost function Cells(s: seq<Cell>): set<object> {
    set c | c in s
  }

  method Append(h: Cell, n: Cell, ghost s: seq<Cell>)
    requires Chain(h, s) && n !in [h] + s
    modifies {h, n} + Cells(s)
    ensures Chain(h, s + [n])
  {
    var node := h;
    ghost var k := 0;
    while node.next != null
      invariant 0 <= k <= |s| && node == ([h] + s)[k]
      decreases |s| - k
    {
      node := node.next;
      k := k + 1;
    }
    InsertDistinct([h] + s, |s| + 1, n);
    assert InsertAt([h] + s, |s| + 1, n) == [h] + (s + [n]);
    node.next := n;
    n.next := null;
  }

  /** rt_slist_remove does not touch the removed cell: its own `next` still points at the old
      successor, which is what the delete-while-iterating loops rely on. */
  method RemoveCell(h: Cell, n: Cell, ghost s: seq<Cell>, ghost k: nat)
    requires Chain(h, s) && k < |s| && s[k] == n
    modifies {h} + Cells(s[..k])
    ensures Chain(h, RemoveAt(s, k)) && n.next == old(n.next)
  {
    RemoveDistinct([h] + s, k + 1);
    assert RemoveAt([h] + s, k + 1) == [h] + RemoveAt(s, k);
    var node := h;
    ghost var j := 0;
    while node.next != null && node.next != n
      invariant 0 <= j <= k && node == ([h] + s)[j]
      decreases k - j
    {
      node := node.next;
      j := j + 1;
    }
    assert j == k;
    node.next := node.next.next;
  }

  /** The cells not of the given kind, in order. */
  ghost function Keep(s: seq<Cell>, kind: int): (r: seq<Cell>)
    ensures forall c | c in s :: c in r <==> c.kind != kind
    ensures forall c | c in r :: c in s
  {
    if s == [] then []
    else
      var c := s[|s| - 1];
      Keep(s[..|s| - 1], kind) + if c.kind == kind then [] else [c]
  }

  ghost predicate DistinctIds(s: seq<Cell>) { forall i, j | 0 <= i < j < |s| :: s[i].id != s[j].id }

  /** The walk of aq_device_find and aq_device_delete: the first cell with the address. */
  method FindCell(h: Cell, id: int, ghost s: seq<Cell>) returns (n: Cell?, ghost k: nat)
    requires Chain(h, s)
    ensures k <= |s| && (forall i | 0 <= i < k :: s[i].id != id)
    ensures if k == |s| then n == null else n == s[k] && n.id == id
  {
    n, k := h.next, 0;
    while n != null && n.id != id
      invariant k <= |s| && n == (if k < |s| then s[k] else null)
      invariant forall i | 0 <= i < k :: s[i].id != id
      decreases |s| - k
    {
      n := n.next;
      k := k + 1;
    }
  }

  /** aq_device_delete of the address of a listed cell: what precedes it, it, and what follows. */
  method Unlink(h: Cell, id: int, ghost before: seq<Cell>, ghost c: Cell, ghost after: seq<Cell>)
    requires Chain(h, before + [c] + after) && c.id == id && forall x | x in before :: x.id != id
    modifies {h} + Cells(before)
    ensures Chain(h, before + after)
    ensures c.next == if after == [] then null else after[0]
  {
    ghost var s := before + [c] + after;
    assert s[|before|] == c && (after != [] ==> s[|before| + 1] == after[0]);
    var n, k := FindCell(h, id, s);
    assert forall i | 0 <= i < |before| :: s[i] in before;
    assert k == |before|;
    assert RemoveAt(s, k) == before + after && s[..k] == before;
    RemoveCell(h, n, s, k);
  }

  /** One visit of the walk below, on values. */
  lemma VisitOne(s: seq<Cell>, seen: seq<Cell>, rest: seq<Cell>, kind: int)
    requires seen + rest == s && rest != []
    ensures var kept, n, after := Keep(seen, kind), rest[0], rest[1..];
            && kept + rest == kept + [n] + after
            && seen + [n] + after == s
            && Keep(seen + [n], kind) == (if n.kind == kind then kept else kept + [n])
            && Cells(kept) <= Cells(s)
            && (DistinctIds(s) ==> forall c | c in kept :: c.id != n.id)
  {
    forall c | c in Keep(seen, kind) && DistinctIds(s) ensures c.id != rest[0].id {
      var i :| 0 <= i < |seen| && seen[i] == c;
      assert s[i] == c && s[|seen|] == rest[0];
    }
    assert (seen + [rest[0]])[..|seen|] == seen;
    forall c | c in Keep(seen, kind) ensures c in s { assert c in seen + rest; }
  }

  lemma NextInChain(h: Cell, before: seq<Cell>, n: Cell, after: seq<Cell>)
    requires Chain(h, before + [n] + after)
    ensures n.next == if after == [] then null else after[0]
  {
    assert (before + [n] + after)[|before|] == n;
  }

  /** The delete-by-type loops of storage/flashwork.c: every matching cell is deleted by its address,
      which is nobody else's, while the walk goes on through the `next` of the cell just unlinked.  What
      is left is exactly the cells that do not match. */
  method RemoveMatching(h: Cell, kind: int, ghost s: seq<Cell>)
    requires Chain(h, s) && DistinctIds(s)
    modifies {h} + Cells(s)
    ensures Chain(h, Keep(s, kind))
  {
    var node := h.next;
    ghost var seen: seq<Cell>, rest: seq<Cell> := [], s;
    assert Keep([], kind) + s == s;
    while node != null
      invariant seen + rest == s
      invariant node == if rest == [] then null else rest[0]
      invariant Chain(h, Keep(seen, kind) + rest)
      decreases |rest|
    {
      var n: Cell := node;
      ghost var kept, after := Keep(seen, kind), rest[1..];
      VisitOne(s, seen, rest, kind);
      NextInChain(h, kept, n, after);
      if n.kind == kind {
        Unlink(h, n.id, kept, n, after);
      }
      seen, rest := seen + [n], after;
      node := n.next;
    }
    assert seen == s && Keep(s, kind) + rest == Keep(s, kind);
  }

  // ----- blocks chained through a header word ---------------------------------------------

  const NULL := -1

  /** Following `next` from `h` visits `c` and ends in NULL. */
  predicate Chained(next: seq<int>, h: int, c: seq<nat>) {
    && h == (if c == [] then NULL else c[0])
    && (forall i | 0 <= i < |c| :: c[i] < |next|)
    && (forall i {:trigger c[i]} | 0 <= i < |c| :: next[c[i]] == if i + 1 < |c| then c[i + 1] else NULL)
  }

  /** Writing the header of a block outside the chain leaves the chain alone. */
  lemma ChainedFrame(next: seq<int>, h: int, c: seq<nat>, b: nat, v: int)
    requires Chained(next, h, c) && b < |next| && b !in c
    ensures Chained(next[b := v], h, c)
  {
  }

  lemma ChainedPush(next: seq<int>, h: int, c: seq<nat>, b: nat)
    requires Chained(next, h, c) && b < |next| && b !in c
    ensures Chained(next[b := h], b, [b] + c)
  {
    ChainedFrame(next, h, c, b, h);
  }

  lemma ChainedPop(next: seq<int>, h: int, c: seq<nat>)
    requires Chained(next, h, c) && c != []
    ensures h == c[0] && Chained(next, next[c[0]], c[1..])
  {
    assert next[c[0]] == if 1 < |c| then c[1] else NULL;
  }

  lemma ChainedAppend(next: seq<int>, h: int, c: seq<nat>, b: nat)
    requires Chained(next, h, c) && c != [] && Distinct(c)
    requires b < |next| && b !in c && next[b] == NULL
    ensures Chained(next[c[|c| - 1] := b], h, c + [b])
  {
    var last := c[|c| - 1];
    forall i | 0 <= i < |c| - 1 ensures c[i] != last {}
  }
}
