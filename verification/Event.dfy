/** The event set of rt-thread/src/ipc.c.

    A thread asks for all or for any of some bits, and may ask for them to be cleared once it has
    them.  Sending bits walks the wait list and resumes every thread whose condition is met, each
    one possibly clearing bits that the next one wanted. */
module Event {
  import opened Lists
  import opened Kernel

  /** A 32-bit word, as the set of its one bits: `|` is union, `&` intersection, and `& ~`
      difference. */
  type Bits = set<Bit>
  type Bit = n: nat | n < 32

  /** What a thread asked for: `every` is RT_EVENT_FLAG_AND, which wins over RT_EVENT_FLAG_OR. */
  datatype Want = Want(bits: Bits, every: bool, clear: bool)

  datatype Event = Event(bits: Bits, waiters: seq<Tid>, wants: map<Tid, Want>)

  datatype Delivery = Delivery(t: Tid, received: Bits)

  predicate Met(have: Bits, w: Want) {
    if w.every then have * w.bits == w.bits else have * w.bits != {}
  }

  /** The non-blocking receive of a thread whose condition is met: what it gets. */
  function Received(have: Bits, w: Want): Bits {
    have * w.bits
  }

  /** The bits left after the non-blocking receive. */
  function LeftBy(have: Bits, w: Want): Bits {
    if Met(have, w) && w.clear then have - w.bits else have
  }

  function WantOf(wants: map<Tid, Want>, t: Tid): Want {
    if t in wants then wants[t] else Want({}, false, false)
  }

  datatype Result = Result(left: Bits, waiting: seq<Tid>, deliveries: seq<Delivery>)

  /** Every waiter in queue order runs the non-blocking receive once. */
  function Deliver(have: Bits, ws: seq<Tid>, wants: map<Tid, Want>): Result {
    if ws == [] then Result(have, [], [])
    else
      var w := WantOf(wants, ws[0]);
      var r := Deliver(LeftBy(have, w), ws[1..], wants);
      if Met(have, w) then Result(r.left, r.waiting, [Delivery(ws[0], Received(have, w))] + r.deliveries)
      else Result(r.left, [ws[0]] + r.waiting, r.deliveries)
  }

  /** What the next waiter in queue order gets: it is resumed exactly if its condition is met by the bits
      that those before it left, receives those of its bits that are there, and takes them all away if it
      asked for that; otherwise it stays, behind those that stayed before it. */
  lemma {:induction false} DeliverNext(have: Bits, ws: seq<Tid>, t: Tid, wants: map<Tid, Want>)
    ensures var r, s := Deliver(have, ws, wants), Deliver(have, ws + [t], wants);
            var w := WantOf(wants, t);
            var met := if w.every then forall b | b in w.bits :: b in r.left else exists b | b in w.bits :: b in r.left;
            && (met ==> s.waiting == r.waiting && Takes(r.left, w, s.left, s.deliveries, r.deliveries, t))
            && (!met ==> s.waiting == r.waiting + [t] && s.left == r.left && s.deliveries == r.deliveries)
    decreases ws
  {
    if ws == [] {
      assert [] + [t] == [t] && [t][1..] == [];
      MetMeans(have, WantOf(wants, t));
    } else {
      var w := WantOf(wants, ws[0]);
      assert (ws + [t])[1..] == ws[1..] + [t];
      DeliverNext(LeftBy(have, w), ws[1..], t, wants);
    }
  }

  /** Thread `t` gets its bits of `have`, after the deliveries `before`. */
  ghost predicate Takes(have: Bits, w: Want, left: Bits, after: seq<Delivery>, before: seq<Delivery>, t: Tid) {
    && (exists got: Bits | after == before + [Delivery(t, got)] :: forall b :: b in got <==> b in have && b in w.bits)
    && forall b :: b in left <==> b in have && !(w.clear && b in w.bits)
  }

  lemma MetMeans(have: Bits, w: Want)
    ensures Met(have, w) <==>
            if w.every then forall b | b in w.bits :: b in have else exists b | b in w.bits :: b in have
  {
    if w.every {
      assert (forall b | b in w.bits :: b in have) ==> have * w.bits == w.bits;
    } else {
      assert forall b | b in w.bits && b in have :: b in have * w.bits;
    }
  }

  /** No bit gets lost: each one is left, or somebody received it and asked for it to be taken away. */
  lemma {:induction false} BitsAccounted(have: Bits, ws: seq<Tid>, wants: map<Tid, Want>, b: Bit)
    requires b in have
    ensures var r := Deliver(have, ws, wants);
            b in r.left || exists d | d in r.deliveries :: b in d.received && WantOf(wants, d.t).clear
    decreases ws
  {
    if ws != [] {
      var w := WantOf(wants, ws[0]);
      var left, r := LeftBy(have, w), Deliver(have, ws, wants);
      if b in left {
        BitsAccounted(left, ws[1..], wants, b);
        var rest := Deliver(left, ws[1..], wants);
        assert forall d | d in rest.deliveries :: d in r.deliveries;
      } else {
        assert r.deliveries[0] in r.deliveries && b in r.deliveries[0].received;
      }
    }
  }

  /** `b` has no bit that `a` lacks. */
  predicate Within(b: Bits, a: Bits) { b <= a }

  /** What a thread's condition needs is not created by clearing. */
  lemma MetMonotone(have: Bits, less: Bits, w: Want)
    requires Within(less, have) && Met(less, w)
    ensures Met(have, w)
  {
  }

  lemma WithinTrans(a: Bits, b: Bits, c: Bits)
    requires Within(c, b) && Within(b, a)
    ensures Within(c, a)
  {
  }

  lemma LeftWithin(have: Bits, w: Want)
    ensures Within(LeftBy(have, w), have)
  {
  }

  /** Bits only disappear during a delivery, nobody is left waiting whose condition holds of what
      is left, and every waiter is either resumed or still waiting. */
  lemma {:induction false} NobodyOverlooked(have: Bits, ws: seq<Tid>, wants: map<Tid, Want>)
    ensures var r := Deliver(have, ws, wants);
            && Within(r.left, have)
            && (forall t | t in r.waiting :: t in ws && !Met(r.left, WantOf(wants, t)))
            && (forall t | t in ws :: t in r.waiting || exists d | d in r.deliveries :: d.t == t)
  {
    if ws != [] {
      var w := WantOf(wants, ws[0]);
      var left, r := LeftBy(have, w), Deliver(have, ws, wants);
      var rest := Deliver(left, ws[1..], wants);
      NobodyOverlooked(left, ws[1..], wants);
      LeftWithin(have, w);
      WithinTrans(have, left, rest.left);
      if Met(have, w) {
        assert r.deliveries[0].t == ws[0];
        forall t | t in ws[1..] && t !in rest.waiting ensures exists d | d in r.deliveries :: d.t == t {
          var d :| d in rest.deliveries && d.t == t;
          assert d in r.deliveries;
        }
      } else if Met(rest.left, w) {
        MetMonotone(have, rest.left, w);
      }
    }
  }

  lemma DeliverSub(have: Bits, ws: seq<Tid>, wants: map<Tid, Want>)
    requires Distinct(ws)
    ensures Distinct(Deliver(have, ws, wants).waiting)
    ensures forall t | t in Deliver(have, ws, wants).waiting :: t in ws
  {
    if ws != [] {
      var left := LeftBy(have, WantOf(wants, ws[0]));
      assert ws[1..] == RemoveAt(ws, 0);
      RemoveDistinct(ws, 0);
      DeliverSub(left, ws[1..], wants);
      InsertDistinctFront(Deliver(left, ws[1..], wants).waiting, ws[0]);
    }
  }

  lemma InsertDistinctFront(r: seq<Tid>, t: Tid)
    requires Distinct(r)
    ensures t !in r ==> Distinct([t] + r)
  {
  }

  // ----- calls ------------------------------------------------------------------------------------

  function Send(e: Event, bits: Bits): (Event, Err, seq<Delivery>) {
    if bits == {} then (e, ERROR, [])
    else
      var r := Deliver(e.bits + bits, e.waiters, e.wants);
      (e.(bits := r.left, waiters := r.waiting), EOK, r.deliveries)
  }

  /** A send of no bits fails; otherwise the bits sent are there, with those that were, until a thread
      that is resumed by this send takes them away. */
  lemma SendOutcome(e: Event, sent: Bits)
    ensures var (q, err, deliveries) := Send(e, sent);
            && (sent == {} ==> q == e && err == ERROR && deliveries == [])
            && (sent != {} ==>
                  && err == EOK && q.wants == e.wants
                  && (forall b | b in q.bits :: b in e.bits || b in sent)
                  && (forall b | b in e.bits || b in sent ::
                        b in q.bits || exists d | d in deliveries :: b in d.received && WantOf(e.wants, d.t).clear)
                  && Result(q.bits, q.waiters, deliveries) == Deliver(e.bits + sent, e.waiters, e.wants))
  {
    if sent != {} {
      NobodyOverlooked(e.bits + sent, e.waiters, e.wants);
      forall b | b in e.bits || b in sent
        ensures var (q, err, deliveries) := Send(e, sent);
                b in q.bits || exists d | d in deliveries :: b in d.received && WantOf(e.wants, d.t).clear
      {
        BitsAccounted(e.bits + sent, e.waiters, e.wants, b);
      }
    }
  }

  function Suspended(e: Event, flag: Flag, prio: map<Tid, int>, t: Tid, w: Want): Event {
    e.(waiters := Enqueue(flag, e.waiters, prio, t), wants := e.wants[t := w])
  }

  datatype Recved = Got(received: Bits) | Refused(err: Err) | Blocked

  function Recv(e: Event, flag: Flag, prio: map<Tid, int>, t: Tid, w: Want, timeout: int): (Event, Recved) {
    if w.bits == {} then (e, Refused(ERROR))
    else if Met(e.bits, w) then
      (e.(bits := LeftBy(e.bits, w)), Got(Received(e.bits, w)))
    else if timeout == 0 then (e, Refused(ETIMEOUT))
    else (Suspended(e, flag, prio, t, w), Blocked)
  }

  /** A receive of no bits fails; with all, or any, of the bits there it gets those of its bits that are
      there, and takes its bits away if it asked for that; otherwise it comes back with ETIMEOUT, or sleeps
      in its place of the wait list with what it asked for on record. */
  lemma RecvOutcome(e: Event, flag: Flag, prio: map<Tid, int>, t: Tid, w: Want, timeout: int)
    ensures var (q, r) := Recv(e, flag, prio, t, w, timeout);
            var met := if w.every then forall b | b in w.bits :: b in e.bits else exists b | b in w.bits :: b in e.bits;
            && (w.bits == {} ==> q == e && r == Refused(ERROR))
            && (w.bits != {} && met ==>
                  && q.waiters == e.waiters && q.wants == e.wants && r.Got?
                  && (forall b :: b in r.received <==> b in e.bits && b in w.bits)
                  && (forall b :: b in q.bits <==> b in e.bits && !(w.clear && b in w.bits)))
            && (w.bits != {} && !met && timeout == 0 ==> q == e && r == Refused(ETIMEOUT))
            && (w.bits != {} && !met && timeout != 0 ==>
                  && r.Blocked? && q.bits == e.bits && q.wants == e.wants[t := w]
                  && JoinsQueue(flag, e.waiters, prio, t, q.waiters))
  {
    MetMeans(e.bits, w);
    EnqueueJoins(flag, e.waiters, prio, t);
  }

  datatype Action =
    | SendBits(bits: Bits)
    | RecvBits(t: Tid, want: Want, timeout: int)
    | Expire(t: Tid)
    | Reset

  function Step(flag: Flag, prio: map<Tid, int>, e: Event, a: Action): Event {
    match a
    case SendBits(bits) => Send(e, bits).0
    case RecvBits(t, w, timeout) => if t in e.waiters then e else Recv(e, flag, prio, t, w, timeout).0
    case Expire(t) => e.(waiters := Without(e.waiters, t))
    case Reset => Event({}, [], e.wants)
  }

  function Run(flag: Flag, prio: map<Tid, int>, e: Event, actions: seq<Action>): Event
    decreases actions
  {
    if actions == [] then e else Run(flag, prio, Step(flag, prio, e, actions[0]), actions[1..])
  }

  /** No suspended thread's condition is met. */
  ghost predicate Inv(e: Event) {
    && Distinct(e.waiters)
    && forall t | t in e.waiters :: !Met(e.bits, WantOf(e.wants, t))
  }

  /** A waiter that times out leaves and takes no bits; a reset leaves no bits and nobody waiting. */
  lemma OtherSteps(flag: Flag, prio: map<Tid, int>, e: Event, t: Tid)
    requires Inv(e)
    ensures var q := Step(flag, prio, e, Expire(t));
            && q.bits == e.bits && q.wants == e.wants && forall u :: u in q.waiters <==> u in e.waiters && u != t
    ensures var q := Step(flag, prio, e, Reset); q.bits == {} && q.waiters == []
  {
    WithoutDistinct(e.waiters, t);
  }

  lemma StillUnmet(e: Event, less: Bits)
    requires Inv(e) && Within(less, e.bits)
    ensures Inv(e.(bits := less))
  {
    forall u | u in e.waiters ensures !Met(less, WantOf(e.wants, u)) {
      if Met(less, WantOf(e.wants, u)) { MetMonotone(e.bits, less, WantOf(e.wants, u)); }
    }
  }

  lemma RecvKeeps(flag: Flag, prio: map<Tid, int>, e: Event, t: Tid, w: Want, timeout: int)
    requires Inv(e) && t !in e.waiters
    ensures Inv(Recv(e, flag, prio, t, w, timeout).0)
  {
    EnqueueDistinct(flag, e.waiters, prio, t);
    LeftWithin(e.bits, w);
    StillUnmet(e, LeftBy(e.bits, w));
  }

  lemma StepKeeps(flag: Flag, prio: map<Tid, int>, e: Event, a: Action)
    requires Inv(e)
    ensures Inv(Step(flag, prio, e, a))
  {
    match a {
      case SendBits(bits) =>
        NobodyOverlooked(e.bits + bits, e.waiters, e.wants);
        DeliverSub(e.bits + bits, e.waiters, e.wants);
      case RecvBits(t, w, timeout) =>
        if t !in e.waiters { RecvKeeps(flag, prio, e, t, w, timeout); }
      case Expire(t) => WithoutDistinct(e.waiters, t);
      case Reset =>
    }
  }

  lemma {:induction false} RunKeeps(flag: Flag, prio: map<Tid, int>, e: Event, actions: seq<Action>)
    requires Inv(e)
    ensures Inv(Run(flag, prio, e, actions))
    decreases actions
  {
    if actions != [] {
      StepKeeps(flag, prio, e, actions[0]);
      RunKeeps(flag, prio, Step(flag, prio, e, actions[0]), actions[1..]);
    }
  }

  /** In every reachable state no suspended thread's AND or OR condition is met. */
  lemma {:induction false} EveryRun(flag: Flag, prio: map<Tid, int>, actions: seq<Action>, t: Tid)
    ensures var e := Run(flag, prio, Event({}, [], map[]), actions);
            t in e.waiters ==> !Met(e.bits, WantOf(e.wants, t))
  {
    RunKeeps(flag, prio, Event({}, [], map[]), actions);
  }

  // ----- the loop of rt_event_send ------------------------------------------------------------------

  /** The code clears what a thread received rather than what it asked for; the bits that remain
      are the same. */
  lemma ClearReceived(have: Bits, w: Want)
    requires Met(have, w)
    ensures have - have * w.bits == have - w.bits
    ensures w.every ==> have * w.bits == w.bits
  {
  }

  /** One visit of the walk: the rest of the list is delivered to with the bits left over. */
  lemma VisitStep(have: Bits, list: seq<Tid>, i: nat, wants: map<Tid, Want>, kept: seq<Tid>, done: seq<Delivery>)
    requires i < |list|
    ensures var w := WantOf(wants, list[i]);
            var r, rest := Deliver(have, list[i..], wants), Deliver(LeftBy(have, w), list[i + 1..], wants);
            Result(r.left, kept + r.waiting, done + r.deliveries)
            == if Met(have, w) then
                 Result(rest.left, kept + rest.waiting,
                        (done + [Delivery(list[i], Received(have, w))]) + rest.deliveries)
               else
                 Result(rest.left, (kept + [list[i]]) + rest.waiting, done + rest.deliveries)
  {
    assert list[i..][1..] == list[i + 1..];
  }

  /** These threads' event_set still is what they asked for. */
  ghost predicate Pending(ts: seq<Tid>, eventSet: map<Tid, Bits>, wants: map<Tid, Want>) {
    forall t | t in ts :: t in eventSet && eventSet[t] == WantOf(wants, t).bits
  }

  lemma PendingMore(ts: seq<Tid>, more: seq<Tid>, es: map<Tid, Bits>, wants: map<Tid, Want>, t: Tid, w: Want)
    requires Pending(ts, es, wants) && t !in ts && forall u | u in more :: u == t || u in ts
    ensures Pending(more, es[t := w.bits], wants[t := w])
  {
  }

  lemma PendingWith(ts: seq<Tid>, es: map<Tid, Bits>, wants: map<Tid, Want>,
                    flag: Flag, prio: map<Tid, int>, t: Tid, w: Want)
    requires Pending(ts, es, wants) && Distinct(ts) && t !in ts
    ensures Pending(Enqueue(flag, ts, prio, t), es[t := w.bits], wants[t := w])
  {
    EnqueueDistinct(flag, ts, prio, t);
    PendingMore(ts, Enqueue(flag, ts, prio, t), es, wants, t, w);
  }

  /** These threads' event_set is what they received. */
  ghost predicate Delivered(ds: seq<Delivery>, eventSet: map<Tid, Bits>) {
    forall d | d in ds :: d.t in eventSet && eventSet[d.t] == d.received
  }

  ghost predicate From(ds: seq<Delivery>, ts: seq<Tid>) {
    forall d | d in ds :: d.t in ts
  }

  class EventObject {
    const flag: Flag
    var bits: Bits
    var waiters: seq<Tid>
    var wants: map<Tid, Want>         // what each thread asked for last: the set and thread->event_info
    var eventSet: map<Tid, Bits>      // thread->event_set

    constructor (flag: Flag)
      ensures Valid() && Model() == Event({}, [], map[]) && this.flag == flag
    {
      this.flag, bits, waiters, wants, eventSet := flag, {}, [], map[], map[];
    }

    ghost function Model(): Event
      reads this
    {
      Event(bits, waiters, wants)
    }

    /** No suspended thread's condition is met, and its event_set still is what it asked for. */
    ghost predicate Valid()
      reads this
    {
      Inv(Model()) && Pending(waiters, eventSet, wants)
    }

    /** rt_event_recv up to the point where the thread returns or is suspended. */
    method RecvIt(thread: Tid, w: Want, prio: map<Tid, int>, timeout: int) returns (r: Recved)
      requires Valid() && thread !in waiters
      modifies this
      ensures Valid() && (Model(), r) == Recv(old(Model()), flag, prio, thread, w, timeout)
      ensures r.Got? ==> eventSet == old(eventSet)[thread := r.received]
    {
      if w.bits == {} { return Refused(ERROR); }
      RecvKeeps(flag, prio, Model(), thread, w, timeout);
      var met := Check(w);
      if met {
        r := Receive(thread, w);
      } else if timeout == 0 {
        r := Refused(ETIMEOUT);
      } else {
        SuspendIt(thread, w, prio);
        r := Blocked;
      }
    }

    method Check(w: Want) returns (met: bool)
      ensures met == Met(bits, w)
    {
      met := false;
      if w.every {
        if bits * w.bits == w.bits { met := true; }
      } else {
        if bits * w.bits != {} { met := true; }
      }
    }

    method Receive(thread: Tid, w: Want) returns (r: Recved)
      requires Met(bits, w) && thread !in waiters && Pending(waiters, eventSet, wants)
      modifies `bits, `eventSet
      ensures r == Got(Received(old(bits), w)) && bits == LeftBy(old(bits), w)
      ensures eventSet == old(eventSet)[thread := r.received] && Pending(waiters, eventSet, wants)
    {
      r := Got(bits * w.bits);
      eventSet := eventSet[thread := bits * w.bits];
      if w.clear { bits := bits - w.bits; }
    }

    method SuspendIt(thread: Tid, w: Want, prio: map<Tid, int>)
      requires Distinct(waiters) && thread !in waiters && Pending(waiters, eventSet, wants)
      modifies `waiters, `wants, `eventSet
      ensures Model() == Suspended(old(Model()), flag, prio, thread, w)
      ensures Pending(waiters, eventSet, wants)
    {
      PendingWith(waiters, eventSet, wants, flag, prio, thread, w);
      Suspend(Enqueue(flag, waiters, prio, thread), thread, w);
    }

    method Suspend(queue: seq<Tid>, thread: Tid, w: Want)
      requires Pending(queue, eventSet[thread := w.bits], wants[thread := w])
      modifies `waiters, `wants, `eventSet
      ensures waiters == queue && wants == old(wants)[thread := w] && Pending(waiters, eventSet, wants)
    {
      eventSet := eventSet[thread := w.bits];
      wants := wants[thread := w];
      waiters := queue;
    }

    /** The timer of a suspended thread fires. */
    method ExpireIt(thread: Tid)
      requires Valid()
      modifies `waiters
      ensures Valid() && Model() == old(Model()).(waiters := Without(old(waiters), thread))
    {
      WithoutDistinct(waiters, thread);
      waiters := Without(waiters, thread);
    }

    /** rt_event_control with RT_IPC_CMD_RESET. */
    method ResetIt()
      requires Valid()
      modifies `waiters, `bits
      ensures Valid() && Model() == Event({}, [], wants)
    {
      waiters, bits := [], {};
    }

    /** The test of one waiter in rt_event_send, and what it does to the event and the thread. */
    method Visit(thread: Tid) returns (met: bool)
      requires thread in eventSet && eventSet[thread] == WantOf(wants, thread).bits
      modifies `bits, `eventSet
      ensures met == Met(old(bits), WantOf(wants, thread))
      ensures bits == LeftBy(old(bits), WantOf(wants, thread))
      ensures eventSet == if met then old(eventSet)[thread := Received(old(bits), WantOf(wants, thread))]
                    else old(eventSet)
    {
      var w := WantOf(wants, thread);
      met := false;
      if w.every {
        if eventSet[thread] * bits == eventSet[thread] { met := true; }
      } else {
        if eventSet[thread] * bits != {} {
          eventSet := eventSet[thread := eventSet[thread] * bits];
          met := true;
        }
      }
      if met {
        ClearReceived(bits, w);
        assert w.bits * bits == bits * w.bits;
        assert eventSet == old(eventSet)[thread := Received(bits, w)];
        if w.clear { bits := bits - eventSet[thread]; }
      }
    }

    /** rt_event_send: OR in the bits, then one pass over the wait list. */
    method SendIt(sent: Bits) returns (err: Err, ghost deliveries: seq<Delivery>)
      requires Valid()
      modifies this
      ensures Valid() && (Model(), err, deliveries) == Send(old(Model()), sent)
      ensures Delivered(deliveries, eventSet)
    {
      deliveries := [];
      if sent == {} { return ERROR, []; }
      NobodyOverlooked(bits + sent, waiters, wants);
      DeliverSub(bits + sent, waiters, wants);
      bits := bits + sent;
      deliveries := Walk();
      err := EOK;
    }

    /** Where the pass stands: `all` is what it will have done in the end. */
    ghost predicate Walking(list: seq<Tid>, i: nat, kept: seq<Tid>, deliveries: seq<Delivery>, all: Result)
      reads this
    {
      && i <= |list|
      && Pending(list[i..], eventSet, wants) && Pending(kept, eventSet, wants)
      && Delivered(deliveries, eventSet) && From(deliveries, list[..i])
      && (forall t | t in kept :: t in list[..i])
      && var r := Deliver(bits, list[i..], wants);
         all == Result(r.left, kept + r.waiting, deliveries + r.deliveries)
    }

    method Turn(list: seq<Tid>, i: nat, kept: seq<Tid>, ghost done: seq<Delivery>, ghost all: Result)
      returns (kept': seq<Tid>, ghost deliveries: seq<Delivery>)
      requires i < |list| && Distinct(list) && Walking(list, i, kept, done, all)
      modifies `bits, `eventSet
      ensures Walking(list, i + 1, kept', deliveries, all)
    {
      var thread := list[i];
      ghost var have := bits;
      VisitStep(bits, list, i, wants, kept, done);
      assert list[..i + 1] == list[..i] + [thread] && list[i..] == [thread] + list[i + 1..];
      assert thread !in list[..i] && thread !in list[i + 1..];
      var met := Visit(thread);
      kept', deliveries := kept, done;
      if met {
        deliveries := done + [Delivery(thread, Received(have, WantOf(wants, thread)))];
      } else {
        kept' := kept + [thread];
      }
    }

    /** The pass over the wait list. */
    method Walk() returns (ghost deliveries: seq<Delivery>)
      requires Distinct(waiters) && Pending(waiters, eventSet, wants)
      modifies `bits, `waiters, `eventSet
      ensures Result(bits, waiters, deliveries) == Deliver(old(bits), old(waiters), wants)
      ensures Pending(waiters, eventSet, wants) && Delivered(deliveries, eventSet)
    {
      deliveries := [];
      ghost var all := Deliver(bits, waiters, wants);
      var list, kept, i := waiters, [], 0;
      assert list[0..] == list;
      while i < |list|
        invariant 0 <= i <= |list| && Walking(list, i, kept, deliveries, all)
      {
        kept, deliveries := Turn(list, i, kept, deliveries, all);
        i := i + 1;
      }
      assert list[i..] == [] && kept + [] == kept && deliveries + [] == deliveries;
      waiters := kept;
    }
  }
}
