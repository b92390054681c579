/** What every handler of the product keeps, over all runs. */
module ControllerProofs {
  import opened Lists
  import opened Kernel
  import opened Registry
  import opened RegistryProofs
  import opened FlashText
  import opened Controller
  import Format

  // ----- what a registry operation may change ---------------------------------------------------------

  /** At most one gateway and one door unit, in a registry that is in order. */
  ghost predicate RegOk(r: Reg) {
    Ok(r) && AtMostOne(r.devs, GATEWAY) && AtMostOne(r.devs, DOORUNIT)
  }

  /** The registry stays in order and the stored lock is not touched. */
  ghost predicate Quiet(r: Reg, q: Reg) {
    RegOk(q) && GetKey(q.flash, "valve_lock") == GetKey(r.flash, "valve_lock")
  }

  predicate NoNewLeak(r: Reg, q: Reg) { AnyLeak(q.devs) ==> AnyLeak(r.devs) }

  lemma SameKinds(a: seq<Device>, b: seq<Device>, kind: Byte)
    requires |a| == |b| && forall k | 0 <= k < |a| :: a[k].kind == b[k].kind
    requires AtMostOne(a, kind)
    ensures AtMostOne(b, kind)
  {
  }

  lemma FewerLeaks(a: seq<Device>, b: seq<Device>)
    requires |a| == |b| && forall k | 0 <= k < |a| :: b[k].leak != 0 ==> a[k].leak != 0
    ensures AnyLeak(b) ==> AnyLeak(a)
  {
    if AnyLeak(b) {
      var d :| d in b && d.leak != 0;
      var k :| 0 <= k < |b| && b[k] == d;
      assert a[k] in a;
    }
  }

  lemma QuietStep(r: Reg, q: Reg)
    requires RegOk(r) && Ok(q) && Undisturbed(r, q)
    ensures Quiet(r, q) && (NoneLeaksMore(r, q) ==> NoNewLeak(r, q))
  {
    SameKinds(r.devs, q.devs, GATEWAY);
    SameKinds(r.devs, q.devs, DOORUNIT);
    if NoneLeaksMore(r, q) { FewerLeaks(r.devs, q.devs); }
  }

  lemma SetStep(r: Reg, f: Field, id: Format.Word, v: Byte)
    requires RegOk(r)
    ensures Quiet(r, Set(r, f, id, v))
    ensures f != Leak || v == 0 ==> NoNewLeak(r, Set(r, f, id, v))
  {
    SetKeeps(r, f, id, v);
    QuietStep(r, Set(r, f, id, v));
  }

  lemma RamStep(r: Reg, devs: seq<Device>)
    requires RegOk(r) && |devs| == |r.devs| && forall k | 0 <= k < |devs| :: SamePersisted(devs[k], r.devs[k])
    ensures Quiet(r, r.(devs := devs)) && NoNewLeak(r, r.(devs := devs))
  {
    RamOnly(r, devs);
    QuietStep(r, r.(devs := devs));
  }

  lemma HeartRecvStep(r: Reg, id: Format.Word, level: Byte)
    requires RegOk(r)
    ensures Quiet(r, HeartRecv(r, id, level)) && NoNewLeak(r, HeartRecv(r, id, level))
  {
    HeartRecvKeeps(r, id, level);
    QuietStep(r, HeartRecv(r, id, level));
  }

  lemma HeartWalkStep(r: Reg)
    requires RegOk(r)
    ensures Quiet(r, HeartWalk(r, 0)) && NoNewLeak(r, HeartWalk(r, 0))
  {
    HeartWalkKeeps(r, 0);
    QuietStep(r, HeartWalk(r, 0));
  }

  lemma GatewayHeartStep(r: Reg)
    requires RegOk(r)
    ensures Quiet(r, GatewayHeart(r)) && NoNewLeak(r, GatewayHeart(r))
  {
    RamStep(r, SetRecv(r, GatewayId(r.devs), 0).devs);
  }

  lemma DeleteStep(r: Reg, id: Format.Word)
    requires RegOk(r)
    ensures Quiet(r, Delete(r, id).0) && NoNewLeak(r, Delete(r, id).0)
  {
    DeleteKeeps(r, id);
    FewerOfKind(r, Delete(r, id).0, GATEWAY);
    FewerOfKind(r, Delete(r, id).0, DOORUNIT);
  }

  lemma {:induction false} DeleteKindStep(r: Reg, ds: seq<Device>, kind: Byte)
    requires RegOk(r)
    ensures Quiet(r, DeleteKind(r, ds, kind)) && NoNewLeak(r, DeleteKind(r, ds, kind))
    decreases ds
  {
    if ds != [] {
      DeleteStep(r, ds[0].id);
      DeleteKindStep(if ds[0].kind == kind then Delete(r, ds[0].id).0 else r, ds[1..], kind);
    }
  }

  lemma CreateStep(r: Reg, level: Byte, kind: Byte, id: Format.Word)
    requires RegOk(r)
    requires kind == GATEWAY || kind == DOORUNIT ==> forall d | d in r.devs :: d.kind != kind
    ensures Quiet(r, Create(r, level, kind, id).0) && NoNewLeak(r, Create(r, level, kind, id).0)
  {
    CreateKeeps(r, level, kind, id);
    var q := Create(r, level, kind, id).0;
    if q != r {
      var slot := FreeSlot(r.mask, 0);
      var d := NewDevice(slot, level, kind, id);
      CreateLock(r, level, kind, id);
      OneMore(r.devs, d, GATEWAY);
      OneMore(r.devs, d, DOORUNIT);
      assert q.devs == r.devs + [d];
    }
  }

  lemma OneMore(devs: seq<Device>, d: Device, kind: Byte)
    requires AtMostOne(devs, kind) && (d.kind == kind ==> forall e | e in devs :: e.kind != kind)
    ensures AtMostOne(devs + [d], kind)
  {
  }

  lemma CreateLock(r: Reg, level: Byte, kind: Byte, id: Format.Word)
    ensures GetKey(Create(r, level, kind, id).0.flash, "valve_lock") == GetKey(r.flash, "valve_lock")
  {
    var slot := FreeSlot(r.mask, 0);
    IndexKeysDiffer(slot, 0);
  }

  /** Registering a gateway or a door unit first deletes the one there was. */
  lemma ReplaceStep(r: Reg, level: Byte, kind: Byte, id: Format.Word)
    requires RegOk(r)
    ensures var q := Create(DeleteKind(r, r.devs, kind), level, kind, id).0;
            Quiet(r, q) && NoNewLeak(r, q)
  {
    DeleteKindStep(r, r.devs, kind);
    NoneLeft(r, kind);
    CreateStep(DeleteKind(r, r.devs, kind), level, kind, id);
  }

  lemma LockKeyStep(r: Reg, v: Format.Word)
    requires RegOk(r)
    ensures var q := r.(flash := SetKey(r.flash, "valve_lock", v));
            RegOk(q) && GetKey(q.flash, "valve_lock") == v
  {
    PrintParse(v);
    var flash := SetKey(r.flash, "valve_lock", v);
    forall d | d in r.devs ensures Mirrored(flash, d) {
      assert Mirrored(r.flash, d);
      IndexKeysDiffer(d.slot, 0);
    }
  }

  // ----- the invariant ----------------------------------------------------------------------------------

  /** Locked implies closed, and flash agrees with the lock. */
  ghost predicate LockStored(s: Sys) {
    && RegOk(s.reg) && (s.lock == 0 || s.lock == 1) && (s.lock == 1 ==> !s.open)
    && GetKey(s.reg.flash, "valve_lock") == s.lock
  }

  function Highest(raised: seq<nat>): nat {
    if raised == [] then 0
    else
      var last, rest := raised[|raised| - 1], Highest(raised[..|raised| - 1]);
      if last >= rest then last else rest
  }

  lemma {:induction false} HighestIsMaximum(raised: seq<nat>)
    ensures forall p | p in raised :: p <= Highest(raised)
    ensures raised != [] ==> Highest(raised) in raised
  {
    if raised != [] {
      var rest, last := raised[..|raised| - 1], raised[|raised| - 1];
      HighestIsMaximum(rest);
      forall p | p in raised ensures p <= Highest(raised) {
        if p != last { InFront(raised, p); }
      }
      if last >= Highest(rest) {
        assert Highest(raised) == last;
      } else {
        assert rest != [] && Highest(raised) == Highest(rest);
      }
    }
  }

  lemma InFront(raised: seq<nat>, p: nat)
    requires p in raised && p != raised[|raised| - 1]
    ensures p in raised[..|raised| - 1]
  {
    var k :| 0 <= k < |raised| && raised[k] == p;
    assert raised[..|raised| - 1][k] == p;
  }

  /** The priority of the warning a status belongs to; 0 for the statuses of no warning. */
  function BoundPriority(st: Status): nat {
    match st
    case ValveLeftFail => 4 case ValveRightFail => 4 case SlaverLowPower => 3 case SlaverUltraLowPower => 6
    case SlaverSensorLeak => 8 case SlaverSensorLost => 1 case SlaverOffline => 5 case MasterSensorLost => 1
    case MasterSensorLeak => 7 case MasterLowTemp => 2
    case _ => 0
  }

  ghost predicate Arbitrated(s: Sys) {
    && s.prio == Highest(s.raised) <= 8
    && (BoundPriority(s.status) != 0 ==> s.prio == BoundPriority(s.status))
  }

  ghost predicate Base(s: Sys) {
    && LockStored(s) && Arbitrated(s)
    && (s.status == SlaverSensorLeak ==> s.lock == 1 && !s.open)
  }

  /** A leak flag is on record only while the leak alarm is on. */
  predicate Alarm(s: Sys) { AnyLeak(s.reg.devs) ==> s.status == SlaverSensorLeak }

  /** The invariant holds again, and the leak alarm is not lost. */
  ghost predicate Kept(s: Sys, t: Sys) { Base(t) && (Alarm(s) ==> Alarm(t)) }

  /** The fields the invariant does not speak of may change freely. */
  lemma Unrelated(s: Sys, t: Sys)
    requires Base(s)
    requires t.reg == s.reg && t.lock == s.lock && t.open == s.open
    requires t.status == s.status && t.prio == s.prio && t.raised == s.raised
    ensures Kept(s, t)
  {
  }

  // ----- valve and warnings -----------------------------------------------------------------------------------

  lemma RaisedOne(raised: seq<nat>, p: nat)
    ensures Highest(raised + [p]) == if p >= Highest(raised) then p else Highest(raised)
  {
    assert (raised + [p])[..|raised|] == raised;
  }

  lemma LockCloseKeeps(s: Sys)
    requires LockStored(s)
    ensures var t := LockClose(s);
            && LockStored(t) && t.lock == 1 && !t.open && t.reg.devs == s.reg.devs
            && t.prio == s.prio && t.raised == s.raised && (t.status == s.status || t.status == ValveClose)
  {
    if s.lock == 0 { LockKeyStep(s.reg, 1); }
  }

  lemma LockIsStored(s: Sys)
    ensures LockStored(s) ==>
      var t := Lock(s); t.lock == 1 && GetKey(t.reg.flash, "valve_lock") == 1 && RegOk(t.reg)
  {
    if LockStored(s) && s.lock == 0 { LockKeyStep(s.reg, 1); }
  }

  lemma UnlockIsStored(s: Sys)
    ensures LockStored(s) ==> Unlock(s).lock == 0 && LockStored(Unlock(s))
  {
    if LockStored(s) && s.lock == 1 { LockKeyStep(s.reg, 0); }
  }

  lemma UnlockOpenKeeps(s: Sys)
    requires Base(s) && Normal(s)
    ensures Kept(s, UnlockOpen(s)) && UnlockOpen(s).reg.devs == s.reg.devs
  {
    if s.lock == 1 { LockKeyStep(s.reg, 0); }
  }

  /** A reaction puts the status of its warning in place of the old one. */
  ghost predicate Reacted(s: Sys, t: Sys, w: Warning) {
    && LockStored(t) && (t.status == SlaverSensorLeak ==> t.lock == 1 && !t.open)
    && t.reg.devs == s.reg.devs && t.prio == s.prio && t.raised == s.raised
    && BoundPriority(t.status) == Priority(w) && (w == SensorLeak <==> t.status == SlaverSensorLeak)
  }

  lemma LockReacts(s: Sys, w: Warning)
    requires LockStored(s) && (s.status == SlaverSensorLeak ==> s.lock == 1 && !s.open)
    requires w == UltraLowPower || w == SensorLeak
    ensures Reacted(s, React(s, w), w)
  {
    LockCloseKeeps(s);
  }

  lemma CloseReacts(s: Sys, w: Warning)
    requires LockStored(s) && (w == Offline || w == MasterLeak || w == LowTemp)
    ensures Reacted(s, React(s, w), w)
  {
    CloseStores(s);
    if w == Offline {
      if s.status == SlaverOffline {}
    } else if w == MasterLeak {
    }
  }

  lemma ReactKeeps(s: Sys, w: Warning)
    requires LockStored(s) && (s.status == SlaverSensorLeak ==> s.lock == 1 && !s.open)
    ensures Reacted(s, React(s, w), w)
  {
    if w == UltraLowPower || w == SensorLeak {
      LockReacts(s, w);
    } else if w == Offline || w == MasterLeak || w == LowTemp {
      CloseReacts(s, w);
    } else {
      StatusReacts(s, w);
    }
  }

  lemma StatusReacts(s: Sys, w: Warning)
    requires LockStored(s) && w in {LeftFail, RightFail, LowPower, SensorLost, MasterLost}
    ensures Reacted(s, React(s, w), w)
  {
  }

  lemma CloseStores(s: Sys)
    requires LockStored(s)
    ensures var t := CloseValve(s).0;
            LockStored(t) && !t.open && t.reg == s.reg && t.prio == s.prio && t.raised == s.raised
  {
  }

  lemma ReactedKept(s: Sys, m: Sys, t: Sys, w: Warning)
    requires Base(s) && Reacted(m, t, w) && m.reg == s.reg && Priority(w) >= s.prio
    requires m.prio == Priority(w) == Highest(m.raised)
    ensures Kept(s, t)
  {
  }

  lemma NotedKept(s: Sys, p: nat)
    requires Base(s) && p < s.prio
    ensures Kept(s, Noted(s, p))
  {
    RaisedOne(s.raised, p);
  }

  lemma RaiseTakes(s: Sys, w: Warning, m: Sys, t: Sys)
    requires Base(s) && Priority(w) >= s.prio && m == Adopt(s, Priority(w)) && t == React(m, w)
    ensures Kept(s, t) && t.reg.devs == s.reg.devs && (w == SensorLeak ==> t.status == SlaverSensorLeak)
  {
    AdoptedInOrder(s, m, Priority(w));
    ReactKeeps(m, w);
    ReactedKept(s, m, t, w);
  }

  lemma RaiseKeeps(s: Sys, w: Warning)
    requires Base(s)
    ensures Kept(s, Raise(s, w)) && Raise(s, w).reg.devs == s.reg.devs
    ensures w == SensorLeak ==> Raise(s, w).status == SlaverSensorLeak
  {
    var p := Priority(w);
    if p >= s.prio {
      RaiseReacts(s, w);
      RaiseTakes(s, w, Adopt(s, p), Raise(s, w));
    } else {
      NotedKept(s, p);
    }
  }

  lemma RaiseReacts(s: Sys, w: Warning)
    requires Priority(w) >= s.prio
    ensures Raise(s, w) == React(Adopt(s, Priority(w)), w)
  {
  }

  lemma AdoptedInOrder(s: Sys, m: Sys, p: nat)
    requires Base(s) && p >= s.prio && m == Adopt(s, p)
    ensures LockStored(m) && (m.status == SlaverSensorLeak ==> m.lock == 1 && !m.open)
    ensures m.reg == s.reg && m.prio == p == Highest(m.raised)
  {
    RaisedOne(s.raised, p);
  }

  lemma RegChange(s: Sys, q: Reg)
    requires Base(s) && Quiet(s.reg, q)
    ensures Base(s.(reg := q)) && (NoNewLeak(s.reg, q) ==> Kept(s, s.(reg := q)))
  {
  }

  lemma CloseKept(s: Sys)
    requires Base(s) && s.status != SlaverSensorLeak
    ensures Kept(s, CloseValve(s).0)
  {
  }

  lemma OpenKept(s: Sys)
    requires Base(s) && s.status != SlaverSensorLeak
    ensures Kept(s, OpenValve(s).0)
  {
  }

  lemma LockCloseKept(s: Sys)
    requires Base(s) && Normal(s)
    ensures Kept(s, LockClose(s))
  {
    LockCloseKeeps(s);
  }

  lemma CheckKept(s: Sys, leftPin: bool, rightPin: bool)
    requires Base(s)
    ensures Kept(s, CheckStart(s, leftPin, rightPin))
  {
    Unrelated(s, CheckStart(s, leftPin, rightPin));
  }

  /** Clearing loses the alarm only if a leak is on record. */
  lemma ClearKept(s: Sys)
    requires Base(s)
    ensures Base(Clear(s)) && (s.status != SlaverSensorLeak || !AnyLeak(s.reg.devs) ==> Kept(s, Clear(s)))
  {
  }

  lemma StartLearnKept(s: Sys)
    requires Base(s)
    ensures Kept(s, StartLearn(s))
  {
    if Normal(s) {
      StatusKept(s, StartLearn(s));
    } else if s.status == LearnDevice {
      Unrelated(s, s.(allowAdd := false, timers := s.timers.(learn := false)));
      ClearKept(s.(allowAdd := false, timers := s.timers.(learn := false)));
    }
  }

  /** A status that belongs to no warning takes the place of one that is not the leak alarm. */
  lemma StatusKept(s: Sys, t: Sys)
    requires Base(s) && s.status != SlaverSensorLeak && BoundPriority(t.status) == 0
    requires t.reg == s.reg && t.lock == s.lock && t.open == s.open && t.prio == s.prio && t.raised == s.raised
    ensures Kept(s, t)
  {
  }

  // ----- frames --------------------------------------------------------------------------------------------------

  lemma LearnedKept(s: Sys, created: (Reg, bool))
    requires Base(s) && Quiet(s.reg, created.0) && NoNewLeak(s.reg, created.0)
    ensures Kept(s, Learned(s, created))
  {
    RegChange(s, created.0);
    if created.1 { Unrelated(s.(reg := created.0), RefreshLearn(s.(reg := created.0))); }
  }

  lemma HeartRecvKept(s: Sys, id: Format.Word, level: Byte)
    requires Base(s)
    ensures Kept(s, s.(reg := HeartRecv(s.reg, id, level)))
  {
    HeartRecvStep(s.reg, id, level);
    RegChange(s, HeartRecv(s.reg, id, level));
  }

  lemma SetKept(s: Sys, f: Field, id: Format.Word, v: Byte)
    requires Base(s)
    ensures var t := s.(reg := Set(s.reg, f, id, v)); Base(t) && (f != Leak || v == 0 ==> Kept(s, t))
  {
    SetStep(s.reg, f, id, v);
    RegChange(s, Set(s.reg, f, id, v));
  }

  lemma LevelKept(s: Sys, id: Format.Word, v: Byte)
    requires Base(s)
    ensures Kept(s, s.(reg := SetLevelInRam(s.reg, id, v)))
  {
    RamStep(s.reg, SetLevelInRam(s.reg, id, v).devs);
    RegChange(s, SetLevelInRam(s.reg, id, v));
  }

  lemma EndunitLearnKeeps(local: Format.Word, s: Sys, f: Frame)
    requires Base(s)
    ensures Kept(s, EndunitLearn(local, s, f))
  {
    if f.dest == local && !(f.dest == BROADCAST && s.allowAdd) {
      if f.b2 == 1 {
        CreateStep(s.reg, f.level, ENDUNIT, f.source);
        LearnedKept(s, Create(s.reg, f.level, ENDUNIT, f.source));
      } else if f.b2 == 2 {
        StartLearnKept(s);
      }
    }
  }

  lemma EndunitHeartKeeps(s: Sys, f: Frame)
    requires Base(s)
    ensures Kept(s, EndunitHeart(s, f))
  {
    SetKept(s, Battery, f.source, f.b2);
    var s1 := s.(reg := Set(s.reg, Battery, f.source, f.b2));
    if f.b2 == 1 {
      RaiseKeeps(s1, LowPower);
    } else if f.b2 == 2 {
      RaiseKeeps(s1, UltraLowPower);
    }
  }

  lemma LeakGoneKeeps(s: Sys)
    requires Base(s)
    ensures Kept(s, LeakGone(s))
  {
    if s.status == SlaverSensorLeak {
      if !AnyLeak(s.reg.devs) { ClearKept(s); }
    } else if Normal(s) {
      LockCloseKept(s);
    }
  }

  lemma EndunitValveKeeps(s: Sys, f: Frame)
    requires Base(s)
    ensures Kept(s, EndunitValve(s, f))
  {
    LevelKept(s, f.source, f.level);
    var s1 := s.(reg := SetLevelInRam(s.reg, f.source, f.level));
    if f.b2 != 0 {
      if Normal(s1) { UnlockOpenKeeps(s1); }
    } else {
      SetKept(s1, Leak, f.source, 0);
      var s2 := s1.(reg := Set(s1.reg, Leak, f.source, 0));
      LeakGoneKeeps(s2);
    }
  }

  lemma LeakFrameKeeps(s: Sys, f: Frame)
    requires Base(s) && f.b2 == 0
    ensures Kept(s, EndunitWarn(s, f))
  {
    SetKept(s, Leak, f.source, f.b3);
    var s1 := s.(reg := Set(s.reg, Leak, f.source, f.b3));
    if f.b3 != 0 {
      RaiseKeeps(s1, SensorLeak);
    } else if s1.status == SlaverSensorLeak && !AnyLeak(s1.reg.devs) {
      ClearKept(s1);
      CloseKept(Clear(s1));
    }
  }

  lemma EndunitWarnKeeps(s: Sys, f: Frame)
    requires Base(s)
    ensures Kept(s, EndunitWarn(s, f))
  {
    if f.b2 == 0 {
      LeakFrameKeeps(s, f);
    } else if f.b2 == 1 {
      SetKept(s, Wire, f.source, f.b3);
      var s1 := s.(reg := Set(s.reg, Wire, f.source, f.b3));
      if f.b3 != 0 { RaiseKeeps(s1, SensorLost); } else { ClearKept(s1); }
    }
  }

  lemma EndunitCommandKeeps(s: Sys, f: Frame)
    requires Base(s)
    ensures Kept(s, EndunitCommand(s, f))
  {
    if f.command == HEART_UPLOAD {
      EndunitHeartKeeps(s, f);
    } else if f.command == CONTROL_VALVE {
      EndunitValveKeeps(s, f);
    } else if f.command == WARNING_UPLOAD {
      EndunitWarnKeeps(s, f);
    }
  }

  lemma EndunitFrameKeeps(local: Format.Word, s: Sys, f: Frame)
    requires Base(s)
    ensures Kept(s, EndunitFrame(local, s, f))
  {
    var s1 := s;
    if f.command == LEARN_DEVICE {
      EndunitLearnKeeps(local, s, f);
      s1 := EndunitLearn(local, s, f);
    }
    if Known(s.reg.devs, f.source) && f.dest == local {
      EndunitCommandKeeps(s1, f);
      var s2 := EndunitCommand(s1, f);
      HeartRecvKept(s2, f.source, f.level);
      ClearKept(s2.(reg := HeartRecv(s2.reg, f.source, f.level)));
    }
  }

  lemma DoorDelayKeeps(s: Sys, sub: Byte)
    requires Base(s)
    ensures Kept(s, DoorDelay(s, sub))
  {
    if sub == 2 {
      if Normal(s) { Unrelated(s, DelayControl(s, true)); }
    } else if sub == 3 {
      Unrelated(s, DelayControl(s, false));
    }
  }

  lemma DoorCommandKeeps(s: Sys, sub: Byte)
    requires Base(s)
    ensures Kept(s, DoorCommand(s, sub))
  {
    if sub == 0 {
      if Normal(s) { LockCloseKept(s); }
    } else if sub == 1 {
      if Normal(s) { UnlockOpenKeeps(s); }
    } else {
      DoorDelayKeeps(s, sub);
    }
  }

  lemma DoorValveKeeps(s: Sys, f: Frame)
    requires Base(s)
    ensures Kept(s, DoorValve(s, f))
  {
    LevelKept(s, f.source, f.level);
    DoorCommandKeeps(s.(reg := SetLevelInRam(s.reg, f.source, f.level)), f.b2);
  }

  lemma DoorLearnKeeps(local: Format.Word, s: Sys, f: Frame)
    requires Base(s)
    ensures Kept(s, DoorLearn(local, s, f))
  {
    ReplaceStep(s.reg, f.level, DOORUNIT, f.source);
    LearnedKept(s, Create(DeleteKind(s.reg, s.reg.devs, DOORUNIT), f.level, DOORUNIT, f.source));
  }

  lemma DoorDispatchKeeps(s: Sys, f: Frame)
    requires Base(s)
    ensures Kept(s, DoorDispatch(s, f))
  {
    if f.command == HEART_UPLOAD && f.b2 == 0 {
      SetKept(s, Battery, f.source, f.b3);
    } else if f.command == CONTROL_VALVE {
      DoorValveKeeps(s, f);
    }
  }

  lemma DoorFrameKeeps(local: Format.Word, s: Sys, f: Frame)
    requires Base(s)
    ensures Kept(s, DoorFrame(local, s, f))
  {
    var s1 := s;
    if f.command == LEARN_DEVICE {
      DoorLearnKeeps(local, s, f);
      s1 := DoorLearn(local, s, f);
    }
    if Known(s.reg.devs, f.source) && f.dest == local {
      DoorDispatchKeeps(s1, f);
      var s2 := DoorDispatch(s1, f);
      HeartRecvKept(s2, f.source, f.level);
    }
  }

  lemma GatewayLearnKeeps(local: Format.Word, s: Sys, f: Frame)
    requires Base(s)
    ensures Kept(s, GatewayLearn(local, s, f))
  {
    ReplaceStep(s.reg, 0, GATEWAY, f.source);
    LearnedKept(s, Create(DeleteKind(s.reg, s.reg.devs, GATEWAY), 0, GATEWAY, f.source));
  }

  lemma GatewayControlKeeps(s: Sys, f: Frame)
    requires Base(s)
    ensures Kept(s, GatewayControl(s, f))
  {
    if Normal(s) {
      CloseKept(s);
      UnlockOpenKeeps(s);
    }
  }

  lemma GatewayCommandKeeps(s: Sys, f: Frame)
    requires Base(s)
    ensures Kept(s, GatewayCommand(s, f))
  {
    if f.command == CONTROL_VALVE {
      GatewayControlKeeps(s, f);
    } else if f.command == DEVICE_SYNC && f.b2 == 1 {
      DeleteStep(s.reg, f.addr);
      RegChange(s, Delete(s.reg, f.addr).0);
    }
  }

  lemma GatewayFrameKeeps(local: Format.Word, s: Sys, f: Frame)
    requires Base(s)
    ensures Kept(s, GatewayFrame(local, s, f))
  {
    var s1 := s;
    if f.command == LEARN_DEVICE {
      GatewayLearnKeeps(local, s, f);
      s1 := GatewayLearn(local, s, f);
    }
    if Known(s.reg.devs, f.source) && f.dest == local {
      RamStep(s1.reg, SetRecv(s1.reg, f.source, 1).devs);
      RegChange(s1, SetRecv(s1.reg, f.source, 1));
      var s2 := s1.(reg := SetRecv(s1.reg, f.source, 1));
      GatewayCommandKeeps(s2, f);
    }
  }

  lemma MotionLearnKeeps(local: Format.Word, s: Sys, f: Frame)
    requires Base(s)
    ensures Kept(s, MotionLearn(local, s, f))
  {
    CreateStep(s.reg, f.level, MOTION, f.source);
    LearnedKept(s, Create(s.reg, f.level, MOTION, f.source));
  }

  lemma MotionControlKeeps(s: Sys, f: Frame)
    requires Base(s)
    ensures Kept(s, MotionControl(s, f))
  {
    LevelKept(s, f.source, f.level);
    var s1 := s.(reg := SetLevelInRam(s.reg, f.source, f.level));
    if Normal(s1) {
      CloseKept(s1);
      UnlockOpenKeeps(s1);
    }
  }

  lemma MotionFrameKeeps(local: Format.Word, s: Sys, f: Frame)
    requires Base(s)
    ensures Kept(s, MotionFrame(local, s, f))
  {
    var s1 := s;
    if f.command == LEARN_DEVICE {
      MotionLearnKeeps(local, s, f);
      s1 := MotionLearn(local, s, f);
    }
    if Known(s.reg.devs, f.source) && f.dest == local {
      var s2 := s1;
      if f.command == CONTROL_VALVE {
        MotionControlKeeps(s1, f);
        s2 := MotionControl(s1, f);
      }
      HeartRecvKept(s2, f.source, f.level);
    }
  }

  // ----- start-up --------------------------------------------------------------------------------------------------

  lemma SameOfKind(a: seq<Device>, b: seq<Device>, kind: Byte)
    requires AtMostOne(a, kind) && DistinctDevices(b) && Image(b) <= Image(a)
    ensures AtMostOne(b, kind)
  {
    forall i, j | 0 <= i < |b| && 0 <= j < |b| && b[i].kind == kind && b[j].kind == kind ensures i == j {
      var d := InImage(b[i], b, a);
      var e := InImage(b[j], b, a);
      var m :| 0 <= m < |a| && a[m] == d;
      var n :| 0 <= n < |a| && a[n] == e;
      assert m == n;
    }
  }

  /** Whatever the flash of a registry in order, the unit comes up in order, shut, and with the leak
      alarm on if a leak is on record. */
  lemma {:induction false} BootKeeps(r: Reg)
    requires RegOk(r) && GetKey(r.flash, "valve_lock") <= 1
    ensures var t := Boot(r.flash); Base(t) && Alarm(t)
  {
    ReloadedOk(r);
    var s := Started(r.flash);
    SmallByte(GetKey(r.flash, "valve_lock"));
    FreshBase(s);
    if AnyLeak(s.reg.devs) { RaiseKeeps(s, SensorLeak); }
  }

  lemma SmallByte(x: nat)
    ensures x < 256 ==> x % 256 == x
  {
  }

  lemma FreshBase(s: Sys)
    requires RegOk(s.reg) && s.lock == GetKey(s.reg.flash, "valve_lock") <= 1
    requires !s.open && s.status == ValveClose && s.prio == 0 && s.raised == []
    ensures Base(s)
  {
  }

  lemma ReloadedOk(r: Reg)
    requires RegOk(r)
    ensures var q := RecvClear(Reload(r.flash)); RegOk(q) && q.flash == r.flash
  {
    RebootRestores(r);
    var q := Reload(r.flash);
    SameOfKind(r.devs, q.devs, GATEWAY);
    SameOfKind(r.devs, q.devs, DOORUNIT);
    RamStep(q, RecvClear(q).devs);
  }

  lemma FactoryKeeps(flash: Flash)
    requires "slot" !in flash && "valve_lock" !in flash
    ensures Base(Boot(flash)) && Alarm(Boot(flash))
  {
    EmptyOk(flash);
    BootKeeps(Reg(0, [], flash));
  }

  // ----- every event ------------------------------------------------------------------------------------

  lemma LeftBackKeeps(s: Sys, pin: bool)
    requires Base(s)
    ensures Kept(s, LeftBackExpired(s, pin))
  {
    if pin {
      Unrelated(s, LeftBackExpired(s, pin));
    } else {
      LeftFails(s);
    }
  }

  lemma LeftFails(s: Sys)
    requires Base(s)
    ensures Kept(s, Raise(s.(valid := false, leftBad := true), LeftFail))
  {
    Unrelated(s, s.(valid := false, leftBad := true));
    RaiseKeeps(s.(valid := false, leftBad := true), LeftFail);
  }

  lemma RightBackKeeps(s: Sys, pin: bool)
    requires Base(s)
    ensures Kept(s, RightBackExpired(s, pin))
  {
    if pin {
      Unrelated(s, RightBackExpired(s, pin));
    } else {
      RightFails(s);
    }
  }

  lemma RightFails(s: Sys)
    requires Base(s)
    ensures Kept(s, Raise(s.(valid := false, rightBad := true), RightFail))
  {
    Unrelated(s, s.(valid := false, rightBad := true));
    RaiseKeeps(s.(valid := false, rightBad := true), RightFail);
  }

  lemma FailOverKept(s: Sys)
    requires Base(s)
    ensures Kept(s, FailOver(s))
  {
    ClearKept(s);
  }

  lemma LeftCheckKeeps(s: Sys, pin: bool)
    requires Base(s)
    ensures Kept(s, LeftCheckExpired(s, pin))
  {
    if pin {
      LeftFails(s);
    } else {
      FailOverKept(s.(valid := true));
      Unrelated(s, s.(valid := true));
      Unrelated(if s.rightBad then s else FailOver(s.(valid := true)), LeftCheckExpired(s, pin));
    }
  }

  lemma RightCheckKeeps(s: Sys, pin: bool)
    requires Base(s)
    ensures Kept(s, RightCheckExpired(s, pin))
  {
    if pin {
      RightFails(s);
    } else {
      FailOverKept(s.(valid := true));
      Unrelated(s, s.(valid := true));
      Unrelated(if s.leftBad then s else FailOver(s.(valid := true)), RightCheckExpired(s, pin));
    }
  }

  lemma OnLeftBackKeeps(s: Sys, pin: bool)
    requires Base(s)
    ensures Kept(s, OnLeftBack(s, pin))
  {
    Unrelated(s, s.(timers := s.timers.(leftBack := false)));
    LeftBackKeeps(s.(timers := s.timers.(leftBack := false)), pin);
  }

  lemma OnRightBackKeeps(s: Sys, pin: bool)
    requires Base(s)
    ensures Kept(s, OnRightBack(s, pin))
  {
    Unrelated(s, s.(timers := s.timers.(rightBack := false)));
    RightBackKeeps(s.(timers := s.timers.(rightBack := false)), pin);
  }

  lemma OnLeftCheckKeeps(s: Sys, pin: bool)
    requires Base(s)
    ensures Kept(s, OnLeftCheck(s, pin))
  {
    Unrelated(s, s.(timers := s.timers.(leftCheck := false)));
    LeftCheckKeeps(s.(timers := s.timers.(leftCheck := false)), pin);
  }

  lemma OnRightCheckKeeps(s: Sys, pin: bool)
    requires Base(s)
    ensures Kept(s, OnRightCheck(s, pin))
  {
    Unrelated(s, s.(timers := s.timers.(rightCheck := false)));
    RightCheckKeeps(s.(timers := s.timers.(rightCheck := false)), pin);
  }

  lemma OnDelayKeeps(s: Sys)
    requires Base(s)
    ensures Kept(s, OnDelay(s))
  {
    Unrelated(s, DelayControl(s, false));
    if Normal(s) { LockCloseKept(DelayControl(s, false)); }
  }

  lemma OnDetectKeeps(s: Sys, l: bool, r: bool)
    requires Base(s)
    ensures Kept(s, OnDetect(s, l, r))
  {
    Unrelated(s, s.(timers := s.timers.(detect := false)));
    CheckKept(s.(timers := s.timers.(detect := false)), l, r);
  }

  lemma KeyOnKeeps(s: Sys)
    requires Base(s)
    ensures Kept(s, KeyOn(s))
  {
    if s.status != SlaverSensorLeak { OpenKept(s); }
  }

  lemma KeyOffKeeps(s: Sys)
    requires Base(s)
    ensures Kept(s, KeyOff(s))
  {
    if s.status != SlaverSensorLeak {
      CloseKept(s);
      ClearKept(s);
    }
  }

  lemma KeyOnHoldKeeps(s: Sys, l: bool, r: bool)
    requires Base(s)
    ensures Kept(s, KeyOnHold(s, l, r))
  {
    if s.keys.on < 4 {
      Unrelated(s, KeyOnHold(s, l, r));
    } else if s.keys.off != 0 {
      FactoryKeeps(Defaults(s.reg.flash));
    } else if !s.keys.onLong {
      Unrelated(s, s.(keys := s.keys.(onLong := true)));
      CheckKept(s.(keys := s.keys.(onLong := true)), l, r);
    }
  }

  lemma KeyOffHoldKeeps(s: Sys)
    requires Base(s)
    ensures Kept(s, KeyOffHold(s))
  {
    if s.keys.off < 4 {
      Unrelated(s, KeyOffHold(s));
    } else if s.keys.on != 0 {
      FactoryKeeps(Defaults(s.reg.flash));
    } else if !s.keys.offLong {
      Unrelated(s, s.(keys := s.keys.(offLong := true)));
      StartLearnKept(s.(keys := s.keys.(offLong := true)));
    }
  }

  lemma PollKeeps(s: Sys, level: nat)
    requires Base(s)
    ensures Kept(s, DryPoll(s, level))
  {
    var s1 := s.(dryLevel := level);
    Unrelated(s, s1);
    if Normal(s1) {
      OpenKept(s1);
      CloseKept(s1);
    }
  }

  lemma HeartCheckKeeps(s: Sys)
    requires Base(s)
    ensures Kept(s, HeartCheck(s))
  {
    HeartWalkStep(s.reg);
    RegChange(s, HeartWalk(s.reg, 0));
    RaiseKeeps(s.(reg := HeartWalk(s.reg, 0)), Offline);
  }

  lemma HourKeeps(s: Sys, l: bool, r: bool)
    requires Base(s)
    ensures Kept(s, Hour(s, l, r))
  {
    ValveHourKeeps(s, l, r);
    var s1 := ValveHour(s, l, r);
    RtcHourKeeps(s1);
    GatewayHeartStep(RtcHour(s1).reg);
    RegChange(RtcHour(s1), GatewayHeart(RtcHour(s1).reg));
  }

  lemma ValveHourKeeps(s: Sys, l: bool, r: bool)
    requires Base(s)
    ensures Kept(s, ValveHour(s, l, r))
  {
    var s1 := s.(valveHours := Tick(s.valveHours));
    Unrelated(s, s1);
    CheckKept(s1, l, r);
  }

  lemma RtcHourKeeps(s: Sys)
    requires Base(s)
    ensures Kept(s, RtcHour(s))
  {
    if s.rtcHours < 47 {
      Unrelated(s, RtcHour(s));
    } else {
      Unrelated(s, s.(rtcHours := 0));
      HeartCheckKeeps(s.(rtcHours := 0));
    }
  }

  lemma OnLearnKeeps(s: Sys)
    requires Base(s)
    ensures Base(OnLearn(s)) && (!s.timers.learn ==> OnLearn(s) == s)
  {
    var t := s.(timers := s.timers.(learn := false), allowAdd := false);
    Unrelated(s, t);
    ClearKept(t);
  }

  lemma LeftKeeps(local: Format.Word, s: Sys, e: Event)
    requires Base(s) && (e.LeftBackFires? || e.LeftCheckFires?)
    ensures Kept(s, Next(local, s, e))
  {
    if e.LeftBackFires? {
      OnLeftBackKeeps(s, e.pin);
    } else {
      OnLeftCheckKeeps(s, e.pin);
    }
  }

  lemma RightKeeps(local: Format.Word, s: Sys, e: Event)
    requires Base(s) && (e.RightBackFires? || e.RightCheckFires?)
    ensures Kept(s, Next(local, s, e))
  {
    if e.RightBackFires? {
      OnRightBackKeeps(s, e.pin);
    } else {
      OnRightCheckKeeps(s, e.pin);
    }
  }

  /** Every event keeps the invariant; every event but the end of the learn timer keeps the alarm. */
  lemma StepKeeps(local: Format.Word, s: Sys, e: Event)
    requires Base(s)
    ensures Base(Next(local, s, e))
    ensures !e.LearnFires? && Alarm(s) ==> Alarm(Next(local, s, e))
  {
    match e
    case KeyOnClick => KeyOnKeeps(s);
    case KeyOffClick => KeyOffKeeps(s);
    case KeyOnHeld(l, r) => KeyOnHoldKeeps(s, l, r);
    case KeyOffHeld => KeyOffHoldKeeps(s);
    case KeyOnFree => Unrelated(s, KeysFreed(s, true));
    case KeyOffFree => Unrelated(s, KeysFreed(s, false));
    case Poll(level) => PollKeeps(s, level);
    case HourPassed(l, r) => HourKeeps(s, l, r);
    case PowerCycle => BootKeeps(s.reg);
    case FromEndunit(f) => EndunitFrameKeeps(local, s, f);
    case FromDoor(f) => DoorFrameKeeps(local, s, f);
    case FromGateway(f) => GatewayFrameKeeps(local, s, f);
    case FromMotion(f) => MotionFrameKeeps(local, s, f);
    case DetectFires(l, r) => OnDetectKeeps(s, l, r);
    case DelayFires => OnDelayKeeps(s);
    case LearnFires => OnLearnKeeps(s);
    case LeftBackFires(_) => LeftKeeps(local, s, e);
    case RightBackFires(_) => RightKeeps(local, s, e);
    case LeftCheckFires(_) => LeftKeeps(local, s, e);
    case RightCheckFires(_) => RightKeeps(local, s, e);
  }
}
