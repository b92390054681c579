/** What every event does to the valve and to the lock: one table, from statuses, command bytes, timers
    and priorities, against all handlers. */
module CommandProofs {
  import opened Kernel
  import opened Registry
  import opened RegistryProofs
  import opened RegistryOutcomes
  import opened Controller
  import opened ControllerProofs
  import opened ValveProofs
  import Format

  /** What an event asks of the valve and of the lock. */
  datatype Wish = Leave | Close | LockAndClose | Open | UnlockAndOpen

  /** The statuses in which commands are obeyed. */
  predicate Obeys(s: Sys) { s.status in {ValveClose, ValveOpen, SlaverSensorLost} }

  /** The wish came true: locking is refused by no state, opening by the lock and by a failed motor. */
  predicate Granted(s: Sys, t: Sys, w: Wish) {
    match w
    case Leave => t.open == s.open && t.lock == s.lock
    case Close => !t.open && !t.left && !t.right && t.lock == s.lock
    case LockAndClose => !t.open && !t.left && !t.right && t.lock == if s.lock == 0 then 1 else s.lock
    case Open => t.lock == s.lock && t.open == (s.open || (s.valid && s.lock != 1))
    case UnlockAndOpen => t.lock == (if s.lock == 1 then 0 else s.lock) && t.open == (s.open || s.valid)
  }

  /** No device but the sender leaks. */
  ghost predicate NoOtherLeak(devs: seq<Device>, id: Format.Word) {
    forall d | d in devs :: d.leak == 0 || d.id == id
  }

  /** An end unit has not been heard since the last check, or was offline. */
  ghost predicate Silent(devs: seq<Device>) {
    exists d | d in devs :: d.kind == 0 && (d.recv == 0 || d.online == 0)
  }

  ghost function EndunitWish(s: Sys, f: Frame): Wish {
    if f.command == 1 && f.b2 == 2 && 6 >= s.prio then LockAndClose
    else if f.command == 3 && Obeys(s) then if f.b2 == 0 then LockAndClose else UnlockAndOpen
    else if f.command == 4 && f.b2 == 0 && f.b3 != 0 && 8 >= s.prio && s.status != SlaverSensorLeak then LockAndClose
    else if f.command == 4 && f.b2 == 0 && f.b3 == 0 && s.status == SlaverSensorLeak
            && NoOtherLeak(s.reg.devs, f.source)
      then Close
    else Leave
  }

  function DoorWish(s: Sys, f: Frame): Wish {
    if f.command != 3 || !Obeys(s) then Leave
    else if f.b2 == 0 then LockAndClose else if f.b2 == 1 then UnlockAndOpen else Leave
  }

  function GatewayWish(s: Sys, f: Frame): Wish {
    if f.command != 3 || !Obeys(s) then Leave
    else if f.b2 == 0 then Close else if f.b2 == 1 then UnlockAndOpen else Leave
  }

  function MotionWish(s: Sys, f: Frame): Wish {
    if f.command != 3 || !Obeys(s) then Leave else if f.b2 == 0 then Close else UnlockAndOpen
  }

  ghost predicate Heard(local: Format.Word, s: Sys, f: Frame) { Listed(s.reg.devs, f.source) && f.dest == local }

  ghost function WishOf(local: Format.Word, s: Sys, e: Event): Wish {
    match e
    case KeyOnClick =>
      if s.status in {ValveClose, SlaverSensorLost, MasterSensorLost} then Open
      else if s.status == SlaverLowPower && !s.open then Open
      else Leave
    case KeyOffClick =>
      if s.status in {ValveOpen, MasterSensorLost} then Close
      else if s.status == SlaverLowPower && s.open then Close
      else Leave
    case Poll(level) => if level == s.dryLevel || !Obeys(s) then Leave else if level != 0 then Close else Open
    case DelayFires => if s.timers.delayClose && Obeys(s) then LockAndClose else Leave
    case HourPassed(_, _) =>
      if s.rtcHours >= 47 && Silent(s.reg.devs) && 5 >= s.prio && s.status != SlaverOffline then Close else Leave
    case FromEndunit(f) => if Heard(local, s, f) then EndunitWish(s, f) else Leave
    case FromDoor(f) => if Heard(local, s, f) then DoorWish(s, f) else Leave
    case FromGateway(f) => if Heard(local, s, f) then GatewayWish(s, f) else Leave
    case FromMotion(f) => if Heard(local, s, f) then MotionWish(s, f) else Leave
    case _ => Leave
  }

  // ----- valve, lock, warnings ---------------------------------------------------------------------------

  lemma Closes(s: Sys)
    ensures Granted(s, CloseValve(s).0, Close)
  {
  }

  lemma Opens(s: Sys)
    ensures Granted(s, OpenValve(s).0, Open)
  {
  }

  lemma LockCloses(s: Sys)
    ensures Granted(s, LockClose(s), LockAndClose)
  {
    if s.lock == 0 {}
  }

  lemma UnlockOpensUp(s: Sys)
    ensures Granted(s, UnlockOpen(s), UnlockAndOpen)
  {
    if s.lock == 1 {}
  }

  /** Status and registry may change before and after without changing what was granted. */
  lemma Around(s: Sys, s1: Sys, t1: Sys, t: Sys, w: Wish)
    requires s1.open == s.open && s1.lock == s.lock && s1.valid == s.valid && Granted(s1, t1, w)
    requires t.open == t1.open && t.lock == t1.lock && t.left == t1.left && t.right == t1.right
    ensures Granted(s, t, w)
  {
  }

  lemma StatusGrants(s: Sys, status: Status)
    ensures Granted(s, s.(status := status), Leave)
  {
  }

  lemma ClosedGrants(s: Sys, status: Status)
    ensures Granted(s, CloseValve(s).0.(status := status), Close)
  {
    Closes(s);
  }

  lemma LockedGrants(s: Sys, status: Status)
    ensures Granted(s, LockClose(s).(status := status), LockAndClose)
  {
    var t := LockClose(s);
    LockCloses(s);
    Around(s, s, t, t.(status := status), LockAndClose);
  }

  /** A callback, once it runs. */
  function ReactWish(s: Sys, w: Warning): Wish {
    match w
    case UltraLowPower => LockAndClose
    case SensorLeak => if s.status != SlaverSensorLeak then LockAndClose else Leave
    case Offline => if s.status != SlaverOffline then Close else Leave
    case MasterLeak => Close
    case LowTemp => Close
    case _ => Leave
  }

  lemma ReactGrants(s: Sys, w: Warning)
    ensures Granted(s, React(s, w), ReactWish(s, w))
  {
    match w
    case LeftFail => StatusGrants(s, ValveLeftFail);
    case RightFail => StatusGrants(s, ValveRightFail);
    case LowPower => StatusGrants(s, SlaverLowPower);
    case UltraLowPower => LockedGrants(s, SlaverUltraLowPower);
    case SensorLeak =>
      if s.status != SlaverSensorLeak { LockedGrants(s, SlaverSensorLeak); } else { StatusGrants(s, s.status); }
    case SensorLost => StatusGrants(s, SlaverSensorLost);
    case Offline => if s.status != SlaverOffline { ClosedGrants(s, SlaverOffline); } else { StatusGrants(s, s.status); }
    case MasterLost => StatusGrants(s, MasterSensorLost);
    case MasterLeak => ClosedGrants(s, MasterSensorLeak);
    case LowTemp => ClosedGrants(s, MasterLowTemp);
  }

  /** The grades of the warnings. */
  function Grade(w: Warning): nat {
    match w
    case LeftFail => 4 case RightFail => 4 case LowPower => 3 case UltraLowPower => 6 case SensorLeak => 8
    case SensorLost => 1 case Offline => 5 case MasterLost => 1 case MasterLeak => 7 case LowTemp => 2
  }

  function RaiseWish(s: Sys, w: Warning): Wish { if Grade(w) >= s.prio then ReactWish(s, w) else Leave }

  lemma GradeIs(w: Warning)
    ensures Priority(w) == Grade(w)
  {
  }

  lemma RaiseGrants(s: Sys, w: Warning)
    ensures Granted(s, Raise(s, w), RaiseWish(s, w))
  {
    GradeIs(w);
    if Priority(w) >= s.prio {
      RaiseReacts(s, w);
      TakenGrants(s, Adopt(s, Priority(w)), Raise(s, w), w);
    } else {
      NotTaken(s, w);
    }
  }

  lemma NotTaken(s: Sys, w: Warning)
    requires Priority(w) < s.prio
    ensures Granted(s, Raise(s, w), Leave)
  {
    assert Raise(s, w) == Noted(s, Priority(w));
  }

  lemma TakenGrants(s: Sys, m: Sys, t: Sys, w: Warning)
    requires m.open == s.open && m.lock == s.lock && m.valid == s.valid && m.status == s.status && t == React(m, w)
    ensures Granted(s, t, ReactWish(s, w))
  {
    ReactGrants(m, w);
    Around(s, m, t, t, ReactWish(s, w));
  }

  // ----- keys, dry contact, timers, clock ------------------------------------------------------------------

  lemma KeyOnGrants(local: Format.Word, s: Sys)
    ensures Granted(s, KeyOn(s), WishOf(local, s, KeyOnClick))
  {
    Opens(s);
  }

  lemma KeyOffGrants(local: Format.Word, s: Sys)
    ensures Granted(s, KeyOff(s), WishOf(local, s, KeyOffClick))
  {
    Closes(s);
    ClearSafe(s);
  }

  lemma PollGrants(local: Format.Word, s: Sys, level: nat)
    ensures Granted(s, DryPoll(s, level), WishOf(local, s, Poll(level)))
  {
    if level != s.dryLevel {
      var s1 := s.(dryLevel := level);
      Opens(s1);
      Closes(s1);
    }
  }

  lemma DelayGrants(local: Format.Word, s: Sys)
    ensures Granted(s, OnDelay(s), WishOf(local, s, DelayFires))
  {
    if s.timers.delayClose { LockCloses(DelayControl(s, false)); }
  }

  lemma CheckLeaves(s: Sys, l: bool, r: bool)
    ensures var t := CheckStart(s, l, r);
            t.open == s.open && t.lock == s.lock && t.status == s.status && t.prio == s.prio
    ensures CheckStart(s, l, r).reg == s.reg && CheckStart(s, l, r).rtcHours == s.rtcHours
  {
  }

  lemma SilentOffline(r: Reg)
    requires DistinctDevices(r.devs)
    ensures AnyOffline(HeartWalk(r, 0).devs, ENDUNIT) <==> Silent(r.devs)
  {
    var q := HeartWalk(r, 0);
    HeartWalkOutcome(r, 0);
    if AnyOffline(q.devs, ENDUNIT) {
      var d :| d in q.devs && d.online == 0 && d.kind == ENDUNIT;
      var k :| 0 <= k < |q.devs| && q.devs[k] == d;
      assert r.devs[k] in r.devs;
    }
    if Silent(r.devs) {
      var d :| d in r.devs && d.kind == 0 && (d.recv == 0 || d.online == 0);
      var k :| 0 <= k < |r.devs| && r.devs[k] == d;
      assert q.devs[k] in q.devs;
    }
  }

  lemma HourGrants(local: Format.Word, s: Sys, l: bool, r: bool)
    requires DistinctDevices(s.reg.devs)
    ensures Granted(s, Hour(s, l, r), WishOf(local, s, HourPassed(l, r)))
  {
    var s0, s1 := s.(valveHours := Tick(s.valveHours)), ValveHour(s, l, r);
    CheckLeaves(s0, l, r);
    RtcGrants(s1);
    HourIs(s, l, r);
    Around(s, s1, RtcHour(s1), Hour(s, l, r), RtcWish(s1));
  }

  lemma HourIs(s: Sys, l: bool, r: bool)
    ensures var t := RtcHour(ValveHour(s, l, r)); Hour(s, l, r) == t.(reg := GatewayHeart(t.reg))
    ensures var s1 := ValveHour(s, l, r);
            && s1.open == s.open && s1.lock == s.lock && s1.valid == s.valid && s1.status == s.status
            && s1.prio == s.prio && s1.reg == s.reg && s1.rtcHours == s.rtcHours
  {
    CheckLeaves(s.(valveHours := Tick(s.valveHours)), l, r);
    CheckValid(s.(valveHours := Tick(s.valveHours)), l, r);
  }

  lemma CheckValid(s: Sys, l: bool, r: bool)
    ensures CheckStart(s, l, r).valid == s.valid
  {
  }

  ghost function RtcWish(s: Sys): Wish {
    if s.rtcHours >= 47 && Silent(s.reg.devs) && 5 >= s.prio && s.status != SlaverOffline then Close else Leave
  }

  lemma RtcGrants(s: Sys)
    requires DistinctDevices(s.reg.devs)
    ensures Granted(s, RtcHour(s), RtcWish(s))
  {
    if s.rtcHours >= 47 {
      var s2 := s.(rtcHours := 0);
      var s3 := s2.(reg := HeartWalk(s2.reg, 0));
      SilentOffline(s2.reg);
      if AnyOffline(s3.reg.devs, ENDUNIT) {
        RaiseGrants(s3, Offline);
        Around(s, s3, Raise(s3, Offline), RtcHour(s), RtcWish(s));
      }
    }
  }

  // ----- frames ---------------------------------------------------------------------------------------------

  lemma HeartGrants(s: Sys, f: Frame)
    requires f.command == 1
    ensures Granted(s, EndunitHeart(s, f), EndunitWish(s, f))
  {
    var s1 := s.(reg := Set(s.reg, Battery, f.source, f.b2));
    if f.b2 == 1 {
      RaiseGrants(s1, LowPower);
    } else if f.b2 == 2 {
      RaiseGrants(s1, UltraLowPower);
    }
  }

  lemma ControlGrants(s: Sys, f: Frame)
    requires f.command == 3
    ensures Granted(s, EndunitValve(s, f), EndunitWish(s, f))
  {
    var s1 := s.(reg := SetLevelInRam(s.reg, f.source, f.level));
    if f.b2 != 0 {
      UnlockOpensUp(s1);
    } else {
      GoneGrants(s1.(reg := Set(s1.reg, Leak, f.source, 0)));
    }
  }

  lemma GoneGrants(s: Sys)
    ensures Granted(s, LeakGone(s), if Obeys(s) then LockAndClose else Leave)
  {
    if s.status == SlaverSensorLeak {
      if !AnyLeak(s.reg.devs) { ClearLeaves(s); }
    } else if Normal(s) {
      LockCloses(s);
    }
  }

  lemma ClearLeaves(s: Sys)
    ensures Granted(s, Clear(s), Leave) && Granted(s, FailOver(s), Leave) && Granted(s, OfflineCheck(s), Leave)
  {
  }

  lemma WarnGrants(s: Sys, f: Frame)
    requires f.command == 4
    ensures Granted(s, EndunitWarn(s, f), EndunitWish(s, f))
  {
    if f.b2 == 0 {
      LeakGrants(s, f);
    } else if f.b2 == 1 {
      var s1 := s.(reg := Set(s.reg, Wire, f.source, f.b3));
      if f.b3 != 0 { RaiseGrants(s1, SensorLost); } else { ClearSafe(s1); }
    }
  }

  lemma LeakGrants(s: Sys, f: Frame)
    requires f.command == 4 && f.b2 == 0
    ensures Granted(s, EndunitWarn(s, f), EndunitWish(s, f))
  {
    var s1 := s.(reg := Set(s.reg, Leak, f.source, f.b3));
    if f.b3 != 0 {
      RaiseGrants(s1, SensorLeak);
      Around(s, s1, Raise(s1, SensorLeak), EndunitWarn(s, f), EndunitWish(s, f));
    } else {
      LeakOver(s.reg, f.source);
      if s1.status == SlaverSensorLeak && !AnyLeak(s1.reg.devs) { Closes(Clear(s1)); }
    }
  }

  lemma LeakOver(r: Reg, id: Format.Word)
    ensures !AnyLeak(Set(r, Leak, id, 0).devs) <==> NoOtherLeak(r.devs, id)
  {
    var q := Set(r, Leak, id, 0);
    SettersOutcome(r, id, 0);
    forall k | 0 <= k < |r.devs| ensures q.devs[k] in q.devs && r.devs[k] in r.devs {}
  }

  lemma EndunitCommandGrants(s: Sys, f: Frame)
    ensures Granted(s, EndunitCommand(s, f), EndunitWish(s, f))
  {
    if f.command == HEART_UPLOAD {
      HeartGrants(s, f);
    } else if f.command == CONTROL_VALVE {
      ControlGrants(s, f);
    } else if f.command == WARNING_UPLOAD {
      WarnGrants(s, f);
    }
  }

  lemma StartLearnLeaves(s: Sys)
    ensures Granted(s, StartLearn(s), Leave)
  {
    if Normal(s) {
    } else if s.status == LearnDevice {
      ClearLeaves(s.(allowAdd := false, timers := s.timers.(learn := false)));
    }
  }

  lemma LearnedLeaves(s: Sys, created: (Reg, bool))
    ensures Granted(s, Learned(s, created), Leave)
  {
    if created.1 {}
  }

  lemma EndunitLearnLeaves(local: Format.Word, s: Sys, f: Frame)
    ensures Granted(s, EndunitLearn(local, s, f), Leave)
  {
    if f.dest == BROADCAST && s.allowAdd {
    } else if f.dest != local {
    } else if f.b2 == 1 {
      LearnedLeaves(s, Create(s.reg, f.level, ENDUNIT, f.source));
    } else if f.b2 == 2 {
      StartLearnLeaves(s);
    }
  }

  lemma DoorLearnLeaves(local: Format.Word, s: Sys, f: Frame)
    ensures Granted(s, DoorLearn(local, s, f), Leave)
  {
    LearnedLeaves(s, Create(DeleteKind(s.reg, s.reg.devs, DOORUNIT), f.level, DOORUNIT, f.source));
  }

  lemma GatewayLearnLeaves(local: Format.Word, s: Sys, f: Frame)
    ensures Granted(s, GatewayLearn(local, s, f), Leave)
  {
    LearnedLeaves(s, Create(DeleteKind(s.reg, s.reg.devs, GATEWAY), 0, GATEWAY, f.source));
  }

  lemma MotionLearnLeaves(local: Format.Word, s: Sys, f: Frame)
    ensures Granted(s, MotionLearn(local, s, f), Leave)
  {
    LearnedLeaves(s, Create(s.reg, f.level, MOTION, f.source));
  }

  /** A learn frame asks for nothing else. */
  lemma OnlyLearns(s: Sys, f: Frame)
    requires f.command == LEARN_DEVICE
    ensures EndunitCommand(s, f) == s && DoorDispatch(s, f) == s && GatewayCommand(s, f) == s
  {
  }

  lemma EndunitGrants(local: Format.Word, s: Sys, f: Frame)
    ensures Granted(s, EndunitFrame(local, s, f), WishOf(local, s, FromEndunit(f)))
  {
    KnownIsListed(s.reg.devs, f.source);
    if f.command == LEARN_DEVICE {
      EndunitLearnLeaves(local, s, f);
      LearnFrameLeaves(s, EndunitLearn(local, s, f), f);
    } else if Known(s.reg.devs, f.source) && f.dest == local {
      var s2 := EndunitCommand(s, f);
      EndunitCommandGrants(s, f);
      ThenHeard(s, s2, f, EndunitWish(s, f));
    }
  }

  lemma ThenHeard(s: Sys, t: Sys, f: Frame, w: Wish)
    requires Granted(s, t, w)
    ensures var u := t.(reg := HeartRecv(t.reg, f.source, f.level)); Granted(s, u, w) && Granted(s, OfflineCheck(u), w)
  {
    var u := t.(reg := HeartRecv(t.reg, f.source, f.level));
    ClearLeaves(u);
  }

  lemma LearnFrameLeaves(s: Sys, s1: Sys, f: Frame)
    requires Granted(s, s1, Leave) && f.command == LEARN_DEVICE
    ensures EndunitCommand(s1, f) == s1
    ensures var u := s1.(reg := HeartRecv(s1.reg, f.source, f.level)); Granted(s, OfflineCheck(u), Leave)
  {
    ThenHeard(s, s1, f, Leave);
  }

  lemma DoorGrants(local: Format.Word, s: Sys, f: Frame)
    ensures Granted(s, DoorFrame(local, s, f), WishOf(local, s, FromDoor(f)))
  {
    KnownIsListed(s.reg.devs, f.source);
    if f.command == LEARN_DEVICE {
      DoorLearnLeaves(local, s, f);
      OnlyLearns(DoorLearn(local, s, f), f);
    } else if Known(s.reg.devs, f.source) && f.dest == local {
      DoorDispatchGrants(s, f);
      ThenHeard(s, DoorDispatch(s, f), f, DoorWish(s, f));
    }
  }

  lemma DoorDispatchGrants(s: Sys, f: Frame)
    ensures Granted(s, DoorDispatch(s, f), DoorWish(s, f))
  {
    if f.command == CONTROL_VALVE {
      var s1 := s.(reg := SetLevelInRam(s.reg, f.source, f.level));
      DoorCommandGrants(s1, f);
      Around(s, s1, DoorCommand(s1, f.b2), DoorDispatch(s, f), DoorWish(s, f));
    }
  }

  lemma DoorCommandGrants(s: Sys, f: Frame)
    requires f.command == CONTROL_VALVE
    ensures Granted(s, DoorCommand(s, f.b2), DoorWish(s, f))
  {
    if f.b2 == 0 {
      if Normal(s) { LockCloses(s); }
    } else if f.b2 == 1 {
      if Normal(s) { UnlockOpensUp(s); }
    } else {
      DelayLeaves(s, f.b2);
    }
  }

  lemma DelayLeaves(s: Sys, sub: Byte)
    ensures Granted(s, DoorDelay(s, sub), Leave)
  {
    if sub == 2 {
      if Normal(s) {}
    } else if sub == 3 {
    }
  }

  lemma GatewayGrants(local: Format.Word, s: Sys, f: Frame)
    ensures Granted(s, GatewayFrame(local, s, f), WishOf(local, s, FromGateway(f)))
  {
    KnownIsListed(s.reg.devs, f.source);
    if f.command == LEARN_DEVICE {
      GatewayLearnLeaves(local, s, f);
      var s1 := GatewayLearn(local, s, f);
      OnlyLearns(s1.(reg := SetRecv(s1.reg, f.source, 1)), f);
    } else if Known(s.reg.devs, f.source) && f.dest == local {
      GatewayFrameIs(local, s, f);
      GatewayHeardGrants(s, f);
    }
  }

  lemma GatewayHeardGrants(s: Sys, f: Frame)
    requires GatewayWish(s.(reg := SetRecv(s.reg, f.source, 1)), f) == GatewayWish(s, f)
    ensures Granted(s, GatewayCommand(s.(reg := SetRecv(s.reg, f.source, 1)), f), GatewayWish(s, f))
  {
    var s1 := s.(reg := SetRecv(s.reg, f.source, 1));
    var t := GatewayCommand(s1, f);
    GatewayCommandGrants(s1, f);
    Around(s, s1, t, t, GatewayWish(s, f));
  }

  lemma GatewayFrameIs(local: Format.Word, s: Sys, f: Frame)
    requires Known(s.reg.devs, f.source) && f.dest == local && f.command != LEARN_DEVICE
    ensures GatewayFrame(local, s, f) == GatewayCommand(s.(reg := SetRecv(s.reg, f.source, 1)), f)
    ensures GatewayWish(s.(reg := SetRecv(s.reg, f.source, 1)), f) == GatewayWish(s, f)
  {
  }

  lemma GatewayCommandGrants(s: Sys, f: Frame)
    ensures Granted(s, GatewayCommand(s, f), GatewayWish(s, f))
  {
    if f.command == CONTROL_VALVE {
      Closes(s);
      UnlockOpensUp(s);
    }
  }

  lemma MotionGrants(local: Format.Word, s: Sys, f: Frame)
    ensures Granted(s, MotionFrame(local, s, f), WishOf(local, s, FromMotion(f)))
  {
    KnownIsListed(s.reg.devs, f.source);
    if f.command == LEARN_DEVICE {
      MotionLearnLeaves(local, s, f);
    } else if Known(s.reg.devs, f.source) && f.dest == local {
      MotionFrameIs(local, s, f);
      MotionHeardGrants(s, f);
    }
  }

  lemma MotionHeardGrants(s: Sys, f: Frame)
    requires f.command != LEARN_DEVICE
    ensures var s2 := if f.command == CONTROL_VALVE then MotionControl(s, f) else s;
            Granted(s, s2.(reg := HeartRecv(s2.reg, f.source, f.level)), MotionWish(s, f))
  {
    if f.command == CONTROL_VALVE {
      MotionControlGrants(s, f);
      ThenHeard(s, MotionControl(s, f), f, MotionWish(s, f));
    } else {
      ThenHeard(s, s, f, Leave);
    }
  }

  lemma MotionFrameIs(local: Format.Word, s: Sys, f: Frame)
    requires Known(s.reg.devs, f.source) && f.dest == local && f.command != LEARN_DEVICE
    ensures var s2 := if f.command == CONTROL_VALVE then MotionControl(s, f) else s;
            MotionFrame(local, s, f) == s2.(reg := HeartRecv(s2.reg, f.source, f.level))
  {
  }

  lemma MotionControlGrants(s: Sys, f: Frame)
    requires f.command == CONTROL_VALVE
    ensures Granted(s, MotionControl(s, f), MotionWish(s, f))
  {
    var s1 := s.(reg := SetLevelInRam(s.reg, f.source, f.level));
    Closes(s1);
    UnlockOpensUp(s1);
  }

  // ----- every event ------------------------------------------------------------------------------------------

  lemma OnHoldGrants(s: Sys, l: bool, r: bool)
    requires !Restarts(s, KeyOnHeld(l, r))
    ensures Granted(s, KeyOnHold(s, l, r), Leave)
  {
    if s.keys.on < 4 {
    } else if s.keys.off != 0 {
      assert BothKeys(s) == s;
    } else if !s.keys.onLong {
      CheckLeaves(s.(keys := s.keys.(onLong := true)), l, r);
    }
  }

  lemma OffHoldGrants(s: Sys)
    requires !Restarts(s, KeyOffHeld)
    ensures Granted(s, KeyOffHold(s), Leave)
  {
    if s.keys.off < 4 {
    } else if s.keys.on != 0 {
      assert BothKeys(s) == s;
    } else if !s.keys.offLong {
      StartLearnLeaves(s.(keys := s.keys.(offLong := true)));
    }
  }

  lemma FailLeaves(s: Sys)
    ensures Granted(s, Raise(s, LeftFail), Leave) && Granted(s, Raise(s, RightFail), Leave)
  {
    RaiseGrants(s, LeftFail);
    RaiseGrants(s, RightFail);
  }

  lemma LeftBackLeaves(s: Sys, pin: bool)
    ensures Granted(s, OnLeftBack(s, pin), Leave)
  {
    if s.timers.leftBack && !pin {
      FailLeaves(s.(timers := s.timers.(leftBack := false)).(valid := false, leftBad := true));
    }
  }

  lemma RightBackLeaves(s: Sys, pin: bool)
    ensures Granted(s, OnRightBack(s, pin), Leave)
  {
    if s.timers.rightBack && !pin {
      FailLeaves(s.(timers := s.timers.(rightBack := false)).(valid := false, rightBad := true));
    }
  }

  lemma LeftCheckLeaves(s: Sys, pin: bool)
    ensures Granted(s, OnLeftCheck(s, pin), Leave)
  {
    var s1 := s.(timers := s.timers.(leftCheck := false));
    if s.timers.leftCheck {
      if pin {
        FailLeaves(s1.(valid := false, leftBad := true));
      } else if !s1.rightBad {
        ClearLeaves(s1.(valid := true));
      }
    }
  }

  lemma RightCheckLeaves(s: Sys, pin: bool)
    ensures Granted(s, OnRightCheck(s, pin), Leave)
  {
    var s1 := s.(timers := s.timers.(rightCheck := false));
    if s.timers.rightCheck {
      if pin {
        FailLeaves(s1.(valid := false, rightBad := true));
      } else if !s1.leftBad {
        ClearLeaves(s1.(valid := true));
      }
    }
  }

  lemma TimerGrants(local: Format.Word, s: Sys, e: Event)
    requires Times(e)
    ensures Granted(s, Next(local, s, e), WishOf(local, s, e))
  {
    match e
    case DetectFires(l, r) => CheckLeaves(s.(timers := s.timers.(detect := false)), l, r);
    case DelayFires => DelayGrants(local, s);
    case LeftBackFires(pin) => LeftBackLeaves(s, pin);
    case RightBackFires(pin) => RightBackLeaves(s, pin);
    case LeftCheckFires(pin) => LeftCheckLeaves(s, pin);
    case RightCheckFires(pin) => RightCheckLeaves(s, pin);
    case LearnFires =>
  }

  lemma FrameGrants(local: Format.Word, s: Sys, e: Event)
    requires e.FromEndunit? || e.FromDoor? || e.FromGateway? || e.FromMotion?
    ensures Granted(s, Next(local, s, e), WishOf(local, s, e))
  {
    match e
    case FromEndunit(f) => EndunitGrants(local, s, f);
    case FromDoor(f) => DoorGrants(local, s, f);
    case FromGateway(f) => GatewayGrants(local, s, f);
    case FromMotion(f) => MotionGrants(local, s, f);
  }

  lemma HandGrants(local: Format.Word, s: Sys, e: Event)
    requires DistinctDevices(s.reg.devs) && !Restarts(s, e)
    requires !Times(e) && !e.FromEndunit? && !e.FromDoor? && !e.FromGateway? && !e.FromMotion?
    ensures Granted(s, Next(local, s, e), WishOf(local, s, e))
  {
    match e
    case KeyOnClick => KeyOnGrants(local, s);
    case KeyOffClick => KeyOffGrants(local, s);
    case KeyOnHeld(l, r) => OnHoldGrants(s, l, r);
    case KeyOffHeld => OffHoldGrants(s);
    case KeyOnFree =>
    case KeyOffFree =>
    case Poll(level) => PollGrants(local, s, level);
    case HourPassed(l, r) => HourGrants(local, s, l, r);
  }

  /** What every event but a restart does to valve and lock. */
  lemma WishesGranted(local: Format.Word, s: Sys, e: Event)
    requires Base(s) && !Restarts(s, e)
    ensures Granted(s, Next(local, s, e), WishOf(local, s, e))
  {
    if Times(e) {
      TimerGrants(local, s, e);
    } else if e.FromEndunit? || e.FromDoor? || e.FromGateway? || e.FromMotion? {
      FrameGrants(local, s, e);
    } else {
      HandGrants(local, s, e);
    }
  }

  /** One event closes an open valve if and only if it asks for it, or restarts the unit. */
  lemma ClosesExactly(local: Format.Word, s: Sys, e: Event)
    requires Base(s) && s.open
    ensures !Next(local, s, e).open <==> WishOf(local, s, e) in {Close, LockAndClose} || Restarts(s, e)
  {
    if Restarts(s, e) {
      var flash := Restarted(local, s, e);
      BootShut(flash);
    } else {
      WishesGranted(local, s, e);
    }
  }

  /** One event opens a closed valve if and only if it asks for it, the motors are sound, and the lock is off
      or taken off by the same event. */
  lemma OpensExactly(local: Format.Word, s: Sys, e: Event)
    requires Base(s) && !s.open
    ensures Next(local, s, e).open <==>
            !Restarts(s, e) && s.valid
            && (WishOf(local, s, e) == UnlockAndOpen || (WishOf(local, s, e) == Open && s.lock != 1))
  {
    if Restarts(s, e) {
      var flash := Restarted(local, s, e);
      BootShut(flash);
    } else {
      WishesGranted(local, s, e);
    }
  }

  /** The lock goes on only, and always, with LockAndClose, and off with UnlockAndOpen. */
  lemma LocksExactly(local: Format.Word, s: Sys, e: Event)
    requires Base(s) && !Restarts(s, e)
    ensures var t := Next(local, s, e);
            && (s.lock == 0 ==> (t.lock == 1 <==> WishOf(local, s, e) == LockAndClose) && t.lock <= 1)
            && (s.lock == 1 ==> (t.lock == 0 <==> WishOf(local, s, e) == UnlockAndOpen) && t.lock <= 1)
  {
    WishesGranted(local, s, e);
  }
}
