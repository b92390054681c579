/** When the motors can be driven open: the valve's own state, over all events. */
module ValveProofs {
  import opened Kernel
  import opened Registry
  import opened RegistryProofs
  import opened Controller
  import opened ControllerProofs
  import Format

  /** The state in which OpenValve leaves the system when it succeeds. */
  predicate Opened(s: Sys) {
    s.open && s.valid && s.lock != 1 && s.status == ValveOpen && s.timers.detect
  }

  /** From a closed valve `s`, an event reached `t` by a valve_open that returned EOK: nothing had
      touched the motors before it, and nothing but the registry changed after it. */
  ghost predicate Opening(s: Sys, t: Sys) {
    !s.open && exists m :: SameMotors(s, m) && OpenValve(m).1 == EOK && t == OpenValve(m).0.(reg := t.reg)
  }

  /** Closed with a failed motor and no check under way. */
  predicate Dead(s: Sys) {
    && !s.open && !s.valid
    && !s.timers.leftBack && !s.timers.rightBack && !s.timers.leftCheck && !s.timers.rightCheck
  }

  predicate Checking(s: Sys) {
    s.timers.leftBack || s.timers.rightBack || s.timers.leftCheck || s.timers.rightCheck
  }

  /** A motor on record as failed makes the valve unsound, and an unsound valve has a failed motor on
      record or a check under way. */
  predicate OnRecord(s: Sys) {
    && (s.leftBad || s.rightBad ==> !s.valid)
    && (!s.valid ==> s.leftBad || s.rightBad || Checking(s))
  }

  /** A closed valve is opened by valve_open alone, and a shut one stays shut unless it is; a dead one
      stays dead, and no output of it that is off is driven; verdicts stay on record. */
  ghost predicate Safe(s: Sys, t: Sys) {
    && (!s.open && t.open ==> Opening(s, t))
    && (Shut(s) ==> Shut(t) || t.open)
    && (Dead(s) ==> Dead(t) && (t.left ==> s.left) && (t.right ==> s.right))
    && (OnRecord(s) ==> OnRecord(t))
  }

  predicate SameMotors(s: Sys, t: Sys) {
    && t.open == s.open && t.valid == s.valid && t.left == s.left && t.right == s.right
    && t.leftBad == s.leftBad && t.rightBad == s.rightBad
    && t.timers.leftBack == s.timers.leftBack && t.timers.rightBack == s.timers.rightBack
    && t.timers.leftCheck == s.timers.leftCheck && t.timers.rightCheck == s.timers.rightCheck
  }

  lemma SameMotorsSafe(s: Sys, t: Sys)
    requires SameMotors(s, t)
    ensures Safe(s, t)
  {
  }

  lemma RegSafe(s: Sys, q: Reg)
    ensures Safe(s, s.(reg := q))
  {
  }

  lemma Before(s: Sys, m: Sys, t: Sys)
    requires SameMotors(s, m) && Safe(m, t)
    ensures Safe(s, t)
  {
  }

  /** What an open valve does in between does not matter. */
  lemma Then(s: Sys, m: Sys, t: Sys)
    requires Safe(s, m) && Safe(m, t) && (s.open || SameMotors(s, m))
    ensures Safe(s, t)
  {
  }

  /** A registry update after the fact changes nothing. */
  lemma ThenReg(s: Sys, m: Sys, q: Reg)
    requires Safe(s, m)
    ensures Safe(s, m.(reg := q))
  {
  }

  // ----- valve operations and warnings -------------------------------------------------------------------

  lemma CloseShuts(s: Sys)
    ensures CloseValve(s).1 == EOK ==> Shut(CloseValve(s).0)
    ensures Shut(CloseValve(s).0) <==> s.valid || (!s.timers.leftBack && !s.timers.rightBack)
  {
  }

  /** An open that returns EOK leaves the valve opened; one that does not leaves everything as it was. */
  lemma OpenOpens(s: Sys)
    ensures OpenValve(s).1 == EOK <==> s.lock != 1 && s.valid
    ensures if OpenValve(s).1 == EOK then Opened(OpenValve(s).0) else OpenValve(s).0 == s
  {
  }

  lemma CloseSafe(s: Sys)
    ensures Safe(s, CloseValve(s).0)
  {
  }

  lemma OpenSafe(s: Sys)
    ensures Safe(s, OpenValve(s).0)
  {
  }

  lemma LockCloseSafe(s: Sys)
    ensures Safe(s, LockClose(s))
  {
    CloseSafe(Lock(s));
    if s.lock == 0 {
      Before(s, LockKey(s, 1), LockClose(s));
    }
  }

  lemma UnlockOpenSafe(s: Sys)
    ensures Safe(s, UnlockOpen(s))
  {
    OpenSafe(Unlock(s));
    if s.lock == 1 {
      Before(s, LockKey(s, 0), UnlockOpen(s));
    }
  }

  lemma StatusSafe(s: Sys, status: Status)
    ensures Safe(s, s.(status := status))
  {
  }

  lemma ClosedStatusSafe(s: Sys, status: Status)
    ensures Safe(s, CloseValve(s).0.(status := status))
  {
    CloseSafe(s);
  }

  lemma LockedStatusSafe(s: Sys, status: Status)
    ensures Safe(s, LockClose(s).(status := status))
  {
    LockCloseSafe(s);
    assert !LockClose(s).open;
  }

  lemma ReactSafe(s: Sys, w: Warning)
    ensures Safe(s, React(s, w))
  {
    match w
    case LeftFail => StatusSafe(s, ValveLeftFail);
    case RightFail => StatusSafe(s, ValveRightFail);
    case LowPower => StatusSafe(s, SlaverLowPower);
    case UltraLowPower => LockedStatusSafe(s, SlaverUltraLowPower);
    case SensorLeak => if s.status != SlaverSensorLeak { LockedStatusSafe(s, SlaverSensorLeak); }
    case SensorLost => StatusSafe(s, SlaverSensorLost);
    case Offline => if s.status != SlaverOffline { ClosedStatusSafe(s, SlaverOffline); }
    case MasterLost => StatusSafe(s, MasterSensorLost);
    case MasterLeak => ClosedStatusSafe(s, MasterSensorLeak);
    case LowTemp => ClosedStatusSafe(s, MasterLowTemp);
  }

  lemma RaiseSafe(s: Sys, w: Warning)
    ensures Safe(s, Raise(s, w))
  {
    var s1 := s.(raised := s.raised + [Priority(w)]);
    if Priority(w) >= s.prio {
      ReactSafe(s1.(prio := Priority(w)), w);
    }
  }

  lemma CheckSafe(s: Sys, leftPin: bool, rightPin: bool)
    ensures Safe(s, CheckStart(s, leftPin, rightPin))
  {
  }

  lemma ClearSafe(s: Sys)
    ensures SameMotors(s, Clear(s)) && SameMotors(s, FailOver(s)) && SameMotors(s, OfflineCheck(s))
  {
  }

  lemma StartLearnSafe(s: Sys)
    ensures SameMotors(s, StartLearn(s))
  {
    if Normal(s) {
    } else if s.status == LearnDevice {
    }
  }

  // ----- timers -------------------------------------------------------------------------------------------

  lemma LeftBackSafe(s: Sys, pin: bool)
    ensures Safe(s, OnLeftBack(s, pin))
  {
    if s.timers.leftBack {
      var s1 := s.(timers := s.timers.(leftBack := false));
      if !pin { RaiseSafe(s1.(valid := false, leftBad := true), LeftFail); }
    }
  }

  lemma RightBackSafe(s: Sys, pin: bool)
    ensures Safe(s, OnRightBack(s, pin))
  {
    if s.timers.rightBack {
      var s1 := s.(timers := s.timers.(rightBack := false));
      if !pin { RaiseSafe(s1.(valid := false, rightBad := true), RightFail); }
    }
  }

  /** A motor that passes its check, or fails it, drives nothing. */
  lemma CheckedSafe(s: Sys, t: Sys)
    requires !Dead(s) && t.open == s.open && t.left == s.left && t.right == s.right
    requires t.timers.leftBack == s.timers.leftBack && t.timers.rightBack == s.timers.rightBack
    requires OnRecord(s) ==> OnRecord(t)
    ensures Safe(s, t)
  {
  }

  lemma LeftCheckSafe(s: Sys, pin: bool)
    ensures Safe(s, OnLeftCheck(s, pin))
  {
    var s1 := s.(timers := s.timers.(leftCheck := false));
    if s.timers.leftCheck {
      if pin {
        var s2 := s1.(valid := false, leftBad := true);
        LeftFails(s2);
        CheckFails(s, s2, Raise(s2, LeftFail));
      } else {
        LeftPasses(s, s1);
      }
    }
  }

  lemma RightCheckSafe(s: Sys, pin: bool)
    ensures Safe(s, OnRightCheck(s, pin))
  {
    var s1 := s.(timers := s.timers.(rightCheck := false));
    if s.timers.rightCheck {
      if pin {
        var s2 := s1.(valid := false, rightBad := true);
        RightFails(s2);
        CheckFails(s, s2, Raise(s2, RightFail));
      } else {
        RightPasses(s, s1);
      }
    }
  }

  lemma CheckFails(s: Sys, s1: Sys, t: Sys)
    requires !Dead(s) && s1.open == s.open && s1.left == s.left && s1.right == s.right && !s1.valid
    requires s1.timers.leftBack == s.timers.leftBack && s1.timers.rightBack == s.timers.rightBack
    requires (s1.leftBad || s1.rightBad) && SameMotors(s1, t)
    ensures Safe(s, t)
  {
    CheckedSafe(s, t);
  }

  lemma LeftFails(s: Sys)
    ensures SameMotors(s, Raise(s, LeftFail))
  {
    if Priority(LeftFail) >= s.prio {
      assert React(Adopt(s, 4), LeftFail) == Adopt(s, 4).(status := ValveLeftFail);
    }
  }

  lemma RightFails(s: Sys)
    ensures SameMotors(s, Raise(s, RightFail))
  {
    if Priority(RightFail) >= s.prio {
      assert React(Adopt(s, 4), RightFail) == Adopt(s, 4).(status := ValveRightFail);
    }
  }

  lemma LeftPasses(s: Sys, s1: Sys)
    requires s.timers.leftCheck && s1 == s.(timers := s.timers.(leftCheck := false))
    ensures Safe(s, LeftCheckExpired(s1, false))
  {
    ClearSafe(s1.(valid := true));
    CheckedSafe(s, LeftCheckExpired(s1, false));
  }

  lemma RightPasses(s: Sys, s1: Sys)
    requires s.timers.rightCheck && s1 == s.(timers := s.timers.(rightCheck := false))
    ensures Safe(s, RightCheckExpired(s1, false))
  {
    ClearSafe(s1.(valid := true));
    CheckedSafe(s, RightCheckExpired(s1, false));
  }

  lemma DelaySafe(s: Sys)
    ensures Safe(s, OnDelay(s))
  {
    var s1 := DelayControl(s, false);
    if s.timers.delayClose {
      if Normal(s1) {
        LockCloseSafe(s1);
        Before(s, s1, LockClose(s1));
      } else {
        SameMotorsSafe(s, s1);
      }
    }
  }

  lemma DetectSafe(s: Sys, leftPin: bool, rightPin: bool)
    ensures Safe(s, OnDetect(s, leftPin, rightPin))
  {
    if s.timers.detect {
      CheckSafe(s.(timers := s.timers.(detect := false)), leftPin, rightPin);
    }
  }

  // ----- keys, dry contact, clock --------------------------------------------------------------------------

  lemma KeyOnSafe(s: Sys)
    ensures Safe(s, KeyOn(s))
  {
    OpenSafe(s);
    SameMotorsSafe(s, s);
  }

  lemma KeyOffSafe(s: Sys)
    ensures Safe(s, KeyOff(s))
  {
    CloseSafe(s);
    ClearSafe(s);
    SameMotorsSafe(s, Clear(s));
    SameMotorsSafe(s, s);
  }

  /** Restarting the unit is not a step of the valve: it forgets a failed motor. */
  predicate Restarts(s: Sys, e: Event) {
    || e.PowerCycle?
    || (e.KeyOnHeld? && s.keys.on > 3 && s.keys.off > 3 && !s.keys.both)
    || (e.KeyOffHeld? && s.keys.on > 3 && s.keys.off > 3 && !s.keys.both)
  }

  lemma LongHoldSafe(s: Sys, leftPin: bool, rightPin: bool)
    ensures Safe(s, CheckStart(s.(keys := s.keys.(onLong := true)), leftPin, rightPin))
  {
    var s1 := s.(keys := s.keys.(onLong := true));
    CheckSafe(s1, leftPin, rightPin);
    Before(s, s1, CheckStart(s1, leftPin, rightPin));
  }

  lemma KeyOnHoldSafe(s: Sys, leftPin: bool, rightPin: bool)
    requires !Restarts(s, KeyOnHeld(leftPin, rightPin))
    ensures Safe(s, KeyOnHold(s, leftPin, rightPin))
  {
    if s.keys.on < 4 {
      SameMotorsSafe(s, KeyOnHold(s, leftPin, rightPin));
    } else if s.keys.off != 0 {
    } else if !s.keys.onLong {
      LongHoldSafe(s, leftPin, rightPin);
    }
  }

  lemma KeyOffHoldSafe(s: Sys)
    requires !Restarts(s, KeyOffHeld)
    ensures Safe(s, KeyOffHold(s))
  {
    if s.keys.off < 4 {
    } else if s.keys.on == 0 && !s.keys.offLong {
      StartLearnSafe(s.(keys := s.keys.(offLong := true)));
    }
  }

  lemma DryControlSafe(s: Sys, level: nat)
    ensures Safe(s, DryControl(s, level))
  {
    if !Normal(s) {
    } else if level != 0 {
      CloseSafe(s);
    } else {
      OpenSafe(s);
    }
  }

  lemma PollSafe(s: Sys, level: nat)
    ensures Safe(s, DryPoll(s, level))
  {
    if level != s.dryLevel {
      var s1 := s.(dryLevel := level);
      DryControlSafe(s1, level);
      Before(s, s1, DryControl(s1, level));
    }
  }

  lemma HeartCheckSafe(s: Sys)
    ensures Safe(s, HeartCheck(s))
  {
    var s1 := s.(reg := HeartWalk(s.reg, 0));
    if AnyOffline(s1.reg.devs, ENDUNIT) {
      RaiseSafe(s1, Offline);
      Before(s, s1, Raise(s1, Offline));
    } else {
      assert HeartCheck(s) == s1;
    }
  }

  lemma ClosedHour(s: Sys, leftPin: bool, rightPin: bool)
    requires !s.open
    ensures ValveHour(s, leftPin, rightPin) == s.(valveHours := Tick(s.valveHours))
  {
    if Tick(s.valveHours) == 0 {}
  }

  lemma ValveHourSafe(s: Sys, leftPin: bool, rightPin: bool)
    ensures Safe(s, ValveHour(s, leftPin, rightPin))
    ensures s.open || SameMotors(s, ValveHour(s, leftPin, rightPin))
  {
    var s1 := s.(valveHours := Tick(s.valveHours));
    if s1.valveHours == 0 {
      CheckSafe(s1, leftPin, rightPin);
      if !s.open { ClosedHour(s, leftPin, rightPin); }
    }
  }

  lemma RtcHourSafe(s: Sys)
    ensures Safe(s, RtcHour(s))
  {
    if s.rtcHours >= 47 {
      HeartCheckSafe(s.(rtcHours := 0));
      Before(s, s.(rtcHours := 0), HeartCheck(s.(rtcHours := 0)));
    }
  }

  lemma HourSafe(s: Sys, leftPin: bool, rightPin: bool)
    ensures Safe(s, Hour(s, leftPin, rightPin))
  {
    var s1 := ValveHour(s, leftPin, rightPin);
    var s2 := RtcHour(s1);
    ValveHourSafe(s, leftPin, rightPin);
    RtcHourSafe(s1);
    Then(s, s1, s2);
    ThenReg(s, s2, GatewayHeart(s2.reg));
  }

  // ----- frames ---------------------------------------------------------------------------------------------

  lemma EndunitLearnSafe(local: Format.Word, s: Sys, f: Frame)
    ensures SameMotors(s, EndunitLearn(local, s, f))
  {
    if f.dest == BROADCAST && s.allowAdd {
    } else if f.dest != local {
    } else if f.b2 == 1 {
      LearnedSafe(s, Create(s.reg, f.level, ENDUNIT, f.source));
    } else if f.b2 == 2 {
      StartLearnSafe(s);
    }
  }

  lemma MotionLearnSafe(local: Format.Word, s: Sys, f: Frame)
    ensures SameMotors(s, MotionLearn(local, s, f))
  {
    LearnedSafe(s, Create(s.reg, f.level, MOTION, f.source));
  }

  lemma DoorLearnSafe(local: Format.Word, s: Sys, f: Frame)
    ensures SameMotors(s, DoorLearn(local, s, f))
  {
    LearnedSafe(s, Create(DeleteKind(s.reg, s.reg.devs, DOORUNIT), f.level, DOORUNIT, f.source));
  }

  lemma GatewayLearnSafe(local: Format.Word, s: Sys, f: Frame)
    ensures SameMotors(s, GatewayLearn(local, s, f))
  {
    LearnedSafe(s, Create(DeleteKind(s.reg, s.reg.devs, GATEWAY), 0, GATEWAY, f.source));
  }

  lemma LearnedSafe(s: Sys, created: (Reg, bool))
    ensures SameMotors(s, Learned(s, created))
  {
    if created.1 {}
  }

  lemma LeakGoneSafe(s: Sys)
    ensures Safe(s, LeakGone(s))
  {
    if s.status == SlaverSensorLeak {
      if !AnyLeak(s.reg.devs) {
        ClearSafe(s);
        SameMotorsSafe(s, Clear(s));
      }
    } else if Normal(s) {
      LockCloseSafe(s);
    }
  }

  lemma UnitOpensSafe(s: Sys, s1: Sys)
    requires SameMotors(s, s1)
    ensures Safe(s, if Normal(s1) then UnlockOpen(s1) else s1)
  {
    SameMotorsSafe(s, s1);
    if Normal(s1) {
      UnlockOpenSafe(s1);
      Before(s, s1, UnlockOpen(s1));
    }
  }

  lemma EndunitValveSafe(s: Sys, f: Frame)
    ensures Safe(s, EndunitValve(s, f))
  {
    var s1 := s.(reg := SetLevelInRam(s.reg, f.source, f.level));
    if f.b2 != 0 {
      UnitOpensSafe(s, s1);
    } else {
      var s2 := s1.(reg := Set(s1.reg, Leak, f.source, 0));
      LeakGoneSafe(s2);
      Before(s, s2, LeakGone(s2));
    }
  }

  lemma LeakSafe(s: Sys, f: Frame)
    requires f.b2 == 0
    ensures Safe(s, EndunitWarn(s, f))
  {
    var s1 := s.(reg := Set(s.reg, Leak, f.source, f.b3));
    if f.b3 != 0 {
      RaiseSafe(s1, SensorLeak);
      Before(s, s1, Raise(s1, SensorLeak));
    } else {
      LeakClearSafe(s, s1);
    }
  }

  lemma LeakClearSafe(s: Sys, s1: Sys)
    requires SameMotors(s, s1)
    ensures Safe(s, s1) && Safe(s, CloseValve(Clear(s1)).0)
  {
    ClearSafe(s1);
    CloseSafe(Clear(s1));
    Before(s, Clear(s1), CloseValve(Clear(s1)).0);
    SameMotorsSafe(s, s1);
  }

  lemma LostSafe(s: Sys, f: Frame)
    requires f.b2 == 1
    ensures Safe(s, EndunitWarn(s, f))
  {
    var s1 := s.(reg := Set(s.reg, Wire, f.source, f.b3));
    if f.b3 != 0 {
      RaiseSafe(s1, SensorLost);
      Before(s, s1, Raise(s1, SensorLost));
    } else if s1.status == SlaverSensorLost && !AnyWireLost(s1.reg.devs) {
      ClearSafe(s1);
    }
  }

  lemma EndunitWarnSafe(s: Sys, f: Frame)
    ensures Safe(s, EndunitWarn(s, f))
  {
    if f.b2 == 0 {
      LeakSafe(s, f);
    } else if f.b2 == 1 {
      LostSafe(s, f);
    }
  }

  lemma EndunitHeartSafe(s: Sys, f: Frame)
    ensures Safe(s, EndunitHeart(s, f))
  {
    var s1 := s.(reg := Set(s.reg, Battery, f.source, f.b2));
    if f.b2 == 1 {
      RaiseSafe(s1, LowPower);
      Before(s, s1, Raise(s1, LowPower));
    } else if f.b2 == 2 {
      RaiseSafe(s1, UltraLowPower);
      Before(s, s1, Raise(s1, UltraLowPower));
    }
  }

  /** The offline check touches no motor, and leaves a valve just opened alone. */
  lemma ThenOfflineCheck(s: Sys, m: Sys)
    requires Safe(s, m)
    ensures Safe(s, OfflineCheck(m))
  {
    if m.status != SlaverOffline {
      assert OfflineCheck(m) == m;
    }
  }

  lemma EndunitCommandSafe(s: Sys, f: Frame)
    ensures Safe(s, EndunitCommand(s, f))
  {
    if f.command == HEART_UPLOAD {
      EndunitHeartSafe(s, f);
    } else if f.command == CONTROL_VALVE {
      EndunitValveSafe(s, f);
    } else if f.command == WARNING_UPLOAD {
      EndunitWarnSafe(s, f);
    }
  }

  lemma EndunitSafe(local: Format.Word, s: Sys, f: Frame)
    ensures Safe(s, EndunitFrame(local, s, f))
  {
    var s1 := s;
    if f.command == LEARN_DEVICE {
      EndunitLearnSafe(local, s, f);
      s1 := EndunitLearn(local, s, f);
    }
    SameMotorsSafe(s, s1);
    if Known(s.reg.devs, f.source) && f.dest == local {
      var s2 := EndunitCommand(s1, f);
      EndunitCommandSafe(s1, f);
      Before(s, s1, s2);
      ThenReg(s, s2, HeartRecv(s2.reg, f.source, f.level));
      ThenOfflineCheck(s, s2.(reg := HeartRecv(s2.reg, f.source, f.level)));
    }
  }

  lemma DoorDelaySafe(s: Sys, sub: Byte)
    ensures SameMotors(s, DoorDelay(s, sub))
  {
    if sub == 2 {
      if Normal(s) {}
    } else if sub == 3 {
    }
  }

  lemma DoorCommandSafe(s: Sys, sub: Byte)
    ensures Safe(s, DoorCommand(s, sub))
  {
    if sub == 0 {
      if Normal(s) { LockCloseSafe(s); }
    } else if sub == 1 {
      if Normal(s) { UnlockOpenSafe(s); }
    } else {
      DoorDelaySafe(s, sub);
    }
  }

  lemma DoorValveSafe(s: Sys, f: Frame)
    ensures Safe(s, DoorValve(s, f))
  {
    var s1 := s.(reg := SetLevelInRam(s.reg, f.source, f.level));
    DoorCommandSafe(s1, f.b2);
    Before(s, s1, DoorCommand(s1, f.b2));
  }

  lemma DoorDispatchSafe(s: Sys, f: Frame)
    ensures Safe(s, DoorDispatch(s, f))
  {
    if f.command == HEART_UPLOAD && f.b2 == 0 {
      SameMotorsSafe(s, s.(reg := Set(s.reg, Battery, f.source, f.b3)));
    } else if f.command == CONTROL_VALVE {
      DoorValveSafe(s, f);
    }
  }

  lemma DoorSafe(local: Format.Word, s: Sys, f: Frame)
    ensures Safe(s, DoorFrame(local, s, f))
  {
    var s1 := s;
    if f.command == LEARN_DEVICE {
      DoorLearnSafe(local, s, f);
      s1 := DoorLearn(local, s, f);
    }
    SameMotorsSafe(s, s1);
    if Known(s.reg.devs, f.source) && f.dest == local {
      var s2 := DoorDispatch(s1, f);
      DoorDispatchSafe(s1, f);
      Before(s, s1, s2);
      ThenReg(s, s2, HeartRecv(s2.reg, f.source, f.level));
    }
  }

  lemma GatewayControlSafe(s: Sys, f: Frame)
    ensures Safe(s, GatewayControl(s, f))
  {
    if Normal(s) {
      if f.b2 == 0 {
        CloseSafe(s);
      } else if f.b2 == 1 {
        UnlockOpenSafe(s);
      }
    }
  }

  lemma GatewayCommandSafe(s: Sys, f: Frame)
    ensures Safe(s, GatewayCommand(s, f))
  {
    if f.command == CONTROL_VALVE {
      GatewayControlSafe(s, f);
    } else if f.command == DEVICE_SYNC && f.b2 == 1 {
      RegSafe(s, Delete(s.reg, f.addr).0);
    } else {
      RegSafe(s, s.reg);
    }
  }

  lemma GatewayKnownSafe(s: Sys, s1: Sys, f: Frame)
    requires SameMotors(s, s1)
    ensures Safe(s, GatewayCommand(s1.(reg := SetRecv(s1.reg, f.source, 1)), f))
  {
    var s2 := s1.(reg := SetRecv(s1.reg, f.source, 1));
    GatewayCommandSafe(s2, f);
    Before(s, s2, GatewayCommand(s2, f));
  }

  lemma GatewaySafe(local: Format.Word, s: Sys, f: Frame)
    ensures Safe(s, GatewayFrame(local, s, f))
  {
    var s1 := s;
    if f.command == LEARN_DEVICE {
      GatewayLearnSafe(local, s, f);
      s1 := GatewayLearn(local, s, f);
    }
    SameMotorsSafe(s, s1);
    if Known(s.reg.devs, f.source) && f.dest == local {
      GatewayKnownSafe(s, s1, f);
    }
  }

  lemma MotionControlSafe(s: Sys, f: Frame)
    ensures Safe(s, MotionControl(s, f))
  {
    var s1 := s.(reg := SetLevelInRam(s.reg, f.source, f.level));
    if !Normal(s1) {
      assert MotionControl(s, f) == s1;
    } else if f.b2 != 0 {
      UnlockOpenSafe(s1);
      Before(s, s1, UnlockOpen(s1));
    } else {
      CloseSafe(s1);
      Before(s, s1, CloseValve(s1).0);
    }
  }

  lemma MotionSafe(local: Format.Word, s: Sys, f: Frame)
    ensures Safe(s, MotionFrame(local, s, f))
  {
    var s1 := s;
    if f.command == LEARN_DEVICE {
      MotionLearnSafe(local, s, f);
      s1 := MotionLearn(local, s, f);
    }
    SameMotorsSafe(s, s1);
    if Known(s.reg.devs, f.source) && f.dest == local {
      var s2 := s1;
      if f.command == CONTROL_VALVE {
        MotionControlSafe(s1, f);
        s2 := MotionControl(s1, f);
      }
      Before(s, s1, s2);
      ThenReg(s, s2, HeartRecv(s2.reg, f.source, f.level));
    }
  }

  // ----- every event ------------------------------------------------------------------------------------------

  lemma OnLearnSafe(s: Sys)
    ensures Safe(s, OnLearn(s))
  {
    var s1 := s.(timers := s.timers.(learn := false), allowAdd := false);
    if s.timers.learn {
      ClearSafe(s1);
      SameMotorsSafe(s, Clear(s1));
    }
  }

  lemma TimerSafe(local: Format.Word, s: Sys, e: Event)
    requires Times(e)
    ensures Safe(s, Next(local, s, e))
  {
    match e
    case DetectFires(l, r) => DetectSafe(s, l, r);
    case DelayFires => DelaySafe(s);
    case LeftBackFires(pin) => LeftBackSafe(s, pin);
    case RightBackFires(pin) => RightBackSafe(s, pin);
    case LeftCheckFires(pin) => LeftCheckSafe(s, pin);
    case RightCheckFires(pin) => RightCheckSafe(s, pin);
    case LearnFires => OnLearnSafe(s);
  }

  lemma FrameSafe(local: Format.Word, s: Sys, e: Event)
    requires e.FromEndunit? || e.FromDoor? || e.FromGateway? || e.FromMotion?
    ensures Safe(s, Next(local, s, e))
  {
    match e
    case FromEndunit(f) => EndunitSafe(local, s, f);
    case FromDoor(f) => DoorSafe(local, s, f);
    case FromGateway(f) => GatewaySafe(local, s, f);
    case FromMotion(f) => MotionSafe(local, s, f);
  }

  lemma StepSafe(local: Format.Word, s: Sys, e: Event)
    requires !Restarts(s, e)
    ensures Safe(s, Next(local, s, e))
  {
    match e
    case KeyOnClick => KeyOnSafe(s);
    case KeyOffClick => KeyOffSafe(s);
    case KeyOnHeld(l, r) => KeyOnHoldSafe(s, l, r);
    case KeyOffHeld => KeyOffHoldSafe(s);
    case KeyOnFree => SameMotorsSafe(s, KeysFreed(s, true));
    case KeyOffFree => SameMotorsSafe(s, KeysFreed(s, false));
    case Poll(level) => PollSafe(s, level);
    case HourPassed(l, r) => HourSafe(s, l, r);
    case FromEndunit(f) => FrameSafe(local, s, e);
    case FromDoor(f) => FrameSafe(local, s, e);
    case FromGateway(f) => FrameSafe(local, s, e);
    case FromMotion(f) => FrameSafe(local, s, e);
    case _ => TimerSafe(local, s, e);
  }

  lemma BootShut(flash: Flash)
    ensures Shut(Boot(flash))
  {
    var s := Started(flash);
    RaiseSafe(s, SensorLeak);
    RaiseCloses(s);
  }

  lemma RaiseCloses(s: Sys)
    requires !s.open && s.prio == 0
    ensures !Raise(s, SensorLeak).open
  {
    if s.status != SlaverSensorLeak {}
  }

  lemma Restarted(local: Format.Word, s: Sys, e: Event) returns (flash: Flash)
    requires Restarts(s, e)
    ensures Next(local, s, e) == Boot(flash)
  {
    if e.PowerCycle? {
      flash := s.reg.flash;
    } else {
      flash := Defaults(s.reg.flash);
      assert BothKeys(s) == Boot(flash);
      if e.KeyOnHeld? { assert KeyOnHold(s, e.leftPin, e.rightPin) == BothKeys(s); }
    }
  }

  /** One event, restarts included: a closed valve is opened only by a valve_open that returned EOK, a
      shut one stays shut unless it is, and verdicts stay on record. */
  lemma ShutOrOpened(local: Format.Word, s: Sys, e: Event)
    ensures var t := Next(local, s, e);
            && (!s.open && t.open ==> Opening(s, t) && Opened(t))
            && (Shut(s) ==> Shut(t) || Opening(s, t))
            && (OnRecord(s) ==> OnRecord(t))
  {
    if Restarts(s, e) {
      var flash := Restarted(local, s, e);
      BootShut(flash);
      BootSound(flash);
    } else {
      StepSafe(local, s, e);
    }
  }

  // ----- runs -----------------------------------------------------------------------------------------------------

  /** The k-th event of a run opened the valve. */
  ghost predicate OpenedAt(local: Format.Word, s: Sys, events: seq<Event>, k: nat) {
    k > 0 && k <= |events| && Opening(Run(local, s, events[..k - 1]), Run(local, s, events[..k]))
  }

  lemma OpenedLater(local: Format.Word, s: Sys, events: seq<Event>, k: nat)
    requires events != [] && OpenedAt(local, Next(local, s, events[0]), events[1..], k)
    ensures OpenedAt(local, s, events, k + 1)
  {
    assert events[..k + 1][1..] == events[1..][..k];
    assert events[..k][1..] == events[1..][..k - 1];
  }

  /** Whenever a run from a shut valve ends with anything but a shut valve, an event of the run opened
      the valve, by a valve_open that returned EOK. */
  lemma {:induction false} DrivenOnlyAfterOpen(local: Format.Word, s: Sys, events: seq<Event>)
    requires Shut(s)
    ensures Shut(Run(local, s, events)) || exists k: nat :: OpenedAt(local, s, events, k)
    decreases events
  {
    if events != [] {
      var t := Next(local, s, events[0]);
      ShutOrOpened(local, s, events[0]);
      if Shut(t) {
        DrivenOnlyAfterOpen(local, t, events[1..]);
        if !Shut(Run(local, s, events)) {
          var k :| OpenedAt(local, t, events[1..], k);
          OpenedLater(local, s, events, k);
        }
      } else {
        assert events[..1] == [events[0]] && events[..0] == [];
        RunSingle(local, s, events[0]);
        assert OpenedAt(local, s, events, 1);
      }
    }
  }

  /** A motor output is driven open at the end of some run only if an open succeeded on the way. */
  ghost predicate StaysShut(local: Format.Word, s: Sys) {
    forall events :: Run(local, s, events).left || Run(local, s, events).right ==>
      exists k: nat :: OpenedAt(local, s, events, k)
  }

  lemma ShutStays(local: Format.Word, s: Sys)
    requires Shut(s)
    ensures StaysShut(local, s)
  {
    forall events | Run(local, s, events).left || Run(local, s, events).right
      ensures exists k: nat :: OpenedAt(local, s, events, k)
    {
      DrivenOnlyAfterOpen(local, s, events);
    }
  }

  lemma RunSingle(local: Format.Word, s: Sys, e: Event)
    ensures Run(local, s, [e]) == Next(local, s, e)
  {
    assert [e][1..] == [];
    assert Run(local, Next(local, s, e), []) == Next(local, s, e);
  }

  /** A turn-back timer that runs out with its input high drives its motor open, without any open. */
  lemma TurnsBack(local: Format.Word, s: Sys, e: Event)
    requires !s.valid
    requires (s.timers.leftBack && e == LeftBackFires(true)) || (s.timers.rightBack && e == RightBackFires(true))
    ensures !StaysShut(local, s)
  {
    RunSingle(local, s, e);
    var t := Run(local, s, [e]);
    assert (t.left || t.right) && !t.valid;
    forall k: nat ensures !OpenedAt(local, s, [e], k) {
      if k == 1 { assert [e][..k] == [e]; }
    }
  }

  /** After a close no continuation drives a motor open before an open succeeds, exactly if the motors
      were sound or no turn-back timer was running. */
  lemma {:induction false} ClosedUntilOpened(local: Format.Word, s: Sys)
    ensures StaysShut(local, CloseValve(s).0) <==> s.valid || (!s.timers.leftBack && !s.timers.rightBack)
    ensures CloseValve(s).1 == EOK ==> StaysShut(local, CloseValve(s).0)
  {
    var t := CloseValve(s).0;
    CloseShuts(s);
    if Shut(t) {
      ShutStays(local, t);
    } else if s.timers.leftBack {
      TurnsBack(local, t, LeftBackFires(true));
    } else {
      TurnsBack(local, t, RightBackFires(true));
    }
  }

  predicate Uninterrupted(local: Format.Word, s: Sys, events: seq<Event>)
    decreases events
  {
    events == [] || (!Restarts(s, events[0]) && Uninterrupted(local, Next(local, s, events[0]), events[1..]))
  }

  /** Closed with a failed motor and no check pending: before a restart no handler reopens the valve, no
      output that is off is driven, and if the outputs are off they stay so. */
  lemma {:induction false} DeadStaysDead(local: Format.Word, s: Sys, events: seq<Event>)
    requires Dead(s) && Uninterrupted(local, s, events)
    ensures var t := Run(local, s, events);
            && Dead(t) && (t.left ==> s.left) && (t.right ==> s.right) && (Shut(s) ==> Shut(t))
    decreases events
  {
    if events != [] {
      StepSafe(local, s, events[0]);
      DeadStaysDead(local, Next(local, s, events[0]), events[1..]);
    }
  }

  /** Verdicts stay on record over every run, restarts included. */
  lemma {:induction false} VerdictsOnRecord(local: Format.Word, s: Sys, events: seq<Event>)
    requires OnRecord(s)
    ensures OnRecord(Run(local, s, events))
    ensures Dead(Run(local, s, events)) ==> Run(local, s, events).leftBad || Run(local, s, events).rightBad
    decreases events
  {
    if events != [] {
      ShutOrOpened(local, s, events[0]);
      VerdictsOnRecord(local, Next(local, s, events[0]), events[1..]);
    }
  }

  lemma BootSound(flash: Flash)
    ensures OnRecord(Boot(flash))
  {
    RaiseSafe(Started(flash), SensorLeak);
  }
}
