/** What the handlers do to everything but valve and lock: warnings and statuses, motor checks, learn
    mode, keys, relay outputs, and the device a frame comes from. */
module ControllerOutcomes {
  import opened Lists
  import opened Kernel
  import opened Registry
  import opened RegistryProofs
  import opened RegistryOutcomes
  import opened Controller
  import opened ControllerProofs
  import opened ValveProofs
  import opened CommandProofs
  import Format

  // ----- the valve itself -----------------------------------------------------------------------------------

  predicate NoneRunning(t: Timers) {
    !t.detect && !t.delayClose && !t.leftBack && !t.rightBack && !t.leftCheck && !t.rightCheck
  }

  /** Only valve, outputs, status and the valve's timers may differ. */
  predicate SameElse(s: Sys, t: Sys) {
    && t.prio == s.prio && t.raised == s.raised && t.lock == s.lock && t.valid == s.valid
    && t.leftBad == s.leftBad && t.rightBad == s.rightBad && t.timers.learn == s.timers.learn
    && t.allowAdd == s.allowAdd && t.dryLevel == s.dryLevel && t.keys == s.keys
    && t.valveHours == s.valveHours && t.rtcHours == s.rtcHours && t.reg == s.reg
  }

  /** A close switches the outputs off; with sound motors it succeeds and ends every timer of the valve, with a
      failed one it fails and leaves status and timers alone. */
  lemma CloseOutcome(s: Sys)
    ensures var (t, err) := CloseValve(s);
            && SameElse(s, t) && !t.open && !t.left && !t.right
            && (s.valid ==> err == EOK && t.status == ValveClose && NoneRunning(t.timers))
            && (!s.valid ==> err == ERROR && t.status == s.status && t.timers == s.timers)
  {
  }

  /** An open is refused by the lock and by a failed motor; otherwise both outputs are driven, and the motor
      check is the only timer of the valve that runs. */
  lemma OpenOutcome(s: Sys)
    ensures var (t, err) := OpenValve(s);
            && (s.lock == 1 || !s.valid ==> err == ERROR && t == s)
            && (s.lock != 1 && s.valid ==>
                  && err == EOK && SameElse(s, t) && t.open && t.left && t.right && t.status == ValveOpen
                  && t.timers.detect && NoneRunning(t.timers.(detect := false)))
  {
  }

  /** A motor check turns each motor back whose input is not at fully open, and only of an open valve. */
  lemma CheckOutcome(s: Sys, leftPin: bool, rightPin: bool)
    ensures var t := CheckStart(s, leftPin, rightPin);
            && (!s.open ==> t == s)
            && (s.open ==>
                  && (if leftPin then
                        t.left == s.left && t.leftBad == s.leftBad && t.timers.leftBack == s.timers.leftBack
                        && t.timers.leftCheck == s.timers.leftCheck
                      else !t.left && !t.leftBad && t.timers.leftBack && !t.timers.leftCheck)
                  && (if rightPin then
                        t.right == s.right && t.rightBad == s.rightBad && t.timers.rightBack == s.timers.rightBack
                        && t.timers.rightCheck == s.timers.rightCheck
                      else !t.right && !t.rightBad && t.timers.rightBack && !t.timers.rightCheck)
                  && t.open && t.valid == s.valid && t.status == s.status && t.timers.detect == s.timers.detect)
  {
  }

  // ----- warnings -------------------------------------------------------------------------------------------

  /** The status of a warning. */
  function StatusFor(w: Warning): Status {
    match w
    case LeftFail => ValveLeftFail case RightFail => ValveRightFail case LowPower => SlaverLowPower
    case UltraLowPower => SlaverUltraLowPower case SensorLeak => SlaverSensorLeak case SensorLost => SlaverSensorLost
    case Offline => SlaverOffline case MasterLost => MasterSensorLost case MasterLeak => MasterSensorLeak
    case LowTemp => MasterLowTemp
  }

  /** A warning that is at least as grave as the one in force takes over, with its status; one that is not
      changes nothing.  Either way it is on record. */
  ghost predicate Warned(s: Sys, t: Sys, w: Warning) {
    && t.raised == s.raised + [Grade(w)]
    && (Grade(w) >= s.prio ==> t.prio == Grade(w) && t.status == StatusFor(w))
    && (Grade(w) < s.prio ==> t.prio == s.prio && t.status == s.status)
    && t.valid == s.valid && t.leftBad == s.leftBad && t.rightBad == s.rightBad
    && t.allowAdd == s.allowAdd && t.timers.learn == s.timers.learn && t.reg.devs == s.reg.devs
  }

  lemma RaiseOutcome(s: Sys, w: Warning)
    ensures Warned(s, Raise(s, w), w)
  {
    GradeIs(w);
    if Priority(w) >= s.prio {
      RaiseReacts(s, w);
      ReactOutcome(Adopt(s, Priority(w)), w);
    }
  }

  predicate Reacts(s: Sys, t: Sys, w: Warning) {
    && t.status == StatusFor(w) && t.prio == s.prio && t.raised == s.raised
    && t.valid == s.valid && t.leftBad == s.leftBad && t.rightBad == s.rightBad
    && t.allowAdd == s.allowAdd && t.timers.learn == s.timers.learn && t.reg.devs == s.reg.devs
  }

  lemma ClosedReacts(s: Sys, w: Warning)
    ensures Reacts(s, CloseValve(s).0.(status := StatusFor(w)), w)
    ensures Reacts(s, LockClose(s).(status := StatusFor(w)), w)
  {
    CloseOutcome(s);
    CloseOutcome(Lock(s));
    if s.lock == 0 {}
  }

  lemma ReactOutcome(s: Sys, w: Warning)
    ensures Reacts(s, React(s, w), w)
  {
    match w
    case UltraLowPower => ClosedReacts(s, w);
    case SensorLeak => if s.status != SlaverSensorLeak { ClosedReacts(s, w); }
    case Offline => if s.status != SlaverOffline { ClosedReacts(s, w); }
    case MasterLeak => ClosedReacts(s, w);
    case LowTemp => ClosedReacts(s, w);
    case LeftFail =>
    case RightFail =>
    case LowPower =>
    case SensorLost =>
    case MasterLost =>
  }

  /** Clearing the warnings: none is in force or on record, the status is that of the valve. */
  lemma ClearOutcome(s: Sys)
    ensures var t := Clear(s);
            && t.prio == 0 && t.raised == [] && t.status == (if s.open then ValveOpen else ValveClose)
            && t == s.(prio := t.prio, raised := t.raised, status := t.status)
  {
  }

  // ----- the motor check --------------------------------------------------------------------------------------

  /** Three seconds after turning back: a motor whose input went high is driven again and watched on; one
      whose input did not is a failure. */
  lemma LeftBackOutcome(s: Sys, pin: bool)
    ensures var t := OnLeftBack(s, pin);
            && (!s.timers.leftBack ==> t == s)
            && (s.timers.leftBack ==> !t.timers.leftBack)
            && (s.timers.leftBack && pin ==>
                  t.left && t.timers.leftCheck && t.valid == s.valid && t.leftBad == s.leftBad && t.status == s.status)
            && (s.timers.leftBack && !pin ==>
                  !t.valid && t.leftBad && (4 >= s.prio ==> t.status == ValveLeftFail && t.prio == 4))
  {
    if s.timers.leftBack && !pin {
      var s1 := s.(timers := s.timers.(leftBack := false)).(valid := false, leftBad := true);
      RaiseOutcome(s1, LeftFail);
    }
  }

  lemma RightBackOutcome(s: Sys, pin: bool)
    ensures var t := OnRightBack(s, pin);
            && (!s.timers.rightBack ==> t == s)
            && (s.timers.rightBack ==> !t.timers.rightBack)
            && (s.timers.rightBack && pin ==>
                  t.right && t.timers.rightCheck && t.valid == s.valid && t.rightBad == s.rightBad
                  && t.status == s.status)
            && (s.timers.rightBack && !pin ==>
                  !t.valid && t.rightBad && (4 >= s.prio ==> t.status == ValveRightFail && t.prio == 4))
  {
    if s.timers.rightBack && !pin {
      var s1 := s.(timers := s.timers.(rightBack := false)).(valid := false, rightBad := true);
      RaiseOutcome(s1, RightFail);
    }
  }

  /** The end of the check: a motor whose input went low again has passed, and with both passed the valve is
      sound and the warning of a failed motor is over; one whose input stayed high is a failure. */
  lemma LeftCheckOutcome(s: Sys, pin: bool)
    ensures var t := OnLeftCheck(s, pin);
            && (!s.timers.leftCheck ==> t == s)
            && (s.timers.leftCheck && !pin ==>
                  && !t.leftBad && !t.timers.leftCheck && t.valid == (s.valid || !s.rightBad)
                  && (!s.rightBad && s.status in {ValveLeftFail, ValveRightFail} ==>
                        t.prio == 0 && t.status == (if s.open then ValveOpen else ValveClose))
                  && (s.rightBad || s.status !in {ValveLeftFail, ValveRightFail} ==>
                        t.prio == s.prio && t.status == s.status))
            && (s.timers.leftCheck && pin ==>
                  !t.valid && t.leftBad && (4 >= s.prio ==> t.status == ValveLeftFail && t.prio == 4))
  {
    if s.timers.leftCheck && pin {
      RaiseOutcome(s.(timers := s.timers.(leftCheck := false)).(valid := false, leftBad := true), LeftFail);
    }
  }

  lemma RightCheckOutcome(s: Sys, pin: bool)
    ensures var t := OnRightCheck(s, pin);
            && (!s.timers.rightCheck ==> t == s)
            && (s.timers.rightCheck && !pin ==>
                  && !t.rightBad && !t.timers.rightCheck && t.valid == (s.valid || !s.leftBad)
                  && (!s.leftBad && s.status in {ValveLeftFail, ValveRightFail} ==>
                        t.prio == 0 && t.status == (if s.open then ValveOpen else ValveClose))
                  && (s.leftBad || s.status !in {ValveLeftFail, ValveRightFail} ==>
                        t.prio == s.prio && t.status == s.status))
            && (s.timers.rightCheck && pin ==>
                  !t.valid && t.rightBad && (4 >= s.prio ==> t.status == ValveRightFail && t.prio == 4))
  {
    if s.timers.rightCheck && pin {
      RaiseOutcome(s.(timers := s.timers.(rightCheck := false)).(valid := false, rightBad := true), RightFail);
    }
  }

  // ----- learn mode, keys, relays ---------------------------------------------------------------------------------

  /** Learn mode starts in a status that obeys commands, ends when asked again, and ends with its timer, which
      clears every warning. */
  lemma LearnOutcome(s: Sys)
    ensures var t := StartLearn(s);
            && (Obeys(s) ==> t == s.(status := LearnDevice, allowAdd := true, timers := t.timers)
                             && t.timers == s.timers.(learn := true))
            && (s.status == LearnDevice ==>
                  !t.allowAdd && !t.timers.learn && t.prio == 0
                  && t.status == (if s.open then ValveOpen else ValveClose))
            && (!Obeys(s) && s.status != LearnDevice ==> t == s)
    ensures var t := OnLearn(s);
            && (!s.timers.learn ==> t == s)
            && (s.timers.learn ==>
                  && !t.allowAdd && !t.timers.learn && t.prio == 0 && t.raised == []
                  && t.status == (if s.open then ValveOpen else ValveClose))
  {
    if s.status == LearnDevice { assert !Normal(s); }
  }

  /** A click of the off key clears the warning of an abnormal sensor, and nothing else clears by key. */
  lemma KeyOffOutcome(s: Sys)
    ensures s.status == MasterSensorAbnormal ==> KeyOff(s) == Clear(s)
    ensures s.status != MasterSensorAbnormal ==> KeyOff(s).prio == s.prio && KeyOff(s).raised == s.raised
  {
    CloseOutcome(s);
  }

  /** Of a held key the first four seconds count; from then on both keys together reset the unit to its factory
      state, once; one alone starts the motor check, or learn mode, once. */
  lemma HoldOutcome(s: Sys, l: bool, r: bool)
    ensures s.keys.on < 4 ==> KeyOnHold(s, l, r) == s.(keys := s.keys.(on := s.keys.on + 1))
    ensures s.keys.on >= 4 && s.keys.off == 0 && !s.keys.onLong ==>
              KeyOnHold(s, l, r) == CheckStart(s.(keys := s.keys.(onLong := true)), l, r)
    ensures s.keys.on >= 4 && s.keys.off == 0 && s.keys.onLong ==> KeyOnHold(s, l, r) == s
    ensures s.keys.off < 4 ==> KeyOffHold(s) == s.(keys := s.keys.(off := s.keys.off + 1))
    ensures s.keys.off >= 4 && s.keys.on == 0 && !s.keys.offLong ==>
              KeyOffHold(s) == StartLearn(s.(keys := s.keys.(offLong := true)))
    ensures s.keys.off >= 4 && s.keys.on == 0 && s.keys.offLong ==> KeyOffHold(s) == s
  {
  }

  lemma BothKeysOutcome(s: Sys, l: bool, r: bool)
    requires s.keys.on >= 4 && s.keys.off >= 4
    ensures !s.keys.both ==>
              var t := KeyOnHold(s, l, r);
              && t == KeyOffHold(s) && t.reg.devs == [] && t.lock == 0 && t.status == ValveClose && !t.open
    ensures s.keys.both ==> KeyOnHold(s, l, r) == s == KeyOffHold(s)
  {
    var flash := Defaults(s.reg.flash);
    if !s.keys.both {
      FactoryBlank(flash);
    }
  }

  lemma FactoryBlank(flash: Flash)
    requires "slot" !in flash && "valve_lock" !in flash
    ensures var t := Boot(flash); t.reg.devs == [] && t.lock == 0 && t.status == ValveClose && !t.open
  {
    var r := Reg(0, [], flash);
    EmptyOk(flash);
    RebootRestores(r);
    assert Reload(flash).devs == [];
  }

  /** Start-up: the devices as stored, none but a gateway counting as heard; closed, outputs off, motors taken to
      be sound, no timer running, no key held; the lock as stored, unless a leak is on record, which is warned
      of at once. */
  lemma BootOutcome(flash: Flash)
    ensures var r, t := Reload(flash), Boot(flash);
            && |t.reg.devs| == |r.devs| && t.reg.mask == r.mask
            && (forall k | 0 <= k < |r.devs| ::
                  t.reg.devs[k] == if r.devs[k].kind == 2 then r.devs[k] else r.devs[k].(recv := 0))
            && !t.open && !t.left && !t.right && t.valid && !t.leftBad && !t.rightBad
            && NoneRunning(t.timers) && !t.timers.learn && !t.allowAdd && t.dryLevel == -1
            && t.keys == Keys(0, 0, false, false, false) && t.valveHours == 0 && t.rtcHours == 0
            && var lock := GetKey(flash, "valve_lock") % 256;
               if exists d | d in r.devs :: d.leak != 0
               then && t.status == SlaverSensorLeak && t.prio == 8 && t.raised == [8]
                    && t.lock == (if lock == 0 then 1 else lock)
               else t.status == ValveClose && t.prio == 0 && t.raised == [] && t.lock == lock
  {
    var r, s := Reload(flash), Started(flash);
    RecvClearOutcome(r);
    SameLeakList(r.devs, s.reg.devs);
    if AnyLeak(s.reg.devs) { StartLeaks(s); }
  }

  lemma SameLeakList(a: seq<Device>, b: seq<Device>)
    requires |a| == |b| && forall k | 0 <= k < |a| :: b[k].leak == a[k].leak
    ensures AnyLeak(b) <==> exists d | d in a :: d.leak != 0
  {
    if AnyLeak(b) {
      var d :| d in b && d.leak != 0;
      var k :| 0 <= k < |b| && b[k] == d;
      assert a[k] in a;
    }
    if exists d | d in a :: d.leak != 0 {
      var d :| d in a && d.leak != 0;
      var k :| 0 <= k < |a| && a[k] == d;
      assert b[k] in b;
    }
  }

  lemma StartLeaks(s: Sys)
    requires s == Idle(s.lock, s.reg)
    ensures var t := Raise(s, SensorLeak);
            && t.status == SlaverSensorLeak && t.prio == 8 && t.raised == [8]
            && t.lock == (if s.lock == 0 then 1 else s.lock) && t.reg.devs == s.reg.devs && t.reg.mask == s.reg.mask
            && !t.open && !t.left && !t.right && t.valid && !t.leftBad && !t.rightBad
            && NoneRunning(t.timers) && !t.timers.learn && !t.allowAdd && t.dryLevel == -1
            && t.keys == Keys(0, 0, false, false, false) && t.valveHours == 0 && t.rtcHours == 0
  {
    RaiseReacts(s, SensorLeak);
    var m := Adopt(s, 8);
    assert React(m, SensorLeak) == LockClose(m).(status := SlaverSensorLeak);
    CloseOutcome(Lock(m));
    if m.lock == 0 {}
  }

  /** Releasing a key forgets how long it was held. */
  lemma FreeOutcome(s: Sys)
    ensures KeysFreed(s, true) == s.(keys := Keys(0, s.keys.off, false, false, s.keys.offLong))
    ensures KeysFreed(s, false) == s.(keys := Keys(s.keys.on, 0, false, s.keys.onLong, false))
  {
  }

  /** The relays: the valve relay follows the valve; the leak relay is closed in the leak alarm alone; the
      technical one for failed motors, low or ultra low batteries, a lost sensor and an offline unit. */
  lemma ContactsMean(s: Sys)
    ensures var c := ContactsOf(s);
            && c.valve == s.open && (c.leak <==> s.status == SlaverSensorLeak)
            && (c.tech <==> s.status in {ValveLeftFail, ValveRightFail, SlaverLowPower, SlaverSensorLost,
                                         SlaverUltraLowPower, SlaverOffline})
  {
  }

  // ----- the clock -------------------------------------------------------------------------------------------------

  /** From a counter below 120, every 120 hours the motors are checked, and every 48 hours the heart beats. */
  lemma HourOutcome(s: Sys, l: bool, r: bool)
    requires s.valveHours < 120
    ensures s.valveHours < 119 ==> ValveHour(s, l, r) == s.(valveHours := s.valveHours + 1)
    ensures s.valveHours == 119 ==> ValveHour(s, l, r) == CheckStart(s.(valveHours := 0), l, r)
    ensures s.rtcHours < 47 ==> RtcHour(s) == s.(rtcHours := s.rtcHours + 1)
    ensures s.rtcHours == 47 ==> RtcHour(s) == HeartCheck(s.(rtcHours := 0))
  {
    if s.valveHours < 119 { assert (s.valveHours + 1) % 256 == s.valveHours + 1; }
  }

  /** The heart check puts offline who was not heard, and warns if an end unit is. */
  lemma HeartCheckOutcome(s: Sys)
    requires DistinctDevices(s.reg.devs)
    ensures var t := HeartCheck(s);
            && |t.reg.devs| == |s.reg.devs|
            && (forall k | 0 <= k < |s.reg.devs| :: t.reg.devs[k] == Checked(s.reg.devs[k]))
            && (Silent(s.reg.devs) ==> Warned(s.(reg := HeartWalk(s.reg, 0)), t, Offline))
            && (!Silent(s.reg.devs) ==> t == s.(reg := t.reg))
  {
    var s1 := s.(reg := HeartWalk(s.reg, 0));
    HeartWalkOutcome(s.reg, 0);
    SilentOffline(s.reg);
    RaiseOutcome(s1, Offline);
  }

  // ----- the device a frame comes from ----------------------------------------------------------------------------

  /** What a frame of an end unit makes of its record. */
  function EndunitDevice(f: Frame, d: Device): Device {
    d.(recv := 1, online := 1, level := f.level,
       battery := if f.command == 1 then f.b2 else d.battery,
       leak := if f.command == 4 && f.b2 == 0 then f.b3 else if f.command == 3 && f.b2 == 0 then 0 else d.leak,
       wire := if f.command == 4 && f.b2 == 1 then f.b3 else d.wire)
  }

  /** The same device list as `q` but for what the sender reports. */
  ghost predicate Reports(r: Reg, q: Reg, id: Format.Word, change: Device -> Device) {
    && |q.devs| == |r.devs|
    && forall k | 0 <= k < |r.devs| :: q.devs[k] == if r.devs[k].id == id then change(r.devs[k]) else r.devs[k]
  }

  /** Before the frame counts as a heart beat. */
  function CommandedDevice(f: Frame, d: Device): Device {
    d.(level := if f.command == 3 then f.level else d.level,
       battery := if f.command == 1 then f.b2 else d.battery,
       leak := if f.command == 4 && f.b2 == 0 then f.b3 else if f.command == 3 && f.b2 == 0 then 0 else d.leak,
       wire := if f.command == 4 && f.b2 == 1 then f.b3 else d.wire)
  }

  lemma CommandDevices(s: Sys, f: Frame)
    requires DistinctDevices(s.reg.devs) && f.command != 2
    ensures Reports(s.reg, EndunitCommand(s, f).reg, f.source, d => CommandedDevice(f, d))
  {
    if f.command == 1 {
      HeartDevices(s, f);
    } else if f.command == 3 {
      ValveDevices(s, f);
    } else if f.command == 4 {
      SettersOutcome(s.reg, f.source, f.b3);
      WarnDevices(s, f);
    }
  }

  lemma HeartDevices(s: Sys, f: Frame)
    ensures EndunitHeart(s, f).reg.devs == Set(s.reg, Battery, f.source, f.b2).devs
    ensures Changed(s.reg, Set(s.reg, Battery, f.source, f.b2), f.source, (d: Device) => d.(battery := f.b2))
  {
    SettersOutcome(s.reg, f.source, f.b2);
    HeartOutcome(s, f);
    var s1 := s.(reg := Set(s.reg, Battery, f.source, f.b2));
    if f.b2 == 1 {
      RaiseOutcome(s1, LowPower);
    } else if f.b2 == 2 {
      RaiseOutcome(s1, UltraLowPower);
    }
  }

  lemma WarnDevices(s: Sys, f: Frame)
    requires f.command == 4
    ensures EndunitWarn(s, f).reg.devs ==
            if f.b2 == 0 then Set(s.reg, Leak, f.source, f.b3).devs
            else if f.b2 == 1 then Set(s.reg, Wire, f.source, f.b3).devs else s.reg.devs
  {
    if f.b2 == 0 {
      var s1 := s.(reg := Set(s.reg, Leak, f.source, f.b3));
      if f.b3 != 0 {
        RaiseOutcome(s1, SensorLeak);
      } else if s1.status == SlaverSensorLeak && !AnyLeak(s1.reg.devs) {
        CloseOutcome(Clear(s1));
      }
    } else if f.b2 == 1 {
      var s1 := s.(reg := Set(s.reg, Wire, f.source, f.b3));
      if f.b3 != 0 { RaiseOutcome(s1, SensorLost); }
    }
  }

  lemma ValveDevices(s: Sys, f: Frame)
    requires DistinctDevices(s.reg.devs)
    ensures Reports(s.reg, EndunitValve(s, f).reg, f.source,
                    (d: Device) => d.(level := f.level, leak := if f.b2 == 0 then 0 else d.leak))
  {
    LevelOutcome(s.reg, f.source, f.level);
    var s1 := s.(reg := SetLevelInRam(s.reg, f.source, f.level));
    SettersOutcome(s1.reg, f.source, 0);
    if f.b2 != 0 {
      UnlockDevices(s1);
    } else {
      GoneDevices(s1.(reg := Set(s1.reg, Leak, f.source, 0)));
    }
  }

  lemma UnlockDevices(s: Sys)
    ensures UnlockOpen(s).reg.devs == s.reg.devs && LockClose(s).reg.devs == s.reg.devs
  {
    OpenOutcome(Unlock(s));
    CloseOutcome(Lock(s));
    if s.lock == 1 {}
    if s.lock == 0 {}
  }

  lemma GoneDevices(s: Sys)
    ensures LeakGone(s).reg.devs == s.reg.devs
  {
    if s.status == SlaverSensorLeak {
      if !AnyLeak(s.reg.devs) {}
    } else if Normal(s) {
      UnlockDevices(s);
    }
  }

  /** Every frame of a registered end unit: it has been heard and is online, and its battery, leak and wire
      are what it reports. */
  lemma EndunitOutcome(local: Format.Word, s: Sys, f: Frame)
    requires DistinctDevices(s.reg.devs) && Heard(local, s, f) && f.command != 2
    ensures Reports(s.reg, EndunitFrame(local, s, f).reg, f.source, d => EndunitDevice(f, d))
  {
    KnownIsListed(s.reg.devs, f.source);
    var u := EndunitCommand(s, f);
    CommandDevices(s, f);
    ThenReported(s.reg, u.reg, f);
    OfflineReg(u.(reg := HeartRecv(u.reg, f.source, f.level)));
    CommandFrameIs(local, s, f);
  }

  lemma ThenReported(r: Reg, q: Reg, f: Frame)
    requires DistinctDevices(r.devs) && Reports(r, q, f.source, d => CommandedDevice(f, d))
    ensures Reports(r, HeartRecv(q, f.source, f.level), f.source, d => EndunitDevice(f, d))
  {
    ReportsDistinct(r, q);
    HeartRecvOutcome(q, f.source, f.level);
  }

  lemma OfflineReg(s: Sys)
    ensures OfflineCheck(s).reg == s.reg
  {
  }

  lemma CommandFrameIs(local: Format.Word, s: Sys, f: Frame)
    requires Known(s.reg.devs, f.source) && f.dest == local && f.command != 2
    ensures var u := EndunitCommand(s, f);
            EndunitFrame(local, s, f) == OfflineCheck(u.(reg := HeartRecv(u.reg, f.source, f.level)))
  {
  }

  lemma ReportsDistinct(r: Reg, q: Reg)
    requires DistinctDevices(r.devs) && |q.devs| == |r.devs|
    requires forall k | 0 <= k < |r.devs| :: q.devs[k].id == r.devs[k].id && q.devs[k].slot == r.devs[k].slot
    ensures DistinctDevices(q.devs)
  {
  }

  /** The offline warning is over when no end unit is offline any more. */
  lemma OfflineOutcome(s: Sys)
    ensures OfflineCheck(s) ==
            if s.status == SlaverOffline && (forall d | d in s.reg.devs && d.kind == 0 :: d.online != 0)
            then Clear(s) else s
  {
  }

  /** The warnings of an end unit's heart beat. */
  lemma HeartOutcome(s: Sys, f: Frame)
    ensures var t := EndunitHeart(s, f);
            && (f.b2 == 1 ==> Warned(s.(reg := t.reg), t, LowPower))
            && (f.b2 == 2 ==> Warned(s.(reg := t.reg), t, UltraLowPower))
            && (f.b2 != 1 && f.b2 != 2 ==> t == s.(reg := t.reg))
  {
    var s1 := s.(reg := Set(s.reg, Battery, f.source, f.b2));
    if f.b2 == 1 {
      RaiseOutcome(s1, LowPower);
    } else if f.b2 == 2 {
      RaiseOutcome(s1, UltraLowPower);
    }
  }

  /** The warnings of an end unit's reports: a leak or a lost sensor is warned of, and the warning is over when
      the last of them is. */
  lemma ReportOutcome(s: Sys, f: Frame)
    ensures var t := EndunitWarn(s, f);
            && (f.b2 == 0 && f.b3 != 0 ==> Warned(s.(reg := t.reg), t, SensorLeak))
            && (f.b2 == 1 && f.b3 != 0 ==> Warned(s.(reg := t.reg), t, SensorLost))
            && (f.b2 == 0 && f.b3 == 0 ==>
                  if s.status == SlaverSensorLeak && NoOtherLeak(s.reg.devs, f.source)
                  then t.prio == 0 && t.raised == [] && t.status in {ValveOpen, ValveClose}
                  else t == s.(reg := t.reg))
            && (f.b2 == 1 && f.b3 == 0 ==>
                  if s.status == SlaverSensorLost && (forall d | d in s.reg.devs :: d.wire == 0 || d.id == f.source)
                  then t == Clear(s).(reg := t.reg)
                  else t == s.(reg := t.reg))
            && (f.b2 > 1 ==> t == s)
  {
    if f.b2 == 0 {
      LeakReport(s, f);
    } else if f.b2 == 1 {
      WireReport(s, f);
    }
  }

  lemma LeakReport(s: Sys, f: Frame)
    requires f.b2 == 0
    ensures var t := EndunitWarn(s, f);
            && (f.b3 != 0 ==> Warned(s.(reg := t.reg), t, SensorLeak))
            && (f.b3 == 0 ==>
                  if s.status == SlaverSensorLeak && NoOtherLeak(s.reg.devs, f.source)
                  then t.prio == 0 && t.raised == [] && t.status in {ValveOpen, ValveClose}
                  else t == s.(reg := t.reg))
  {
    var s1 := s.(reg := Set(s.reg, Leak, f.source, f.b3));
    if f.b3 != 0 {
      RaiseOutcome(s1, SensorLeak);
    } else {
      LeakOver(s.reg, f.source);
      CloseOutcome(Clear(s1));
    }
  }

  lemma WireReport(s: Sys, f: Frame)
    requires f.b2 == 1
    ensures var t := EndunitWarn(s, f);
            && (f.b3 != 0 ==> Warned(s.(reg := t.reg), t, SensorLost))
            && (f.b3 == 0 ==>
                  if s.status == SlaverSensorLost && (forall d | d in s.reg.devs :: d.wire == 0 || d.id == f.source)
                  then t == Clear(s).(reg := t.reg)
                  else t == s.(reg := t.reg))
  {
    var s1 := s.(reg := Set(s.reg, Wire, f.source, f.b3));
    if f.b3 != 0 {
      RaiseOutcome(s1, SensorLost);
    } else {
      WireOver(s.reg, f.source);
    }
  }

  lemma WireOver(r: Reg, id: Format.Word)
    ensures !AnyWireLost(Set(r, Wire, id, 0).devs) <==> forall d | d in r.devs :: d.wire == 0 || d.id == id
  {
    var q := Set(r, Wire, id, 0);
    SettersOutcome(r, id, 0);
    forall k | 0 <= k < |r.devs| ensures q.devs[k] in q.devs && r.devs[k] in r.devs {}
  }

  /** A unit that asks for a closed valve takes its leak back: the alarm is over with the last leak. */
  lemma GoneOutcome(s: Sys)
    ensures var t := LeakGone(s);
            s.status == SlaverSensorLeak ==>
              if forall d | d in s.reg.devs :: d.leak == 0 then t == Clear(s) else t == s
  {
  }

  /** A door unit's frame: heard, online, its battery if it reports one; its delayed close is started in a
      status that obeys commands, and stopped in any. */
  lemma DoorOutcome(local: Format.Word, s: Sys, f: Frame)
    requires DistinctDevices(s.reg.devs) && Heard(local, s, f) && f.command != 2
    ensures var t := DoorFrame(local, s, f);
            Reports(s.reg, t.reg, f.source, d => DoorDevice(f, d)) && DoorEffect(s, t, f)
  {
    KnownIsListed(s.reg.devs, f.source);
    DoorDispatchOutcome(s, f);
    var u := DoorDispatch(s, f);
    DoorFrameIs(local, s, f);
    ThenDoorReported(s.reg, u.reg, f);
    DoorEffectKept(s, u, HeartRecv(u.reg, f.source, f.level), f);
  }

  function DoorDevice(f: Frame, d: Device): Device {
    d.(recv := 1, online := 1, level := f.level,
       battery := if f.command == 1 && f.b2 == 0 then f.b3 else d.battery)
  }

  function DoorDispatched(f: Frame, d: Device): Device {
    d.(level := if f.command == 3 then f.level else d.level,
       battery := if f.command == 1 && f.b2 == 0 then f.b3 else d.battery)
  }

  lemma DoorFrameIs(local: Format.Word, s: Sys, f: Frame)
    requires Known(s.reg.devs, f.source) && f.dest == local && f.command != 2
    ensures var u := DoorDispatch(s, f); DoorFrame(local, s, f) == u.(reg := HeartRecv(u.reg, f.source, f.level))
  {
  }

  lemma ThenDoorReported(r: Reg, q: Reg, f: Frame)
    requires DistinctDevices(r.devs) && Reports(r, q, f.source, d => DoorDispatched(f, d))
    ensures Reports(r, HeartRecv(q, f.source, f.level), f.source, d => DoorDevice(f, d))
  {
    ReportsDistinct(r, q);
    HeartRecvOutcome(q, f.source, f.level);
  }

  lemma DoorEffectKept(s: Sys, u: Sys, q: Reg, f: Frame)
    requires DoorEffect(s, u, f)
    ensures DoorEffect(s, u.(reg := q), f)
  {
  }

  predicate DoorEffect(s: Sys, t: Sys, f: Frame) {
    && (f.command == 3 && f.b2 == 2 && Obeys(s) ==> t.timers.delayClose)
    && (f.command == 3 && f.b2 == 3 ==> !t.timers.delayClose)
    && (f.command != 3 || f.b2 > 3 || (f.b2 == 2 && !Obeys(s)) ==> t == s.(reg := t.reg))
    && t.prio == s.prio && t.raised == s.raised
  }

  lemma DoorDispatchOutcome(s: Sys, f: Frame)
    requires DistinctDevices(s.reg.devs) && f.command != 2
    ensures var t := DoorDispatch(s, f);
            Reports(s.reg, t.reg, f.source, d => DoorDispatched(f, d)) && DoorEffect(s, t, f)
  {
    if f.command == 1 && f.b2 == 0 {
      SettersOutcome(s.reg, f.source, f.b3);
    } else if f.command == 3 {
      DoorValveOutcome(s, f);
    }
  }

  lemma DoorValveOutcome(s: Sys, f: Frame)
    requires DistinctDevices(s.reg.devs) && f.command == 3
    ensures var t := DoorValve(s, f);
            t.reg.devs == SetLevelInRam(s.reg, f.source, f.level).devs && DoorEffect(s, t, f)
    ensures Changed(s.reg, SetLevelInRam(s.reg, f.source, f.level), f.source, (d: Device) => d.(level := f.level))
  {
    LevelOutcome(s.reg, f.source, f.level);
    DoorCommandOutcome(s.(reg := SetLevelInRam(s.reg, f.source, f.level)), f.b2);
  }

  lemma DoorCommandOutcome(s: Sys, sub: Byte)
    ensures var t := DoorCommand(s, sub);
            && t.reg.devs == s.reg.devs && t.prio == s.prio && t.raised == s.raised
            && (sub == 2 && Obeys(s) ==> t.timers.delayClose) && (sub == 3 ==> !t.timers.delayClose)
            && (sub > 3 || (sub == 2 && !Obeys(s)) ==> t == s)
  {
    if sub == 0 {
      if Normal(s) { LockKeeps(s); }
    } else if sub == 1 {
      if Normal(s) { LockKeeps(s); }
    }
  }

  lemma LockKeeps(s: Sys)
    ensures LockClose(s).reg.devs == s.reg.devs && LockClose(s).prio == s.prio && LockClose(s).raised == s.raised
    ensures UnlockOpen(s).reg.devs == s.reg.devs && UnlockOpen(s).prio == s.prio && UnlockOpen(s).raised == s.raised
  {
    OpenOutcome(Unlock(s));
    CloseOutcome(Lock(s));
    if s.lock == 1 {}
    if s.lock == 0 {}
  }

  /** A gateway's frame: it has been heard; a sync command removes exactly the device with the address in it. */
  lemma GatewayOutcome(local: Format.Word, s: Sys, f: Frame)
    requires Ok(s.reg) && Heard(local, s, f) && f.command != 2
    ensures var t, heard := GatewayFrame(local, s, f), SetRecv(s.reg, f.source, 1);
            && Changed(s.reg, heard, f.source, (d: Device) => d.(recv := 1))
            && (f.command == 5 && f.b2 == 1 ==>
                  forall d :: d in t.reg.devs <==> d in heard.devs && d.id != f.addr)
            && (f.command != 5 || f.b2 != 1 ==> t.reg.devs == heard.devs)
            && (f.command != 3 ==> t == s.(reg := t.reg))
            && t.prio == s.prio && t.raised == s.raised
  {
    KnownIsListed(s.reg.devs, f.source);
    SettersOutcome(s.reg, f.source, 1);
    var s1 := s.(reg := SetRecv(s.reg, f.source, 1));
    if f.command == 3 {
      ControlKeeps(s1, f);
    } else if f.command == 5 && f.b2 == 1 {
      RamOnly(s.reg, s1.reg.devs);
      DeleteKeeps(s1.reg, f.addr);
    }
  }

  lemma ControlKeeps(s: Sys, f: Frame)
    ensures var t := GatewayControl(s, f); t.reg.devs == s.reg.devs && t.prio == s.prio && t.raised == s.raised
  {
    if Normal(s) {
      if f.b2 == 0 { CloseOutcome(s); } else if f.b2 == 1 { LockKeeps(s); }
    }
  }

  /** A motion sensor's frame: heard and online. */
  lemma MotionOutcome(local: Format.Word, s: Sys, f: Frame)
    requires DistinctDevices(s.reg.devs) && Heard(local, s, f) && f.command != 2
    ensures var t := MotionFrame(local, s, f);
            && Reports(s.reg, t.reg, f.source, (d: Device) => d.(recv := 1, online := 1, level := f.level))
            && (f.command != 3 ==> t == s.(reg := t.reg))
            && t.prio == s.prio && t.raised == s.raised
  {
    KnownIsListed(s.reg.devs, f.source);
    LevelOutcome(s.reg, f.source, f.level);
    var u := s;
    if f.command == 3 {
      MotionKeeps(s, f);
      u := MotionControl(s, f);
    }
    ReportsDistinct(s.reg, u.reg);
    HeartRecvOutcome(u.reg, f.source, f.level);
  }

  lemma MotionKeeps(s: Sys, f: Frame)
    ensures var t := MotionControl(s, f);
            && t.reg.devs == SetLevelInRam(s.reg, f.source, f.level).devs && t.prio == s.prio && t.raised == s.raised
  {
    var s1 := s.(reg := SetLevelInRam(s.reg, f.source, f.level));
    if !Normal(s1) {
    } else if f.b2 != 0 {
      LockKeeps(s1);
    } else {
      CloseOutcome(s1);
    }
  }

  /** Frames of strangers, and frames for another unit, change nothing but by learning. */
  lemma StrangersIgnored(local: Format.Word, s: Sys, f: Frame)
    requires !Heard(local, s, f) && f.command != 2
    ensures EndunitFrame(local, s, f) == s && DoorFrame(local, s, f) == s
    ensures GatewayFrame(local, s, f) == s && MotionFrame(local, s, f) == s
  {
    KnownIsListed(s.reg.devs, f.source);
  }

  // ----- joining -------------------------------------------------------------------------------------------------

  /** The device with that address is the only one of its kind. */
  ghost predicate OnlyOne(devs: seq<Device>, kind: Byte, id: Format.Word) {
    && (exists d | d in devs :: d.kind == kind && d.id == id)
    && forall d | d in devs && d.kind == kind :: d.id == id
  }

  /** A device of another kind has that address. */
  ghost predicate Taken(devs: seq<Device>, kind: Byte, id: Format.Word) {
    exists d | d in devs :: d.id == id && d.kind != kind
  }

  ghost predicate RoomFor(devs: seq<Device>, kind: Byte) {
    |set d | d in devs && d.kind != kind| < 12
  }

  lemma SetOfList(devs: seq<Device>)
    requires DistinctDevices(devs)
    ensures |set d | d in devs| == |devs|
  {
    DistinctCount(devs);
  }

  /** Gateways and door units replace each other: unless its address is taken by a device of another kind, or
      twelve of those are there, the newcomer is the only one of its kind afterwards; all others stay. */
  lemma Replaced(r: Reg, level: Byte, kind: Byte, id: Format.Word)
    requires Ok(r)
    ensures var (q, ok) := Create(DeleteKind(r, r.devs, kind), level, kind, id);
            && (forall d: Device | d.kind != kind :: d in q.devs <==> d in r.devs)
            && (!Taken(r.devs, kind, id) && RoomFor(r.devs, kind) ==>
                  ok && OnlyOne(q.devs, kind, id) && exists d | d in q.devs :: JustJoined(d, level, kind, id))
            && (Taken(r.devs, kind, id) ==> forall d | d in q.devs :: d.kind != kind)
  {
    var m := DeleteKind(r, r.devs, kind);
    NoneLeft(r, kind);
    OthersCounted(r, m, kind);
    CreateOutcome(m, level, kind, id);
    JoinedAlone(r, m, level, kind, id);
  }

  lemma OthersCounted(r: Reg, m: Reg, kind: Byte)
    requires Ok(m) && forall d :: d in m.devs <==> d in r.devs && d.kind != kind
    ensures RoomFor(r.devs, kind) <==> |m.devs| < 12
    ensures |m.devs| <= 12
  {
    AtMostTwelve(m);
    assert (set d | d in m.devs) == (set d | d in r.devs && d.kind != kind);
    SetOfList(m.devs);
  }

  lemma JoinedAlone(r: Reg, m: Reg, level: Byte, kind: Byte, id: Format.Word)
    requires Ok(m) && (forall d :: d in m.devs <==> d in r.devs && d.kind != kind) && |m.devs| <= 12
    ensures var (q, ok) := Create(m, level, kind, id);
            && (forall d: Device | d.kind != kind :: d in q.devs <==> d in r.devs)
            && (!Taken(r.devs, kind, id) && |m.devs| < 12 ==>
                  ok && OnlyOne(q.devs, kind, id) && exists d | d in q.devs :: JustJoined(d, level, kind, id))
            && (Taken(r.devs, kind, id) ==> forall d | d in q.devs :: d.kind != kind)
  {
    CreateOutcome(m, level, kind, id);
    var (q, ok) := Create(m, level, kind, id);
    if Listed(m.devs, id) {
      assert q == m;
    } else if |m.devs| < 12 {
      assert q.devs == m.devs + [q.devs[|m.devs|]];
    }
  }

  lemma GatewayJoins(local: Format.Word, s: Sys, f: Frame)
    requires Ok(s.reg) && f.command == 2 && f.b2 == 1 && f.dest == local && (f.dest != BROADCAST || !s.allowAdd)
    requires !Taken(s.reg.devs, 2, f.source) && RoomFor(s.reg.devs, 2)
    ensures var t := GatewayFrame(local, s, f);
            OnlyOne(t.reg.devs, 2, f.source) && t.timers.learn && GatewayId(t.reg.devs) == f.source
  {
    var s1 := GatewayLearn(local, s, f);
    GatewayLearns(local, s, f);
    HeardOnly(s1.reg, f.source, 2);
    OnlyLearns(s1.(reg := SetRecv(s1.reg, f.source, 1)), f);
    OnlyGateway(s1.reg.devs, f.source);
    OnlyGateway(SetRecv(s1.reg, f.source, 1).devs, f.source);
  }

  lemma GatewayLearns(local: Format.Word, s: Sys, f: Frame)
    requires Ok(s.reg) && f.b2 == 1 && f.dest == local && (f.dest != BROADCAST || !s.allowAdd)
    requires !Taken(s.reg.devs, 2, f.source) && RoomFor(s.reg.devs, 2)
    ensures var t := GatewayLearn(local, s, f); OnlyOne(t.reg.devs, 2, f.source) && t.timers.learn
  {
    Replaced(s.reg, 0, GATEWAY, f.source);
  }

  lemma HeardOnly(r: Reg, id: Format.Word, kind: Byte)
    requires OnlyOne(r.devs, kind, id)
    ensures OnlyOne(SetRecv(r, id, 1).devs, kind, id)
  {
    var q := SetRecv(r, id, 1);
    var d :| d in r.devs && d.kind == kind && d.id == id;
    var k :| 0 <= k < |r.devs| && r.devs[k] == d;
    assert q.devs[k] in q.devs;
    forall e | e in q.devs && e.kind == kind ensures e.id == id {
      var j :| 0 <= j < |q.devs| && q.devs[j] == e;
      assert r.devs[j] in r.devs;
    }
  }

  lemma OnlyGateway(devs: seq<Device>, id: Format.Word)
    requires OnlyOne(devs, 2, id)
    ensures GatewayId(devs) == id
  {
    if devs[0].kind != 2 {
      assert devs == [devs[0]] + devs[1..];
      OnlyGateway(devs[1..], id);
    } else {
      assert devs[0] in devs;
    }
  }

  lemma DoorJoins(local: Format.Word, s: Sys, f: Frame)
    requires Ok(s.reg) && f.command == 2 && f.b2 == 1 && f.dest == local && (f.dest != BROADCAST || !s.allowAdd)
    requires !Taken(s.reg.devs, 4, f.source) && RoomFor(s.reg.devs, 4)
    ensures var t := DoorLearn(local, s, f); OnlyOne(t.reg.devs, 4, f.source) && t.timers.learn
  {
    Replaced(s.reg, f.level, DOORUNIT, f.source);
  }

  /** End units and motion sensors join beside the others, with their own kind. */
  lemma OthersJoin(local: Format.Word, s: Sys, f: Frame)
    requires Ok(s.reg) && f.b2 == 1 && f.dest == local && (f.dest != BROADCAST || !s.allowAdd)
    requires !Listed(s.reg.devs, f.source) && |s.reg.devs| < 12
    ensures var t := EndunitLearn(local, s, f).reg.devs;
            |t| == |s.reg.devs| + 1 && t[..|s.reg.devs|] == s.reg.devs
            && JustJoined(t[|s.reg.devs|], f.level, 0, f.source)
    ensures var t := MotionLearn(local, s, f).reg.devs;
            |t| == |s.reg.devs| + 1 && t[..|s.reg.devs|] == s.reg.devs
            && JustJoined(t[|s.reg.devs|], f.level, 6, f.source)
    ensures EndunitLearn(local, s, f).timers.learn && MotionLearn(local, s, f).timers.learn
  {
    CreateOutcome(s.reg, f.level, ENDUNIT, f.source);
    CreateOutcome(s.reg, f.level, MOTION, f.source);
  }

  /** The other learn frames: a broadcast in learn mode is answered, a request to learn starts learn mode, and
      everything else is ignored. */
  lemma LearnFrames(local: Format.Word, s: Sys, f: Frame)
    ensures f.dest != local ==>
              && EndunitLearn(local, s, f) == s && DoorLearn(local, s, f) == s
              && GatewayLearn(local, s, f) == s && MotionLearn(local, s, f) == s
    ensures f.dest == local && f.b2 == 2 && (f.dest != BROADCAST || !s.allowAdd) ==>
              EndunitLearn(local, s, f) == StartLearn(s)
    ensures f.b2 != 1 ==> DoorLearn(local, s, f) == s && GatewayLearn(local, s, f) == s && MotionLearn(local, s, f) == s
    ensures f.b2 != 1 && f.b2 != 2 ==> EndunitLearn(local, s, f) == s
  {
  }
}
