/** The product: valve, lock, warning arbitration, motor check, learn mode, keys, dry contact and
    radio frames (the applications and radio_protocol directories), each handler one step over one state.

    LEDs, buzzer, logging and transmissions have no effect on the state; pin levels, frame contents
    and the order of events are inputs. */
module Controller {
  import opened Kernel
  import opened Registry
  import opened FlashText
  import Format

  /** applications/water_work.h, in the order of the enumeration. */
  datatype Status =
    | ValveClose | ValveOpen | LearnDevice | ValveLeftFail | ValveRightFail | SlaverLowPower
    | SlaverUltraLowPower | SlaverSensorLeak | SlaverSensorLost | SlaverOffline | MasterSensorLost
    | MasterSensorLeak | MasterSensorAbnormal | MasterLowTemp

  datatype Warning =
    | LeftFail | RightFail | LowPower | UltraLowPower | SensorLeak | SensorLost | Offline
    | MasterLost | MasterLeak | LowTemp

  /** Whether each one-shot timer is running. */
  datatype Timers = Timers(detect: bool, delayClose: bool, leftBack: bool, rightBack: bool,
                           leftCheck: bool, rightCheck: bool, learn: bool)

  datatype Keys = Keys(on: nat, off: nat, both: bool, onLong: bool, offLong: bool)

  /** `open` is valve_status; `left` and `right` say whether each motor output is driven open.
      `raised` records the priorities raised since the last clear, which the code does not keep. */
  datatype Sys = Sys(
    status: Status, prio: nat, raised: seq<nat>,
    lock: nat, open: bool, valid: bool, leftBad: bool, rightBad: bool, left: bool, right: bool,
    timers: Timers, allowAdd: bool, dryLevel: int, keys: Keys, valveHours: nat, rtcHours: nat,
    reg: Reg)

  // ----- valve_work.c ---------------------------------------------------------------------------------

  function Turn(s: Sys, open: bool): Sys {
    s.(open := open, left := open, right := open)
  }

  function NoChecks(t: Timers): Timers {
    t.(leftBack := false, rightBack := false, leftCheck := false, rightCheck := false, delayClose := false)
  }

  function OpenValve(s: Sys): (Sys, Err) {
    if s.lock == 1 || !s.valid then (s, ERROR)
    else (Turn(s, true).(status := ValveOpen, timers := NoChecks(s.timers).(detect := true)), EOK)
  }

  /** With a failed motor the outputs are switched off, but no timer is stopped. */
  function CloseValve(s: Sys): (Sys, Err) {
    if !s.valid then (Turn(s, false), ERROR)
    else (Turn(s, false).(status := ValveClose, timers := NoChecks(s.timers).(detect := false)), EOK)
  }

  function LockKey(s: Sys, v: Format.Word): Sys {
    s.(lock := v, reg := s.reg.(flash := SetKey(s.reg.flash, "valve_lock", v)))
  }

  function Lock(s: Sys): Sys { if s.lock == 0 then LockKey(s, 1) else s }

  function Unlock(s: Sys): Sys { if s.lock == 1 then LockKey(s, 0) else s }

  function TurnLeftBack(s: Sys): Sys {
    s.(leftBad := false, left := false, timers := s.timers.(leftBack := true, leftCheck := false))
  }

  function TurnRightBack(s: Sys): Sys {
    s.(rightBad := false, right := false, timers := s.timers.(rightBack := true, rightCheck := false))
  }

  /** valve_check_start: `leftPin` and `rightPin` are the fully-open inputs. */
  function CheckStart(s: Sys, leftPin: bool, rightPin: bool): Sys {
    if !s.open then s
    else
      var s1 := if leftPin then s else TurnLeftBack(s);
      if rightPin then s1 else TurnRightBack(s1)
  }

  /** The statuses in which commands are obeyed. */
  predicate Normal(s: Sys) { s.status == ValveClose || s.status == ValveOpen || s.status == SlaverSensorLost }

  function LockClose(s: Sys): Sys { CloseValve(Lock(s)).0 }

  function UnlockOpen(s: Sys): Sys { OpenValve(Unlock(s)).0 }

  function DelayExpired(s: Sys): Sys { if Normal(s) then LockClose(s) else s }

  /** valve_delay_control */
  function DelayControl(s: Sys, on: bool): Sys { s.(timers := s.timers.(delayClose := on)) }

  function DryControl(s: Sys, level: nat): Sys {
    if !Normal(s) then s else if level != 0 then CloseValve(s).0 else OpenValve(s).0
  }

  function LeftBackExpired(s: Sys, pin: bool): Sys {
    if pin then s.(left := true, timers := s.timers.(leftCheck := true))
    else Raise(s.(valid := false, leftBad := true), LeftFail)
  }

  function RightBackExpired(s: Sys, pin: bool): Sys {
    if pin then s.(right := true, timers := s.timers.(rightCheck := true))
    else Raise(s.(valid := false, rightBad := true), RightFail)
  }

  function LeftCheckExpired(s: Sys, pin: bool): Sys {
    if !pin then (if !s.rightBad then FailOver(s.(valid := true)) else s).(leftBad := false)
    else Raise(s.(valid := false, leftBad := true), LeftFail)
  }

  function RightCheckExpired(s: Sys, pin: bool): Sys {
    if !pin then (if !s.leftBad then FailOver(s.(valid := true)) else s).(rightBad := false)
    else Raise(s.(valid := false, rightBad := true), RightFail)
  }

  // ----- water_work.c ------------------------------------------------------------------------------------

  function Priority(w: Warning): nat {
    match w
    case LeftFail => 4 case RightFail => 4 case LowPower => 3 case UltraLowPower => 6 case SensorLeak => 8
    case SensorLost => 1 case Offline => 5 case MasterLost => 1 case MasterLeak => 7 case LowTemp => 2
  }

  function Noted(s: Sys, p: nat): Sys { s.(raised := s.raised + [p]) }

  function Adopt(s: Sys, p: nat): Sys { Noted(s, p).(prio := p) }

  /** warning_enable */
  function Raise(s: Sys, w: Warning): Sys {
    if Priority(w) >= s.prio then React(Adopt(s, Priority(w)), w) else Noted(s, Priority(w))
  }

  /** The event callbacks. */
  function React(s: Sys, w: Warning): Sys {
    match w
    case LeftFail => s.(status := ValveLeftFail)
    case RightFail => s.(status := ValveRightFail)
    case LowPower => s.(status := SlaverLowPower)
    case UltraLowPower => LockClose(s).(status := SlaverUltraLowPower)
    case SensorLeak => if s.status != SlaverSensorLeak then LockClose(s).(status := SlaverSensorLeak) else s
    case SensorLost => s.(status := SlaverSensorLost)
    case Offline => if s.status != SlaverOffline then CloseValve(s).0.(status := SlaverOffline) else s
    case MasterLost => s.(status := MasterSensorLost)
    case MasterLeak => CloseValve(s).0.(status := MasterSensorLeak)
    case LowTemp => CloseValve(s).0.(status := MasterLowTemp)
  }

  /** warning_all_clear */
  function Clear(s: Sys): Sys {
    s.(status := if s.open then ValveOpen else ValveClose, prio := 0, raised := [])
  }

  /** valvefail_warning_disable */
  function FailOver(s: Sys): Sys {
    if s.status == ValveLeftFail || s.status == ValveRightFail then Clear(s) else s
  }

  /** warning_offline_check */
  function OfflineCheck(s: Sys): Sys {
    if s.status == SlaverOffline && !AnyOffline(s.reg.devs, ENDUNIT) then Clear(s) else s
  }

  function StartLearn(s: Sys): Sys {
    if Normal(s) then s.(status := LearnDevice, allowAdd := true, timers := s.timers.(learn := true))
    else if s.status == LearnDevice then Clear(s.(allowAdd := false, timers := s.timers.(learn := false)))
    else s
  }

  function RefreshLearn(s: Sys): Sys { s.(timers := s.timers.(learn := true)) }

  /** radio_learn_timer_callback: clears every warning, whatever the status. */
  function LearnExpired(s: Sys): Sys { Clear(s.(allowAdd := false)) }

  // ----- timers: one that is not running does not fire, one that fires is no longer running --------------------

  function OnDetect(s: Sys, leftPin: bool, rightPin: bool): Sys {
    if s.timers.detect then CheckStart(s.(timers := s.timers.(detect := false)), leftPin, rightPin) else s
  }

  function OnDelay(s: Sys): Sys {
    if s.timers.delayClose then DelayExpired(DelayControl(s, false)) else s
  }

  function OnLeftBack(s: Sys, pin: bool): Sys {
    if s.timers.leftBack then LeftBackExpired(s.(timers := s.timers.(leftBack := false)), pin) else s
  }

  function OnRightBack(s: Sys, pin: bool): Sys {
    if s.timers.rightBack then RightBackExpired(s.(timers := s.timers.(rightBack := false)), pin) else s
  }

  function OnLeftCheck(s: Sys, pin: bool): Sys {
    if s.timers.leftCheck then LeftCheckExpired(s.(timers := s.timers.(leftCheck := false)), pin) else s
  }

  function OnRightCheck(s: Sys, pin: bool): Sys {
    if s.timers.rightCheck then RightCheckExpired(s.(timers := s.timers.(rightCheck := false)), pin) else s
  }

  function OnLearn(s: Sys): Sys {
    if s.timers.learn then LearnExpired(s.(timers := s.timers.(learn := false))) else s
  }

  // ----- radio frames ----------------------------------------------------------------------------------------

  const HEART_UPLOAD: Byte := 1
  const LEARN_DEVICE: Byte := 2
  const CONTROL_VALVE: Byte := 3
  const WARNING_UPLOAD: Byte := 4
  const DEVICE_SYNC: Byte := 5
  const BROADCAST: Format.Word := 0xFFFF_FFFF

  /** The parsed part of a frame the handlers look at; `addr` is the address in bytes 3 to 6. */
  datatype Frame = Frame(source: Format.Word, dest: Format.Word, level: Byte,
                         command: Byte, b2: Byte, b3: Byte, addr: Format.Word)

  function Learned(s: Sys, created: (Reg, bool)): Sys {
    var s1 := s.(reg := created.0);
    if created.1 then RefreshLearn(s1) else s1
  }

  function EndunitLearn(local: Format.Word, s: Sys, f: Frame): Sys {
    if f.dest == BROADCAST && s.allowAdd then s
    else if f.dest != local then s
    else if f.b2 == 1 then Learned(s, Create(s.reg, f.level, ENDUNIT, f.source))
    else if f.b2 == 2 then StartLearn(s)
    else s
  }

  function EndunitHeart(s: Sys, f: Frame): Sys {
    var s1 := s.(reg := Set(s.reg, Battery, f.source, f.b2));
    if f.b2 == 1 then Raise(s1, LowPower) else if f.b2 == 2 then Raise(s1, UltraLowPower) else s1
  }

  function EndunitValve(s: Sys, f: Frame): Sys {
    var s1 := s.(reg := SetLevelInRam(s.reg, f.source, f.level));
    if f.b2 != 0 then
      if Normal(s1) then UnlockOpen(s1) else s1
    else
      LeakGone(s1.(reg := Set(s1.reg, Leak, f.source, 0)))
  }

  /** An end unit asks for a closed valve, its leak flag taken back. */
  function LeakGone(s: Sys): Sys {
    if s.status == SlaverSensorLeak then (if !AnyLeak(s.reg.devs) then Clear(s) else s)
    else if Normal(s) then LockClose(s)
    else s
  }

  function EndunitWarn(s: Sys, f: Frame): Sys {
    if f.b2 == 0 then
      var s1 := s.(reg := Set(s.reg, Leak, f.source, f.b3));
      if f.b3 != 0 then Raise(s1, SensorLeak)
      else if s1.status == SlaverSensorLeak && !AnyLeak(s1.reg.devs) then CloseValve(Clear(s1)).0
      else s1
    else if f.b2 == 1 then
      var s1 := s.(reg := Set(s.reg, Wire, f.source, f.b3));
      if f.b3 != 0 then Raise(s1, SensorLost)
      else if s1.status == SlaverSensorLost && !AnyWireLost(s1.reg.devs) then Clear(s1)
      else s1
    else s
  }

  function EndunitCommand(s: Sys, f: Frame): Sys {
    if f.command == HEART_UPLOAD then EndunitHeart(s, f)
    else if f.command == CONTROL_VALVE then EndunitValve(s, f)
    else if f.command == WARNING_UPLOAD then EndunitWarn(s, f)
    else s
  }

  function EndunitFrame(local: Format.Word, s: Sys, f: Frame): Sys {
    var s1 := if f.command == LEARN_DEVICE then EndunitLearn(local, s, f) else s;
    if !Known(s.reg.devs, f.source) || f.dest != local then s1
    else
      var s2 := EndunitCommand(s1, f);
      OfflineCheck(s2.(reg := HeartRecv(s2.reg, f.source, f.level)))
  }

  function DoorLearn(local: Format.Word, s: Sys, f: Frame): Sys {
    if f.dest == BROADCAST && s.allowAdd then s
    else if f.dest != local || f.b2 != 1 then s
    else Learned(s, Create(DeleteKind(s.reg, s.reg.devs, DOORUNIT), f.level, DOORUNIT, f.source))
  }

  function DoorValve(s: Sys, f: Frame): Sys {
    DoorCommand(s.(reg := SetLevelInRam(s.reg, f.source, f.level)), f.b2)
  }

  function DoorCommand(s: Sys, sub: Byte): Sys {
    if sub == 0 then (if Normal(s) then LockClose(s) else s)
    else if sub == 1 then (if Normal(s) then UnlockOpen(s) else s)
    else DoorDelay(s, sub)
  }

  function DoorDelay(s: Sys, sub: Byte): Sys {
    if sub == 2 then (if Normal(s) then DelayControl(s, true) else s)
    else if sub == 3 then DelayControl(s, false)
    else s
  }

  function DoorDispatch(s: Sys, f: Frame): Sys {
    if f.command == HEART_UPLOAD && f.b2 == 0 then s.(reg := Set(s.reg, Battery, f.source, f.b3))
    else if f.command == CONTROL_VALVE then DoorValve(s, f)
    else s
  }

  function DoorFrame(local: Format.Word, s: Sys, f: Frame): Sys {
    var s1 := if f.command == LEARN_DEVICE then DoorLearn(local, s, f) else s;
    if !Known(s.reg.devs, f.source) || f.dest != local then s1
    else
      var s2 := DoorDispatch(s1, f);
      s2.(reg := HeartRecv(s2.reg, f.source, f.level))
  }

  function GatewayLearn(local: Format.Word, s: Sys, f: Frame): Sys {
    if f.dest == BROADCAST && s.allowAdd then s
    else if f.dest != local || f.b2 != 1 then s
    else Learned(s, Create(DeleteKind(s.reg, s.reg.devs, GATEWAY), 0, GATEWAY, f.source))
  }

  function GatewayControl(s: Sys, f: Frame): Sys {
    if !Normal(s) then s
    else if f.b2 == 0 then CloseValve(s).0
    else if f.b2 == 1 then UnlockOpen(s)
    else s
  }

  function GatewayCommand(s: Sys, f: Frame): Sys {
    if f.command == CONTROL_VALVE then GatewayControl(s, f)
    else if f.command == DEVICE_SYNC && f.b2 == 1 then s.(reg := Delete(s.reg, f.addr).0)
    else s
  }

  function GatewayFrame(local: Format.Word, s: Sys, f: Frame): Sys {
    var s1 := if f.command == LEARN_DEVICE then GatewayLearn(local, s, f) else s;
    if !Known(s.reg.devs, f.source) || f.dest != local then s1
    else GatewayCommand(s1.(reg := SetRecv(s1.reg, f.source, 1)), f)
  }

  function MotionLearn(local: Format.Word, s: Sys, f: Frame): Sys {
    if f.dest == BROADCAST && s.allowAdd then s
    else if f.dest != local || f.b2 != 1 then s
    else Learned(s, Create(s.reg, f.level, MOTION, f.source))
  }

  function MotionControl(s: Sys, f: Frame): Sys {
    var s1 := s.(reg := SetLevelInRam(s.reg, f.source, f.level));
    if !Normal(s1) then s1 else if f.b2 != 0 then UnlockOpen(s1) else CloseValve(s1).0
  }

  function MotionFrame(local: Format.Word, s: Sys, f: Frame): Sys {
    var s1 := if f.command == LEARN_DEVICE then MotionLearn(local, s, f) else s;
    if !Known(s.reg.devs, f.source) || f.dest != local then s1
    else
      var s2 := if f.command == CONTROL_VALVE then MotionControl(s1, f) else s1;
      s2.(reg := HeartRecv(s2.reg, f.source, f.level))
  }

  // ----- keys, dry contact, clock -----------------------------------------------------------------------------

  function KeyOn(s: Sys): Sys {
    match s.status
    case ValveClose => OpenValve(s).0
    case SlaverSensorLost => OpenValve(s).0
    case SlaverLowPower => if !s.open then OpenValve(s).0 else s
    case MasterSensorLost => OpenValve(s).0
    case _ => s
  }

  function KeyOff(s: Sys): Sys {
    match s.status
    case ValveOpen => CloseValve(s).0
    case SlaverLowPower => if s.open then CloseValve(s).0 else s
    case MasterSensorLost => CloseValve(s).0
    case MasterSensorAbnormal => Clear(s)
    case _ => s
  }

  /** key_on_long_hold_handle, once a second while the key is held. */
  function KeyOnHold(s: Sys, leftPin: bool, rightPin: bool): Sys {
    if s.keys.on < 4 then s.(keys := s.keys.(on := s.keys.on + 1))
    else if s.keys.off != 0 then BothKeys(s)
    else if s.keys.onLong then s
    else CheckStart(s.(keys := s.keys.(onLong := true)), leftPin, rightPin)
  }

  function KeyOffHold(s: Sys): Sys {
    if s.keys.off < 4 then s.(keys := s.keys.(off := s.keys.off + 1))
    else if s.keys.on != 0 then BothKeys(s)
    else if s.keys.offLong then s
    else StartLearn(s.(keys := s.keys.(offLong := true)))
  }

  /** key_on_long_free_handle and key_off_long_free_handle */
  function KeysFreed(s: Sys, on: bool): Sys {
    s.(keys := if on then s.keys.(both := false, on := 0, onLong := false)
               else s.keys.(both := false, off := 0, offLong := false))
  }

  /** ef_env_set_default: whatever was stored, only the default is there afterwards. */
  function Defaults(flash: Flash): (r: Flash)
    ensures "slot" !in r && "valve_lock" !in r
  {
    map["boot_times" := Text("0")]
  }

  /** Both keys held: flash goes back to its defaults and the unit restarts. */
  function BothKeys(s: Sys): Sys {
    if s.keys.on > 3 && s.keys.off > 3 && !s.keys.both then Boot(Defaults(s.reg.flash)) else s
  }

  function DryPoll(s: Sys, level: nat): Sys {
    if level != s.dryLevel then DryControl(s.(dryLevel := level), level) else s
  }

  /** The relay outputs for valve state, leak alarm and technical alarm. */
  datatype Contacts = Contacts(valve: bool, leak: bool, tech: bool)

  /** dry_contact_polling_timer_callback, after the input is handled. */
  function ContactsOf(s: Sys): Contacts {
    match s.status
    case ValveLeftFail => Contacts(s.open, false, true)
    case ValveRightFail => Contacts(s.open, false, true)
    case SlaverLowPower => Contacts(s.open, false, true)
    case SlaverSensorLost => Contacts(s.open, false, true)
    case SlaverUltraLowPower => Contacts(s.open, false, true)
    case SlaverOffline => Contacts(s.open, false, true)
    case SlaverSensorLeak => Contacts(s.open, true, false)
    case _ => Contacts(s.open, false, false)
  }

  function HeartCheck(s: Sys): Sys {
    var s1 := s.(reg := HeartWalk(s.reg, 0));
    if AnyOffline(s1.reg.devs, ENDUNIT) then Raise(s1, Offline) else s1
  }

  /** One turn of the rtc thread, once an hour. */
  function Hour(s: Sys, leftPin: bool, rightPin: bool): Sys {
    var s1 := RtcHour(ValveHour(s, leftPin, rightPin));
    s1.(reg := GatewayHeart(s1.reg))
  }

  /** The hour counter is one byte; it is 0 again whenever the motors are due for a check. */
  function Tick(hours: nat): nat {
    var h := (hours + 1) % 256;
    if h % 120 == 0 then 0 else h
  }

  function ValveHour(s: Sys, leftPin: bool, rightPin: bool): Sys {
    var s1 := s.(valveHours := Tick(s.valveHours));
    if s1.valveHours == 0 then CheckStart(s1, leftPin, rightPin) else s1
  }

  function RtcHour(s: Sys): Sys {
    if s.rtcHours < 47 then s.(rtcHours := s.rtcHours + 1) else HeartCheck(s.(rtcHours := 0))
  }

  // ----- start-up, events, runs -----------------------------------------------------------------------------------

  /** main: the registry is read back, the lock is read back, the outputs are switched off, and a
      leak on record is raised again. */
  function Boot(flash: Flash): Sys {
    var s := Started(flash);
    if AnyLeak(s.reg.devs) then Raise(s, SensorLeak) else s
  }

  function StoredLock(flash: Flash): nat { GetKey(flash, "valve_lock") % 256 }

  /** The globals as initialised, next to what was read back. */
  function Idle(lock: nat, reg: Reg): Sys {
    Sys(ValveClose, 0, [], lock, false, true, false, false, false, false,
        Timers(false, false, false, false, false, false, false), false, -1,
        Keys(0, 0, false, false, false), 0, 0, reg)
  }

  function Started(flash: Flash): Sys { Idle(StoredLock(flash), RecvClear(Reload(flash))) }

  /** Closed, no motor output driven open, and no timer running that would drive one. */
  predicate Shut(s: Sys) {
    !s.open && !s.left && !s.right && !s.timers.leftBack && !s.timers.rightBack
  }

  datatype Event =
    | KeyOnClick | KeyOffClick | KeyOnHeld(leftPin: bool, rightPin: bool) | KeyOffHeld | KeyOnFree | KeyOffFree
    | Poll(level: nat) | HourPassed(leftPin: bool, rightPin: bool)
    | DetectFires(leftPin: bool, rightPin: bool) | DelayFires | LeftBackFires(pin: bool) | RightBackFires(pin: bool)
    | LeftCheckFires(pin: bool) | RightCheckFires(pin: bool) | LearnFires
    | FromEndunit(f: Frame) | FromDoor(f: Frame) | FromGateway(f: Frame) | FromMotion(f: Frame)
    | PowerCycle

  /** The end of a one-shot timer. */
  predicate Times(e: Event) {
    || e.DetectFires? || e.DelayFires? || e.LeftBackFires? || e.RightBackFires?
    || e.LeftCheckFires? || e.RightCheckFires? || e.LearnFires?
  }

  /** One event. */
  function Next(local: Format.Word, s: Sys, e: Event): Sys {
    match e
    case KeyOnClick => KeyOn(s)
    case KeyOffClick => KeyOff(s)
    case KeyOnHeld(l, r) => KeyOnHold(s, l, r)
    case KeyOffHeld => KeyOffHold(s)
    case KeyOnFree => KeysFreed(s, true)
    case KeyOffFree => KeysFreed(s, false)
    case Poll(level) => DryPoll(s, level)
    case HourPassed(l, r) => Hour(s, l, r)
    case DetectFires(l, r) => OnDetect(s, l, r)
    case DelayFires => OnDelay(s)
    case LeftBackFires(pin) => OnLeftBack(s, pin)
    case RightBackFires(pin) => OnRightBack(s, pin)
    case LeftCheckFires(pin) => OnLeftCheck(s, pin)
    case RightCheckFires(pin) => OnRightCheck(s, pin)
    case LearnFires => OnLearn(s)
    case FromEndunit(f) => EndunitFrame(local, s, f)
    case FromDoor(f) => DoorFrame(local, s, f)
    case FromGateway(f) => GatewayFrame(local, s, f)
    case FromMotion(f) => MotionFrame(local, s, f)
    case PowerCycle => Boot(s.reg.flash)
  }

  function Run(local: Format.Word, s: Sys, events: seq<Event>): Sys
    decreases events
  {
    if events == [] then s else Run(local, Next(local, s, events[0]), events[1..])
  }
}
