/** The product as the source keeps it: globals that the handlers overwrite.  Every handler is proved
    against its function in Controller. */
module UnitObject {
  import opened Kernel
  import opened Registry
  import opened RegistryLoops
  import opened Controller
  import opened ControllerProofs
  import opened ValveProofs
  import opened CommandProofs
  import opened SafetyProofs
  import Format

  class Unit {
    const local: Format.Word
    const registry: RegistryObject
    const contactOutputs: array<bool>
    var deviceStatus: Status
    var nowPriority: nat
    ghost var raised: seq<nat>
    var lockStatus: nat
    var valveOpen: bool
    var valveValid: bool
    var leftBad: bool
    var rightBad: bool
    var leftOut: bool
    var rightOut: bool
    var timers: Timers
    var allowAddDevice: bool
    var inputLevel: int
    var keys: Keys
    var valveHours: nat
    var rtcHours: nat

    ghost function Model(): Sys
      reads this, registry
    {
      Sys(deviceStatus, nowPriority, raised, lockStatus, valveOpen, valveValid, leftBad, rightBad, leftOut, rightOut,
          timers, allowAddDevice, inputLevel, keys, valveHours, rtcHours, registry.Model())
    }

    /** In order: locked implies closed, the stored lock is the lock, the registry is in order, the status
        and the warning in force agree, and a motor that failed is on record. */
    ghost predicate Valid()
      reads this, registry
    {
      contactOutputs.Length == 8 && Base(Model()) && OnRecord(Model())
    }

    // ----- valve_work.c -------------------------------------------------------------------------------

    method TurnControl(open: bool)
      modifies `valveOpen, `leftOut, `rightOut
      ensures Model() == Turn(old(Model()), open)
    {
      valveOpen := open;
      leftOut := open;
      rightOut := open;
    }

    method Open() returns (err: Err)
      modifies this
      ensures (Model(), err) == OpenValve(old(Model()))
      ensures err == EOK ==> Opened(Model())
    {
      OpenOpens(Model());
      if lockStatus == 1 || !valveValid { return ERROR; }
      deviceStatus := ValveOpen;
      TurnControl(true);
      timers := NoChecks(timers);
      timers := timers.(detect := true);
      err := EOK;
    }

    method Close() returns (err: Err)
      modifies this
      ensures (Model(), err) == CloseValve(old(Model()))
      ensures err == EOK ==> Shut(Model())
      ensures StaysShut(local, Model()) <==> err == EOK || (!timers.leftBack && !timers.rightBack)
    {
      ClosedUntilOpened(local, Model());
      CloseShuts(Model());
      if !valveValid {
        TurnControl(false);
        return ERROR;
      }
      deviceStatus := ValveClose;
      TurnControl(false);
      timers := NoChecks(timers);
      timers := timers.(detect := false);
      err := EOK;
    }

    method LockValve()
      modifies this, registry
      ensures Model() == Lock(old(Model()))
      ensures old(LockStored(Model())) ==>
        lockStatus == 1 && GetKey(registry.flash, "valve_lock") == 1 && RegOk(registry.Model())
    {
      LockIsStored(Model());
      if lockStatus == 0 {
        lockStatus := 1;
        registry.flash := SetKey(registry.flash, "valve_lock", lockStatus);
      }
    }

    method UnlockValve()
      modifies this, registry
      ensures Model() == Unlock(old(Model()))
      ensures old(LockStored(Model())) ==> lockStatus == 0 && LockStored(Model())
    {
      UnlockIsStored(Model());
      if lockStatus == 1 {
        lockStatus := 0;
        registry.flash := SetKey(registry.flash, "valve_lock", lockStatus);
      }
    }

    method BackLeft()
      modifies this
      ensures Model() == TurnLeftBack(old(Model()))
    {
      timers := timers.(leftBack := false, leftCheck := false);
      leftBad := false;
      leftOut := false;
      timers := timers.(leftBack := true);
    }

    method BackRight()
      modifies this
      ensures Model() == TurnRightBack(old(Model()))
    {
      timers := timers.(rightBack := false, rightCheck := false);
      rightBad := false;
      rightOut := false;
      timers := timers.(rightBack := true);
    }

    method StartCheck(leftPin: bool, rightPin: bool)
      modifies this
      ensures Model() == CheckStart(old(Model()), leftPin, rightPin)
    {
      if !valveOpen { return; }
      if !leftPin { BackLeft(); }
      if !rightPin { BackRight(); }
    }

    method LockAndClose()
      modifies this, registry
      ensures Model() == LockClose(old(Model()))
      ensures old(LockStored(Model())) ==> LockStored(Model()) && lockStatus == 1 && !valveOpen
    {
      ghost var s := Model();
      if LockStored(s) { LockCloseKeeps(s); }
      LockValve();
      var err := Close();
    }

    method UnlockAndOpen()
      modifies this, registry
      ensures Model() == UnlockOpen(old(Model()))
    {
      UnlockValve();
      var err := Open();
    }

    method DelayedClose()
      modifies this, registry
      ensures Model() == DelayExpired(old(Model()))
    {
      if deviceStatus == ValveClose || deviceStatus == ValveOpen || deviceStatus == SlaverSensorLost {
        LockAndClose();
      }
    }

    method DryContactControl(level: nat)
      modifies this
      ensures Model() == DryControl(old(Model()), level)
    {
      if deviceStatus == ValveClose || deviceStatus == ValveOpen || deviceStatus == SlaverSensorLost {
        if level != 0 {
          var err := Close();
        } else {
          var err := Open();
        }
      }
    }

    method FailLeft()
      modifies this, registry
      ensures Model() == Raise(old(Model()).(valid := false, leftBad := true), LeftFail)
    {
      valveValid := false;
      leftBad := true;
      Enable(LeftFail);
    }

    method FailRight()
      modifies this, registry
      ensures Model() == Raise(old(Model()).(valid := false, rightBad := true), RightFail)
    {
      valveValid := false;
      rightBad := true;
      Enable(RightFail);
    }

    method LeftTurnBack(pin: bool)
      modifies this, registry
      ensures Model() == LeftBackExpired(old(Model()), pin)
    {
      if pin {
        leftOut := true;
        timers := timers.(leftCheck := true);
      } else {
        FailLeft();
      }
    }

    method RightTurnBack(pin: bool)
      modifies this, registry
      ensures Model() == RightBackExpired(old(Model()), pin)
    {
      if pin {
        rightOut := true;
        timers := timers.(rightCheck := true);
      } else {
        FailRight();
      }
    }

    method LeftTurnCheck(pin: bool)
      modifies this, registry
      ensures Model() == LeftCheckExpired(old(Model()), pin)
    {
      if !pin {
        if !rightBad {
          valveValid := true;
          ValveFailDisable();
        }
        ghost var s1 := Model();
        leftBad := false;
        assert Model() == s1.(leftBad := false);
      } else {
        FailLeft();
      }
    }

    method RightTurnCheck(pin: bool)
      modifies this, registry
      ensures Model() == RightCheckExpired(old(Model()), pin)
    {
      if !pin {
        if !leftBad {
          valveValid := true;
          ValveFailDisable();
        }
        ghost var s1 := Model();
        rightBad := false;
        assert Model() == s1.(rightBad := false);
      } else {
        FailRight();
      }
    }

    // ----- water_work.c -------------------------------------------------------------------------------

    method Enable(w: Warning)
      modifies this, registry
      ensures Model() == Raise(old(Model()), w)
      ensures old(Base(Model())) ==> Base(Model()) && (old(Alarm(Model())) ==> Alarm(Model()))
      ensures old(Base(Model())) && w == SensorLeak ==>
                deviceStatus == SlaverSensorLeak && lockStatus == 1 && !valveOpen
    {
      ghost var s := Model();
      if Base(s) { RaiseKeeps(s, w); }
      EnableIt(w);
    }

    method EnableIt(w: Warning)
      modifies this, registry
      ensures Model() == Raise(old(Model()), w)
    {
      var p := Priority(w);
      if p >= nowPriority {
        nowPriority := p;
        raised := raised + [p];
        assert Model() == Adopt(old(Model()), p);
        Callback(w);
      } else {
        raised := raised + [p];
        assert Model() == Noted(old(Model()), p);
      }
    }

    method Callback(w: Warning)
      modifies this, registry
      ensures Model() == React(old(Model()), w)
    {
      match w {
        case LeftFail => deviceStatus := ValveLeftFail;
        case RightFail => deviceStatus := ValveRightFail;
        case LowPower => deviceStatus := SlaverLowPower;
        case SensorLost => deviceStatus := SlaverSensorLost;
        case MasterLost => deviceStatus := MasterSensorLost;
        case _ => ClosingCallback(w);
      }
    }

    /** The callbacks that close the valve. */
    method ClosingCallback(w: Warning)
      requires w in {UltraLowPower, SensorLeak, Offline, MasterLeak, LowTemp}
      modifies this, registry
      ensures Model() == React(old(Model()), w)
    {
      match w {
        case UltraLowPower =>
          LockAndClose();
          deviceStatus := SlaverUltraLowPower;
        case SensorLeak => LeakCallback();
        case Offline => OfflineCallback();
        case MasterLeak =>
          var err := Close();
          deviceStatus := MasterSensorLeak;
        case LowTemp =>
          var err := Close();
          deviceStatus := MasterLowTemp;
      }
    }

    method LeakCallback()
      modifies this, registry
      ensures Model() == React(old(Model()), SensorLeak)
    {
      if deviceStatus != SlaverSensorLeak {
        LockAndClose();
        deviceStatus := SlaverSensorLeak;
      }
    }

    method OfflineCallback()
      modifies this
      ensures Model() == React(old(Model()), Offline)
    {
      if deviceStatus != SlaverOffline {
        var err := Close();
        deviceStatus := SlaverOffline;
      }
    }

    method AllClear()
      modifies this
      ensures Model() == Clear(old(Model()))
    {
      deviceStatus := if valveOpen then ValveOpen else ValveClose;
      nowPriority := 0;
      raised := [];
    }

    method ValveFailDisable()
      modifies this
      ensures Model() == FailOver(old(Model()))
    {
      if deviceStatus == ValveLeftFail || deviceStatus == ValveRightFail { AllClear(); }
    }

    method CheckOffline()
      modifies this
      ensures Model() == OfflineCheck(old(Model()))
    {
      if deviceStatus == SlaverOffline {
        var found := registry.OfflineFind(ENDUNIT);
        if !found { AllClear(); }
      }
    }

    method StartLearning()
      modifies this
      ensures Model() == StartLearn(old(Model()))
    {
      if deviceStatus == ValveClose || deviceStatus == ValveOpen || deviceStatus == SlaverSensorLost {
        deviceStatus := LearnDevice;
        allowAddDevice := true;
        timers := timers.(learn := true);
      } else if deviceStatus == LearnDevice {
        timers := timers.(learn := false);
        allowAddDevice := false;
        AllClear();
      }
    }

    method LearnTimeout()
      modifies this
      ensures Model() == LearnExpired(old(Model()))
    {
      allowAddDevice := false;
      AllClear();
    }

    // ----- radio frames -------------------------------------------------------------------------------

    method Register(kind: Byte, f: Frame, level: Byte)
      modifies this, registry
      ensures Model() == Learned(old(Model()), Create(old(registry.Model()), level, kind, f.source))
    {
      var ok := registry.CreateDevice(level, kind, f.source);
      if ok { timers := timers.(learn := true); }
    }

    method EndunitParseLearn(f: Frame)
      modifies this, registry
      ensures Model() == EndunitLearn(local, old(Model()), f)
    {
      if f.dest == BROADCAST && allowAddDevice {
      } else if f.dest == local {
        if f.b2 == 1 {
          Register(ENDUNIT, f, f.level);
        } else if f.b2 == 2 {
          StartLearning();
        }
      }
    }

    method EndunitParseHeart(f: Frame)
      modifies this, registry
      ensures Model() == EndunitHeart(old(Model()), f)
    {
      registry.SetField(Battery, f.source, f.b2);
      if f.b2 == 1 {
        Enable(LowPower);
      } else if f.b2 == 2 {
        Enable(UltraLowPower);
      }
    }

    method EndunitParseValve(f: Frame)
      modifies this, registry
      ensures Model() == EndunitValve(old(Model()), f)
    {
      registry.SetLevelUnsaved(f.source, f.level);
      if f.b2 != 0 {
        if deviceStatus == ValveClose || deviceStatus == ValveOpen || deviceStatus == SlaverSensorLost {
          UnlockAndOpen();
        }
      } else {
        registry.SetField(Leak, f.source, 0);
        LeakTakenBack();
      }
    }

    method LeakTakenBack()
      modifies this, registry
      ensures Model() == LeakGone(old(Model()))
    {
      if deviceStatus == SlaverSensorLeak {
        var found := registry.LeakFind();
        if !found { AllClear(); }
      } else if deviceStatus == ValveClose || deviceStatus == ValveOpen || deviceStatus == SlaverSensorLost {
        LockAndClose();
      }
    }

    method EndunitParseWarn(f: Frame)
      modifies this, registry
      ensures Model() == EndunitWarn(old(Model()), f)
    {
      if f.b2 == 0 {
        registry.SetField(Leak, f.source, f.b3);
        if f.b3 != 0 {
          Enable(SensorLeak);
        } else if deviceStatus == SlaverSensorLeak {
          var found := registry.LeakFind();
          if !found {
            AllClear();
            var err := Close();
          }
        }
      } else if f.b2 == 1 {
        registry.SetField(Wire, f.source, f.b3);
        if f.b3 != 0 {
          Enable(SensorLost);
        } else if deviceStatus == SlaverSensorLost {
          var found := registry.WireLostFind();
          if !found { AllClear(); }
        }
      }
    }

    method EndunitParseCommand(f: Frame)
      modifies this, registry
      ensures Model() == EndunitCommand(old(Model()), f)
    {
      if f.command == HEART_UPLOAD {
        EndunitParseHeart(f);
      } else if f.command == CONTROL_VALVE {
        EndunitParseValve(f);
      } else if f.command == WARNING_UPLOAD {
        EndunitParseWarn(f);
      }
    }

    method EndunitParse(f: Frame)
      modifies this, registry
      ensures Model() == EndunitFrame(local, old(Model()), f)
    {
      var i := registry.Find(f.source);
      var known := i < |registry.devices|;
      if f.command == LEARN_DEVICE { EndunitParseLearn(f); }
      if !known || f.dest != local { return; }
      EndunitParseCommand(f);
      var err := registry.HeartReceived(f.source, f.level);
      CheckOffline();
    }

    method DoorParseLearn(f: Frame)
      modifies this, registry
      ensures Model() == DoorLearn(local, old(Model()), f)
    {
      if f.dest == BROADCAST && allowAddDevice {
      } else if f.dest == local && f.b2 == 1 {
        registry.DeleteAllOf(DOORUNIT);
        Register(DOORUNIT, f, f.level);
      }
    }

    method DoorParseValve(f: Frame)
      modifies this, registry
      ensures Model() == DoorValve(old(Model()), f)
    {
      registry.SetLevelUnsaved(f.source, f.level);
      var normal := deviceStatus == ValveClose || deviceStatus == ValveOpen || deviceStatus == SlaverSensorLost;
      if f.b2 == 0 {
        if normal { LockAndClose(); }
      } else if f.b2 == 1 {
        if normal { UnlockAndOpen(); }
      } else {
        DoorParseDelay(f.b2);
      }
    }

    method DoorParseDelay(sub: Byte)
      modifies `timers
      ensures Model() == DoorDelay(old(Model()), sub)
    {
      if sub == 2 {
        if deviceStatus == ValveClose || deviceStatus == ValveOpen || deviceStatus == SlaverSensorLost {
          timers := timers.(delayClose := true);
        }
      } else if sub == 3 {
        timers := timers.(delayClose := false);
      }
    }

    method DoorParseCommand(f: Frame)
      modifies this, registry
      ensures Model() == DoorDispatch(old(Model()), f)
    {
      if f.command == HEART_UPLOAD {
        if f.b2 == 0 { registry.SetField(Battery, f.source, f.b3); }
      } else if f.command == CONTROL_VALVE {
        DoorParseValve(f);
      }
    }

    method DoorParse(f: Frame)
      modifies this, registry
      ensures Model() == DoorFrame(local, old(Model()), f)
    {
      var i := registry.Find(f.source);
      var known := i < |registry.devices|;
      if f.command == LEARN_DEVICE { DoorParseLearn(f); }
      if !known || f.dest != local { return; }
      DoorParseCommand(f);
      var err := registry.HeartReceived(f.source, f.level);
    }

    method GatewayParseLearn(f: Frame)
      modifies this, registry
      ensures Model() == GatewayLearn(local, old(Model()), f)
    {
      if f.dest == BROADCAST && allowAddDevice {
      } else if f.dest == local && f.b2 == 1 {
        registry.DeleteAllOf(GATEWAY);
        Register(GATEWAY, f, 0);
      }
    }

    method GatewayParseControl(f: Frame)
      modifies this, registry
      ensures Model() == GatewayControl(old(Model()), f)
    {
      var normal := deviceStatus == ValveClose || deviceStatus == ValveOpen || deviceStatus == SlaverSensorLost;
      if f.b2 == 0 {
        if normal { var err := Close(); }
      } else if f.b2 == 1 {
        if normal { UnlockAndOpen(); }
      }
    }

    method GatewayParse(f: Frame)
      modifies this, registry
      ensures Model() == GatewayFrame(local, old(Model()), f)
    {
      var i := registry.Find(f.source);
      var known := i < |registry.devices|;
      if f.command == LEARN_DEVICE { GatewayParseLearn(f); }
      if !known || f.dest != local { return; }
      registry.SetRecvFlag(f.source, 1);
      if f.command == CONTROL_VALVE {
        GatewayParseControl(f);
      } else if f.command == DEVICE_SYNC {
        if f.b2 == 1 { var err := registry.DeleteDevice(f.addr); }
      }
    }

    method MotionParseLearn(f: Frame)
      modifies this, registry
      ensures Model() == MotionLearn(local, old(Model()), f)
    {
      if f.dest == BROADCAST && allowAddDevice {
      } else if f.dest == local && f.b2 == 1 {
        Register(MOTION, f, f.level);
      }
    }

    method MotionParseControl(f: Frame)
      modifies this, registry
      ensures Model() == MotionControl(old(Model()), f)
    {
      registry.SetLevelUnsaved(f.source, f.level);
      var normal := deviceStatus == ValveClose || deviceStatus == ValveOpen || deviceStatus == SlaverSensorLost;
      if f.b2 != 0 {
        if normal { UnlockAndOpen(); }
      } else {
        if normal { var err := Close(); }
      }
    }

    method MotionParse(f: Frame)
      modifies this, registry
      ensures Model() == MotionFrame(local, old(Model()), f)
    {
      var i := registry.Find(f.source);
      var known := i < |registry.devices|;
      if f.command == LEARN_DEVICE { MotionParseLearn(f); }
      if !known || f.dest != local { return; }
      if f.command == CONTROL_VALVE { MotionParseControl(f); }
      var err := registry.HeartReceived(f.source, f.level);
    }

    // ----- key.c ----------------------------------------------------------------------------------------

    method OnClick()
      modifies this
      ensures Model() == KeyOn(old(Model()))
    {
      match deviceStatus {
        case ValveClose => var err := Open();
        case SlaverSensorLost => var err := Open();
        case SlaverLowPower => if !valveOpen { var err := Open(); }
        case MasterSensorLost => var err := Open();
        case _ =>
      }
    }

    method OffClick()
      modifies this
      ensures Model() == KeyOff(old(Model()))
    {
      match deviceStatus {
        case ValveOpen => var err := Close();
        case SlaverLowPower => if valveOpen { var err := Close(); }
        case MasterSensorLost => var err := Close();
        case MasterSensorAbnormal => AllClear();
        case _ =>
      }
    }

    method OnLongHold(leftPin: bool, rightPin: bool)
      modifies this, registry
      ensures Model() == KeyOnHold(old(Model()), leftPin, rightPin)
    {
      if keys.on < 4 {
        keys := keys.(on := keys.on + 1);
      } else if keys.off != 0 {
        OnOffLongClick();
      } else if !keys.onLong {
        keys := keys.(onLong := true);
        StartCheck(leftPin, rightPin);
      }
    }

    method OffLongHold()
      modifies this, registry
      ensures Model() == KeyOffHold(old(Model()))
    {
      if keys.off < 4 {
        keys := keys.(off := keys.off + 1);
      } else if keys.on != 0 {
        OnOffLongClick();
      } else if !keys.offLong {
        keys := keys.(offLong := true);
        StartLearning();
      }
    }

    method OnOffLongClick()
      modifies this, registry
      ensures Model() == BothKeys(old(Model()))
    {
      if keys.on > 3 && keys.off > 3 {
        if !keys.both { Restart(Defaults(registry.flash)); }
      }
    }

    // ----- dry_contact.c, rtc.c, main.c ------------------------------------------------------------------

    method SetContacts(tech: bool, leak: bool)
      requires contactOutputs.Length == 8
      modifies contactOutputs
      ensures contactOutputs[0] == valveOpen && contactOutputs[1] == leak && contactOutputs[2] == tech
    {
      contactOutputs[2] := tech;
      contactOutputs[1] := leak;
      contactOutputs[0] := valveOpen;
    }

    method PollInput(level: nat)
      requires contactOutputs.Length == 8
      modifies this, contactOutputs
      ensures Model() == DryPoll(old(Model()), level)
      ensures Contacts(contactOutputs[0], contactOutputs[1], contactOutputs[2]) == ContactsOf(Model())
    {
      ReadInput(level);
      match deviceStatus {
        case ValveLeftFail => SetContacts(true, false);
        case ValveRightFail => SetContacts(true, false);
        case SlaverLowPower => SetContacts(true, false);
        case SlaverSensorLost => SetContacts(true, false);
        case SlaverUltraLowPower => SetContacts(true, false);
        case SlaverOffline => SetContacts(true, false);
        case SlaverSensorLeak => SetContacts(false, true);
        case _ => SetContacts(false, false);
      }
    }

    method ReadInput(level: nat)
      modifies this
      ensures Model() == DryPoll(old(Model()), level)
    {
      if level != inputLevel {
        inputLevel := level;
        DryContactControl(level);
      }
    }

    method CheckHearts()
      modifies this, registry
      ensures Model() == HeartCheck(old(Model()))
    {
      registry.HeartCheckWalk();
      var found := registry.OfflineFind(ENDUNIT);
      if found { Enable(Offline); }
    }

    method CountValveHour(leftPin: bool, rightPin: bool)
      modifies this
      ensures Model() == ValveHour(old(Model()), leftPin, rightPin)
    {
      valveHours := Tick(valveHours);
      if valveHours == 0 { StartCheck(leftPin, rightPin); }
    }

    method CountRtcHour()
      modifies this, registry
      ensures Model() == RtcHour(old(Model()))
    {
      if rtcHours < 47 {
        rtcHours := rtcHours + 1;
      } else {
        rtcHours := 0;
        CheckHearts();
      }
    }

    method OnHour(leftPin: bool, rightPin: bool)
      modifies this, registry
      ensures Model() == Hour(old(Model()), leftPin, rightPin)
    {
      CountValveHour(leftPin, rightPin);
      CountRtcHour();
      registry.GatewayHeartCheck();
    }

    method ReadRegistry(flash: Flash)
      modifies registry
      ensures registry.Model() == RecvClear(Reload(flash))
    {
      registry.ReadDevices(flash);
      registry.HeartRecvClear();
    }

    method InitialiseStatus(lock: nat)
      modifies `deviceStatus, `nowPriority, `raised, `lockStatus
      ensures Model() == old(Model()).(status := ValveClose, prio := 0, raised := [], lock := lock)
    {
      deviceStatus, nowPriority, raised, lockStatus := ValveClose, 0, [], lock;
    }

    method InitialiseChecks()
      modifies `valveValid, `leftBad, `rightBad, `timers
      ensures Model() == old(Model()).(valid := true, leftBad := false, rightBad := false,
                                       timers := Timers(false, false, false, false, false, false, false))
    {
      valveValid, leftBad, rightBad := true, false, false;
      timers := Timers(false, false, false, false, false, false, false);
    }

    method InitialiseInputs()
      modifies `allowAddDevice, `inputLevel, `keys
      ensures Model() == old(Model()).(allowAdd := false, dryLevel := -1, keys := Keys(0, 0, false, false, false))
    {
      allowAddDevice, inputLevel, keys := false, -1, Keys(0, 0, false, false, false);
    }

    method InitialiseHours()
      modifies `valveHours, `rtcHours
      ensures Model() == old(Model()).(valveHours := 0, rtcHours := 0)
    {
      valveHours, rtcHours := 0, 0;
    }

    method Initialise(lock: nat)
      modifies this
      ensures Model() == Idle(lock, old(registry.Model()))
    {
      TurnControl(false);
      InitialiseStatus(lock);
      InitialiseChecks();
      InitialiseInputs();
      InitialiseHours();
    }

    method Restart(flash: Flash)
      modifies this, registry
      ensures Model() == Boot(flash)
    {
      ReadRegistry(flash);
      Initialise(StoredLock(flash));
      var found := registry.LeakFind();
      if found { Enable(SensorLeak); }
    }

    constructor (flash: Flash, local: Format.Word)
      ensures Model() == Boot(flash) && this.local == local
      ensures flash == BLANK_FLASH ==> Valid() && LeakHandled(Model()) && Shut(Model())
      ensures fresh(registry) && fresh(contactOutputs) && contactOutputs.Length == 8
    {
      this.local := local;
      registry := new RegistryObject(flash);
      contactOutputs := new bool[8](_ => false);
      deviceStatus, keys := ValveClose, Keys(0, 0, false, false, false);
      timers := Timers(false, false, false, false, false, false, false);
      new;
      BlankBase();
      BootSound(flash);
      BootShut(flash);
      Restart(flash);
    }

    // ----- the timers, and every event ---------------------------------------------------------------------

    method DetectTimer(leftPin: bool, rightPin: bool)
      modifies this
      ensures Model() == OnDetect(old(Model()), leftPin, rightPin)
    {
      if timers.detect {
        timers := timers.(detect := false);
        StartCheck(leftPin, rightPin);
      }
    }

    method DelayTimer()
      modifies this, registry
      ensures Model() == OnDelay(old(Model()))
    {
      if timers.delayClose {
        timers := timers.(delayClose := false);
        DelayedClose();
      }
    }

    method BackTimer(left: bool, pin: bool)
      modifies this, registry
      ensures Model() == if left then OnLeftBack(old(Model()), pin) else OnRightBack(old(Model()), pin)
    {
      if left && timers.leftBack {
        timers := timers.(leftBack := false);
        LeftTurnBack(pin);
      } else if !left && timers.rightBack {
        timers := timers.(rightBack := false);
        RightTurnBack(pin);
      }
    }

    method CheckTimer(left: bool, pin: bool)
      modifies this, registry
      ensures Model() == if left then OnLeftCheck(old(Model()), pin) else OnRightCheck(old(Model()), pin)
    {
      if left && timers.leftCheck {
        timers := timers.(leftCheck := false);
        LeftTurnCheck(pin);
      } else if !left && timers.rightCheck {
        timers := timers.(rightCheck := false);
        RightTurnCheck(pin);
      }
    }

    method LearnTimer()
      modifies this
      ensures Model() == OnLearn(old(Model()))
    {
      if timers.learn {
        timers := timers.(learn := false);
        LearnTimeout();
      }
    }

    method ReleaseKey(on: bool)
      modifies this
      ensures Model() == KeysFreed(old(Model()), on)
    {
      keys := if on then keys.(both := false, on := 0, onLong := false)
              else keys.(both := false, off := 0, offLong := false);
    }

    method HandleCheck(e: Event)
      requires e.LeftBackFires? || e.RightBackFires? || e.LeftCheckFires? || e.RightCheckFires?
      modifies this, registry
      ensures Model() == Next(local, old(Model()), e)
    {
      match e {
        case LeftBackFires(pin) => BackTimer(true, pin);
        case RightBackFires(pin) => BackTimer(false, pin);
        case LeftCheckFires(pin) => CheckTimer(true, pin);
        case RightCheckFires(pin) => CheckTimer(false, pin);
      }
    }

    method HandleKey(e: Event)
      requires e.KeyOnClick? || e.KeyOffClick? || e.KeyOnHeld? || e.KeyOffHeld? || e.KeyOnFree? || e.KeyOffFree?
      modifies this, registry
      ensures Model() == Next(local, old(Model()), e)
    {
      match e {
        case KeyOnClick => OnClick();
        case KeyOffClick => OffClick();
        case KeyOnHeld(l, r) => OnLongHold(l, r);
        case KeyOffHeld => OffLongHold();
        case KeyOnFree => ReleaseKey(true);
        case KeyOffFree => ReleaseKey(false);
      }
    }

    method HandleTimer(e: Event)
      requires e.DetectFires? || e.DelayFires? || e.LearnFires?
      modifies this, registry
      ensures Model() == Next(local, old(Model()), e)
    {
      match e {
        case DetectFires(l, r) => DetectTimer(l, r);
        case DelayFires => DelayTimer();
        case LearnFires => LearnTimer();
      }
    }

    /** Whatever happens to the unit, its globals change as the model says and stay in order; a leak on
        record keeps the valve locked and closed, exactly unless the learn timer ends; and a shut valve
        stays shut unless valve_open succeeds; and valve and lock do just what the event asks for. */
    method Handle(e: Event)
      requires Valid()
      modifies this, registry, contactOutputs
      ensures Valid() && Model() == Next(local, old(Model()), e)
      ensures old(LeakHandled(Model())) ==> (LeakHandled(Model()) <==> !Overlooks(old(Model()), e))
      ensures old(Shut(Model())) ==> Shut(Model()) || Opening(old(Model()), Model())
      ensures !Restarts(old(Model()), e) ==> Granted(old(Model()), Model(), WishOf(local, old(Model()), e))
      ensures Restarts(old(Model()), e) ==> !Model().open
    {
      ghost var s := Model();
      StepKeeps(local, s, e);
      ShutOrOpened(local, s, e);
      if LeakHandled(s) { LeakStep(local, s, e); }
      if Restarts(s, e) {
        ghost var flash := Restarted(local, s, e);
        BootShut(flash);
      } else {
        WishesGranted(local, s, e);
      }
      Dispatch(e);
    }

    /** Every run: the events in order, one handler after the other. */
    method HandleAll(events: seq<Event>)
      requires Valid()
      modifies this, registry, contactOutputs
      ensures Valid() && Model() == Run(local, old(Model()), events)
    {
      var i := 0;
      assert events[0..] == events;
      while i < |events|
        invariant 0 <= i <= |events| && Valid()
        invariant Run(local, Model(), events[i..]) == Run(local, old(Model()), events)
      {
        assert events[i..][1..] == events[i + 1..];
        Handle(events[i]);
        i := i + 1;
      }
      assert events[i..] == [];
    }

    method Dispatch(e: Event)
      requires contactOutputs.Length == 8
      modifies this, registry, contactOutputs
      ensures Model() == Next(local, old(Model()), e)
    {
      match e {
        case KeyOnClick => HandleKey(e);
        case KeyOffClick => HandleKey(e);
        case KeyOnHeld(_, _) => HandleKey(e);
        case KeyOffHeld => HandleKey(e);
        case KeyOnFree => HandleKey(e);
        case KeyOffFree => HandleKey(e);
        case Poll(level) => PollInput(level);
        case HourPassed(l, r) => OnHour(l, r);
        case PowerCycle => Restart(registry.flash);
        case FromEndunit(f) => EndunitParse(f);
        case FromDoor(f) => DoorParse(f);
        case FromGateway(f) => GatewayParse(f);
        case FromMotion(f) => MotionParse(f);
        case DetectFires(_, _) => HandleTimer(e);
        case DelayFires => HandleTimer(e);
        case LearnFires => HandleTimer(e);
        case _ => HandleCheck(e);
      }
    }
  }
}
