/** What holds in every run from a blank unit, and the two runs in which the valve is not safe. */
module SafetyProofs {
  import opened Kernel
  import opened Bits
  import opened Registry
  import opened RegistryProofs
  import opened RegistryLoops
  import Codec
  import opened Controller
  import opened ControllerProofs
  import opened ValveProofs
  import Format

  const BLANK_FLASH: Flash := map[]

  // ----- all runs --------------------------------------------------------------------------------------

  lemma BlankBase()
    ensures Base(Boot(BLANK_FLASH)) && Alarm(Boot(BLANK_FLASH)) && LeakHandled(Boot(BLANK_FLASH))
  {
    FactoryKeeps(BLANK_FLASH);
    AlarmIsHandled(Boot(BLANK_FLASH));
  }

  lemma {:induction false} RunKeeps(local: Format.Word, s: Sys, events: seq<Event>)
    requires Base(s)
    ensures Base(Run(local, s, events))
    decreases events
  {
    if events != [] {
      StepKeeps(local, s, events[0]);
      RunKeeps(local, Next(local, s, events[0]), events[1..]);
    }
  }

  /** Locked implies closed, the stored lock is the lock, a leak alarm means locked; the registry is in
      order with at most twelve devices, one gateway and one door unit; and the warning in force is
      the gravest one raised since the last clear. */
  ghost predicate InOrder(s: Sys) {
    && (s.lock == 1 ==> !s.open) && GetKey(s.reg.flash, "valve_lock") == s.lock
    && (s.status == SlaverSensorLeak ==> s.lock == 1 && s.prio == 8)
    && Ok(s.reg) && |s.reg.devs| <= MAX_DEVICES && s.reg.mask < 4096
    && AtMostOne(s.reg.devs, GATEWAY) && AtMostOne(s.reg.devs, DOORUNIT)
    && (forall p | p in s.raised :: p <= s.prio) && (if s.raised == [] then s.prio == 0 else s.prio in s.raised)
    && (BoundPriority(s.status) != 0 ==> s.prio == BoundPriority(s.status))
  }

  lemma BaseInOrder(s: Sys)
    requires Base(s)
    ensures InOrder(s)
  {
    AtMostTwelve(s.reg);
    MaskBelow4096(s.reg);
    HighestIsMaximum(s.raised);
  }

  lemma {:induction false} EveryRun(local: Format.Word, events: seq<Event>)
    ensures InOrder(Run(local, Boot(BLANK_FLASH), events))
  {
    BlankBase();
    RunKeeps(local, Boot(BLANK_FLASH), events);
    BaseInOrder(Run(local, Boot(BLANK_FLASH), events));
  }

  /** Whenever the power goes, every device is there again with its persisted properties, and the
      lock is as it was. */
  lemma {:induction false} PowerCutLosesNothing(local: Format.Word, events: seq<Event>)
    ensures var s := Run(local, Boot(BLANK_FLASH), events);
            && SameDevices(s.reg.devs, Reload(s.reg.flash).devs) && Reload(s.reg.flash).mask == s.reg.mask
            && StoredLock(s.reg.flash) == s.lock
  {
    BlankBase();
    RunKeeps(local, Boot(BLANK_FLASH), events);
    var s := Run(local, Boot(BLANK_FLASH), events);
    RebootRestores(s.reg);
    SmallByte(s.lock);
  }

  /** In every run both uploads stay small enough for their frames to fit the send queue. */
  lemma {:induction false} UploadsAlwaysFit(local: Format.Word, events: seq<Event>, tx: Codec.Tx)
    ensures var devs := Run(local, Boot(BLANK_FLASH), events).reg.devs;
            |tx.payload| == SYNC_HEADER + |CloneBytes(devs)| || |tx.payload| == OFFLINE_HEADER + |OfflineBytes(devs)|
            ==> |tx.payload| <= 100 && |Codec.Build(tx)| <= Codec.QUEUE_RECORD
  {
    EveryRun(local, events);
    UploadFits(Run(local, Boot(BLANK_FLASH), events).reg, tx);
  }

  // ----- leaks ------------------------------------------------------------------------------------------

  /** The promise: with a leak on record the alarm is on and the valve is locked and closed. */
  predicate LeakHandled(s: Sys) {
    AnyLeak(s.reg.devs) ==> s.status == SlaverSensorLeak && s.prio == 8 && s.lock == 1 && !s.open
  }

  /** The learn timer runs out while a leak is on record. */
  predicate Overlooks(s: Sys, e: Event) { e.LearnFires? && s.timers.learn && AnyLeak(s.reg.devs) }

  lemma AlarmIsHandled(s: Sys)
    requires Base(s)
    ensures Alarm(s) <==> LeakHandled(s)
  {
  }

  /** From any state in order the promise is kept by every event, exactly but for that one. */
  lemma LeakStep(local: Format.Word, s: Sys, e: Event)
    requires Base(s) && LeakHandled(s)
    ensures LeakHandled(Next(local, s, e)) <==> !Overlooks(s, e)
  {
    StepKeeps(local, s, e);
    AlarmIsHandled(s);
    AlarmIsHandled(Next(local, s, e));
    if e.LearnFires? { LearnEnds(s); }
  }

  lemma LearnEnds(s: Sys)
    ensures var t := OnLearn(s);
            t.reg == s.reg
            && (if s.timers.learn then t.status == (if s.open then ValveOpen else ValveClose) else t == s)
  {
    if s.timers.learn {}
  }

  predicate Vigilant(local: Format.Word, s: Sys, events: seq<Event>)
    decreases events
  {
    events == [] || (!Overlooks(s, events[0]) && Vigilant(local, Next(local, s, events[0]), events[1..]))
  }

  lemma {:induction false} LeakRun(local: Format.Word, s: Sys, events: seq<Event>)
    requires Base(s) && LeakHandled(s) && Vigilant(local, s, events)
    ensures LeakHandled(Run(local, s, events))
    decreases events
  {
    if events != [] {
      LeakStep(local, s, events[0]);
      StepKeeps(local, s, events[0]);
      LeakRun(local, Next(local, s, events[0]), events[1..]);
    }
  }

  /** Leak safety, over every run of a unit: power cuts and factory resets included. */
  lemma LeaksAreHandled(local: Format.Word, events: seq<Event>)
    requires Vigilant(local, Boot(BLANK_FLASH), events)
    ensures LeakHandled(Run(local, Boot(BLANK_FLASH), events))
  {
    BlankBase();
    LeakRun(local, Boot(BLANK_FLASH), events);
  }

  /** With a leak on record the next poll closes the leak relay, and no other. */
  lemma LeakRelay(local: Format.Word, events: seq<Event>)
    requires Vigilant(local, Boot(BLANK_FLASH), events)
    ensures var s := Run(local, Boot(BLANK_FLASH), events);
            AnyLeak(s.reg.devs) ==> ContactsOf(s) == Contacts(false, true, false)
  {
    LeaksAreHandled(local, events);
  }

  // ----- two runs ---------------------------------------------------------------------------------------

  /** The commands of an end unit whose address is 7. */
  function Unit7(local: Format.Word, command: Byte, b2: Byte, b3: Byte): Frame {
    Frame(7, local, 0, command, b2, b3, 0)
  }

  function Join(local: Format.Word): Event { FromEndunit(Unit7(local, LEARN_DEVICE, 1, 0)) }

  function Leaks(local: Format.Word): Event { FromEndunit(Unit7(local, WARNING_UPLOAD, 0, 1)) }

  function Opens(local: Format.Word): Event { FromEndunit(Unit7(local, CONTROL_VALVE, 1, 0)) }

  /** That unit is the only registered device. */
  predicate Lone(r: Reg) { |r.devs| == 1 && r.devs[0].id == 7 }

  lemma BlankStart()
    ensures var s := Boot(BLANK_FLASH);
            && s == Started(BLANK_FLASH) && s.reg.devs == [] && s.reg.mask == 0
  {
    var r := Reg(0, [], BLANK_FLASH);
    EmptyOk(BLANK_FLASH);
    RebootRestores(r);
    assert Reload(BLANK_FLASH).devs == [];
    assert Reload(BLANK_FLASH).mask == 0;
  }

  lemma Joined(local: Format.Word, s: Sys)
    requires s.reg.devs == [] && s.reg.mask == 0 && !s.allowAdd
    ensures var t := EndunitFrame(local, s, Unit7(local, LEARN_DEVICE, 1, 0));
            Lone(t.reg) && t == s.(reg := t.reg, timers := s.timers.(learn := true))
  {
    NoBits(0);
    assert FreeSlot(0, 0) == 0;
    assert Create(s.reg, 0, ENDUNIT, 7).1;
  }

  /** The first poll of the dry contact after start-up always acts; with the input at 1 it closes. */
  lemma FirstPolled(s: Sys)
    requires s == Boot(BLANK_FLASH)
    ensures var t := DryPoll(s, 1);
            && t.reg.devs == [] && t.reg.mask == 0 && !t.allowAdd && t.dryLevel == 1
            && t.prio == 0 && t.status == ValveClose && t.lock == 0 && !t.open && t.valid
            && t.keys == Keys(0, 0, false, false, false)
  {
    BlankStart();
    LockedZero();
  }

  /** Every later poll at the same level changes nothing. */
  lemma PollAgain(local: Format.Word, s: Sys)
    requires s.dryLevel >= 0
    ensures Next(local, s, Poll(s.dryLevel)) == s
  {
  }

  lemma LockedZero()
    ensures Started(BLANK_FLASH).lock == 0
  {
  }

  lemma LoneSet(r: Reg, f: Field, v: Byte)
    requires Lone(r)
    ensures Lone(Set(r, f, 7, v)) && Set(r, f, 7, v).devs[0] == With(r.devs[0], f, v)
  {
  }

  lemma LoneHeart(r: Reg)
    requires Lone(r)
    ensures var q := HeartRecv(r, 7, 0); Lone(q) && (AnyLeak(r.devs) ==> AnyLeak(q.devs))
  {
    var r1 := r.(devs := r.devs[0 := r.devs[0].(recv := 1)]);
    LoneSet(r1, Online, 1);
    LoneSet(Set(r1, Online, 7, 1), Level, 0);
    assert HeartRecv(r, 7, 0).devs[0].leak == r.devs[0].leak;
    if AnyLeak(r.devs) { assert HeartRecv(r, 7, 0).devs[0] in HeartRecv(r, 7, 0).devs; }
  }

  /** A leak report from any status but the leak alarm locks, closes, and touches no back timer of a
      failed valve. */
  lemma LeakReported(local: Format.Word, s: Sys)
    requires Lone(s.reg) && s.prio < 8 && s.status != SlaverSensorLeak && s.lock == 0
    ensures var t := EndunitFrame(local, s, Unit7(local, WARNING_UPLOAD, 0, 1));
            && Lone(t.reg) && AnyLeak(t.reg.devs) && t.status == SlaverSensorLeak && t.lock == 1 && !t.open
            && t.valid == s.valid && t.timers.learn == s.timers.learn
            && t.timers.leftBack == (!s.valid && s.timers.leftBack)
  {
    var f := Unit7(local, WARNING_UPLOAD, 0, 1);
    var t := EndunitWarn(s, f);
    LeakTaken(s, f);
    WarningFrame(local, s, f, t);
    LoneHeart(t.reg);
  }

  lemma LeakWarned(s: Sys, f: Frame)
    requires f.b2 == 0 && f.b3 != 0
    ensures EndunitWarn(s, f) == Raise(s.(reg := Set(s.reg, Leak, f.source, f.b3)), SensorLeak)
  {
  }

  lemma CommandFrame(local: Format.Word, s: Sys, f: Frame)
    requires Known(s.reg.devs, f.source) && f.dest == local && f.command != LEARN_DEVICE
    ensures var t := EndunitCommand(s, f);
            EndunitFrame(local, s, f) == OfflineCheck(t.(reg := HeartRecv(t.reg, f.source, f.level)))
  {
  }

  lemma WarningFrame(local: Format.Word, s: Sys, f: Frame, t: Sys)
    requires Known(s.reg.devs, f.source) && f.dest == local && f.command == WARNING_UPLOAD
    requires t == EndunitWarn(s, f) && t.status != SlaverOffline
    ensures EndunitFrame(local, s, f) == t.(reg := HeartRecv(t.reg, f.source, f.level))
  {
    CommandFrame(local, s, f);
    assert EndunitCommand(s, f) == t;
    NotOffline(t.(reg := HeartRecv(t.reg, f.source, f.level)));
  }

  lemma NotOffline(s: Sys)
    requires s.status != SlaverOffline
    ensures OfflineCheck(s) == s
  {
  }

  lemma LeakTaken(s: Sys, f: Frame)
    requires Lone(s.reg) && s.prio < 8 && s.status != SlaverSensorLeak && s.lock == 0
    requires f.source == 7 && f.b2 == 0 && f.b3 == 1
    ensures var t := EndunitWarn(s, f);
            && Lone(t.reg) && AnyLeak(t.reg.devs) && t.status == SlaverSensorLeak && t.lock == 1 && !t.open
            && t.valid == s.valid && t.timers.learn == s.timers.learn
            && t.timers.leftBack == (!s.valid && s.timers.leftBack)
  {
    LoneSet(s.reg, Leak, 1);
    var s1 := s.(reg := Set(s.reg, Leak, 7, 1));
    assert s1.reg.devs[0] in s1.reg.devs;
    LeakRaised(s1);
    LeakWarned(s, f);
  }

  lemma LeakRaised(s: Sys)
    requires s.prio < 8 && s.status != SlaverSensorLeak && s.lock == 0
    ensures var t := Raise(s, SensorLeak);
            && t.reg.devs == s.reg.devs && t.status == SlaverSensorLeak && t.lock == 1 && !t.open
            && t.valid == s.valid && t.timers.learn == s.timers.learn
            && t.timers.leftBack == (!s.valid && s.timers.leftBack)
  {
    LockClosed(Adopt(s, 8));
  }

  lemma LockClosed(s: Sys)
    requires s.lock == 0
    ensures var t := LockClose(s);
            && t.reg.devs == s.reg.devs && t.lock == 1 && !t.open
            && t.valid == s.valid && t.timers.learn == s.timers.learn
            && t.timers.leftBack == (!s.valid && s.timers.leftBack)
  {
    if s.valid {}
  }

  lemma OpenedByUnit(local: Format.Word, s: Sys)
    requires Lone(s.reg) && AnyLeak(s.reg.devs) && s.status == ValveClose && s.valid && s.lock == 1
    ensures var t := Next(local, s, Opens(local)); t.open && AnyLeak(t.reg.devs)
  {
    var s1 := s.(reg := SetLevelInRam(s.reg, 7, 0));
    assert s1.reg.devs[0] in s1.reg.devs && s1.reg.devs[0].leak == s.reg.devs[0].leak;
    var s2 := UnlockOpen(s1);
    assert s2.open && s2.reg.devs == s1.reg.devs && s2.status == ValveOpen;
    LoneHeart(s2.reg);
  }

  lemma RunOne(local: Format.Word, s: Sys, e: Event, rest: seq<Event>)
    ensures Run(local, s, [e] + rest) == Run(local, Next(local, s, e), rest)
  {
    assert ([e] + rest)[1..] == rest;
  }

  lemma RunHeld(local: Format.Word, s: Sys, l: bool, r: bool, rest: seq<Event>)
    ensures Run(local, s, [KeyOnHeld(l, r)] + rest) == Run(local, KeyOnHold(s, l, r), rest)
  {
    RunOne(local, s, KeyOnHeld(l, r), rest);
  }

  lemma RunClick(local: Format.Word, s: Sys, rest: seq<Event>)
    ensures Run(local, s, [KeyOnClick] + rest) == Run(local, KeyOn(s), rest)
  {
    RunOne(local, s, KeyOnClick, rest);
  }

  lemma RunDetect(local: Format.Word, s: Sys, l: bool, r: bool, rest: seq<Event>)
    ensures Run(local, s, [DetectFires(l, r)] + rest) == Run(local, OnDetect(s, l, r), rest)
  {
    RunOne(local, s, DetectFires(l, r), rest);
  }

  lemma RunRightBack(local: Format.Word, s: Sys, pin: bool, rest: seq<Event>)
    ensures Run(local, s, [RightBackFires(pin)] + rest) == Run(local, OnRightBack(s, pin), rest)
  {
    RunOne(local, s, RightBackFires(pin), rest);
  }

  lemma RunFrame(local: Format.Word, s: Sys, f: Frame, t: Sys, rest: seq<Event>)
    requires t == EndunitFrame(local, s, f)
    ensures Run(local, s, [FromEndunit(f)] + rest) == Run(local, t, rest)
  {
    RunOne(local, s, FromEndunit(f), rest);
  }

  lemma LeakForgotten(local: Format.Word, s: Sys)
    requires Lone(s.reg) && AnyLeak(s.reg.devs) && s.valid && s.lock == 1 && !s.open && s.timers.learn
    ensures var t := Run(local, s, [LearnFires] + [Opens(local)]); t.open && AnyLeak(t.reg.devs)
  {
    var t := OnLearn(s);
    RunLearn(local, s, t, [Opens(local)]);
    OpenedByUnit(local, t);
    assert [Opens(local)] == [Opens(local)] + [];
    RunOne(local, t, Opens(local), []);
  }

  lemma RunPoll(local: Format.Word, s: Sys, level: nat, rest: seq<Event>)
    ensures Run(local, s, [Poll(level)] + rest) == Run(local, DryPoll(s, level), rest)
  {
    RunOne(local, s, Poll(level), rest);
  }

  lemma RunLearn(local: Format.Word, s: Sys, t: Sys, rest: seq<Event>)
    requires t == OnLearn(s)
    ensures Run(local, s, [LearnFires] + rest) == Run(local, t, rest)
  {
    RunOne(local, s, LearnFires, rest);
  }

  lemma RunFree(local: Format.Word, s: Sys, rest: seq<Event>)
    ensures Run(local, s, [KeyOnFree] + rest) == Run(local, KeysFreed(s, true), rest)
  {
    RunOne(local, s, KeyOnFree, rest);
  }

  /** Start-up, the first poll, and the frame with which the unit joins. */
  lemma RunJoined(local: Format.Word, s: Sys, rest: seq<Event>) returns (t: Sys)
    requires s == Boot(BLANK_FLASH)
    ensures Run(local, s, [Poll(1)] + ([Join(local)] + rest)) == Run(local, t, rest)
    ensures Lone(t.reg) && t.timers.learn && t.dryLevel == 1 && t.prio == 0 && t.status == ValveClose
    ensures t.lock == 0 && !t.open && t.valid && t.keys == Keys(0, 0, false, false, false)
  {
    var f := Unit7(local, LEARN_DEVICE, 1, 0);
    var s1 := DryPoll(s, 1);
    t := EndunitFrame(local, s1, f);
    FirstPolled(s);
    Joined(local, s1);
    RunPoll(local, s, 1, [Join(local)] + rest);
    RunFrame(local, s1, f, t, rest);
  }

  /** The learn timer's end clears the leak alarm, and the leaking unit may then open the valve. */
  lemma LearnLosesTheLeak(local: Format.Word, s: Sys)
    requires s == Boot(BLANK_FLASH)
    ensures var t := Run(local, s, [Poll(1)] + ([Join(local)] + ([Leaks(local)] + ([LearnFires] + [Opens(local)]))));
            t.open && AnyLeak(t.reg.devs)
  {
    var rest := [LearnFires] + [Opens(local)];
    var s1 := RunJoined(local, s, [Leaks(local)] + rest);
    LeakAfterJoin(local, s1, rest);
  }

  lemma LeakAfterJoin(local: Format.Word, s: Sys, rest: seq<Event>)
    requires Lone(s.reg) && s.prio < 8 && s.status == ValveClose && s.lock == 0 && s.valid && s.timers.learn
    requires rest == [LearnFires] + [Opens(local)]
    ensures var t := Run(local, s, [Leaks(local)] + rest); t.open && AnyLeak(t.reg.devs)
  {
    var f := Unit7(local, WARNING_UPLOAD, 0, 1);
    var t := EndunitFrame(local, s, f);
    RunFrame(local, s, f, t, rest);
    LeakReported(local, s);
    LeakForgotten(local, t);
  }

  function Counted(s: Sys, n: nat): Sys { s.(keys := s.keys.(on := n)) }

  /** The event counts one more second of the on key, up to four. */
  ghost predicate Counts(local: Format.Word, e: Event) {
    forall s: Sys :: s.keys.on < 4 ==> Next(local, s, e) == Counted(s, s.keys.on + 1)
  }

  lemma HeldCounts(local: Format.Word)
    ensures Counts(local, KeyOnHeld(false, false))
  {
  }

  lemma RunTwo(local: Format.Word, e: Event, s: Sys, m: Sys, t: Sys, rest: seq<Event>)
    requires Next(local, s, e) == m && Next(local, m, e) == t
    ensures Run(local, s, [e] + ([e] + rest)) == Run(local, t, rest)
  {
    RunOne(local, s, e, [e] + rest);
    RunOne(local, m, e, rest);
  }

  lemma CountOne(local: Format.Word, e: Event, s: Sys, n: nat)
    requires Counts(local, e) && n < 4
    ensures Next(local, Counted(s, n), e) == Counted(s, n + 1)
  {
  }

  lemma CountTwo(local: Format.Word, e: Event, s: Sys, n: nat, rest: seq<Event>)
    requires Counts(local, e) && n <= 2
    ensures Run(local, Counted(s, n), [e] + ([e] + rest)) == Run(local, Counted(s, n + 2), rest)
  {
    CountOne(local, e, s, n);
    CountOne(local, e, s, n + 1);
    RunTwo(local, e, Counted(s, n), Counted(s, n + 1), Counted(s, n + 2), rest);
  }

  lemma CountFour(local: Format.Word, e: Event, s: Sys, rest: seq<Event>)
    requires Counts(local, e)
    ensures Run(local, Counted(s, 0), [e] + ([e] + ([e] + ([e] + rest)))) == Run(local, Counted(s, 4), rest)
  {
    var two := [e] + ([e] + rest);
    CountTwo(local, e, s, 0, two);
    CountTwo(local, e, s, 2, rest);
  }

  /** An open valve whose right motor is checked first, with the left one's check started by the key
      while that is under way: the right one has just failed, the left one is still on its way. */
  lemma MotorFails(s: Sys)
    requires s.reg.devs != [] && s.status == ValveClose && s.valid && s.lock == 0 && s.prio == 0
    requires s.keys == Keys(0, 0, false, false, false)
    ensures var h := Counted(KeyOn(s), 4);
            var t := OnRightBack(KeysFreed(KeyOnHold(OnDetect(h, true, false), false, true), true), false);
            && t.reg == s.reg && t.prio < 8 && t.status == ValveRightFail && t.lock == 0 && t.open && !t.valid
            && t.timers.leftBack
  {
  }

  lemma LeftComesBack(local: Format.Word, s: Sys)
    requires s.timers.leftBack
    ensures var t := Run(local, s, [LeftBackFires(true)]);
            t.reg == s.reg && t.lock == s.lock && t.open == s.open && t.left
  {
    assert [LeftBackFires(true)] == [LeftBackFires(true)] + [];
    RunOne(local, s, LeftBackFires(true), []);
  }

  lemma LeftDriven(local: Format.Word, s: Sys)
    requires Lone(s.reg) && s.prio < 8 && s.status == ValveRightFail && s.lock == 0 && !s.valid && s.timers.leftBack
    ensures var t := Run(local, s, [Leaks(local)] + [LeftBackFires(true)]);
            AnyLeak(t.reg.devs) && t.lock == 1 && !t.open && t.left
  {
    var f := Unit7(local, WARNING_UPLOAD, 0, 1);
    var s1 := EndunitFrame(local, s, f);
    RunFrame(local, s, f, s1, [LeftBackFires(true)]);
    LeakReported(local, s);
    LeftComesBack(local, s1);
  }

  lemma RightFailed(local: Format.Word, s: Sys, h: Sys)
    requires Lone(s.reg) && s.status == ValveClose && s.valid && s.lock == 0 && s.prio == 0
    requires s.keys == Keys(0, 0, false, false, false) && h == Counted(KeyOn(s), 4)
    ensures DrivenLocked(Run(local, h, Tail(local)))
  {
    var leak := [Leaks(local)] + [LeftBackFires(true)];
    var b := OnDetect(h, true, false);
    var c := KeyOnHold(b, false, true);
    var d := KeysFreed(c, true);
    RunDetect(local, h, true, false, [KeyOnHeld(false, true)] + ([KeyOnFree] + ([RightBackFires(false)] + leak)));
    RunHeld(local, b, false, true, [KeyOnFree] + ([RightBackFires(false)] + leak));
    RunFree(local, c, [RightBackFires(false)] + leak);
    RunRightBack(local, d, false, leak);
    MotorFails(s);
    LeftDriven(local, OnRightBack(d, false));
  }

  /** The input is polled, the unit joins, learn mode ends by its timer, the valve is opened, and
      `hold` comes four times. */
  function FailingRun(local: Format.Word, hold: Event): seq<Event> {
    [Poll(1)] + ([Join(local)] + ([LearnFires] + ([KeyOnClick]
      + ([hold] + ([hold] + ([hold] + ([hold] + Tail(local))))))))
  }

  /** The right motor's check is started by the detect timer and the left one's by the key a second
      later, the key is released, the right motor fails, the unit reports a leak, and the left motor
      comes back. */
  function Tail(local: Format.Word): seq<Event> {
    [DetectFires(true, false)] + ([KeyOnHeld(false, true)] + ([KeyOnFree] + ([RightBackFires(false)]
      + ([Leaks(local)] + [LeftBackFires(true)]))))
  }

  predicate DrivenLocked(s: Sys) {
    AnyLeak(s.reg.devs) && s.lock == 1 && !s.open && s.left
  }

  /** Without a warning in force the end of learn mode only returns to the status of the valve. */
  lemma LearnDone(s: Sys)
    requires s.timers.learn && !s.open
    ensures var t := OnLearn(s);
            && t.reg == s.reg && t.keys == s.keys && t.valid == s.valid && t.lock == s.lock
            && t.status == ValveClose && t.prio == 0
  {
  }

  lemma RunFails(local: Format.Word, s: Sys, hold: Event)
    requires s == Boot(BLANK_FLASH) && Counts(local, hold)
    ensures DrivenLocked(Run(local, s, FailingRun(local, hold)))
  {
    var held := [hold] + ([hold] + ([hold] + ([hold] + Tail(local))));
    var s1 := RunJoined(local, s, [LearnFires] + ([KeyOnClick] + held));
    var s2 := OnLearn(s1);
    LearnDone(s1);
    RunLearn(local, s1, s2, [KeyOnClick] + held);
    RunClick(local, s2, held);
    OpenedUncounted(s2);
    CountFour(local, hold, KeyOn(s2), Tail(local));
    RightFailed(local, s2, Counted(KeyOn(s2), 4));
  }

  lemma OpenedUncounted(s: Sys)
    requires s.keys.on == 0 && s.status == ValveClose
    ensures KeyOn(s) == Counted(KeyOn(s), 0)
  {
  }

  /** Closing with a failed motor stops no timer: the other motor is driven open again, although the
      valve is locked and closed because of a leak.  The run keeps the order the clock imposes: the
      learn timer (30 s) ends before the detect timer (5 min) that starts after it, and the two
      turn-back timers (3 s each), started a second apart, end one after the other. */
  lemma DrivenWhileLocked(local: Format.Word)
    ensures DrivenLocked(Run(local, Boot(BLANK_FLASH), FailingRun(local, KeyOnHeld(false, false))))
  {
    HeldCounts(local);
    RunFails(local, Boot(BLANK_FLASH), KeyOnHeld(false, false));
  }
}
