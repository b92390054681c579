/** What every registry operation keeps, and what survives a reboot. */
module RegistryProofs {
  import opened Lists
  import opened Kernel
  import opened Bits
  import opened FlashText
  import opened Registry
  import Format

  /** The properties that flash restores. */
  function Persisted(d: Device): Device {
    d.(level := 0, ack := 0, recv := 0)
  }

  predicate SamePersisted(a: Device, b: Device) {
    Persisted(a) == Persisted(b)
  }

  ghost function Image(devs: seq<Device>): set<Device> {
    set d | d in devs :: Persisted(d)
  }

  ghost predicate DistinctDevices(devs: seq<Device>) {
    forall i, j | 0 <= i < j < |devs| :: devs[i].id != devs[j].id && devs[i].slot != devs[j].slot
  }

  ghost predicate SlotUsed(devs: seq<Device>, s: nat) { exists d | d in devs :: d.slot == s }

  ghost predicate MaskExact(mask: nat, devs: seq<Device>) {
    forall s: nat :: Bit(mask, s) <==> SlotUsed(devs, s)
  }

  /** Flash holds, under the device's own key, a record with the device's persisted properties. */
  ghost predicate Mirrored(flash: Flash, d: Device) {
    && IndexKey(d.slot) in flash && flash[IndexKey(d.slot)].Record?
    && SamePersisted(flash[IndexKey(d.slot)].device, d)
  }

  ghost predicate Ok(r: Reg) {
    && DistinctDevices(r.devs) && (forall d | d in r.devs :: d.slot < MAX_DEVICES)
    && MaskExact(r.mask, r.devs)
    && GetKey(r.flash, "slot") == r.mask
    && forall d | d in r.devs :: Mirrored(r.flash, d)
  }

  ghost predicate AtMostOne(devs: seq<Device>, kind: Byte) {
    forall i, j | 0 <= i < |devs| && 0 <= j < |devs| && devs[i].kind == kind && devs[j].kind == kind :: i == j
  }

  /** Types are as they were, and so is the stored lock. */
  ghost predicate Undisturbed(r: Reg, q: Reg) {
    && |q.devs| == |r.devs| && (forall k | 0 <= k < |r.devs| :: q.devs[k].kind == r.devs[k].kind)
    && GetKey(q.flash, "valve_lock") == GetKey(r.flash, "valve_lock")
  }

  /** A device that leaks was leaking. */
  ghost predicate NoneLeaksMore(r: Reg, q: Reg) {
    |q.devs| == |r.devs| && forall k | 0 <= k < |r.devs| :: q.devs[k].leak != 0 ==> r.devs[k].leak != 0
  }

  /** In order, with nothing disturbed and no new leak. */
  ghost predicate Tended(r: Reg, q: Reg) { Ok(q) && Undisturbed(r, q) && NoneLeaksMore(r, q) }

  lemma ThenTended(r: Reg, m: Reg, q: Reg)
    requires Tended(r, m) && Tended(m, q)
    ensures Tended(r, q)
  {
    forall k | 0 <= k < |r.devs|
      ensures q.devs[k].kind == r.devs[k].kind && (q.devs[k].leak != 0 ==> r.devs[k].leak != 0)
    {
      assert m.devs[k].kind == r.devs[k].kind;
    }
  }

  lemma EmptyOk(flash: Flash)
    requires "slot" !in flash
    ensures Ok(Reg(0, [], flash))
  {
    forall s: nat ensures !Bit(0, s) { NoBits(s); }
  }

  /** Twelve slots: the mask never leaves its low twelve bits. */
  lemma {:induction false} MaskBelow4096(r: Reg)
    requires Ok(r)
    ensures r.mask < 4096
  {
    forall t: nat | Bit(r.mask, t) ensures t < MAX_DEVICES { assert SlotUsed(r.devs, t); }
    SmallMask(r.mask);
  }

  lemma {:induction false} AtMostTwelve(r: Reg)
    requires Ok(r)
    ensures |r.devs| <= MAX_DEVICES
  {
    var slots: seq<nat> := seq(|r.devs|, k requires 0 <= k < |r.devs| => r.devs[k].slot as nat);
    Pigeonhole(slots, MAX_DEVICES);
  }

  // ----- single-device updates ----------------------------------------------------------------------

  /** A device is changed in place; if a persisted property changed, it is saved. */
  lemma ChangeOne(r: Reg, i: nat, d: Device, flash: Flash)
    requires Ok(r) && i < |r.devs| && d.slot == r.devs[i].slot && d.id == r.devs[i].id
    requires flash == Save(r.flash, d) || (flash == r.flash && SamePersisted(d, r.devs[i]))
    ensures Ok(Reg(r.mask, r.devs[i := d], flash))
  {
    var devs := r.devs[i := d];
    SameSlots(r.devs, devs);
    forall e | e in devs ensures Mirrored(flash, e) && e.slot < MAX_DEVICES {
      var k :| 0 <= k < |devs| && devs[k] == e;
      assert r.devs[k] in r.devs && r.devs[i] in r.devs;
      MirrorAfter(r.flash, d, r.devs[k], flash, r.devs[i]);
    }
  }

  /** Saving one device leaves the records of devices with other slots alone. */
  lemma MirrorAfter(flash: Flash, d: Device, e: Device, flash': Flash, was: Device)
    requires Mirrored(flash, e) && Mirrored(flash, was) && d.slot == was.slot
    requires flash' == Save(flash, d) || (flash' == flash && SamePersisted(d, was))
    ensures e.slot != d.slot ==> Mirrored(flash', e)
    ensures Mirrored(flash', d)
  {
    if e.slot != d.slot { IndexKeysDiffer(e.slot, d.slot); }
  }

  lemma SameSlots(a: seq<Device>, b: seq<Device>)
    requires |a| == |b| && forall k | 0 <= k < |a| :: a[k].slot == b[k].slot
    ensures forall s: nat :: SlotUsed(a, s) <==> SlotUsed(b, s)
  {
    forall s: nat ensures SlotUsed(a, s) <==> SlotUsed(b, s) {
      if SlotUsed(a, s) {
        var d :| d in a && d.slot == s;
        var k :| 0 <= k < |a| && a[k] == d;
        assert b[k] in b;
      }
      if SlotUsed(b, s) {
        var d :| d in b && d.slot == s;
        var k :| 0 <= k < |b| && b[k] == d;
        assert a[k] in a;
      }
    }
  }

  lemma {:induction false} PositionIs(devs: seq<Device>, i: nat)
    requires DistinctDevices(devs) && i < |devs|
    ensures Position(devs, devs[i].id) == i
  {
  }

  lemma {:induction false} NoneOther(devs: seq<Device>, f: Field, id: Format.Word, v: Byte, flash: Flash)
    requires forall k | 0 <= k < |devs| :: devs[k].id != id
    ensures SetIn(devs, f, id, v) == devs && SaveChanged(flash, devs, f, id, v) == flash
  {
    if devs != [] { NoneOther(devs[..|devs| - 1], f, id, v, flash); }
  }

  /** With distinct addresses the setter's walk changes, and saves, at most one device. */
  lemma {:induction false} SetIsLocal(flash: Flash, devs: seq<Device>, f: Field, id: Format.Word, v: Byte)
    requires DistinctDevices(devs)
    ensures var i := Position(devs, id);
            if i == |devs| then SetIn(devs, f, id, v) == devs && SaveChanged(flash, devs, f, id, v) == flash
            else var d := With(devs[i], f, v);
                 && SetIn(devs, f, id, v) == devs[i := d]
                 && SaveChanged(flash, devs, f, id, v) == if FieldOf(devs[i], f) != v then Save(flash, d) else flash
    decreases devs
  {
    var i := Position(devs, id);
    if i == |devs| {
      NoneOther(devs, f, id, v, flash);
    } else {
      assert SetIn(devs, f, id, v) == devs[i := With(devs[i], f, v)];
      var init := devs[..|devs| - 1];
      if i == |devs| - 1 {
        NoneOther(init, f, id, v, flash);
      } else {
        PositionIs(init, i);
        assert init[i] == devs[i];
        SetIsLocal(flash, init, f, id, v);
      }
    }
  }

  lemma SetOk(r: Reg, f: Field, id: Format.Word, v: Byte)
    requires Ok(r)
    ensures Ok(Set(r, f, id, v))
  {
    SetIsLocal(r.flash, r.devs, f, id, v);
    var i := Position(r.devs, id);
    if i < |r.devs| {
      ChangeOne(r, i, With(r.devs[i], f, v), SaveChanged(r.flash, r.devs, f, id, v));
    }
  }

  lemma SetUndisturbed(r: Reg, f: Field, id: Format.Word, v: Byte)
    requires DistinctDevices(r.devs)
    ensures Undisturbed(r, Set(r, f, id, v))
  {
    SetIsLocal(r.flash, r.devs, f, id, v);
    var i := Position(r.devs, id);
    if i < |r.devs| { IndexKeysDiffer(r.devs[i].slot, 0); }
  }

  lemma SetKeeps(r: Reg, f: Field, id: Format.Word, v: Byte)
    requires Ok(r)
    ensures Ok(Set(r, f, id, v)) && Undisturbed(r, Set(r, f, id, v))
    ensures f != Leak || v == 0 ==> Tended(r, Set(r, f, id, v))
  {
    SetOk(r, f, id, v);
    SetUndisturbed(r, f, id, v);
  }

  /** Changes that touch no persisted property need no flash write. */
  lemma RamOnly(r: Reg, devs: seq<Device>)
    requires Ok(r) && |devs| == |r.devs| && forall k | 0 <= k < |devs| :: SamePersisted(devs[k], r.devs[k])
    ensures var q := r.(devs := devs); Tended(r, q)
  {
    SameSlots(r.devs, devs);
    forall e | e in devs ensures Mirrored(r.flash, e) && e.slot < MAX_DEVICES {
      var k :| 0 <= k < |devs| && devs[k] == e;
      assert Mirrored(r.flash, r.devs[k]);
    }
    forall k | 0 <= k < |devs| ensures devs[k].kind == r.devs[k].kind && devs[k].leak == r.devs[k].leak {
      assert SamePersisted(devs[k], r.devs[k]);
    }
  }

  /** A heart beat keeps the registry in order. */
  lemma HeartRecvKeeps(r: Reg, id: Format.Word, level: Byte)
    requires Ok(r)
    ensures Tended(r, HeartRecv(r, id, level))
  {
    var i := Position(r.devs, id);
    if i < |r.devs| {
      var r1 := r.(devs := r.devs[i := r.devs[i].(recv := 1)]);
      var r2 := Set(r1, Online, id, 1);
      RamOnly(r, r1.devs);
      SetKeeps(r1, Online, id, 1);
      ThenTended(r, r1, r2);
      SetKeeps(r2, Level, id, level);
      ThenTended(r, r2, Set(r2, Level, id, level));
    }
  }

  lemma HeartOneKeeps(r: Reg, i: nat)
    requires Ok(r) && i < |r.devs|
    ensures Tended(r, HeartOne(r, i))
  {
    var d := r.devs[i];
    if d.kind == GATEWAY {
    } else if d.recv != 0 {
      RamOnly(r, r.devs[i := d.(recv := 0)]);
    } else {
      SetKeeps(r, Online, d.id, 0);
    }
  }

  /** So does the heart check, which writes flash while it walks the list. */
  lemma {:induction false} HeartWalkKeeps(r: Reg, i: nat)
    requires Ok(r)
    ensures Tended(r, HeartWalk(r, i))
    decreases |r.devs| - i
  {
    if i < |r.devs| {
      var q := HeartOne(r, i);
      HeartOneKeeps(r, i);
      HeartWalkKeeps(q, i + 1);
      ThenTended(r, q, HeartWalk(q, i + 1));
    }
  }

  // ----- creating and deleting ------------------------------------------------------------------------

  lemma CreateKeeps(r: Reg, level: Byte, kind: Byte, id: Format.Word)
    requires Ok(r)
    ensures Ok(Create(r, level, kind, id).0)
    ensures Create(r, level, kind, id).1 ==> Known(Create(r, level, kind, id).0.devs, id)
  {
    var s := FreeSlot(r.mask, 0);
    if !Known(r.devs, id) && s < MAX_DEVICES {
      MaskBelow4096(r);
      Created(r, s, NewDevice(s, level, kind, id));
      CreateIs(r, level, kind, id, s);
    } else {
      assert Create(r, level, kind, id) == (r, Known(r.devs, id));
    }
  }

  lemma CreateIs(r: Reg, level: Byte, kind: Byte, id: Format.Word, s: Byte)
    requires !Known(r.devs, id) && r.mask < 4096 && s == FreeSlot(r.mask, 0) < MAX_DEVICES && SetBit(r.mask, s) < 4096
    ensures Create(r, level, kind, id) == (Added(r, NewDevice(s, level, kind, id)), true)
  {
  }

  function Added(r: Reg, d: Device): Reg {
    var mask := SetBit(r.mask, d.slot);
    if mask < Format.TWO32 then Reg(mask, r.devs + [d], Save(SetKey(r.flash, "slot", mask), d)) else r
  }

  lemma MaskAdded(r: Reg, d: Device)
    requires MaskExact(r.mask, r.devs)
    ensures MaskExact(SetBit(r.mask, d.slot), r.devs + [d])
  {
    var devs := r.devs + [d];
    assert devs[|r.devs|] == d;
    forall t: nat ensures Bit(SetBit(r.mask, d.slot), t) <==> SlotUsed(devs, t) {
      BitAfterSet(r.mask, d.slot, t);
      if SlotUsed(r.devs, t) {
        var e :| e in r.devs && e.slot == t;
        assert e in devs;
      }
      assert d in devs;
    }
  }

  lemma Created(r: Reg, s: Byte, d: Device)
    requires Ok(r) && !Known(r.devs, d.id) && s < MAX_DEVICES && !Bit(r.mask, s) && d.slot == s
    ensures SetBit(r.mask, s) < 4096 && Ok(Added(r, d)) && Known(r.devs + [d], d.id)
  {
    var mask, devs := SetBit(r.mask, s), r.devs + [d];
    assert !SlotUsed(r.devs, s);
    MaskAdded(r, d);
    forall t: nat | Bit(mask, t) ensures t < MAX_DEVICES { assert SlotUsed(devs, t); }
    SmallMask(mask);
    PrintParse(mask);
    IndexKeysDiffer(s, s);
    var flash := Added(r, d).flash;
    forall e | e in devs ensures Mirrored(flash, e) {
      if e in r.devs {
        assert Mirrored(r.flash, e) && e.slot != s;
        IndexKeysDiffer(e.slot, s);
      }
    }
    assert devs[|r.devs|].id == d.id;
  }

  lemma SmallMask(mask: nat)
    requires forall t: nat | Bit(mask, t) :: t < MAX_DEVICES
    ensures mask < 4096
  {
    assert Pow2(12) == 4096 by { assert Pow2(6) == 64; assert Pow2(12) == 64 * Pow2(6); }
    if mask >= 4096 {
      var i := HighBit(mask, 12);
    }
  }

  lemma SlotsRemoved(devs: seq<Device>, i: nat, t: nat)
    requires DistinctDevices(devs) && i < |devs|
    ensures SlotUsed(RemoveAt(devs, i), t) <==> SlotUsed(devs, t) && t != devs[i].slot
  {
    RestOf(devs, i);
    var rest := RemoveAt(devs, i);
    if SlotUsed(rest, t) {
      var d :| d in rest && d.slot == t;
      SlotTells(devs, i, d);
    }
    if SlotUsed(devs, t) && t != devs[i].slot {
      var d :| d in devs && d.slot == t;
      IdTells(devs, i, d);
      assert d in rest;
    }
  }

  /** Devices with different addresses have different slots. */
  lemma SlotTells(devs: seq<Device>, i: nat, d: Device)
    requires DistinctDevices(devs) && i < |devs| && d in devs && d.id != devs[i].id
    ensures d.slot != devs[i].slot
  {
    var k :| 0 <= k < |devs| && devs[k] == d;
  }

  lemma IdTells(devs: seq<Device>, i: nat, d: Device)
    requires DistinctDevices(devs) && i < |devs| && d in devs && d.slot != devs[i].slot
    ensures d.id != devs[i].id
  {
    var k :| 0 <= k < |devs| && devs[k] == d;
  }

  lemma MaskRemoved(mask: nat, devs: seq<Device>, i: nat)
    requires MaskExact(mask, devs) && DistinctDevices(devs) && i < |devs|
    ensures MaskExact(ClearBit(mask, devs[i].slot), RemoveAt(devs, i))
  {
    forall t: nat ensures Bit(ClearBit(mask, devs[i].slot), t) <==> SlotUsed(RemoveAt(devs, i), t) {
      BitAfterClear(mask, devs[i].slot, t);
      SlotsRemoved(devs, i, t);
    }
  }

  lemma RestOf(devs: seq<Device>, i: nat)
    requires DistinctDevices(devs) && i < |devs|
    ensures DistinctDevices(RemoveAt(devs, i))
    ensures forall d :: d in RemoveAt(devs, i) <==> d in devs && d.id != devs[i].id
  {
    var rest := RemoveAt(devs, i);
    forall d | d in devs && d.id != devs[i].id ensures d in rest {
      var k :| 0 <= k < |devs| && devs[k] == d;
      assert rest[if k < i then k else k - 1] == d;
    }
    forall k | 0 <= k < |rest| ensures rest[k] == devs[if k < i then k else k + 1] {}
  }

  /** Deleting removes exactly the device with that address, and frees its slot. */
  lemma DeleteKeeps(r: Reg, id: Format.Word)
    requires Ok(r)
    ensures var (q, err) := Delete(r, id);
            && Ok(q) && (err == EOK <==> Known(r.devs, id))
            && (forall d :: d in q.devs <==> d in r.devs && d.id != id)
  {
    var i := Position(r.devs, id);
    if i < |r.devs| {
      var rest, mask := RemoveAt(r.devs, i), ClearBit(r.mask, r.devs[i].slot);
      RestOf(r.devs, i);
      MaskRemoved(r.mask, r.devs, i);
      forall t: nat | Bit(mask, t) ensures t < MAX_DEVICES { assert SlotUsed(rest, t); }
      SmallMask(mask);
      PrintParse(mask);
      forall d | d in rest ensures Mirrored(SetKey(r.flash, "slot", mask), d) {
        assert Mirrored(r.flash, d);
        IndexKeysDiffer(d.slot, d.slot);
      }
    } else {
      forall d | d in r.devs ensures d.id != id {
        var k :| 0 <= k < |r.devs| && r.devs[k] == d;
      }
    }
  }

  /** The delete-by-type loop removes every listed device of the kind and nothing else. */
  lemma {:induction false} DeleteKindKeeps(r: Reg, ds: seq<Device>, kind: Byte)
    requires Ok(r) && DistinctDevices(ds)
    requires forall d, e | d in ds && e in r.devs && d.id == e.id :: d == e
    ensures Ok(DeleteKind(r, ds, kind))
    ensures forall d :: d in DeleteKind(r, ds, kind).devs <==> d in r.devs && !(d in ds && d.kind == kind)
    decreases ds
  {
    if ds != [] {
      assert ds[1..] == RemoveAt(ds, 0);
      RestOf(ds, 0);
      if ds[0].kind == kind {
        DeleteKeeps(r, ds[0].id);
        DeleteKindKeeps(Delete(r, ds[0].id).0, ds[1..], kind);
      } else {
        DeleteKindKeeps(r, ds[1..], kind);
      }
    }
  }

  lemma NoneLeft(r: Reg, kind: Byte)
    requires Ok(r)
    ensures var q := DeleteKind(r, r.devs, kind);
            && Ok(q) && forall d :: d in q.devs <==> d in r.devs && d.kind != kind
  {
    forall d, e | d in r.devs && e in r.devs && d.id == e.id ensures d == e {
      var i :| 0 <= i < |r.devs| && r.devs[i] == d;
      var j :| 0 <= j < |r.devs| && r.devs[j] == e;
      assert i == j;
    }
    DeleteKindKeeps(r, r.devs, kind);
  }

  /** At most one device of a kind stays so when nothing but deletions happens to the list. */
  lemma FewerOfKind(r: Reg, q: Reg, kind: Byte)
    requires Ok(r) && Ok(q) && AtMostOne(r.devs, kind) && forall d | d in q.devs :: d in r.devs
    ensures AtMostOne(q.devs, kind)
  {
    forall i, j | 0 <= i < |q.devs| && 0 <= j < |q.devs| && q.devs[i].kind == kind && q.devs[j].kind == kind
      ensures i == j
    {
      assert q.devs[i] in r.devs && q.devs[j] in r.devs;
      var k :| 0 <= k < |r.devs| && r.devs[k] == q.devs[i];
      var l :| 0 <= l < |r.devs| && r.devs[l] == q.devs[j];
      assert k == l;
    }
  }

  lemma AllSlotsUsed(r: Reg)
    requires Ok(r) && forall t | 0 <= t < MAX_DEVICES :: Bit(r.mask, t)
    ensures |r.devs| == MAX_DEVICES
  {
    var slots := SlotSet(r.devs);
    SlotCount(r.devs);
    forall t: nat | t < MAX_DEVICES ensures t in slots { assert SlotUsed(r.devs, t); }
    SubsetCard(Below(MAX_DEVICES), slots);
    AtMostTwelve(r);
  }

  lemma SlotUnused(r: Reg, s: nat)
    requires Ok(r) && s < MAX_DEVICES && !Bit(r.mask, s)
    ensures |r.devs| < MAX_DEVICES
  {
    var slots: seq<nat> := seq(|r.devs|, k requires 0 <= k < |r.devs| => r.devs[k].slot as nat);
    assert !SlotUsed(r.devs, s);
    forall k | 0 <= k < |slots| ensures slots[k] != s && slots[k] < MAX_DEVICES { assert r.devs[k] in r.devs; }
    InsertDistinct(slots, 0, s);
    Pigeonhole(InsertAt(slots, 0, s), MAX_DEVICES);
  }

  /** Registration fails only for a new device when twelve are registered. */
  lemma {:induction false} CreateFailsWhenFull(r: Reg, level: Byte, kind: Byte, id: Format.Word)
    requires Ok(r)
    ensures !Create(r, level, kind, id).1 <==> !Known(r.devs, id) && |r.devs| == MAX_DEVICES
  {
    MaskBelow4096(r);
    var s := FreeSlot(r.mask, 0);
    if s == MAX_DEVICES { AllSlotsUsed(r); } else { SlotUnused(r, s); }
  }

  ghost function SlotSet(devs: seq<Device>): set<nat> {
    set d | d in devs :: d.slot as nat
  }

  lemma SlotCount(devs: seq<Device>)
    requires DistinctDevices(devs)
    ensures |SlotSet(devs)| == |devs|
  {
    if devs != [] {
      var rest := devs[1..];
      SlotCount(rest);
      assert forall d | d in rest :: d.slot != devs[0].slot;
      assert SlotSet(devs) == SlotSet(rest) + {devs[0].slot as nat};
    }
  }

  // ----- reboot ----------------------------------------------------------------------------------------

  /** Under every slot in the mask, flash has a record that names that slot. */
  ghost predicate Stored(f: Flash, mask: nat) {
    forall s: nat | Bit(mask, s) && s < 32 ::
      IndexKey(s) in f && f[IndexKey(s)].Record? && f[IndexKey(s)].device.slot == s
  }

  lemma {:induction false} LoadedFromSlots(f: Flash, mask: nat, i: nat)
    requires i <= 32 && Stored(f, mask)
    ensures forall d | d in LoadFrom(f, mask, i) ::
              i <= d.slot < 32 && Bit(mask, d.slot) && f[IndexKey(d.slot)] == Record(d)
    decreases 32 - i
  {
    if i < 32 {
      LoadedFromSlots(f, mask, i + 1);
    }
  }

  lemma {:induction false} LoadedAll(f: Flash, mask: nat, i: nat, s: nat)
    requires i <= s < 32 && Stored(f, mask) && Bit(mask, s)
    ensures f[IndexKey(s)].device in LoadFrom(f, mask, i)
    decreases 32 - i
  {
    if i < s {
      LoadedAll(f, mask, i + 1, s);
    }
  }

  ghost predicate Ascending(l: seq<Device>) {
    forall j, k | 0 <= j < k < |l| :: l[j].slot < l[k].slot
  }

  lemma {:induction false} LoadedInOrder(f: Flash, mask: nat, i: nat)
    requires i <= 32 && Stored(f, mask)
    ensures Ascending(LoadFrom(f, mask, i))
    decreases 32 - i
  {
    if i < 32 {
      LoadedInOrder(f, mask, i + 1);
      LoadedFromSlots(f, mask, i + 1);
      var rest := LoadFrom(f, mask, i + 1);
      forall k | 0 <= k < |rest| ensures i < rest[k].slot { assert rest[k] in rest; }
    }
  }

  /** The same devices, each once, whatever the order. */
  ghost predicate SameDevices(a: seq<Device>, b: seq<Device>) {
    |a| == |b| && Image(a) == Image(b)
  }

  lemma StoredByOk(r: Reg)
    requires Ok(r)
    ensures Stored(r.flash, r.mask)
  {
    forall s: nat | Bit(r.mask, s) && s < 32
      ensures IndexKey(s) in r.flash && r.flash[IndexKey(s)].Record? && r.flash[IndexKey(s)].device.slot == s
    {
      var d :| d in r.devs && d.slot == s;
      assert Mirrored(r.flash, d);
    }
  }

  lemma InImage(d: Device, a: seq<Device>, b: seq<Device>) returns (e: Device)
    requires d in a && Image(a) <= Image(b)
    ensures e in b && SamePersisted(d, e)
  {
    assert Persisted(d) in Image(b);
    e :| e in b && Persisted(e) == Persisted(d);
  }

  lemma SubsetOfSlots(a: seq<Device>, b: seq<Device>)
    requires Image(a) <= Image(b)
    ensures forall s: nat :: SlotUsed(a, s) ==> SlotUsed(b, s)
    ensures SlotSet(a) <= SlotSet(b)
  {
    forall s: nat | SlotUsed(a, s) ensures SlotUsed(b, s) {
      var d :| d in a && d.slot == s;
      var e := InImage(d, a, b);
    }
    forall s | s in SlotSet(a) ensures s in SlotSet(b) { assert SlotUsed(a, s); }
  }

  lemma {:induction false} SlotsTellApart(a: seq<Device>, b: seq<Device>)
    requires DistinctDevices(a) && Ascending(b) && Image(b) <= Image(a)
    ensures DistinctDevices(b)
  {
    forall j, k | 0 <= j < k < |b| ensures b[j].id != b[k].id && b[j].slot != b[k].slot {
      var d := InImage(b[j], b, a);
      var e := InImage(b[k], b, a);
      var m :| 0 <= m < |a| && a[m] == d;
      var n :| 0 <= n < |a| && a[n] == e;
      assert m != n;
    }
  }

  lemma LoadedImage(r: Reg, l: seq<Device>)
    requires Ok(r) && l == LoadFrom(r.flash, r.mask, 0)
    ensures Image(l) == Image(r.devs)
  {
    MaskBelow4096(r);
    StoredByOk(r);
    LoadedFromSlots(r.flash, r.mask, 0);
    forall p | p in Image(r.devs) ensures p in Image(l) {
      var d :| d in r.devs && Persisted(d) == p;
      assert SlotUsed(r.devs, d.slot) && Mirrored(r.flash, d);
      LoadedAll(r.flash, r.mask, 0, d.slot);
    }
    forall p | p in Image(l) ensures p in Image(r.devs) {
      var e :| e in l && Persisted(e) == p;
      assert SlotUsed(r.devs, e.slot);
      var d :| d in r.devs && d.slot == e.slot;
      assert Mirrored(r.flash, d);
    }
  }

  lemma LoadedSame(r: Reg, l: seq<Device>)
    requires Ok(r) && Image(l) == Image(r.devs) && Ascending(l)
    ensures SameDevices(r.devs, l) && DistinctDevices(l)
  {
    SlotsTellApart(r.devs, l);
    SubsetOfSlots(r.devs, l);
    SubsetOfSlots(l, r.devs);
    assert SlotSet(r.devs) == SlotSet(l);
    SlotCount(r.devs);
    SlotCount(l);
  }

  /** Reboot round trip: whatever was registered is registered again, with the same slot, type,
      address, battery, leak, wire and online values, and the registry is in order. */
  lemma {:induction false} RebootRestores(r: Reg)
    requires Ok(r)
    ensures Reload(r.flash).mask == r.mask
    ensures SameDevices(r.devs, Reload(r.flash).devs)
    ensures Ok(Reload(r.flash))
  {
    var l := LoadFrom(r.flash, r.mask, 0);
    LoadedImage(r, l);
    StoredByOk(r);
    LoadedInOrder(r.flash, r.mask, 0);
    LoadedSame(r, l);
    SameIsOk(r, l);
  }

  lemma SameIsOk(r: Reg, l: seq<Device>)
    requires Ok(r) && SameDevices(r.devs, l) && DistinctDevices(l)
    ensures Ok(r.(devs := l))
  {
    forall e | e in l ensures Mirrored(r.flash, e) && e.slot < MAX_DEVICES {
      var d := InImage(e, l, r.devs);
      assert Mirrored(r.flash, d);
    }
    SubsetOfSlots(r.devs, l);
    SubsetOfSlots(l, r.devs);
  }

  lemma SameLeaks(a: seq<Device>, b: seq<Device>)
    requires Image(a) <= Image(b) && AnyLeak(a)
    ensures AnyLeak(b)
  {
    var d :| d in a && d.leak != 0;
    var e := InImage(d, a, b);
  }

  /** Flags survive: somebody leaks after the reboot exactly if somebody leaked before. */
  lemma {:induction false} LeakSurvivesReboot(r: Reg)
    requires Ok(r)
    ensures AnyLeak(Reload(r.flash).devs) <==> AnyLeak(r.devs)
  {
    RebootRestores(r);
    if AnyLeak(r.devs) { SameLeaks(r.devs, Reload(r.flash).devs); }
    if AnyLeak(Reload(r.flash).devs) { SameLeaks(Reload(r.flash).devs, r.devs); }
  }
}
