/** The device registry of storage/flashwork.c and its mirror in flash.

    `Reg` holds what the source keeps in RAM (the slot mask and the device list) next to the flash
    key/value store.  The functions are the registry operations; RegistryObject has the loops. */
module Registry {
  import opened Lists
  import opened Kernel
  import opened Bits
  import opened FlashText
  import Format

  type Byte = b: nat | b < 256

  const MAX_DEVICES: nat := 12

  const ENDUNIT: Byte := 0
  const GATEWAY: Byte := 2
  const DOORUNIT: Byte := 4
  const MOTION: Byte := 6

  /** aqualarm_device_t, without the fields that are never read (snr, rssi, rsvd). */
  datatype Device = Device(slot: Byte, level: Byte, kind: Byte, battery: Byte, leak: Byte, wire: Byte,
                           online: Byte, ack: Byte, recv: Byte, id: Format.Word)

  /** A stored value: text, or the bytes of a device record. */
  datatype Blob = Text(text: string) | Record(device: Device)

  type Flash = map<string, Blob>

  datatype Reg = Reg(mask: nat, devs: seq<Device>, flash: Flash)

  function Uint32(x: nat): Format.Word { if x < Format.TWO32 then x else x % Format.TWO32 }

  function SetKey(f: Flash, key: string, w: Format.Word): Flash {
    f[key := Text(Printed(w))]
  }

  function GetKey(f: Flash, key: string): Format.Word {
    if key in f && f[key].Text? then Parsed(f[key].text) else 0
  }

  function Save(f: Flash, d: Device): Flash {
    f[IndexKey(d.slot) := Record(d)]
  }

  // ----- operations --------------------------------------------------------------------------------

  function Position(devs: seq<Device>, id: Format.Word): (i: nat)
    ensures i <= |devs| && (i < |devs| ==> devs[i].id == id)
    ensures forall k | 0 <= k < i :: devs[k].id != id
  {
    if devs == [] || devs[0].id == id then 0 else 1 + Position(devs[1..], id)
  }

  predicate Known(devs: seq<Device>, id: Format.Word) { Position(devs, id) < |devs| }

  /** aq_gateway_find: the first gateway's address, or 0. */
  function GatewayId(devs: seq<Device>): Format.Word {
    if devs == [] then 0 else if devs[0].kind == GATEWAY then devs[0].id else GatewayId(devs[1..])
  }

  /** get_free_device_slot: the lowest free slot, MAX_DEVICES when there is none. */
  function FreeSlot(mask: nat, i: nat): (s: nat)
    requires i <= MAX_DEVICES
    ensures i <= s <= MAX_DEVICES && (s < MAX_DEVICES ==> !Bit(mask, s))
    ensures forall k | i <= k < s :: Bit(mask, k)
    decreases MAX_DEVICES - i
  {
    if i == MAX_DEVICES || !Bit(mask, i) then i else FreeSlot(mask, i + 1)
  }

  function NewDevice(slot: Byte, level: Byte, kind: Byte, id: Format.Word): Device {
    Device(slot, level, kind, 0, 0, 0, 1, 0, 0, id)
  }

  /** aq_device_create: whether the device is registered afterwards. */
  function Create(r: Reg, level: Byte, kind: Byte, id: Format.Word): (Reg, bool) {
    if Known(r.devs, id) then (r, true)
    else if r.mask > 4095 then (r, false)
    else
      var s := FreeSlot(r.mask, 0);
      if s == MAX_DEVICES then (r, false)
      else
        var d, mask := NewDevice(s, level, kind, id), Uint32(SetBit(r.mask, s));
        (Reg(mask, r.devs + [d], Save(SetKey(r.flash, "slot", mask), d)), true)
  }

  /** aq_device_delete; the record itself stays in flash, unreachable. */
  function Delete(r: Reg, id: Format.Word): (Reg, Err) {
    var i := Position(r.devs, id);
    if i == |r.devs| then (r, ERROR)
    else
      var mask := Uint32(ClearBit(r.mask, r.devs[i].slot));
      (Reg(mask, RemoveAt(r.devs, i), SetKey(r.flash, "slot", mask)), EOK)
  }

  /** aq_gateway_delete and aq_doorunit_delete: every listed device of the kind is deleted. */
  function DeleteKind(r: Reg, ds: seq<Device>, kind: Byte): Reg
    decreases ds
  {
    if ds == [] then r
    else DeleteKind(if ds[0].kind == kind then Delete(r, ds[0].id).0 else r, ds[1..], kind)
  }

  /** The five persisted properties share one setter shape. */
  datatype Field = Battery | Leak | Wire | Online | Level

  function FieldOf(d: Device, f: Field): Byte {
    match f
    case Battery => d.battery case Leak => d.leak case Wire => d.wire case Online => d.online case Level => d.level
  }

  function With(d: Device, f: Field, v: Byte): Device {
    match f
    case Battery => d.(battery := v)
    case Leak => d.(leak := v)
    case Wire => d.(wire := v)
    case Online => d.(online := v)
    case Level => d.(level := v)
  }

  function SetOne(d: Device, f: Field, id: Format.Word, v: Byte): Device {
    if d.id == id then With(d, f, v) else d
  }

  function SetIn(devs: seq<Device>, f: Field, id: Format.Word, v: Byte): (r: seq<Device>)
    ensures |r| == |devs| && forall k | 0 <= k < |r| :: r[k] == SetOne(devs[k], f, id, v)
  {
    seq(|devs|, k requires 0 <= k < |devs| => SetOne(devs[k], f, id, v))
  }

  /** Only a device whose value really changes is written to flash. */
  function SaveChanged(flash: Flash, devs: seq<Device>, f: Field, id: Format.Word, v: Byte): Flash {
    if devs == [] then flash
    else
      var d := devs[|devs| - 1];
      var flash' := SaveChanged(flash, devs[..|devs| - 1], f, id, v);
      if d.id == id && FieldOf(d, f) != v then Save(flash', With(d, f, v)) else flash'
  }

  /** aq_device_battery_set, _waterleak_set, _wirelost_set, _online_set, _rssi_level_set */
  function Set(r: Reg, f: Field, id: Format.Word, v: Byte): Reg {
    Reg(r.mask, SetIn(r.devs, f, id, v), SaveChanged(r.flash, r.devs, f, id, v))
  }

  function RecvOne(d: Device, id: Format.Word, v: Byte): Device { if d.id == id then d.(recv := v) else d }

  /** aq_device_recv_set: RAM only. */
  function SetRecv(r: Reg, id: Format.Word, v: Byte): Reg {
    r.(devs := seq(|r.devs|, k requires 0 <= k < |r.devs| => RecvOne(r.devs[k], id, v)))
  }

  /** A handler's `device->rssi_level = ...`: RAM only, unsaved. */
  function SetLevelInRam(r: Reg, id: Format.Word, v: Byte): Reg {
    var i := Position(r.devs, id);
    if i < |r.devs| then r.(devs := r.devs[i := r.devs[i].(level := v)]) else r
  }

  /** aq_device_heart_recv */
  function HeartRecv(r: Reg, id: Format.Word, level: Byte): Reg {
    var i := Position(r.devs, id);
    if i == |r.devs| then r
    else Set(Set(r.(devs := r.devs[i := r.devs[i].(recv := 1)]), Online, id, 1), Level, id, level)
  }

  /** aq_device_heart_recv_clear */
  function RecvClear(r: Reg): Reg {
    r.(devs := seq(|r.devs|, k requires 0 <= k < |r.devs| =>
      if r.devs[k].kind != GATEWAY then r.devs[k].(recv := 0) else r.devs[k]))
  }

  /** One device of the heart check. */
  function HeartOne(r: Reg, i: nat): Reg
    requires i < |r.devs|
  {
    var d := r.devs[i];
    if d.kind == GATEWAY then r
    else if d.recv != 0 then r.(devs := r.devs[i := d.(recv := 0)])
    else Set(r, Online, d.id, 0)
  }

  /** The list walk of aq_device_heart_check from position `i` on. */
  function HeartWalk(r: Reg, i: nat): Reg
    decreases |r.devs| - i
  {
    if i >= |r.devs| then r else HeartWalk(HeartOne(r, i), i + 1)
  }

  /** gateway_heart_check: the gateway's receive flag is cleared, in RAM. */
  function GatewayHeart(r: Reg): Reg {
    if GatewayId(r.devs) == 0 then r
    else if RecvOf(r.devs, GatewayId(r.devs)) != 0 then SetRecv(r, GatewayId(r.devs), 0)
    else r
  }

  /** aq_device_recv_find */
  function RecvOf(devs: seq<Device>, id: Format.Word): Byte {
    var i := Position(devs, id);
    if i < |devs| then devs[i].recv else 0
  }

  predicate AnyLeak(devs: seq<Device>) { exists d | d in devs :: d.leak != 0 }
  predicate AnyWireLost(devs: seq<Device>) { exists d | d in devs :: d.wire != 0 }
  predicate AnyOffline(devs: seq<Device>, kind: Byte) { exists d | d in devs :: d.online == 0 && d.kind == kind }

  /** read_device_from_flash, from bit `i` on. */
  function LoadFrom(f: Flash, mask: nat, i: nat): seq<Device>
    requires i <= 32
    decreases 32 - i
  {
    if i == 32 then []
    else
      (if Bit(mask, i) && IndexKey(i) in f && f[IndexKey(i)].Record? then [f[IndexKey(i)].device] else [])
      + LoadFrom(f, mask, i + 1)
  }

  /** What RAM holds after a reboot. */
  function Reload(f: Flash): Reg {
    Reg(GetKey(f, "slot"), LoadFrom(f, GetKey(f, "slot"), 0), f)
  }
}
