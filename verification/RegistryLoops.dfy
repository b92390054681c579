/** The registry as storage/flashwork.c keeps it: globals, list walks, and the payloads it builds.
    Every method is proved against the functions of Registry. */
module RegistryLoops {
  import opened Lists
  import opened Kernel
  import opened Bits
  import opened FlashText
  import opened Registry
  import opened RegistryProofs
  import Codec
  import Format

  class RegistryObject {
    var totalSlot: nat
    var devices: seq<Device>
    var flash: Flash

    ghost function Model(): Reg
      reads this
    {
      Reg(totalSlot, devices, flash)
    }

    constructor (flash: Flash)
      ensures Model() == Reload(flash)
    {
      new;
      ReadDevices(flash);
    }

    /** read_device_from_flash, on an empty list as after a reboot. */
    method ReadDevices(flash: Flash)
      modifies this
      ensures Model() == Reload(flash)
    {
      this.flash := flash;
      totalSlot := GetKey(flash, "slot");
      devices := [];
      var index := 0;
      while index < 32
        invariant 0 <= index <= 32 && this.flash == flash && totalSlot == GetKey(flash, "slot")
        invariant devices + LoadFrom(flash, totalSlot, index) == LoadFrom(flash, totalSlot, 0)
      {
        LoadStep(flash, totalSlot, index, devices);
        if Bit(totalSlot, index) {
          var key := IndexKey(index);
          if key in flash && flash[key].Record? {
            devices := devices + [flash[key].device];
          }
        }
        index := index + 1;
      }
      assert devices + [] == devices;
    }

    method Find(id: Format.Word) returns (i: nat)
      ensures i == Position(devices, id)
    {
      i := 0;
      assert devices[0..] == devices;
      while i < |devices| && devices[i].id != id
        invariant i <= |devices| && Position(devices, id) == i + Position(devices[i..], id)
      {
        assert devices[i..][1..] == devices[i + 1..];
        i := i + 1;
      }
    }

    /** get_free_device_slot: claims the slot it returns. */
    method GetFreeSlot() returns (slot: int)
      modifies `totalSlot
      ensures var s := FreeSlot(old(totalSlot), 0);
              && (s < MAX_DEVICES ==> slot == s && totalSlot == Uint32(SetBit(old(totalSlot), s)))
              && (s == MAX_DEVICES ==> slot == -1 && totalSlot == old(totalSlot))
    {
      var index := 0;
      while index < MAX_DEVICES
        invariant 0 <= index <= MAX_DEVICES && totalSlot == old(totalSlot)
        invariant FreeSlot(totalSlot, index) == FreeSlot(totalSlot, 0)
      {
        if !Bit(totalSlot, index) {
          totalSlot := Uint32(SetBit(totalSlot, index));
          return index;
        }
        index := index + 1;
      }
      return -1;
    }

    method CreateDevice(level: Byte, kind: Byte, id: Format.Word) returns (ok: bool)
      modifies this
      ensures (Model(), ok) == Create(old(Model()), level, kind, id)
    {
      var i := Find(id);
      if i < |devices| { return true; }
      if totalSlot > 4095 { return false; }
      var slot := GetFreeSlot();
      if slot < 0 { return false; }
      var device := NewDevice(slot, level, kind, id);
      devices := devices + [device];
      flash := SetKey(flash, "slot", totalSlot);
      flash := Save(flash, device);
      ok := true;
    }

    method DeleteDevice(id: Format.Word) returns (err: Err)
      modifies this
      ensures (Model(), err) == Delete(old(Model()), id)
    {
      var i := Find(id);
      if i == |devices| { return ERROR; }
      totalSlot := Uint32(ClearBit(totalSlot, devices[i].slot));
      flash := SetKey(flash, "slot", totalSlot);
      devices := RemoveAt(devices, i);
      err := EOK;
    }

    /** aq_gateway_delete, aq_doorunit_delete.  The walk goes on through the links of cells it has
        just unlinked, so it visits the list as it was at the start (Lists.RemoveMatching). */
    method DeleteAllOf(kind: Byte)
      modifies this
      ensures Model() == DeleteKind(old(Model()), old(devices), kind)
    {
      var cells, i := devices, 0;
      assert cells[0..] == cells;
      while i < |cells|
        invariant 0 <= i <= |cells|
        invariant DeleteKind(Model(), cells[i..], kind) == DeleteKind(old(Model()), cells, kind)
      {
        assert cells[i..][1..] == cells[i + 1..];
        if cells[i].kind == kind {
          var err := DeleteDevice(cells[i].id);
        }
        i := i + 1;
      }
    }

    /** The five persisted setters. */
    method SetField(f: Field, id: Format.Word, v: Byte)
      modifies `devices, `flash
      ensures Model() == Set(old(Model()), f, id, v)
    {
      ghost var was := devices;
      var i := 0;
      while i < |devices|
        invariant 0 <= i <= |devices| == |was|
        invariant forall k | 0 <= k < |was| :: devices[k] == if k < i then SetOne(was[k], f, id, v) else was[k]
        invariant flash == SaveChanged(old(flash), was[..i], f, id, v)
      {
        var d := devices[i];
        SaveStep(old(flash), was, i, f, id, v);
        if d.id == id {
          if FieldOf(d, f) != v {
            devices := devices[i := With(d, f, v)];
            flash := Save(flash, With(d, f, v));
          }
        }
        WithSame(d, f);
        i := i + 1;
      }
      assert was[..i] == was;
      assert devices == SetIn(was, f, id, v);
    }

    /** aq_device_recv_set */
    method SetRecvFlag(id: Format.Word, v: Byte)
      modifies `devices
      ensures Model() == SetRecv(old(Model()), id, v)
    {
      ghost var was := devices;
      var i := 0;
      while i < |devices|
        invariant 0 <= i <= |devices| == |was|
        invariant forall k | 0 <= k < |was| :: devices[k] == if k < i then RecvOne(was[k], id, v) else was[k]
      {
        if devices[i].id == id {
          devices := devices[i := devices[i].(recv := v)];
        }
        i := i + 1;
      }
    }

    /** aq_device_heart_recv_clear */
    method HeartRecvClear()
      modifies `devices
      ensures Model() == RecvClear(old(Model()))
    {
      ghost var was := devices;
      var i := 0;
      while i < |devices|
        invariant 0 <= i <= |devices| == |was|
        invariant forall k | 0 <= k < |was| ::
          devices[k] == if k < i && was[k].kind != GATEWAY then was[k].(recv := 0) else was[k]
      {
        if devices[i].kind != GATEWAY {
          devices := devices[i := devices[i].(recv := 0)];
        }
        i := i + 1;
      }
      assert devices == RecvClear(old(Model())).devs;
    }

    /** aq_device_heart_recv */
    method HeartReceived(id: Format.Word, level: Byte) returns (err: Err)
      modifies `devices, `flash
      ensures Model() == HeartRecv(old(Model()), id, level) && (err == EOK <==> Known(old(devices), id))
    {
      var i := Find(id);
      if i == |devices| { return ERROR; }
      devices := devices[i := devices[i].(recv := 1)];
      SetField(Online, id, 1);
      SetField(Level, id, level);
      err := EOK;
    }

    /** A handler's write through the device pointer it looked up. */
    method SetLevelUnsaved(id: Format.Word, level: Byte)
      modifies `devices
      ensures Model() == SetLevelInRam(old(Model()), id, level)
    {
      var i := Find(id);
      if i < |devices| {
        devices := devices[i := devices[i].(level := level)];
      }
    }

    /** aq_device_waterleak_find */
    method LeakFind() returns (found: bool)
      ensures found == AnyLeak(devices) && (found <==> exists d | d in devices :: d.leak != 0)
    {
      var i := 0;
      while i < |devices|
        invariant 0 <= i <= |devices| && forall k | 0 <= k < i :: devices[k].leak == 0
      {
        if devices[i].leak != 0 {
          assert devices[i] in devices;
          return true;
        }
        i := i + 1;
      }
      found := false;
    }

    /** aq_device_wirelost_find */
    method WireLostFind() returns (found: bool)
      ensures found == AnyWireLost(devices) && (found <==> exists d | d in devices :: d.wire != 0)
    {
      var i := 0;
      while i < |devices|
        invariant 0 <= i <= |devices| && forall k | 0 <= k < i :: devices[k].wire == 0
      {
        if devices[i].wire != 0 {
          assert devices[i] in devices;
          return true;
        }
        i := i + 1;
      }
      found := false;
    }

    /** aq_device_endunit_offline_find, for any kind. */
    method OfflineFind(kind: Byte) returns (found: bool)
      ensures found == AnyOffline(devices, kind)
      ensures found <==> exists d | d in devices :: d.online == 0 && d.kind == kind
    {
      var i := 0;
      while i < |devices|
        invariant 0 <= i <= |devices|
        invariant forall k | 0 <= k < i :: !(devices[k].online == 0 && devices[k].kind == kind)
      {
        if devices[i].online == 0 && devices[i].kind == kind {
          assert devices[i] in devices;
          return true;
        }
        i := i + 1;
      }
      found := false;
    }

    /** aq_device_heart_check up to the warnings. */
    method HeartCheckWalk()
      modifies `devices, `flash
      ensures Model() == HeartWalk(old(Model()), 0)
    {
      var i := 0;
      while i < |devices|
        invariant 0 <= i <= |devices| && totalSlot == old(totalSlot)
        invariant HeartWalk(Model(), i) == HeartWalk(old(Model()), 0)
        decreases |devices| - i
      {
        var d := devices[i];
        if d.kind != GATEWAY {
          if d.recv != 0 {
            devices := devices[i := d.(recv := 0)];
          } else {
            SetField(Online, d.id, 0);
          }
        }
        i := i + 1;
      }
    }

    /** aq_gateway_find */
    method GatewayFind() returns (id: Format.Word)
      ensures id == GatewayId(devices)
    {
      var i := 0;
      assert devices[0..] == devices;
      while i < |devices|
        invariant 0 <= i <= |devices| && GatewayId(devices[i..]) == GatewayId(devices)
      {
        assert devices[i..][1..] == devices[i + 1..];
        if devices[i].kind == GATEWAY { return devices[i].id; }
        i := i + 1;
      }
      id := 0;
    }

    /** gateway_heart_check of applications/heart.c */
    method GatewayHeartCheck()
      modifies `devices
      ensures Model() == GatewayHeart(old(Model()))
    {
      var id := GatewayFind();
      if id == 0 { return; }
      var i := Find(id);
      if i < |devices| && devices[i].recv != 0 { SetRecvFlag(id, 0); }
    }

    /** aq_device_clone_upload */
    method CloneUpload() returns (len: nat, bytes: seq<Byte>)
      ensures bytes == CloneBytes(devices) && |bytes| == 8 * len
    {
      len, bytes := 0, [];
      var i := 0;
      assert devices[0..] == devices;
      while i < |devices|
        invariant 0 <= i <= |devices| && |bytes| == 8 * len
        invariant bytes + CloneBytes(devices[i..]) == CloneBytes(devices)
      {
        var d := devices[i];
        CloneStep(devices, i, bytes);
        if d.kind != GATEWAY {
          bytes := bytes + Entry(d);
          len := len + 1;
        }
        i := i + 1;
      }
      assert bytes + [] == bytes;
    }

    /** aq_device_offline_upload */
    method OfflineUpload() returns (len: nat, bytes: seq<Byte>)
      ensures bytes == OfflineBytes(devices) && |bytes| == 4 * len
    {
      len, bytes := 0, [];
      var i := 0;
      assert devices[0..] == devices;
      while i < |devices|
        invariant 0 <= i <= |devices| && |bytes| == 4 * len
        invariant bytes + OfflineBytes(devices[i..]) == OfflineBytes(devices)
      {
        var d := devices[i];
        OfflineStep(devices, i, bytes);
        if d.online == 0 && d.kind != GATEWAY {
          bytes := bytes + Address(d);
          len := len + 1;
        }
        i := i + 1;
      }
      assert bytes + [] == bytes;
    }
  }

  lemma LoadStep(f: Flash, mask: nat, i: nat, devs: seq<Device>)
    requires i < 32
    ensures devs + LoadFrom(f, mask, i)
            == (if Bit(mask, i) && IndexKey(i) in f && f[IndexKey(i)].Record? then devs + [f[IndexKey(i)].device]
                else devs)
               + LoadFrom(f, mask, i + 1)
  {
    var rest := LoadFrom(f, mask, i + 1);
    if Bit(mask, i) && IndexKey(i) in f && f[IndexKey(i)].Record? {
      var d := f[IndexKey(i)].device;
      assert LoadFrom(f, mask, i) == [d] + rest;
      assert devs + ([d] + rest) == (devs + [d]) + rest;
    } else {
      assert [] + rest == rest;
      assert LoadFrom(f, mask, i) == rest;
    }
  }

  lemma CloneStep(devs: seq<Device>, i: nat, bytes: seq<Byte>)
    requires i < |devs|
    ensures bytes + CloneBytes(devs[i..])
            == (if devs[i].kind != GATEWAY then bytes + Entry(devs[i]) else bytes) + CloneBytes(devs[i + 1..])
  {
    assert devs[i..][1..] == devs[i + 1..];
    var e, rest := Entry(devs[i]), CloneBytes(devs[i + 1..]);
    assert bytes + (e + rest) == (bytes + e) + rest;
    assert [] + rest == rest;
  }

  lemma OfflineStep(devs: seq<Device>, i: nat, bytes: seq<Byte>)
    requires i < |devs|
    ensures bytes + OfflineBytes(devs[i..])
            == (if devs[i].online == 0 && devs[i].kind != GATEWAY then bytes + Address(devs[i]) else bytes)
               + OfflineBytes(devs[i + 1..])
  {
    assert devs[i..][1..] == devs[i + 1..];
    var e, rest := Address(devs[i]), OfflineBytes(devs[i + 1..]);
    assert bytes + (e + rest) == (bytes + e) + rest;
    assert [] + rest == rest;
  }

  lemma WithSame(d: Device, f: Field)
    ensures With(d, f, FieldOf(d, f)) == d
  {
  }

  lemma SaveStep(flash: Flash, was: seq<Device>, i: nat, f: Field, id: Format.Word, v: Byte)
    requires i < |was|
    ensures var before := SaveChanged(flash, was[..i], f, id, v);
            SaveChanged(flash, was[..i + 1], f, id, v)
            == if was[i].id == id && FieldOf(was[i], f) != v then Save(before, With(was[i], f, v)) else before
  {
    assert was[..i + 1][..i] == was[..i];
  }

  // ----- the sync upload --------------------------------------------------------------------------------

  /** The four bytes of an address, most significant first. */
  function WordBytes(w: Format.Word): seq<Byte> {
    [w / 0x1000000, w / 0x10000 % 0x100, w / 0x100 % 0x100, w % 0x100]
  }

  function BytesWord(b: seq<Byte>): nat
    requires |b| >= 4
  {
    (b[0] as nat) * 0x1000000 + (b[1] as nat) * 0x10000 + (b[2] as nat) * 0x100 + b[3] as nat
  }

  lemma WordRoundTrip(w: Format.Word)
    ensures BytesWord(WordBytes(w)) == w
  {
    assert w == w / 0x100 * 0x100 + w % 0x100;
    var h := w / 0x100;
    assert w / 0x10000 == h / 0x100 && h == h / 0x100 * 0x100 + h % 0x100;
    var g := h / 0x100;
    assert w / 0x1000000 == g / 0x100 && g == g / 0x100 * 0x100 + g % 0x100;
  }

  function Address(d: Device): (r: seq<Byte>)
    ensures |r| == 4
  {
    WordBytes(d.id)
  }

  function Entry(d: Device): (r: seq<Byte>)
    ensures |r| == 8
  {
    WordBytes(d.id) + [d.kind, d.online, d.level, d.battery]
  }

  function CloneBytes(devs: seq<Device>): seq<Byte> {
    if devs == [] then []
    else (if devs[0].kind != GATEWAY then Entry(devs[0]) else []) + CloneBytes(devs[1..])
  }

  /** What a receiver of the upload learns of each device. */
  datatype Summary = Summary(id: nat, kind: Byte, online: Byte, level: Byte, battery: Byte)

  function SummaryOf(d: Device): Summary { Summary(d.id, d.kind, d.online, d.level, d.battery) }

  function Summaries(devs: seq<Device>): (r: seq<Summary>)
    ensures |r| <= |devs|
  {
    if devs == [] then []
    else (if devs[0].kind != GATEWAY then [SummaryOf(devs[0])] else [])
         + Summaries(devs[1..])
  }

  function Decode(b: seq<Byte>): seq<Summary> {
    if |b| < 8 then [] else [Summary(BytesWord(b[..4]), b[4], b[5], b[6], b[7])] + Decode(b[8..])
  }

  /** The upload can be decoded to exactly the registered devices other than gateways. */
  lemma {:induction false} UploadRoundTrip(devs: seq<Device>)
    ensures Decode(CloneBytes(devs)) == Summaries(devs)
    ensures |CloneBytes(devs)| == 8 * |Summaries(devs)|
  {
    if devs != [] {
      UploadRoundTrip(devs[1..]);
      if devs[0].kind != GATEWAY {
        var e, rest := Entry(devs[0]), CloneBytes(devs[1..]);
        WordRoundTrip(devs[0].id);
        assert (e + rest)[..4] == WordBytes(devs[0].id) && (e + rest)[8..] == rest;
      } else {
        assert CloneBytes(devs) == CloneBytes(devs[1..]);
      }
    }
  }

  const SYNC_HEADER: nat := 4
  const OFFLINE_HEADER: nat := 2

  /** Both uploads of any registry in order are small: the sync payload is at most 100 bytes, the
      offline payload at most 50, and the frame around either fits the send queue's record. */
  lemma {:induction false} UploadFits(r: Reg, tx: Codec.Tx)
    requires Ok(r)
    ensures SYNC_HEADER + |CloneBytes(r.devs)| <= 100 && OFFLINE_HEADER + |OfflineBytes(r.devs)| <= 50
    ensures |tx.payload| == SYNC_HEADER + |CloneBytes(r.devs)|
            || |tx.payload| == OFFLINE_HEADER + |OfflineBytes(r.devs)|
            ==> |Codec.Build(tx)| <= Codec.QUEUE_RECORD
  {
    AtMostTwelve(r);
    UploadRoundTrip(r.devs);
    OfflineLength(r.devs);
    Codec.BuildLayout(tx);
  }

  /** aq_device_offline_upload */
  function OfflineBytes(devs: seq<Device>): seq<Byte> {
    if devs == [] then []
    else (if devs[0].online == 0 && devs[0].kind != GATEWAY then Address(devs[0]) else []) + OfflineBytes(devs[1..])
  }

  lemma OfflineLength(devs: seq<Device>)
    ensures |OfflineBytes(devs)| <= 4 * |devs|
  {
  }
}
