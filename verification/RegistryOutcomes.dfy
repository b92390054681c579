/** What each registry operation does to each device, field by field, and what the offline upload lists. */
module RegistryOutcomes {
  import opened Lists
  import opened Kernel
  import opened Bits
  import opened Registry
  import opened RegistryProofs
  import opened RegistryLoops
  import Format

  /** A device has that address. */
  ghost predicate Listed(devs: seq<Device>, id: Format.Word) { exists d | d in devs :: d.id == id }

  lemma KnownIsListed(devs: seq<Device>, id: Format.Word)
    ensures Known(devs, id) <==> Listed(devs, id)
  {
    var i := Position(devs, id);
    if i < |devs| {
      assert devs[i] in devs;
    } else {
      assert forall k | 0 <= k < |devs| :: devs[k].id != id;
    }
  }

  // ----- creating ---------------------------------------------------------------------------------------

  /** The device as it is stored when it joins. */
  predicate JustJoined(d: Device, level: Byte, kind: Byte, id: Format.Word) {
    && d.id == id && d.kind == kind && d.level == level && d.slot < 12
    && d.online == 1 && d.battery == 0 && d.leak == 0 && d.wire == 0 && d.ack == 0 && d.recv == 0
  }

  /** Nothing changes for an address that is there already, or with twelve devices; otherwise exactly one
      device is added behind the others, in the lowest slot that none of them has. */
  lemma {:induction false} CreateOutcome(r: Reg, level: Byte, kind: Byte, id: Format.Word)
    requires Ok(r)
    ensures var (q, ok) := Create(r, level, kind, id);
            && (Listed(r.devs, id) ==> ok && q == r)
            && (!Listed(r.devs, id) && |r.devs| == 12 ==> !ok && q == r)
            && (!Listed(r.devs, id) && |r.devs| < 12 ==>
                  && ok && Ok(q) && |q.devs| == |r.devs| + 1 && q.devs[..|r.devs|] == r.devs
                  && JustJoined(q.devs[|r.devs|], level, kind, id)
                  && !SlotUsed(r.devs, q.devs[|r.devs|].slot)
                  && (forall s: nat | s < q.devs[|r.devs|].slot :: SlotUsed(r.devs, s))
                  && GetKey(q.flash, "valve_lock") == GetKey(r.flash, "valve_lock"))
  {
    KnownIsListed(r.devs, id);
    CreateKeeps(r, level, kind, id);
    CreateFailsWhenFull(r, level, kind, id);
    AtMostTwelve(r);
    MaskBelow4096(r);
    if !Listed(r.devs, id) && |r.devs| < 12 {
      var s := FreeSlot(r.mask, 0);
      var (q, ok) := Create(r, level, kind, id);
      assert ok && s < MAX_DEVICES;
      FlashText.IndexKeysDiffer(s, s);
    }
  }

  // ----- one device changes -----------------------------------------------------------------------------

  /** The device with that address is changed, everything else in RAM stays. */
  ghost predicate Changed(r: Reg, q: Reg, id: Format.Word, change: Device -> Device) {
    && q.mask == r.mask && |q.devs| == |r.devs|
    && forall k | 0 <= k < |r.devs| :: q.devs[k] == if r.devs[k].id == id then change(r.devs[k]) else r.devs[k]
  }

  lemma SettersOutcome(r: Reg, id: Format.Word, v: Byte)
    ensures Changed(r, Set(r, Battery, id, v), id, (d: Device) => d.(battery := v))
    ensures Changed(r, Set(r, Leak, id, v), id, (d: Device) => d.(leak := v))
    ensures Changed(r, Set(r, Wire, id, v), id, (d: Device) => d.(wire := v))
    ensures Changed(r, Set(r, Online, id, v), id, (d: Device) => d.(online := v))
    ensures Changed(r, Set(r, Level, id, v), id, (d: Device) => d.(level := v))
    ensures Changed(r, SetRecv(r, id, v), id, (d: Device) => d.(recv := v)) && SetRecv(r, id, v).flash == r.flash
  {
  }

  lemma LevelOutcome(r: Reg, id: Format.Word, v: Byte)
    requires DistinctDevices(r.devs)
    ensures Changed(r, SetLevelInRam(r, id, v), id, (d: Device) => d.(level := v))
    ensures SetLevelInRam(r, id, v).flash == r.flash
  {
  }

  /** A heart beat: the sender has been heard, is online, and its level is noted. */
  lemma HeartRecvOutcome(r: Reg, id: Format.Word, level: Byte)
    requires DistinctDevices(r.devs)
    ensures Changed(r, HeartRecv(r, id, level), id, (d: Device) => d.(recv := 1, online := 1, level := level))
  {
    var i := Position(r.devs, id);
    if i < |r.devs| {
      var r1 := r.(devs := r.devs[i := r.devs[i].(recv := 1)]);
      SettersOutcome(r1, id, 1);
      SettersOutcome(Set(r1, Online, id, 1), id, level);
    }
  }

  // ----- every device -------------------------------------------------------------------------------------

  /** After start-up no device but a gateway counts as heard; nothing else changes. */
  lemma RecvClearOutcome(r: Reg)
    ensures var q := RecvClear(r);
            && q.mask == r.mask && q.flash == r.flash && |q.devs| == |r.devs|
            && forall k | 0 <= k < |r.devs| ::
                 q.devs[k] == if r.devs[k].kind == GATEWAY then r.devs[k] else r.devs[k].(recv := 0)
  {
  }

  /** What the heart check makes of a device: one that was heard since the last check must be heard again,
      one that was not is offline; gateways are left alone. */
  function Checked(d: Device): Device {
    if d.kind == GATEWAY then d else if d.recv != 0 then d.(recv := 0) else d.(online := 0)
  }

  lemma HeartOneOutcome(r: Reg, i: nat)
    requires DistinctDevices(r.devs) && i < |r.devs|
    ensures var q := HeartOne(r, i); q.mask == r.mask && q.devs == r.devs[i := Checked(r.devs[i])]
  {
    SettersOutcome(r, r.devs[i].id, 0);
  }

  lemma {:induction false} HeartWalkOutcome(r: Reg, i: nat)
    requires DistinctDevices(r.devs) && i <= |r.devs|
    ensures var q := HeartWalk(r, i);
            && q.mask == r.mask && |q.devs| == |r.devs|
            && forall k | 0 <= k < |r.devs| :: q.devs[k] == if k < i then r.devs[k] else Checked(r.devs[k])
    decreases |r.devs| - i
  {
    if i < |r.devs| {
      HeartOneOutcome(r, i);
      HeartWalkOutcome(HeartOne(r, i), i + 1);
    }
  }

  // ----- the gateway ---------------------------------------------------------------------------------------

  /** The address of the first gateway, 0 if there is none. */
  lemma {:induction false} GatewayIdMeans(devs: seq<Device>)
    ensures (forall d | d in devs :: d.kind != GATEWAY) ==> GatewayId(devs) == 0
    ensures forall i | 0 <= i < |devs| && devs[i].kind == GATEWAY
              && (forall k | 0 <= k < i :: devs[k].kind != GATEWAY) ::
              GatewayId(devs) == devs[i].id
    decreases devs
  {
    if devs != [] && devs[0].kind != GATEWAY {
      GatewayIdMeans(devs[1..]);
      forall i | 0 <= i < |devs| && devs[i].kind == GATEWAY && (forall k | 0 <= k < i :: devs[k].kind != GATEWAY)
        ensures GatewayId(devs) == devs[i].id
      {
        assert devs[1..][i - 1] == devs[i];
        assert forall k | 0 <= k < i - 1 :: devs[1..][k] == devs[k + 1];
      }
    }
  }

  /** Every hour the gateway must be heard again; nothing else changes. */
  lemma GatewayHeartOutcome(r: Reg)
    requires DistinctDevices(r.devs)
    ensures GatewayId(r.devs) != 0 ==>
              Changed(r, GatewayHeart(r), GatewayId(r.devs), (d: Device) => d.(recv := 0))
    ensures GatewayId(r.devs) == 0 ==> GatewayHeart(r) == r
    ensures GatewayHeart(r).flash == r.flash
  {
    var id := GatewayId(r.devs);
    var i := Position(r.devs, id);
    if RecvOf(r.devs, id) == 0 {
      forall k | 0 <= k < |r.devs| && r.devs[k].id == id ensures r.devs[k] == r.devs[k].(recv := 0) {
        assert i == k;
      }
    }
  }

  // ----- the offline upload ------------------------------------------------------------------------------

  /** What a receiver of the offline upload learns. */
  function Addresses(b: seq<Byte>): seq<nat> {
    if |b| < 4 then [] else [BytesWord(b[..4])] + Addresses(b[4..])
  }

  ghost predicate IsOffline(devs: seq<Device>, id: nat) {
    exists d | d in devs :: d.online == 0 && d.kind != GATEWAY && d.id == id
  }

  /** It lists exactly the addresses of the devices other than gateways that are offline. */
  lemma {:induction false} OfflineUploadMeans(devs: seq<Device>)
    ensures forall id :: id in Addresses(OfflineBytes(devs)) <==> IsOffline(devs, id)
    decreases devs
  {
    if devs != [] {
      var d, rest := devs[0], OfflineBytes(devs[1..]);
      OfflineUploadMeans(devs[1..]);
      forall id ensures IsOffline(devs, id) <==> IsOffline([d], id) || IsOffline(devs[1..], id) {
        assert devs == [d] + devs[1..];
        if IsOffline(devs, id) {
          var e :| e in devs && e.online == 0 && e.kind != GATEWAY && e.id == id;
          assert e in [d] || e in devs[1..];
        }
      }
      if d.online == 0 && d.kind != GATEWAY {
        WordRoundTrip(d.id);
        assert OfflineBytes(devs) == Address(d) + rest;
        assert (Address(d) + rest)[..4] == Address(d) && (Address(d) + rest)[4..] == rest;
        assert d in [d];
      } else {
        assert OfflineBytes(devs) == rest;
      }
    }
  }

  /** The sync upload lists exactly the devices other than gateways. */
  lemma {:induction false} SyncUploadMeans(devs: seq<Device>, s: Summary)
    ensures s in Decode(CloneBytes(devs)) <==>
            exists d | d in devs ::
              && d.kind != GATEWAY && s.id == d.id && s.kind == d.kind && s.online == d.online
              && s.level == d.level && s.battery == d.battery
  {
    UploadRoundTrip(devs);
    SummariesMean(devs, s);
  }

  lemma {:induction false} SummariesMean(devs: seq<Device>, s: Summary)
    ensures s in Summaries(devs) <==> exists d | d in devs :: d.kind != GATEWAY && s == SummaryOf(d)
    decreases devs
  {
    if devs != [] {
      SummariesMean(devs[1..], s);
      assert devs == [devs[0]] + devs[1..];
    }
  }
}
