/** Radio frames: the builder of radio_protocol_utils.c and radio_protocol_endunit.c, and the parser
    of radio_protocol.c.

    A frame is a start byte, network and version, type byte, two addresses, command, payload length,
    payload and a CRC-8 with polynomial 0x07 and initial value 0. */
module Codec {
  import opened Kernel

  type Byte = bv8
  type Word = bv32

  const FRAME_START: Byte := 0xEF
  const NET_REGION: Byte := 0x03
  const NETWORK_VERSION: Byte := 0x01
  const MAINUNIT: Byte := 0x01

  // ----- CRC ---------------------------------------------------------------------------------------

  /** One bit of the CRC register. */
  function Shift(c: Byte): Byte {
    if c & 0x80 != 0 then (c << 1) ^ 0x07 else c << 1
  }

  function Shift8(c: Byte): Byte {
    Shift(Shift(Shift(Shift(Shift(Shift(Shift(Shift(c))))))))
  }

  function CrcStep(crc: Byte, b: Byte): Byte { Shift8(crc ^ b) }

  function Crc(s: seq<Byte>): Byte {
    if s == [] then 0 else CrcStep(Crc(s[..|s| - 1]), s[|s| - 1])
  }

  /** The polynomial is odd, so the bit that was shifted out can be read off the result. */
  lemma ShiftInjective(a: Byte, b: Byte)
    requires Shift(a) == Shift(b)
    ensures a == b
  {
  }

  lemma Shift8Injective(a: Byte, b: Byte)
    requires Shift8(a) == Shift8(b)
    ensures a == b
  {
    var a1, b1 := Shift(a), Shift(b);
    var a2, b2 := Shift(a1), Shift(b1);
    var a3, b3 := Shift(a2), Shift(b2);
    var a4, b4 := Shift(a3), Shift(b3);
    var a5, b5 := Shift(a4), Shift(b4);
    var a6, b6 := Shift(a5), Shift(b5);
    var a7, b7 := Shift(a6), Shift(b6);
    ShiftInjective(a7, b7);
    ShiftInjective(a6, b6);
    ShiftInjective(a5, b5);
    ShiftInjective(a4, b4);
    ShiftInjective(a3, b3);
    ShiftInjective(a2, b2);
    ShiftInjective(a1, b1);
    ShiftInjective(a, b);
  }

  lemma XorInjective(a: Byte, b: Byte, c: Byte)
    ensures a ^ c == b ^ c ==> a == b
    ensures c ^ a == c ^ b ==> a == b
  {
  }

  /** A different register, or a different byte, gives a different register. */
  lemma StepInjective(c: Byte, d: Byte, x: Byte, y: Byte)
    ensures CrcStep(c, x) == CrcStep(d, x) ==> c == d
    ensures CrcStep(c, x) == CrcStep(c, y) ==> x == y
  {
    if CrcStep(c, x) == CrcStep(d, x) { Shift8Injective(c ^ x, d ^ x); XorInjective(c, d, x); }
    if CrcStep(c, x) == CrcStep(c, y) { Shift8Injective(c ^ x, c ^ y); XorInjective(x, y, c); }
  }

  /** `t` is `s` with one byte changed, at `i`. */
  ghost predicate OneByteOff(s: seq<Byte>, t: seq<Byte>, i: nat) {
    |s| == |t| && i < |s| && s[i] != t[i] && forall k | 0 <= k < |s| && k != i :: s[k] == t[k]
  }

  lemma {:induction false} CrcSeesOneByte(s: seq<Byte>, t: seq<Byte>, i: nat)
    requires OneByteOff(s, t, i)
    ensures Crc(s) != Crc(t)
    decreases s
  {
    var n := |s| - 1;
    if i == n {
      assert s[..n] == t[..n];
      StepInjective(Crc(s[..n]), Crc(t[..n]), s[n], t[n]);
    } else {
      CrcSeesOneByte(s[..n], t[..n], i);
      StepInjective(Crc(s[..n]), Crc(t[..n]), s[n], t[n]);
    }
  }

  // ----- parser --------------------------------------------------------------------------------------

  datatype Frame = Frame(msgType: Byte, deviceType: Byte, dest: Word, source: Word, level: nat, rx: seq<Byte>)

  /** get_check_crc takes its length as an unsigned short. */
  function Covered(len: nat): nat
    requires len > 0
  {
    (len - 1) % 0x10000
  }

  function Join(a: Byte, b: Byte, c: Byte, d: Byte): Word {
    ((a as Word) << 24) | ((b as Word) << 16) | ((c as Word) << 8) | (d as Word)
  }

  /** The version test as it parses: data[1] & (0x0F < NETWORK_VERSION). */
  function VersionTest(b: Byte): Byte {
    b & (if 0x0F < NETWORK_VERSION then 1 else 0)
  }

  predicate Accepts(data: seq<Byte>) {
    && |data| >= 14
    && data[0] == FRAME_START
    && data[1] >> 4 == NET_REGION
    && VersionTest(data[1]) == 0
    && data[|data| - 1] == Crc(data[..Covered(|data|)])
  }

  function RssiLevel(rssi: int): nat {
    if rssi < -89 then 0 else if rssi < -78 then 1 else 2
  }

  function Parse(rssi: int, data: seq<Byte>): Option<Frame> {
    if !Accepts(data) then None
    else Some(Frame(data[2] & 0x07, (data[2] & 0x78) >> 3, Join(data[3], data[4], data[5], data[6]),
                    Join(data[7], data[8], data[9], data[10]), RssiLevel(rssi), data[11..]))
  }

  /** As written, the version test rejects nothing. */
  lemma VersionNeverRejects(b: Byte)
    ensures VersionTest(b) == 0
  {
  }

  /** Changing one byte of an accepted frame of at most 65536 bytes makes the parser reject it. */
  lemma {:induction false} CorruptionRejected(rssi: int, s: seq<Byte>, t: seq<Byte>, i: nat)
    requires Accepts(s) && OneByteOff(s, t, i) && |s| <= 0x10000
    ensures Parse(rssi, t) == None
  {
    CorruptionDetected(s, t, i);
  }

  /** In general a changed byte is noticed exactly if it is the start byte or the CRC, or lies in the part
      the truncated length covers, or is the network byte with another region. */
  lemma {:induction false} CorruptionDetected(s: seq<Byte>, t: seq<Byte>, i: nat)
    requires Accepts(s) && OneByteOff(s, t, i)
    ensures !Accepts(t) <==> i < Covered(|s|) || i == |s| - 1 || i == 0 || (i == 1 && t[1] >> 4 != s[1] >> 4)
  {
    var n := Covered(|s|);
    if i < n {
      CrcSeesOneByte(s[..n], t[..n], i);
    } else {
      assert s[..n] == t[..n];
      VersionNeverRejects(t[1]);
    }
  }

  // ----- builder -----------------------------------------------------------------------------------------

  datatype Tx = Tx(ack: bool, msgType: Byte, dest: Word, source: Word, command: Byte, payload: seq<Byte>)

  function Split(w: Word): (r: seq<Byte>)
    ensures |r| == 4
  {
    [((w >> 24) & 0xFF) as Byte, ((w >> 16) & 0xFF) as Byte, ((w >> 8) & 0xFF) as Byte, (w & 0xFF) as Byte]
  }

  lemma SplitJoin(w: Word)
    ensures Join(Split(w)[0], Split(w)[1], Split(w)[2], Split(w)[3]) == w
  {
  }

  function TypeByte(ack: bool, msgType: Byte): Byte {
    (if ack then 0x80 else 0) | (MAINUNIT << 3) | msgType
  }

  function LengthByte(n: nat): Byte { (n % 256) as Byte }

  function Body(tx: Tx): seq<Byte> {
    [FRAME_START, (NET_REGION << 4) | NETWORK_VERSION, TypeByte(tx.ack, tx.msgType)]
    + Split(tx.dest) + Split(tx.source) + [tx.command, LengthByte(|tx.payload|)] + tx.payload
  }

  function Build(tx: Tx): seq<Byte> {
    Body(tx) + [Crc(Body(tx))]
  }

  lemma TypeByteFields(ack: bool, msgType: Byte)
    requires msgType <= 7
    ensures TypeByte(ack, msgType) & 0x07 == msgType
    ensures (TypeByte(ack, msgType) & 0x78) >> 3 == MAINUNIT
  {
  }

  lemma NetworkByte()
    ensures ((NET_REGION << 4) | NETWORK_VERSION) >> 4 == NET_REGION
    ensures VersionTest((NET_REGION << 4) | NETWORK_VERSION) == 0
  {
  }

  lemma BodyLayout(tx: Tx)
    ensures var b := Body(tx);
            && |b| == 13 + |tx.payload|
            && b[0] == FRAME_START && b[1] == (NET_REGION << 4) | NETWORK_VERSION
            && b[2] == TypeByte(tx.ack, tx.msgType)
            && b[3..7] == Split(tx.dest) && b[7..11] == Split(tx.source)
            && b[11] == tx.command && b[12] == LengthByte(|tx.payload|) && b[13..] == tx.payload
  {
  }

  lemma WordAt(f: seq<Byte>, i: nat, w: Word)
    requires i + 4 <= |f| && f[i..i + 4] == Split(w)
    ensures Join(f[i], f[i + 1], f[i + 2], f[i + 3]) == w
  {
    SplitJoin(w);
    var q := f[i..i + 4];
    assert f[i] == q[0] && f[i + 1] == q[1] && f[i + 2] == q[2] && f[i + 3] == q[3];
  }

  lemma BuildLayout(tx: Tx)
    ensures var f := Build(tx);
            && |f| == 14 + |tx.payload|
            && f[0] == FRAME_START && f[1] == (NET_REGION << 4) | NETWORK_VERSION
            && f[2] == TypeByte(tx.ack, tx.msgType)
            && f[3..7] == Split(tx.dest) && f[7..11] == Split(tx.source)
            && f[11] == tx.command && f[12] == LengthByte(|tx.payload|)
            && f[13..|f| - 1] == tx.payload && f[|f| - 1] == Crc(f[..|f| - 1])
  {
    BodyLayout(tx);
    var b, f := Body(tx), Build(tx);
    assert f[..|f| - 1] == b;
    assert f[3..7] == b[3..7] && f[7..11] == b[7..11] && f[13..|f| - 1] == b[13..];
  }

  lemma BuildAccepted(tx: Tx)
    requires |tx.payload| < 0x10000 - 13
    ensures Accepts(Build(tx))
  {
    BuildLayout(tx);
    NetworkByte();
    CoveredAll(|Build(tx)|);
  }

  /** Of a frame of more than 65536 bytes, only what a 16-bit length can say is covered. */
  lemma CoveredMeans(len: nat)
    requires len > 0
    ensures Covered(len) < 0x10000 && exists k: nat :: len - 1 == k * 0x10000 + Covered(len)
  {
    assert len - 1 == (len - 1) / 0x10000 * 0x10000 + Covered(len);
  }

  lemma CoveredAll(len: nat)
    requires 0 < len <= 0x10000
    ensures Covered(len) == len - 1
  {
  }

  /** Every frame that can be built from up to 239 payload bytes is accepted, and the parser gets
      back message type, device type, both addresses, command, length and payload. */
  lemma {:induction false} ParseBuild(rssi: int, tx: Tx)
    requires tx.msgType <= 7 && |tx.payload| <= 239
    ensures var p := Parse(rssi, Build(tx));
            && p.Some?
            && p.value.msgType == tx.msgType && p.value.deviceType == MAINUNIT
            && p.value.dest == tx.dest && p.value.source == tx.source && p.value.level == RssiLevel(rssi)
            && |p.value.rx| == |tx.payload| + 3
            && p.value.rx[0] == tx.command && p.value.rx[1] as nat == |tx.payload|
            && p.value.rx[2..2 + |tx.payload|] == tx.payload
  {
    var f := Build(tx);
    BuildLayout(tx);
    BuildAccepted(tx);
    ParseFields(rssi, f);
    TypeByteFields(tx.ack, tx.msgType);
    LengthByteIs(|tx.payload|);
    WordAt(f, 3, tx.dest);
    WordAt(f, 7, tx.source);
    assert f[11..][2..2 + |tx.payload|] == f[13..|f| - 1];
  }

  lemma ParseFields(rssi: int, f: seq<Byte>)
    requires Accepts(f)
    ensures Parse(rssi, f) == Some(Frame(f[2] & 0x07, (f[2] & 0x78) >> 3, Join(f[3], f[4], f[5], f[6]),
                                         Join(f[7], f[8], f[9], f[10]), RssiLevel(rssi), f[11..]))
  {
  }

  /** Every byte of a frame: start byte, region 3 and version 1, acknowledgement bit, type 1 of a main unit and
      message type, both addresses with the highest byte first, command, length, payload, CRC. */
  lemma {:induction false} FrameBytes(tx: Tx)
    requires tx.msgType <= 7
    ensures var f := Build(tx);
            && |f| == 14 + |tx.payload|
            && f[0] == 0xEF && f[1] == 0x31
            && (f[2] & 0x80 != 0 <==> tx.ack) && f[2] & 0x78 == 0x08 && f[2] & 0x07 == tx.msgType
            && BigEndian(f[3..7], tx.dest) && BigEndian(f[7..11], tx.source)
            && f[11] == tx.command && f[12] as nat == |tx.payload| % 256
            && f[13..|f| - 1] == tx.payload && f[|f| - 1] == Crc(f[..|f| - 1])
  {
    BuildLayout(tx);
    TypeBits(tx.ack, tx.msgType);
    SplitBigEndian(tx.dest);
    SplitBigEndian(tx.source);
    StartBytes();
    LengthIs(|tx.payload|);
  }

  lemma LengthIs(n: nat)
    ensures LengthByte(n) as nat == n % 256
  {
    var m := n % 256;
    assert LengthByte(n) == LengthByte(m);
    LengthByteIs(m);
  }

  lemma StartBytes()
    ensures (NET_REGION << 4) | NETWORK_VERSION == 0x31
  {
  }

  /** The word these four bytes make, the highest first. */
  predicate BigEndian(b: seq<Byte>, w: Word) {
    && |b| == 4
    && ((b[0] as Word) << 24) | ((b[1] as Word) << 16) | ((b[2] as Word) << 8) | (b[3] as Word) == w
  }

  lemma SplitBigEndian(w: Word)
    ensures BigEndian(Split(w), w)
  {
    SplitJoin(w);
  }

  lemma TypeBits(ack: bool, msgType: Byte)
    requires msgType <= 7
    ensures var b := TypeByte(ack, msgType); (b & 0x80 != 0 <==> ack) && b & 0x78 == 0x08 && b & 0x07 == msgType
  {
  }

  /** Below -89 dBm the level is 0, from -78 dBm on it is 2, and 1 in between. */
  lemma RssiMeans(rssi: int)
    ensures RssiLevel(rssi) == 0 <==> rssi <= -90
    ensures RssiLevel(rssi) == 2 <==> rssi >= -78
    ensures RssiLevel(rssi) == 1 <==> -89 <= rssi <= -79
  {
  }

  /** What the parser makes of any frame it accepts, byte by byte. */
  lemma ParseMeans(rssi: int, f: seq<Byte>)
    requires Parse(rssi, f).Some?
    ensures var p := Parse(rssi, f).value;
            && |f| >= 14 && f[0] == 0xEF && f[1] & 0xF0 == 0x30
            && p.msgType == f[2] & 0x07 && p.deviceType == (f[2] >> 3) & 0x0F
            && BigEndian(f[3..7], p.dest) && BigEndian(f[7..11], p.source) && p.rx == f[11..]
  {
    ParseFields(rssi, f);
    DeviceBits(f[2]);
    RegionBits(f[1]);
  }

  /** A frame is accepted exactly if it is long enough, starts right, comes from region 3, and ends in the CRC
      of the part that is covered. */
  lemma AcceptsExactly(rssi: int, f: seq<Byte>)
    ensures Parse(rssi, f).Some? <==>
            |f| >= 14 && f[0] == 0xEF && f[1] >> 4 == 0x03 && f[|f| - 1] == Crc(f[..Covered(|f|)])
  {
    if |f| >= 14 { VersionNeverRejects(f[1]); }
  }

  lemma DeviceBits(b: Byte)
    ensures (b & 0x78) >> 3 == (b >> 3) & 0x0F
  {
  }

  lemma RegionBits(b: Byte)
    requires b >> 4 == NET_REGION
    ensures b & 0xF0 == 0x30
  {
  }

  /** The length byte is the length, for every payload a frame can carry. */
  lemma LengthByteIs(n: nat)
    requires n < 256
    ensures LengthByte(n) as nat == n
  {
    assert n % 256 == n;
  }

  // ----- the transmit buffer ---------------------------------------------------------------------------------

  const QUEUE_RECORD: nat := 253

  class TxBuffer {
    const buf: array<Byte>

    constructor ()
      ensures buf.Length == 255 && fresh(buf)
    {
      buf := new Byte[255];
    }

    method SetByte(dest: nat, b: Byte) returns (next: nat)
      requires dest < buf.Length
      modifies buf
      ensures next == dest + 1 && buf[..next] == old(buf[..dest]) + [b]
    {
      buf[dest] := b;
      next := dest + 1;
    }

    method SetWord(dest: nat, w: Word) returns (next: nat)
      requires dest + 4 <= buf.Length
      modifies buf
      ensures next == dest + 4 && buf[..next] == old(buf[..dest]) + Split(w)
    {
      var b := Split(w);
      buf[dest], buf[dest + 1], buf[dest + 2], buf[dest + 3] := b[0], b[1], b[2], b[3];
      next := dest + 4;
    }

    method SetBuffer(dest: nat, src: seq<Byte>) returns (next: nat)
      requires dest + |src| <= buf.Length
      modifies buf
      ensures next == dest + |src| && buf[..next] == old(buf[..dest]) + src
    {
      for i := 0 to |src|
        invariant buf[..dest + i] == old(buf[..dest]) + src[..i]
      {
        buf[dest + i] := src[i];
      }
      next := dest + |src|;
    }

    method SetCrc(dest: nat) returns (next: nat)
      requires dest < buf.Length
      modifies buf
      ensures next == dest + 1 && buf[..next] == old(buf[..dest]) + [Crc(old(buf[..dest]))]
    {
      buf[dest] := Crc(buf[..dest]);
      next := dest + 1;
    }

    /** radio_endunit_command_send and its siblings, with lora_tx_enqueue: what goes into the queue
        record is the whole frame. */
    method Send(tx: Tx) returns (queued: seq<Byte>)
      requires |tx.payload| <= 239
      requires buf.Length == 255
      modifies buf
      ensures queued == Build(tx) && |queued| <= QUEUE_RECORD
    {
      var n := SetByte(0, FRAME_START);
      n := SetByte(n, (NET_REGION << 4) | NETWORK_VERSION);
      n := SetByte(n, TypeByte(tx.ack, tx.msgType));
      n := SetWord(n, tx.dest);
      n := SetWord(n, tx.source);
      n := SetByte(n, tx.command);
      n := SetByte(n, LengthByte(|tx.payload|));
      n := SetBuffer(n, tx.payload);
      Assembled(tx);
      assert buf[..n] == Body(tx);
      n := SetCrc(n);
      queued := buf[..if n < QUEUE_RECORD then n else QUEUE_RECORD];
    }
  }

  /** Writing the pieces one after the other gives the body. */
  lemma Assembled(tx: Tx)
    ensures [] + [FRAME_START] + [(NET_REGION << 4) | NETWORK_VERSION] + [TypeByte(tx.ack, tx.msgType)] + Split(tx.dest)
            + Split(tx.source) + [tx.command] + [LengthByte(|tx.payload|)] + tx.payload == Body(tx)
  {
  }
}
