/** The CRC of radio_protocol_utils.c as what it stands for: the remainder of a division of polynomials
    over the two-element field.

    A polynomial is the sequence of its coefficients, that of the highest power first; adding is
    exclusive or, so dividing is shifting and adding. */
module CrcPolynomial {
  import opened Codec

  type Poly = seq<bool>

  /** x^8 + x^2 + x + 1 */
  const GENERATOR: Poly := [true, false, false, false, false, false, true, true, true]

  function Add(p: Poly, q: Poly): (r: Poly)
    requires |p| == |q|
    ensures |r| == |p| && forall i | 0 <= i < |r| :: r[i] == (p[i] != q[i])
  {
    seq(|p|, i requires 0 <= i < |p| => p[i] != q[i])
  }

  /** Long division: what is left of `p` after taking away multiples of the generator until fewer than
      nine coefficients are left. */
  function Remainder(p: Poly): Poly
    decreases |p|
  {
    if |p| <= 8 then p
    else if p[0] then Remainder(Add(p[..9], GENERATOR)[1..] + p[9..])
    else Remainder(p[1..])
  }

  /** Eight coefficients, that of x^7 first. */
  datatype Register = Register(c7: bool, c6: bool, c5: bool, c4: bool, c3: bool, c2: bool, c1: bool, c0: bool)

  const ZERO := Register(false, false, false, false, false, false, false, false)

  function ToPoly(q: Register): (p: Poly)
    ensures |p| == 8
  {
    [q.c7, q.c6, q.c5, q.c4, q.c3, q.c2, q.c1, q.c0]
  }

  /** A byte as eight coefficients. */
  function Coefficients(b: Byte): Register {
    Register(b & 0x80 != 0, b & 0x40 != 0, b & 0x20 != 0, b & 0x10 != 0,
             b & 0x08 != 0, b & 0x04 != 0, b & 0x02 != 0, b & 0x01 != 0)
  }

  /** A byte string as a polynomial. */
  function Message(s: seq<Byte>): (r: Poly)
    ensures |r| == 8 * |s|
  {
    if s == [] then [] else Message(s[..|s| - 1]) + ToPoly(Coefficients(s[|s| - 1]))
  }

  // ----- the register as a polynomial --------------------------------------------------------------------

  /** The register is multiplied by x; what overflows is taken away with the generator. */
  function Shifted(q: Register): Register { Fed(q, false) }

  /** One more coefficient enters the register at its low end. */
  function Fed(q: Register, bit: bool): Register {
    Register(q.c6, q.c5, q.c4, q.c3, q.c2, q.c1 != q.c7, q.c0 != q.c7, bit != q.c7)
  }

  function Plus(q: Register, r: Register): Register {
    Register(q.c7 != r.c7, q.c6 != r.c6, q.c5 != r.c5, q.c4 != r.c4,
             q.c3 != r.c3, q.c2 != r.c2, q.c1 != r.c1, q.c0 != r.c0)
  }

  function FedAll(q: Register, p: Poly): Register
    decreases |p|
  {
    if p == [] then q else FedAll(Fed(q, p[0]), p[1..])
  }

  function Shifted8(q: Register): Register {
    Shifted(Shifted(Shifted(Shifted(Shifted(Shifted(Shifted(Shifted(q))))))))
  }

  /** One step of the division is one step of the register. */
  lemma DivideStep(q: Register, bit: bool, rest: Poly)
    ensures Remainder(ToPoly(q) + ([bit] + rest)) == Remainder(ToPoly(Fed(q, bit)) + rest)
  {
    StepOf(ToPoly(q), bit, rest, ToPoly(Fed(q, bit)));
  }

  lemma StepOf(q: Poly, bit: bool, rest: Poly, next: Poly)
    requires |q| == 8
    requires next == [q[1], q[2], q[3], q[4], q[5], q[6] != q[0], q[7] != q[0], bit != q[0]]
    ensures Remainder(q + ([bit] + rest)) == Remainder(next + rest)
  {
    var p := q + ([bit] + rest);
    assert p[..9] == q + [bit] && p[9..] == rest;
    if q[0] {
      var sum := Add(q + [bit], GENERATOR);
      assert sum[1..] == next;
    } else {
      assert p[1..] == next + rest;
    }
  }

  lemma {:induction false} DivideAll(q: Register, p: Poly)
    ensures Remainder(ToPoly(q) + p) == ToPoly(FedAll(q, p))
    decreases |p|
  {
    if p == [] {
      assert ToPoly(q) + p == ToPoly(q);
    } else {
      assert p == [p[0]] + p[1..];
      DivideStep(q, p[0], p[1..]);
      DivideAll(Fed(q, p[0]), p[1..]);
    }
  }

  lemma {:induction false} FedCat(q: Register, p: Poly, r: Poly)
    ensures FedAll(q, p + r) == FedAll(FedAll(q, p), r)
    decreases |p|
  {
    if p == [] {
      assert p + r == r;
    } else {
      assert (p + r)[1..] == p[1..] + r;
      FedCat(Fed(q, p[0]), p[1..], r);
    }
  }

  /** Leading zeros do not matter. */
  lemma {:induction false} LeadingZeros(p: Poly, z: Poly)
    requires |p| >= 8 && forall i | 0 <= i < |z| :: !z[i]
    ensures Remainder(z + p) == Remainder(p)
    decreases |z|
  {
    if z == [] {
      assert z + p == p;
    } else {
      assert (z + p)[1..] == z[1..] + p;
      LeadingZeros(p, z[1..]);
    }
  }

  lemma FromZero(q: Register, p: Poly)
    requires |p| >= 8 && q == ZERO
    ensures Remainder(p) == ToPoly(FedAll(q, p))
  {
    LeadingZeros(p, ToPoly(q));
    DivideAll(q, p);
  }

  /** A coefficient that enters without anything overflowing. */
  function Entered(t: Register, bit: bool): Register {
    Register(t.c6, t.c5, t.c4, t.c3, t.c2, t.c1, t.c0, bit)
  }

  /** The register is linear. */
  lemma FedAdds(y: Register, t: Register, bit: bool)
    requires !t.c7
    ensures Fed(Plus(y, t), bit) == Plus(Shifted(y), Entered(t, bit))
  {
  }

  lemma FedTwo(q: Register, p: Poly)
    requires |p| >= 2
    ensures FedAll(q, p) == FedAll(Fed(Fed(q, p[0]), p[1]), p[2..])
  {
    assert p[1..][1..] == p[2..];
  }

  function Fed8(q: Register, r: Register): Register {
    Fed(Fed(Fed(Fed(Fed(Fed(Fed(Fed(q, r.c7), r.c6), r.c5), r.c4), r.c3), r.c2), r.c1), r.c0)
  }

  lemma FedEight(q: Register, r: Register)
    ensures FedAll(q, ToPoly(r)) == Fed8(q, r)
  {
    var p := ToPoly(r);
    FedTwo(q, p);
    var q2 := Fed(Fed(q, p[0]), p[1]);
    FedTwo(q2, p[2..]);
    var q4 := Fed(Fed(q2, p[2]), p[3]);
    assert p[2..][2..] == p[4..];
    FedTwo(q4, p[4..]);
    var q6 := Fed(Fed(q4, p[4]), p[5]);
    assert p[4..][2..] == p[6..];
    FedTwo(q6, p[6..]);
    assert p[6..][2..] == [];
  }

  function Shifted4(q: Register): Register { Shifted(Shifted(Shifted(Shifted(q)))) }

  function Entered4(t: Register, a: bool, b: bool, c: bool, d: bool): Register {
    Entered(Entered(Entered(Entered(t, a), b), c), d)
  }

  lemma FourAdd(q: Register, t: Register, a: bool, b: bool, c: bool, d: bool)
    requires !t.c7 && !t.c6 && !t.c5 && !t.c4
    ensures Fed(Fed(Fed(Fed(Plus(q, t), a), b), c), d) == Plus(Shifted4(q), Entered4(t, a, b, c, d))
  {
    var q1, t1 := Shifted(q), Entered(t, a);
    var q2, t2 := Shifted(q1), Entered(t1, b);
    FedAdds(q, t, a);
    FedAdds(q1, t1, b);
    FedAdds(q2, t2, c);
    FedAdds(Shifted(q2), Entered(t2, c), d);
  }

  /** Eight coefficients that are fed in come to stand on top of the shifted register. */
  lemma FedByte(q: Register, r: Register)
    ensures FedAll(q, ToPoly(r)) == Plus(Shifted8(q), r)
  {
    FedEight(q, r);
    PlusZero(q);
    FourAdd(q, ZERO, r.c7, r.c6, r.c5, r.c4);
    FourAdd(Shifted4(q), Entered4(ZERO, r.c7, r.c6, r.c5, r.c4), r.c3, r.c2, r.c1, r.c0);
  }

  lemma PlusZero(q: Register)
    ensures Plus(q, ZERO) == q && Plus(q, q) == ZERO
  {
  }

  // ----- the register as a byte ----------------------------------------------------------------------------

  /** Shifting a byte moves each coefficient up by one place. */
  lemma ShiftedBits(c: Byte)
    ensures var d := c << 1;
            && (d & 0x80 != 0 <==> c & 0x40 != 0) && (d & 0x40 != 0 <==> c & 0x20 != 0)
            && (d & 0x20 != 0 <==> c & 0x10 != 0) && (d & 0x10 != 0 <==> c & 0x08 != 0)
            && (d & 0x08 != 0 <==> c & 0x04 != 0) && (d & 0x04 != 0 <==> c & 0x02 != 0)
            && (d & 0x02 != 0 <==> c & 0x01 != 0) && d & 0x01 == 0
  {
  }

  /** Adding the generator without its highest power turns the three lowest coefficients around. */
  lemma AddedBits(d: Byte, e: Byte)
    requires d & 0x01 == 0 && e == d ^ 0x07
    ensures e & 0xF8 == d & 0xF8 && (e & 0x04 != 0 <==> d & 0x04 == 0) && (e & 0x02 != 0 <==> d & 0x02 == 0)
    ensures e & 0x01 != 0
  {
  }

  lemma HighBits(d: Byte, e: Byte)
    requires e & 0xF8 == d & 0xF8
    ensures e & 0x80 == d & 0x80 && e & 0x40 == d & 0x40 && e & 0x20 == d & 0x20 && e & 0x10 == d & 0x10
    ensures e & 0x08 == d & 0x08
  {
  }

  lemma ShiftBits(c: Byte)
    ensures Coefficients(Shift(c)) == Shifted(Coefficients(c))
  {
    var d := c << 1;
    ShiftedBits(c);
    if c & 0x80 != 0 {
      AddedBits(d, d ^ 0x07);
      HighBits(d, d ^ 0x07);
    }
  }

  lemma Shift8Bits(c: Byte)
    ensures Coefficients(Shift8(c)) == Shifted8(Coefficients(c))
  {
    var c1 := Shift(c);
    var c2 := Shift(c1);
    var c3 := Shift(c2);
    var c4 := Shift(c3);
    var c5 := Shift(c4);
    var c6 := Shift(c5);
    ShiftBits(c);
    ShiftBits(c1);
    ShiftBits(c2);
    ShiftBits(c3);
    ShiftBits(c4);
    ShiftBits(c5);
    ShiftBits(c6);
    ShiftBits(Shift(c6));
  }

  lemma XorBits(a: Byte, b: Byte)
    ensures Coefficients(a ^ b) == Plus(Coefficients(a), Coefficients(b))
  {
    XorHigh(a, b);
    XorLow(a, b);
    BitByBit(a, b, a ^ b);
  }

  lemma BitByBit(a: Byte, b: Byte, x: Byte)
    requires x & 0x80 != 0 <==> (a & 0x80 != 0) != (b & 0x80 != 0)
    requires x & 0x40 != 0 <==> (a & 0x40 != 0) != (b & 0x40 != 0)
    requires x & 0x20 != 0 <==> (a & 0x20 != 0) != (b & 0x20 != 0)
    requires x & 0x10 != 0 <==> (a & 0x10 != 0) != (b & 0x10 != 0)
    requires x & 0x08 != 0 <==> (a & 0x08 != 0) != (b & 0x08 != 0)
    requires x & 0x04 != 0 <==> (a & 0x04 != 0) != (b & 0x04 != 0)
    requires x & 0x02 != 0 <==> (a & 0x02 != 0) != (b & 0x02 != 0)
    requires x & 0x01 != 0 <==> (a & 0x01 != 0) != (b & 0x01 != 0)
    ensures Coefficients(x) == Plus(Coefficients(a), Coefficients(b))
  {
  }

  lemma XorHigh(a: Byte, b: Byte)
    ensures (a ^ b) & 0x80 != 0 <==> (a & 0x80 != 0) != (b & 0x80 != 0)
    ensures (a ^ b) & 0x40 != 0 <==> (a & 0x40 != 0) != (b & 0x40 != 0)
    ensures (a ^ b) & 0x20 != 0 <==> (a & 0x20 != 0) != (b & 0x20 != 0)
    ensures (a ^ b) & 0x10 != 0 <==> (a & 0x10 != 0) != (b & 0x10 != 0)
  {
  }

  lemma XorLow(a: Byte, b: Byte)
    ensures (a ^ b) & 0x08 != 0 <==> (a & 0x08 != 0) != (b & 0x08 != 0)
    ensures (a ^ b) & 0x04 != 0 <==> (a & 0x04 != 0) != (b & 0x04 != 0)
    ensures (a ^ b) & 0x02 != 0 <==> (a & 0x02 != 0) != (b & 0x02 != 0)
    ensures (a ^ b) & 0x01 != 0 <==> (a & 0x01 != 0) != (b & 0x01 != 0)
  {
  }

  lemma NoBits()
    ensures Coefficients(0) == ZERO
  {
  }

  // ----- what the CRC is ----------------------------------------------------------------------------------

  lemma Shifted8Zero()
    ensures Shifted8(ZERO) == ZERO
  {
    assert Shifted(ZERO) == ZERO;
  }

  /** After a byte string has been fed in, eight more shifts make its CRC. */
  lemma {:induction false} CrcFed(s: seq<Byte>)
    ensures Coefficients(Crc(s)) == Shifted8(FedAll(ZERO, Message(s)))
    decreases |s|
  {
    if s == [] {
      NoBits();
      Shifted8Zero();
    } else {
      var front, b := s[..|s| - 1], s[|s| - 1];
      CrcFed(front);
      FedCat(ZERO, Message(front), ToPoly(Coefficients(b)));
      FedByte(FedAll(ZERO, Message(front)), Coefficients(b));
      StepBits(Crc(front), b);
    }
  }

  lemma StepBits(crc: Byte, b: Byte)
    ensures Coefficients(CrcStep(crc, b)) == Shifted8(Plus(Coefficients(crc), Coefficients(b)))
  {
    XorBits(crc, b);
    Shift8Bits(crc ^ b);
  }

  /** The CRC of a byte string is the remainder of its polynomial times x^8, divided by
      x^8 + x^2 + x + 1. */
  lemma {:induction false} CrcIsRemainder(s: seq<Byte>)
    ensures ToPoly(Coefficients(Crc(s))) == Remainder(Message(s) + ToPoly(ZERO))
  {
    var fed := FedAll(ZERO, Message(s));
    CrcFed(s);
    FromZero(ZERO, Message(s) + ToPoly(ZERO));
    FedCat(ZERO, Message(s), ToPoly(ZERO));
    FedByte(fed, ZERO);
    PlusZero(Shifted8(fed));
  }

  /** With its CRC behind it a byte string is a multiple of the generator. */
  lemma {:induction false} WithCrcDivisible(s: seq<Byte>)
    ensures Remainder(Message(s + [Crc(s)])) == ToPoly(ZERO)
  {
    var fed, t, c := FedAll(ZERO, Message(s)), s + [Crc(s)], Coefficients(Crc(s));
    assert t[..|t| - 1] == s;
    CrcFed(s);
    FromZero(ZERO, Message(t));
    FedCat(ZERO, Message(s), ToPoly(c));
    FedByte(fed, c);
    PlusZero(c);
  }
}
