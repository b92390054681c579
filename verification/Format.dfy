/** rt_vsnprintf and print_number of rt-thread/src/kservice.c, as configured here: precision is
    compiled in (RT_PRINTF_PRECISION), the 0x prefix and long long are not.

    The first half says what text a format and its arguments stand for, without any buffer.  The
    second half is the code, which writes through a pair of pointers and may run past the end. */
module Format {

  const TWO32: nat := 0x1_0000_0000
  const TWO31: nat := 0x8000_0000

  type Word = x: nat | x < TWO32

  /** The variable arguments: each position can be read as a 32-bit word or as a string pointer,
      None being the null pointer. */
  datatype Text = Null | Str(s: string)
  datatype Args = Args(word: nat -> Word, text: nat -> Text)

  datatype Flags = Flags(left: bool, plus: bool, space: bool, zero: bool)

  function Signed(w: Word): int { if w < TWO31 then w else w - TWO32 }

  /** *fmt, with the terminator behind the last character. */
  function At(fmt: string, i: nat): char { if i < |fmt| then fmt[i] else '\0' }

  // ----- numbers ---------------------------------------------------------------------------------

  function DigitChar(d: nat, large: bool): char
    requires d < 16
  {
    if d < 10 then '0' + d as char else (if large then 'A' else 'a') + (d - 10) as char
  }

  /** `divide` splits by 10, or else by 16 whatever the base. */
  function Radix(base: nat): nat { if base == 10 then 10 else 16 }

  /** Most significant digit first; zero has no digits here. */
  function Digits(n: nat, base: nat, large: bool): string {
    if n == 0 then "" else Digits(n / Radix(base), base, large) + [DigitChar(n % Radix(base), large)]
  }

  function Numeral(n: nat, base: nat, large: bool): (r: string)
    ensures |r| > 0
  {
    if n == 0 then "0" else Digits(n, base, large)
  }

  function Fill(c: char, n: int): (r: string)
    ensures |r| == if n > 0 then n else 0
    ensures forall k | 0 <= k < |r| :: r[k] == c
  {
    seq(if n > 0 then n else 0, _ => c)
  }

  function Max(a: int, b: int): int { if a > b then a else b }

  function Magnitude(num: Word, signed: bool): nat {
    if signed && num >= TWO31 then TWO32 - num else num
  }

  function SignText(num: Word, signed: bool, f: Flags): string {
    if !signed then "" else if num >= TWO31 then "-" else if f.plus then "+" else if f.space then " " else ""
  }

  /** Padding, sign, padding zeros, zeros up to the precision, digits, padding: the room left over
      in the field is made up in exactly one place.  A precision of zero hides the digits of every
      number, not only of zero. */
  function Assemble(sign: string, digits: string, width: int, precision: int, f: Flags): string {
    var least := Max(|digits|, precision);
    var room := width - least - |sign|;
    var zeros, shown := Fill('0', least - |digits|), Shown(digits, precision);
    if f.left then Join("", sign, "", zeros, shown, Fill(' ', room))
    else if f.zero then Join("", sign, Fill('0', room), zeros, shown, "")
    else Join(Fill(' ', room), sign, "", zeros, shown, "")
  }

  function Shown(digits: string, precision: int): string { if precision != 0 then digits else "" }

  function Join(a: string, b: string, c: string, d: string, e: string, f: string): string {
    a + b + c + d + e + f
  }

  function NumberText(num: Word, base: nat, width: int, precision: int, f: Flags, signed: bool, large: bool): string {
    Assemble(SignText(num, signed, f), Numeral(Magnitude(num, signed), base, large), width, precision, f)
  }

  // ----- one conversion ------------------------------------------------------------------------------

  /** What stands between '%' and the conversion character at `at`; `arg` arguments are used up. */
  datatype Spec = Spec(flags: Flags, width: int, precision: int, qualifier: char, at: nat, arg: nat)

  predicate IsFlag(c: char) { c == '-' || c == '+' || c == ' ' || c == '#' || c == '0' }

  function AddFlag(f: Flags, c: char): Flags {
    if c == '-' then f.(left := true) else if c == '+' then f.(plus := true)
    else if c == ' ' then f.(space := true) else if c == '0' then f.(zero := true) else f
  }

  function TakeFlags(fmt: string, i: nat, f: Flags): (r: (Flags, nat))
    ensures r.1 >= i && (i <= |fmt| ==> r.1 <= |fmt|) && !IsFlag(At(fmt, r.1))
    decreases |fmt| - i
  {
    if IsFlag(At(fmt, i)) then TakeFlags(fmt, i + 1, AddFlag(f, At(fmt, i))) else (f, i)
  }

  predicate IsDigit(c: char) { '0' <= c <= '9' }

  function TakeInt(fmt: string, i: nat, n: nat): (r: (nat, nat))
    ensures r.1 >= i && (i <= |fmt| ==> r.1 <= |fmt|)
    decreases |fmt| - i
  {
    if IsDigit(At(fmt, i)) then TakeInt(fmt, i + 1, n * 10 + (At(fmt, i) - '0') as nat) else (n, i)
  }

  /** Field width: flags, width, position, arguments used. */
  function TakeWidth(fmt: string, i: nat, f: Flags, args: Args, arg: nat): (r: Spec)
    ensures i <= r.at && (i <= |fmt| ==> r.at <= |fmt|)
  {
    if IsDigit(At(fmt, i)) then
      var (n, j) := TakeInt(fmt, i, 0);
      Spec(f, n, -1, '\0', j, arg)
    else if At(fmt, i) == '*' then
      var w := Signed(args.word(arg));
      if w < 0 then Spec(f.(left := true), -w, -1, '\0', i + 1, arg + 1) else Spec(f, w, -1, '\0', i + 1, arg + 1)
    else Spec(f, -1, -1, '\0', i, arg)
  }

  function TakePrecision(fmt: string, s: Spec, args: Args): (r: Spec)
    ensures s.at <= r.at && (s.at <= |fmt| ==> r.at <= |fmt|)
  {
    if At(fmt, s.at) != '.' then s
    else if IsDigit(At(fmt, s.at + 1)) then
      var (n, j) := TakeInt(fmt, s.at + 1, 0);
      s.(precision := n, at := j)
    else if At(fmt, s.at + 1) == '*' then
      s.(precision := Max(Signed(args.word(s.arg)), 0), at := s.at + 2, arg := s.arg + 1)
    else s.(precision := 0, at := s.at + 1)
  }

  function TakeQualifier(fmt: string, s: Spec): (r: Spec)
    ensures s.at <= r.at && (s.at <= |fmt| ==> r.at <= |fmt|)
  {
    var c := At(fmt, s.at);
    if c == 'h' || c == 'l' then s.(qualifier := c, at := s.at + 1) else s
  }

  /** The whole specification behind the '%' at `i`. */
  function TakeSpec(fmt: string, i: nat, args: Args, arg: nat): (r: Spec)
    requires i < |fmt|
    ensures i < r.at <= |fmt|
  {
    var (f, j) := TakeFlags(fmt, i + 1, Flags(false, false, false, false));
    TakeQualifier(fmt, TakePrecision(fmt, TakeWidth(fmt, j, f, args, arg), args))
  }

  /** `num` as it is handed to print_number. */
  function ArgNumber(w: Word, qualifier: char, signed: bool): Word {
    if qualifier == 'h' then
      var u := w % 0x10000;
      if signed && u >= 0x8000 then u + (TWO32 - 0x10000) else u
    else w
  }

  function CharText(c: char, width: int, f: Flags): string {
    Fill(' ', if f.left then 0 else width - 1) + [c] + Fill(' ', if f.left then width - 1 else 0)
  }

  /** A width shorter than the string cuts it; so does a positive precision. */
  function StringText(t: Text, width: int, precision: int, f: Flags): string {
    var s := if t.Null? then "(NULL)" else t.s;
    var len := CutLength(s, width, precision);
    Between(Fill(' ', if f.left then 0 else width - len), s[..len], Fill(' ', if f.left then width - len else 0))
  }

  function CutLength(s: string, width: int, precision: int): (len: nat)
    ensures len <= |s|
  {
    var full := CLength(s);
    var len := if 0 <= width < full then width else full;
    if precision > 0 && len > precision then precision else len
  }

  function Between(a: string, s: string, b: string): string { a + s + b }

  /** strlen */
  function CLength(s: string): (n: nat)
    ensures n <= |s| && (forall k | 0 <= k < n :: s[k] != '\0') && (n < |s| ==> s[n] == '\0')
  {
    if s == "" || s[0] == '\0' then 0 else 1 + CLength(s[1..])
  }

  datatype Piece = Piece(text: string, next: nat, arg: nat)

  function Convert(fmt: string, s: Spec, args: Args): (p: Piece)
    requires s.at <= |fmt|
    ensures s.at <= p.next <= |fmt| && (s.at < |fmt| && fmt[s.at] != '\0' ==> p.next == s.at + 1)
    ensures p.next == s.at ==> At(fmt, s.at) == '\0'
  {
    var c := At(fmt, s.at);
    if c == '\0' then Piece("%", s.at, s.arg)
    else if c == 'c' then Piece(CharText((args.word(s.arg) % 256) as char, s.width, s.flags), s.at + 1, s.arg + 1)
    else if c == 's' then Piece(StringText(args.text(s.arg), s.width, s.precision, s.flags), s.at + 1, s.arg + 1)
    else if c == 'p' then
      Piece(if s.width == -1 then NumberText(args.word(s.arg), 16, 8, s.precision, s.flags.(zero := true), false, false)
            else NumberText(args.word(s.arg), 16, s.width, s.precision, s.flags, false, false), s.at + 1, s.arg + 1)
    else if c == '%' then Piece("%", s.at + 1, s.arg)
    else if IsNumeric(c) then
      Piece(NumberText(ArgNumber(args.word(s.arg), s.qualifier, IsSigned(c)), BaseOf(c), s.width, s.precision, s.flags,
                       IsSigned(c), c == 'X'), s.at + 1, s.arg + 1)
    else Piece(['%', c], s.at + 1, s.arg)
  }

  predicate IsNumeric(c: char) { c == 'o' || c == 'x' || c == 'X' || c == 'd' || c == 'i' || c == 'u' }
  predicate IsSigned(c: char) { c == 'd' || c == 'i' }
  function BaseOf(c: char): nat { if c == 'o' then 8 else if c == 'x' || c == 'X' then 16 else 10 }

  /** The unbounded output: what a large enough buffer would hold. */
  function Output(fmt: string, i: nat, args: Args, arg: nat): string
    requires i <= |fmt|
    decreases |fmt| - i
  {
    if At(fmt, i) == '\0' then ""
    else if fmt[i] != '%' then [fmt[i]] + Output(fmt, i + 1, args, arg)
    else
      var p := Convert(fmt, TakeSpec(fmt, i, args, arg), args);
      p.text + Output(fmt, p.next, args, p.arg)
  }

  /** How many pad characters print_number's three loops emit, in order. */
  datatype Pads = Pads(lead: int, mid: int, trail: int)

  function Widths(size: int, sign: bool, zero: bool, left: bool): Pads {
    var s := if sign then 1 else 0;
    var lead := if zero || left then 0 else if sign && size > 0 then size - 1 else size;
    var size1 := if zero || left then size else if lead > 0 then -1 else lead - 1;
    var size2 := size1 - s;
    var mid := if left then 0 else size2;
    Pads(lead, mid, if left then size2 else if mid > 0 then -1 else mid - 1)
  }

  /** Of the three pad loops exactly one can be active, and it makes up the room that is left. */
  lemma {:induction false} PadsAreRoom(width: int, sign: string, zero: bool, left: bool)
    requires |sign| <= 1 && !(zero && left)
    ensures var w, room := Widths(width, sign != "", zero, left), width - |sign|;
            && Fill(' ', w.lead) == (if left || zero then "" else Fill(' ', room))
            && Fill(if zero then '0' else ' ', w.mid) == (if zero then Fill('0', room) else "")
            && Fill(' ', w.trail) == (if left then Fill(' ', room) else "")
  {
  }

  lemma Regroup(o: string, a: string, b: string, c: string, d: string, e: string, f: string)
    ensures o + a + b + c + d + e + f == o + Join(a, b, c, d, e, f)
  {
  }

  lemma BetweenAppended(o: string, a: string, s: string, b: string)
    ensures o + a + s + b == o + Between(a, s, b)
  {
  }

  lemma JoinIsAssemble(sign: string, digits: string, width: int, precision: int, f: Flags, w: Pads)
    requires |sign| <= 1
    requires w == Widths(width - Max(|digits|, precision), sign != "", f.zero && !f.left, f.left)
    ensures Join(Fill(' ', w.lead), sign, Fill(if f.zero && !f.left then '0' else ' ', w.mid),
                 Fill('0', Max(|digits|, precision) - |digits|), Shown(digits, precision), Fill(' ', w.trail))
            == Assemble(sign, digits, width, precision, f)
  {
    PadsAreRoom(width - Max(|digits|, precision), sign, f.zero && !f.left, f.left);
  }

  lemma NumberAppended(o: string, sign: string, digits: string, width: int, precision: int, f: Flags)
    requires |sign| <= 1
    ensures var least, zero := Max(|digits|, precision), f.zero && !f.left;
            var w := Widths(width - least, sign != "", zero, f.left);
            o + Fill(' ', w.lead) + sign + Fill(if zero then '0' else ' ', w.mid) + Fill('0', least - |digits|)
            + Shown(digits, precision) + Fill(' ', w.trail)
            == o + Assemble(sign, digits, width, precision, f)
  {
    var least, zero := Max(|digits|, precision), f.zero && !f.left;
    var w := Widths(width - least, sign != "", zero, f.left);
    JoinIsAssemble(sign, digits, width, precision, f, w);
    Regroup(o, Fill(' ', w.lead), sign, Fill(if zero then '0' else ' ', w.mid), Fill('0', least - |digits|),
            Shown(digits, precision), Fill(' ', w.trail));
  }

  lemma Assoc(o: string, p: string, q: string)
    ensures o + (p + q) == (o + p) + q
  {
  }

  // ----- the code ------------------------------------------------------------------------------------

  /** Memory after the text `out` has been put at `buf`, cut off at `end`. */
  ghost predicate Wrote(now: seq<char>, was: seq<char>, buf: nat, end: nat, out: string) {
    |now| == |was| && forall k {:trigger now[k]} | 0 <= k < |now| ::
      now[k] == if buf <= k < end && k < buf + |out| then out[k - buf] else was[k]
  }

  /** The pair str/end of the source: every character advances `str`, but only those in front of
      `end` are stored. */
  class Sink {
    const mem: array<char>
    const buf: nat
    const end: nat
    var str: nat
    ghost const was: seq<char>
    ghost var out: string

    ghost predicate Valid()
      reads this, mem
    {
      buf <= end <= mem.Length && str == buf + |out| && Wrote(mem[..], was, buf, end, out)
    }

    constructor (mem: array<char>, buf: nat, end: nat)
      requires buf <= end <= mem.Length
      ensures Valid() && out == "" && this.mem == mem && this.buf == buf && this.end == end && was == mem[..]
    {
      this.mem, this.buf, this.end, str := mem, buf, end, buf;
      was, out := mem[..], "";
    }

    method Put(c: char)
      requires Valid()
      modifies this, mem
      ensures Valid() && out == old(out) + [c]
    {
      if str < end { mem[str] := c; }
      str := str + 1;
      out := out + [c];
    }

    /** The terminator, on the last place if the text did not fit. */
    method Terminate()
      requires Valid() && buf < end
      modifies mem
      ensures forall k | 0 <= k < mem.Length && !(buf <= k < end) :: mem[k] == was[k]
      ensures var n := Min(|out|, end - buf - 1);
              mem[buf..buf + n] == out[..n] && mem[buf + n] == '\0'
    {
      if str < end { mem[str] := '\0'; } else { mem[end - 1] := '\0'; }
    }

    /** while (n-- > 0) put c */
    method Repeat(c: char, n: int)
      requires Valid()
      modifies this, mem
      ensures Valid() && out == old(out) + Fill(c, n)
    {
      var left := n;
      while left > 0
        invariant Valid() && out + Fill(c, left) == old(out) + Fill(c, n)
      {
        FillStep(out, c, left);
        Put(c);
        left := left - 1;
      }
      assert out + "" == out;
    }

    /** Characters of `s` from the front. */
    method Copy(s: string, len: nat)
      requires Valid() && len <= |s|
      modifies this, mem
      ensures Valid() && out == old(out) + s[..len]
    {
      for i := 0 to len
        invariant Valid() && out == old(out) + s[..i]
      {
        assert s[..i + 1] == s[..i] + [s[i]];
        Put(s[i]);
      }
    }

    /** The part of print_number in front of the digits.  `size` counts down through its loops, and
        a loop that ran leaves it at -1. */
    method PutFront(width: int, sign: string, zero: bool, left: bool) returns (size: int)
      requires Valid() && |sign| <= 1
      modifies this, mem
      ensures Valid()
      ensures var w := Widths(width, sign != "", zero, left);
              size == w.trail && out == old(out) + Fill(' ', w.lead) + sign + Fill(if zero then '0' else ' ', w.mid)
    {
      size := width;
      if !(zero || left) {
        if sign != "" && size > 0 { size := size - 1; }
        Repeat(' ', size);
        size := if size > 0 then -1 else size - 1;
      }
      assert out == old(out) + Fill(' ', Widths(width, sign != "", zero, left).lead);
      Copy(sign, |sign|);
      size := size - |sign|;
      if !left {
        Repeat(if zero then '0' else ' ', size);
        size := if size > 0 then -1 else size - 1;
      }
    }

    /** print_number: digits go backwards into a small array, then out in order. */
    method PrintNumber(num: Word, base: nat, width: int, precision: int, f: Flags, signed: bool, large: bool)
      requires Valid()
      modifies this, mem
      ensures Valid() && out == old(out) + NumberText(num, base, width, precision, f, signed, large)
    {
      var sign := SignText(num, signed, f);
      var tmp, i := Split(Magnitude(num, signed), base, large);
      ghost var digits := Numeral(Magnitude(num, signed), base, large);
      var least := if i > precision then i else precision;
      var zero := f.zero && !f.left;
      assert least == Max(|digits|, precision) && least - i == Max(|digits|, precision) - |digits|;
      var size := PutFront(width - least, sign, zero, f.left);
      PutRest(least - i, tmp, i, precision, digits, size);
      NumberAppended(old(out), sign, digits, width, precision, f);
    }

    method PutRest(zeros: int, tmp: array<char>, n: nat, precision: int, ghost digits: string, trail: int)
      requires Valid() && n <= tmp.Length && n == |digits| && tmp != mem
      requires forall k | 0 <= k < n :: tmp[k] == digits[n - 1 - k]
      modifies this, mem
      ensures Valid() && out == old(out) + Fill('0', zeros) + Shown(digits, precision) + Fill(' ', trail)
    {
      Repeat('0', zeros);
      PutShown(tmp, n, precision, digits);
      Repeat(' ', trail);
    }

    method PutShown(tmp: array<char>, n: nat, precision: int, ghost digits: string)
      requires Valid() && n <= tmp.Length && n == |digits| && tmp != mem
      requires forall k | 0 <= k < n :: tmp[k] == digits[n - 1 - k]
      modifies this, mem
      ensures Valid() && out == old(out) + Shown(digits, precision)
    {
      if precision != 0 { PutBackwards(tmp, n, digits); } else { assert out + "" == out; }
    }

    /** while (i-- > 0) put tmp[i] */
    method PutBackwards(tmp: array<char>, n: nat, ghost digits: string)
      requires Valid() && n <= tmp.Length && n == |digits| && tmp != mem
      requires forall k | 0 <= k < n :: tmp[k] == digits[n - 1 - k]
      modifies this, mem
      ensures Valid() && out == old(out) + digits
    {
      var i := n;
      while i > 0
        invariant 0 <= i <= n && Valid() && out == old(out) + digits[..n - i]
        invariant forall k | 0 <= k < n :: tmp[k] == digits[n - 1 - k]
      {
        i := i - 1;
        assert digits[..n - i] == digits[..n - i - 1] + [digits[n - i - 1]];
        Put(tmp[i]);
      }
    }
  }

  lemma FillStep(out: string, c: char, n: int)
    requires n > 0
    ensures out + Fill(c, n) == (out + [c]) + Fill(c, n - 1)
  {
  }

  function Pow(b: nat, k: nat): (r: nat)
    ensures b > 0 ==> r > 0
  {
    if k == 0 then 1 else b * Pow(b, k - 1)
  }

  lemma DivBound(n: nat, b: nat, p: nat)
    requires b > 0 && n < b * p
    ensures n / b < p
  {
  }

  /** A 32-bit number has at most ten digits, so sixteen characters are enough. */
  lemma {:induction false} DigitsFit(n: nat, base: nat, large: bool, k: nat)
    requires n < Pow(Radix(base), k)
    ensures |Digits(n, base, large)| <= k
  {
    if n > 0 {
      var b := Radix(base);
      DivBound(n, b, Pow(b, k - 1));
      DigitsFit(n / b, base, large, k - 1);
    }
  }

  /** The digit loop of print_number: least significant digit first. */
  method Split(n: nat, base: nat, large: bool) returns (tmp: array<char>, i: nat)
    requires n < TWO32
    ensures fresh(tmp) && tmp.Length == 16 && i == |Numeral(n, base, large)| <= 16
    ensures forall k | 0 <= k < i :: tmp[k] == Numeral(n, base, large)[i - 1 - k]
  {
    tmp := new char[16];
    i := 0;
    if n == 0 {
      tmp[0] := '0';
      return tmp, 1;
    }
    ghost var all := Digits(n, base, large);
    assert |all| <= 10 by {
      assert Pow(10, 10) == 10_000_000_000 && Pow(16, 10) >= Pow(10, 10);
      DigitsFit(n, base, large, 10);
    }
    var num: nat := n;
    while num != 0
      invariant i + |Digits(num, base, large)| == |all| && Digits(num, base, large) == all[..|all| - i]
      invariant forall k | 0 <= k < i :: tmp[k] == all[|all| - 1 - k]
      decreases num
    {
      ghost var ds := Digits(num, base, large);
      assert ds[|ds| - 1] == DigitChar(num % Radix(base), large);
      tmp[i] := DigitChar(num % Radix(base), large);
      num := num / Radix(base);
      i := i + 1;
      assert Digits(num, base, large) == ds[..|ds| - 1];
    }
  }

  method ReadFlags(fmt: string, i: nat) returns (f: Flags, j: nat)
    requires i < |fmt|
    ensures (f, j) == TakeFlags(fmt, i + 1, Flags(false, false, false, false))
  {
    f, j := Flags(false, false, false, false), i + 1;
    while IsFlag(At(fmt, j))
      invariant TakeFlags(fmt, j, f) == TakeFlags(fmt, i + 1, Flags(false, false, false, false))
      decreases |fmt| - j
    {
      f := AddFlag(f, fmt[j]);
      j := j + 1;
    }
  }

  /** skip_atoi */
  method ReadInt(fmt: string, i: nat) returns (n: nat, j: nat)
    ensures (n, j) == TakeInt(fmt, i, 0)
  {
    n, j := 0, i;
    while IsDigit(At(fmt, j))
      invariant TakeInt(fmt, j, n) == TakeInt(fmt, i, 0)
      decreases |fmt| - j
    {
      n := n * 10 + (fmt[j] - '0') as nat;
      j := j + 1;
    }
  }

  method ReadWidth(fmt: string, i: nat, f: Flags, args: Args, arg: nat) returns (s: Spec)
    requires i <= |fmt|
    ensures s == TakeWidth(fmt, i, f, args, arg)
  {
    s := Spec(f, -1, -1, '\0', i, arg);
    if IsDigit(At(fmt, i)) {
      var n, k := ReadInt(fmt, i);
      s := s.(width := n, at := k);
    } else if At(fmt, i) == '*' {
      var w := Signed(args.word(arg));
      s := s.(width := w, at := i + 1, arg := arg + 1);
      if w < 0 { s := s.(width := -w, flags := f.(left := true)); }
    }
  }

  method ReadPrecision(fmt: string, width: Spec, args: Args) returns (s: Spec)
    requires width.at <= |fmt| && width.precision == -1
    ensures s == TakePrecision(fmt, width, args)
  {
    s := width;
    if At(fmt, s.at) == '.' {
      s := s.(at := s.at + 1);
      if IsDigit(At(fmt, s.at)) {
        var n, k := ReadInt(fmt, s.at);
        s := s.(precision := n, at := k);
      } else if At(fmt, s.at) == '*' {
        s := s.(precision := Signed(args.word(s.arg)), at := s.at + 1, arg := s.arg + 1);
      }
      if s.precision < 0 { s := s.(precision := 0); }
    }
  }

  method ReadSpec(fmt: string, i: nat, args: Args, arg: nat) returns (s: Spec)
    requires i < |fmt|
    ensures s == TakeSpec(fmt, i, args, arg)
  {
    var f, j := ReadFlags(fmt, i);
    s := ReadWidth(fmt, j, f, args, arg);
    s := ReadPrecision(fmt, s, args);
    if At(fmt, s.at) == 'h' || At(fmt, s.at) == 'l' {
      s := s.(qualifier := At(fmt, s.at), at := s.at + 1);
    }
  }

  method StrLen(s: string, width: int, precision: int) returns (len: nat)
    ensures len == CutLength(s, width, precision)
  {
    len := 0;
    while len != width && At(s, len) != '\0'
      invariant len <= CLength(s) && (width >= 0 ==> len <= width)
      decreases |s| - len
    {
      len := len + 1;
    }
    if precision > 0 && len > precision { len := precision; }
  }

  method PutChar(sink: Sink, c: char, width: int, f: Flags)
    requires sink.Valid()
    modifies sink, sink.mem
    ensures sink.Valid() && sink.out == old(sink.out) + CharText(c, width, f)
  {
    if !f.left { sink.Repeat(' ', width - 1); }
    sink.Put(c);
    if f.left { sink.Repeat(' ', width - 1); }
  }

  method PutString(sink: Sink, t: Text, width: int, precision: int, f: Flags)
    requires sink.Valid()
    modifies sink, sink.mem
    ensures sink.Valid() && sink.out == old(sink.out) + StringText(t, width, precision, f)
  {
    var str := if t.Null? then "(NULL)" else t.s;
    var len := StrLen(str, width, precision);
    ghost var o, a := sink.out, Fill(' ', if f.left then 0 else width - len);
    ghost var b := Fill(' ', if f.left then width - len else 0);
    sink.Repeat(' ', if f.left then 0 else width - len);
    sink.Copy(str, len);
    sink.Repeat(' ', if f.left then width - len else 0);
    BetweenAppended(o, a, str[..len], b);
  }

  /** The switch of rt_vsnprintf. */
  method PutPiece(sink: Sink, fmt: string, s: Spec, args: Args) returns (next: nat, arg: nat)
    requires sink.Valid() && s.at <= |fmt|
    modifies sink, sink.mem
    ensures sink.Valid()
    ensures var p := Convert(fmt, s, args);
            sink.out == old(sink.out) + p.text && next == p.next && arg == p.arg
  {
    var c := At(fmt, s.at);
    next, arg := s.at + 1, s.arg + 1;
    if c == '\0' {
      sink.Put('%');
      next, arg := s.at, s.arg;
    } else if c == 'c' {
      PutChar(sink, (args.word(s.arg) % 256) as char, s.width, s.flags);
    } else if c == 's' {
      PutString(sink, args.text(s.arg), s.width, s.precision, s.flags);
    } else if c == 'p' {
      var width, f := s.width, s.flags;
      if width == -1 { width, f := 8, f.(zero := true); }
      sink.PrintNumber(args.word(s.arg), 16, width, s.precision, f, false, false);
    } else if c == '%' {
      sink.Put('%');
      arg := s.arg;
    } else if IsNumeric(c) {
      var num := ArgNumber(args.word(s.arg), s.qualifier, IsSigned(c));
      sink.PrintNumber(num, BaseOf(c), s.width, s.precision, s.flags, IsSigned(c), c == 'X');
    } else {
      sink.Copy(['%', c], 2);
      arg := s.arg;
    }
  }

  /** One turn of the loop over the format. */
  method Round(sink: Sink, fmt: string, i: nat, args: Args, arg: nat) returns (next: nat, argNext: nat)
    requires sink.Valid() && i < |fmt| && fmt[i] != '\0'
    modifies sink, sink.mem
    ensures sink.Valid() && i < next <= |fmt|
    ensures old(sink.out) + Output(fmt, i, args, arg) == sink.out + Output(fmt, next, args, argNext)
  {
    ghost var o := sink.out;
    if fmt[i] != '%' {
      sink.Put(fmt[i]);
      next, argNext := i + 1, arg;
      Assoc(o, [fmt[i]], Output(fmt, next, args, arg));
    } else {
      var s := ReadSpec(fmt, i, args, arg);
      next, argNext := PutPiece(sink, fmt, s, args);
      ghost var p := Convert(fmt, s, args);
      Assoc(o, p.text, Output(fmt, p.next, args, p.arg));
    }
  }

  /** `end` as the code computes it: an end beyond the address space is pulled back. */
  function EndOf(buf: nat, size: nat): nat {
    if (buf + size) % TWO32 < buf then TWO32 - 1 else (buf + size) % TWO32
  }

  function Min(a: nat, b: nat): nat { if a < b then a else b }

  /** The loop over the format. */
  method Produce(sink: Sink, fmt: string, args: Args)
    requires sink.Valid() && sink.out == ""
    modifies sink, sink.mem
    ensures sink.Valid() && sink.out == Output(fmt, 0, args, 0)
  {
    var i, arg := 0, 0;
    ghost var all := Output(fmt, 0, args, 0);
    assert sink.out + all == all;
    while At(fmt, i) != '\0'
      invariant i <= |fmt| && sink.Valid()
      invariant sink.out + Output(fmt, i, args, arg) == all
      decreases |fmt| - i
    {
      i, arg := Round(sink, fmt, i, args, arg);
    }
    assert sink.out + "" == sink.out;
  }

  /** For every format, argument list and size: the return value is the length of the unbounded
      output, whatever the size; with room for at least one character the buffer holds the longest
      prefix that fits, then a terminator; and nothing outside the buffer is written. */
  method Vsnprintf(mem: array<char>, buf: nat, size: nat, fmt: string, args: Args) returns (ret: nat)
    requires mem.Length == TWO32 && buf < TWO32 && size < TWO32
    modifies mem
    ensures ret == |Output(fmt, 0, args, 0)|
    ensures var end := EndOf(buf, size);
            && (forall k | 0 <= k < mem.Length && !(buf <= k < end) :: mem[k] == old(mem[k]))
            && (buf < end ==>
                  var n := Min(ret, end - buf - 1);
                  mem[buf..buf + n] == Output(fmt, 0, args, 0)[..n] && mem[buf + n] == '\0')
  {
    var end := EndOf(buf, size);
    var sink := new Sink(mem, buf, end);
    Produce(sink, fmt, args);
    ret := sink.str - buf;
    if end - buf > 0 {
      sink.Terminate();
    }
  }
}
