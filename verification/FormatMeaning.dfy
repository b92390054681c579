/** What formatted text means to its reader: numerals read back to the number, each conversion character to
    its base and sign, and a specification to the flags, width and precision it was written with. */
module FormatMeaning {
  import opened Format
  import opened FlashText

  // ----- numerals -----------------------------------------------------------------------------------------

  /** The value of a digit, 16 for any other character. */
  function DigitValue(c: char): nat {
    if '0' <= c <= '9' then (c - '0') as nat
    else if 'a' <= c <= 'f' then (c - 'a') as nat + 10
    else if 'A' <= c <= 'F' then (c - 'A') as nat + 10
    else 16
  }

  /** A string of digits read to the base `radix`. */
  function Value(s: string, radix: nat): nat {
    if s == "" then 0 else Value(s[..|s| - 1], radix) * radix + DigitValue(s[|s| - 1])
  }

  /** Only digits of the base, with small or capital letters throughout. */
  predicate AllDigits(s: string, radix: nat, large: bool) {
    forall c | c in s :: DigitValue(c) < radix && ('a' <= c <= 'f' ==> !large) && ('A' <= c <= 'F' ==> large)
  }

  /** A numeral that reads as `n` and has no leading zero. */
  predicate Writes(s: string, n: nat, radix: nat, large: bool) {
    && s != "" && AllDigits(s, radix, large) && Value(s, radix) == n
    && (|s| > 1 ==> s[0] != '0')
  }

  lemma DigitReads(d: nat, large: bool)
    requires d < 16
    ensures DigitValue(DigitChar(d, large)) == d
    ensures var c := DigitChar(d, large);
            ('a' <= c <= 'f' ==> !large) && ('A' <= c <= 'F' ==> large) && (d > 0 ==> c != '0')
  {
  }

  function RadixOf(base: nat): nat { if base == 10 then 10 else 16 }

  lemma {:induction false} DigitsRead(n: nat, base: nat, large: bool)
    ensures var s := Digits(n, base, large);
            && AllDigits(s, RadixOf(base), large) && Value(s, RadixOf(base)) == n
            && (s != "" ==> s[0] != '0') && (n > 0 ==> s != "")
    decreases n
  {
    if n > 0 {
      var r := RadixOf(base);
      DigitsRead(n / r, base, large);
      OneMoreDigit(Digits(n / r, base, large), n / r, n % r, r, large);
      assert n == n / r * r + n % r;
    }
  }

  lemma OneMoreDigit(front: string, m: nat, d: nat, radix: nat, large: bool)
    requires (radix == 10 || radix == 16) && d < radix
    requires AllDigits(front, radix, large) && Value(front, radix) == m
    requires (front != "" ==> front[0] != '0') && (m > 0 ==> front != "") && (m > 0 || d > 0)
    ensures var s := front + [DigitChar(d, large)];
            AllDigits(s, radix, large) && Value(s, radix) == m * radix + d && s[0] != '0'
  {
    DigitReads(d, large);
    var s := front + [DigitChar(d, large)];
    assert s[..|s| - 1] == front;
    assert front == "" ==> m == 0;
  }

  /** Numerals are decimal to base 10, and hexadecimal to any other base, octal included. */
  lemma NumeralReads(n: nat, base: nat, large: bool)
    ensures Writes(Numeral(n, base, large), n, if base == 10 then 10 else 16, large)
  {
    if n == 0 {
      assert "0"[..0] == "";
    } else {
      DigitsRead(n, base, large);
    }
  }

  // ----- conversions --------------------------------------------------------------------------------------

  /** The number an argument stands for: with 'h' only its low half, with a sign if it is to have one. */
  function NumberOf(w: Word, half: bool, signed: bool): int {
    var u: int := if half then w % 0x10000 else w;
    var top: int := if half then 0x10000 else 0x1_0000_0000;
    if signed && u >= top / 2 then u - top else u
  }

  function SignOf(n: int, signed: bool, f: Flags): string {
    if n < 0 then "-" else if !signed then "" else if f.plus then "+" else if f.space then " " else ""
  }

  /** The text is that number, laid out as the specification says. */
  ghost predicate Shows(text: string, n: int, signed: bool, radix: nat, large: bool, s: Spec) {
    exists digits: string | Writes(digits, if n < 0 then -n else n, radix, large) ::
      LaidOut(text, SignOf(n, signed, s.flags), digits, s.width, s.precision, s.flags)
  }

  /** Sign, zeros, digits, filled up to the width: with blanks behind for '-', with zeros after the sign for
      '0', with blanks in front otherwise.  A precision asks for at least so many digits; 0 hides them. */
  ghost predicate LaidOut(text: string, sign: string, digits: string, width: int, precision: int, f: Flags) {
    exists a: nat, z: nat, b: nat ::
      && text == Blanks(a) + sign + Zeros(z) + (if precision == 0 then "" else digits) + Blanks(b)
      && var least := if precision > |digits| then precision else |digits|;
         var room := if width > least + |sign| then width - least - |sign| else 0;
         && a == (if f.left || f.zero then 0 else room) && b == (if f.left then room else 0)
         && z == least - |digits| + (if f.zero && !f.left then room else 0)
  }

  function Blanks(n: nat): string { seq(n, _ => ' ') }

  function Zeros(n: nat): string { seq(n, _ => '0') }

  lemma FillIs(n: int)
    ensures Fill(' ', n) == Blanks(if n > 0 then n else 0) && Fill('0', n) == Zeros(if n > 0 then n else 0)
  {
  }

  lemma ZerosAdd(m: nat, n: nat)
    ensures Zeros(m) + Zeros(n) == Zeros(m + n)
  {
  }

  lemma AssembleLaysOut(sign: string, digits: string, width: int, precision: int, f: Flags)
    ensures LaidOut(Assemble(sign, digits, width, precision, f), sign, digits, width, precision, f)
  {
    var least := Max(|digits|, precision);
    var room := width - least - |sign|;
    var r: nat := if room > 0 then room else 0;
    var extra, shown := least - |digits|, Shown(digits, precision);
    FillIs(room);
    FillIs(extra);
    ZerosAdd(r, extra);
    var text := Assemble(sign, digits, width, precision, f);
    if f.left {
      LeftForm(sign, Zeros(extra), shown, Blanks(r));
      assert text == Blanks(0) + sign + Zeros(extra) + shown + Blanks(r);
    } else if f.zero {
      ZeroForm(sign, Zeros(r), Zeros(extra), shown);
      assert text == Blanks(0) + sign + Zeros(r + extra) + shown + Blanks(0);
    } else {
      RightForm(Blanks(r), sign, Zeros(extra), shown);
      assert text == Blanks(r) + sign + Zeros(extra) + shown + Blanks(0);
    }
  }

  lemma LeftForm(sign: string, z: string, d: string, b: string)
    ensures Join("", sign, "", z, d, b) == Blanks(0) + sign + z + d + b
  {
  }

  lemma ZeroForm(sign: string, y: string, z: string, d: string)
    ensures Join("", sign, y, z, d, "") == Blanks(0) + sign + (y + z) + d + Blanks(0)
  {
  }

  lemma RightForm(b: string, sign: string, z: string, d: string)
    ensures Join(b, sign, "", z, d, "") == b + sign + z + d + Blanks(0)
  {
  }

  function NumberPiece(w: Word, base: nat, half: bool, signed: bool, large: bool, s: Spec): string {
    NumberText(ArgNumber(w, if half then 'h' else '\0', signed), base, s.width, s.precision, s.flags, signed, large)
  }

  lemma NumberShows(w: Word, base: nat, half: bool, signed: bool, large: bool, s: Spec)
    ensures Shows(NumberPiece(w, base, half, signed, large, s), NumberOf(w, half, signed), signed,
                  if base == 10 then 10 else 16, large, s)
  {
    var num, n := ArgNumber(w, if half then 'h' else '\0', signed), NumberOf(w, half, signed);
    var digits := Numeral(Magnitude(num, signed), base, large);
    ArgIs(w, half, signed, s.flags);
    NumeralReads(Magnitude(num, signed), base, large);
    AssembleLaysOut(SignText(num, signed, s.flags), digits, s.width, s.precision, s.flags);
    assert Writes(digits, if n < 0 then -n else n, if base == 10 then 10 else 16, large);
  }

  lemma ArgIs(w: Word, half: bool, signed: bool, f: Flags)
    ensures var num, n := ArgNumber(w, if half then 'h' else '\0', signed), NumberOf(w, half, signed);
            Magnitude(num, signed) == (if n < 0 then -n else n) && SignText(num, signed, f) == SignOf(n, signed, f)
  {
  }

  /** What each numeric conversion prints. */
  lemma NumericMeans(fmt: string, s: Spec, args: Args)
    requires s.at < |fmt| && s.qualifier in {'\0', 'h', 'l'}
    ensures var c, p, w, half := fmt[s.at], Convert(fmt, s, args), args.word(s.arg), s.qualifier == 'h';
            && (c in {'d', 'i'} ==> Shows(p.text, NumberOf(w, half, true), true, 10, false, s))
            && (c == 'u' ==> Shows(p.text, NumberOf(w, half, false), false, 10, false, s))
            && (c in {'x', 'o'} ==> Shows(p.text, NumberOf(w, half, false), false, 16, false, s))
            && (c == 'X' ==> Shows(p.text, NumberOf(w, half, false), false, 16, true, s))
            && (c in {'d', 'i', 'u', 'x', 'o', 'X'} ==> p.next == s.at + 1 && p.arg == s.arg + 1)
  {
    var c, w, half := fmt[s.at], args.word(s.arg), s.qualifier == 'h';
    if c in {'d', 'i', 'u', 'x', 'o', 'X'} {
      NumberShows(w, BaseOf(c), half, c == 'd' || c == 'i', c == 'X', s);
      ConvertNumber(fmt, s, args);
    }
  }

  lemma ConvertNumber(fmt: string, s: Spec, args: Args)
    requires s.at < |fmt| && s.qualifier in {'\0', 'h', 'l'} && fmt[s.at] in {'d', 'i', 'u', 'x', 'o', 'X'}
    ensures var c, p, w, half := fmt[s.at], Convert(fmt, s, args), args.word(s.arg), s.qualifier == 'h';
            && p.text == NumberPiece(w, BaseOf(c), half, c == 'd' || c == 'i', c == 'X', s)
            && p.next == s.at + 1 && p.arg == s.arg + 1
  {
    var c := fmt[s.at];
    QualifierIs(args.word(s.arg), s.qualifier, c == 'd' || c == 'i');
    ConvertIs(fmt, s, args);
  }

  lemma ConvertIs(fmt: string, s: Spec, args: Args)
    requires s.at < |fmt| && IsNumeric(fmt[s.at])
    ensures var c := fmt[s.at];
            Convert(fmt, s, args)
            == Piece(NumberText(ArgNumber(args.word(s.arg), s.qualifier, IsSigned(c)), BaseOf(c), s.width, s.precision,
                                s.flags, IsSigned(c), c == 'X'), s.at + 1, s.arg + 1)
  {
  }

  lemma QualifierIs(w: Word, q: char, signed: bool)
    requires q in {'\0', 'h', 'l'}
    ensures ArgNumber(w, q, signed) == ArgNumber(w, if q == 'h' then 'h' else '\0', signed)
  {
  }

  /** What the other conversions print. */
  lemma OtherMeans(fmt: string, s: Spec, args: Args)
    requires s.at <= |fmt|
    ensures var c, p, w := At(fmt, s.at), Convert(fmt, s, args), args.word(s.arg);
            && (c == '\0' ==> p == Piece("%", s.at, s.arg))
            && (c == '%' ==> p == Piece("%", s.at + 1, s.arg))
            && (c == 'c' ==>
                  && p.next == s.at + 1 && p.arg == s.arg + 1
                  && var room := if s.width > 1 then s.width - 1 else 0;
                     p.text == if s.flags.left then [(w % 256) as char] + Blanks(room)
                               else Blanks(room) + [(w % 256) as char])
            && (c == 'p' && s.width == -1 ==>
                  Shows(p.text, w, false, 16, false, s.(width := 8, flags := s.flags.(zero := true))))
            && (c == 'p' && s.width != -1 ==> Shows(p.text, w, false, 16, false, s))
            && (c !in {'\0', '%', 'c', 's', 'p', 'd', 'i', 'u', 'x', 'o', 'X'} ==>
                  p == Piece(['%', c], s.at + 1, s.arg))
  {
    var w := args.word(s.arg);
    FillIs(s.width - 1);
    if At(fmt, s.at) == 'p' {
      NumberShows(w, 16, false, false, false, s.(width := 8, flags := s.flags.(zero := true)));
      NumberShows(w, 16, false, false, false, s);
    }
  }

  /** A string is cut where a terminator stands, to the width, and to a precision above 0; then it is filled
      up to the width. */
  lemma StringMeans(fmt: string, s: Spec, args: Args)
    requires s.at < |fmt| && fmt[s.at] == 's'
    ensures var p, t := Convert(fmt, s, args), args.text(s.arg);
            var str := if t.Null? then "(NULL)" else t.s;
            && p.next == s.at + 1 && p.arg == s.arg + 1
            && exists len: nat | len <= |str| ::
                 && (forall k | 0 <= k < len :: str[k] != '\0')
                 && (0 <= s.width ==> len <= s.width) && (0 < s.precision ==> len <= s.precision)
                 && (len == |str| || str[len] == '\0' || len == s.width || len == s.precision)
                 && var room := if s.width > len then s.width - len else 0;
                    p.text == if s.flags.left then str[..len] + Blanks(room) else Blanks(room) + str[..len]
  {
    var t := args.text(s.arg);
    var str := if t.Null? then "(NULL)" else t.s;
    var len := CutLength(str, s.width, s.precision);
    FillIs(s.width - len);
    FillIs(0);
    assert Blanks(0) == "";
  }

  // ----- specifications -----------------------------------------------------------------------------------

  /** A specification as it is written, without the arguments it may take: flags, a width, a precision, a
      qualifier; a width of -1 and a precision of -1 are left out. */
  function Written(f: Flags, width: int, precision: int, qualifier: char): string {
    WrittenFlags(f) + WrittenRest(width, precision, qualifier)
  }

  function WrittenFlags(f: Flags): string {
    Optional(f.left, '-') + Optional(f.plus, '+') + Optional(f.space, ' ') + Optional(f.zero, '0')
  }

  function Optional(b: bool, c: char): string { if b then [c] else "" }

  function WrittenRest(width: int, precision: int, qualifier: char): string {
    WidthText(width) + PrecisionText(precision) + Optional(qualifier != '\0', qualifier)
  }

  function AddFlags(f: Flags, s: string): Flags
    decreases |s|
  {
    if s == "" then f else AddFlags(AddFlag(f, s[0]), s[1..])
  }

  lemma {:induction false} FlagsTaken(fmt: string, i: nat, s: string, f: Flags)
    requires i + |s| <= |fmt| && fmt[i..i + |s|] == s && (forall c | c in s :: IsFlag(c)) && !IsFlag(At(fmt, i + |s|))
    ensures TakeFlags(fmt, i, f) == (AddFlags(f, s), i + |s|)
    decreases |s|
  {
    if s != "" {
      assert fmt[i] == s[0] && fmt[i + 1..i + 1 + |s[1..]|] == s[1..];
      FlagsTaken(fmt, i + 1, s[1..], AddFlag(f, s[0]));
    }
  }

  lemma FlagsAdded(f: Flags, g: Flags, b: bool, c: char, rest: string)
    requires g == if b then AddFlag(f, c) else f
    ensures AddFlags(f, Optional(b, c) + rest) == AddFlags(g, rest)
  {
    if b {
      assert ([c] + rest)[1..] == rest;
    } else {
      assert "" + rest == rest;
    }
  }

  lemma FlagsRead(f: Flags)
    ensures AddFlags(PLAIN, WrittenFlags(f)) == f && forall c | c in WrittenFlags(f) :: IsFlag(c)
  {
    var p, q, z := Optional(f.plus, '+'), Optional(f.space, ' '), Optional(f.zero, '0');
    assert WrittenFlags(f) == Optional(f.left, '-') + (p + (q + (z + "")));
    var f1 := Flags(f.left, false, false, false);
    var f2 := Flags(f.left, f.plus, false, false);
    var f3 := Flags(f.left, f.plus, f.space, false);
    FlagsAdded(PLAIN, f1, f.left, '-', p + (q + (z + "")));
    FlagsAdded(f1, f2, f.plus, '+', q + (z + ""));
    FlagsAdded(f2, f3, f.space, ' ', z + "");
    FlagsAdded(f3, f, f.zero, '0', "");
  }

  /** A run of digits is read to its end. */
  lemma {:induction false} IntTaken(fmt: string, i: nat, s: string, n: nat)
    requires i + |s| <= |fmt| && fmt[i..i + |s|] == s && (forall c | c in s :: IsDigit(c)) && !IsDigit(At(fmt, i + |s|))
    ensures TakeInt(fmt, i, n) == (Continued(n, s), i + |s|)
    decreases |s|
  {
    if s != "" {
      assert s[0] in s && fmt[i] == s[0] && fmt[i + 1..i + 1 + |s[1..]|] == s[1..];
      IntTaken(fmt, i + 1, s[1..], n * 10 + (s[0] - '0') as nat);
    }
  }

  function Continued(n: nat, s: string): nat
    decreases |s|
  {
    if s == "" || !IsDigit(s[0]) then n else Continued(n * 10 + (s[0] - '0') as nat, s[1..])
  }

  lemma {:induction false} ContinuedMore(n: nat, s: string, c: char)
    requires IsDigit(c) && forall d | d in s :: IsDigit(d)
    ensures Continued(n, s + [c]) == Continued(n, s) * 10 + (c - '0') as nat
    decreases |s|
  {
    if s == "" {
      assert s + [c] == [c] && [c][1..] == "";
    } else {
      assert s[0] in s && (s + [c])[1..] == s[1..] + [c];
      ContinuedMore(n * 10 + (s[0] - '0') as nat, s[1..], c);
    }
  }

  lemma {:induction false} DigitsContinue(n: nat)
    ensures forall c | c in Digits(n, 10, false) :: IsDigit(c)
    ensures Continued(0, Digits(n, 10, false)) == n
    decreases n
  {
    DigitsAreDigits(n);
    if n > 0 {
      DigitsContinue(n / 10);
      DigitsAreDigits(n / 10);
      ContinuedMore(0, Digits(n / 10, 10, false), DigitChar(n % 10, false));
    }
  }

  lemma NumeralContinues(n: nat)
    ensures var s := Numeral(n, 10, false); (forall c | c in s :: IsDigit(c)) && Continued(0, s) == n
    ensures n > 0 ==> Numeral(n, 10, false)[0] != '0'
  {
    DigitsAreDigits(n);
    if n == 0 {
      assert "0"[1..] == "";
    } else {
      DigitsContinue(n);
    }
  }

  lemma NumeralTaken(fmt: string, i: nat, n: nat)
    requires var s := Numeral(n, 10, false); i + |s| <= |fmt| && fmt[i..i + |s|] == s && !IsDigit(At(fmt, i + |s|))
    ensures TakeInt(fmt, i, 0) == (n, i + |Numeral(n, 10, false)|) && IsDigit(At(fmt, i))
    ensures n > 0 ==> At(fmt, i) != '0'
  {
    var s := Numeral(n, 10, false);
    NumeralContinues(n);
    IntTaken(fmt, i, s, 0);
    assert fmt[i] == s[0] && s[0] in s;
  }

  /** A character that ends a specification. */
  predicate Ends(c: char) { !IsFlag(c) && !IsDigit(c) && c !in {'.', '*', 'h', 'l'} }

  lemma WidthTaken(fmt: string, i: nat, f: Flags, width: int, args: Args, arg: nat)
    requires width == -1 || width > 0
    requires var s := if width > 0 then Numeral(width, 10, false) else "";
             i + |s| <= |fmt| && fmt[i..i + |s|] == s && !IsDigit(At(fmt, i + |s|)) && At(fmt, i + |s|) != '*'
    ensures TakeWidth(fmt, i, f, args, arg)
            == Spec(f, width, -1, '\0', i + if width > 0 then |Numeral(width, 10, false)| else 0, arg)
  {
    if width > 0 { NumeralTaken(fmt, i, width); }
  }

  lemma PrecisionTaken(fmt: string, s: Spec, precision: int, args: Args)
    requires precision >= -1 && s.precision == -1
    requires var t := if precision >= 0 then "." + Numeral(precision, 10, false) else "";
             s.at + |t| <= |fmt| && fmt[s.at..s.at + |t|] == t && !IsDigit(At(fmt, s.at + |t|))
             && At(fmt, s.at + |t|) != '.'
    ensures TakePrecision(fmt, s, args)
            == s.(precision := precision,
               at := s.at + if precision >= 0 then 1 + |Numeral(precision, 10, false)| else 0)
  {
    if precision >= 0 {
      var t := "." + Numeral(precision, 10, false);
      assert fmt[s.at] == t[0] && fmt[s.at + 1..s.at + |t|] == t[1..] && t[1..] == Numeral(precision, 10, false);
      NumeralTaken(fmt, s.at + 1, precision);
    }
  }

  /** `t` stands at `i` in the format. */
  predicate Stands(fmt: string, i: nat, t: string) { i + |t| <= |fmt| && fmt[i..i + |t|] == t }

  lemma StandsCat(fmt: string, i: nat, s: string, t: string)
    ensures Stands(fmt, i, s + t) <==> Stands(fmt, i, s) && Stands(fmt, i + |s|, t)
  {
    if Stands(fmt, i, s + t) {
      assert fmt[i..i + |s|] == (s + t)[..|s|] && fmt[i + |s|..i + |s| + |t|] == (s + t)[|s|..];
    }
    if Stands(fmt, i, s) && Stands(fmt, i + |s|, t) {
      assert fmt[i..i + |s + t|] == fmt[i..i + |s|] + fmt[i + |s|..i + |s| + |t|];
    }
  }

  function WidthText(width: int): string { if width > 0 then Numeral(width, 10, false) else "" }

  function PrecisionText(precision: int): string {
    if precision >= 0 then "." + Numeral(precision, 10, false) else ""
  }

  lemma PrecisionRead(fmt: string, s: Spec, precision: int, q: char, args: Args)
    requires precision >= -1 && s.precision == -1 && s.qualifier == '\0' && q in {'\0', 'h', 'l'}
    requires Stands(fmt, s.at, PrecisionText(precision))
    requires Stands(fmt, s.at + |PrecisionText(precision)|, Optional(q != '\0', q))
    requires var n := s.at + |PrecisionText(precision)| + |Optional(q != '\0', q)|; n < |fmt| && Ends(fmt[n])
    ensures TakeQualifier(fmt, TakePrecision(fmt, s, args))
            == s.(precision := precision, qualifier := q,
                  at := s.at + |PrecisionText(precision)| + |Optional(q != '\0', q)|)
  {
    var z, k := Optional(q != '\0', q), s.at + |PrecisionText(precision)|;
    assert z != "" ==> fmt[k] == z[0] == q;
    PrecisionTaken(fmt, s, precision, args);
  }

  /** The first character behind the width is no digit and no star. */
  lemma BehindWidth(fmt: string, j: nat, precision: int, q: char)
    requires q in {'\0', 'h', 'l'}
    requires Stands(fmt, j, PrecisionText(precision))
             && Stands(fmt, j + |PrecisionText(precision)|, Optional(q != '\0', q))
    requires var n := j + |PrecisionText(precision)| + |Optional(q != '\0', q)|; n < |fmt| && Ends(fmt[n])
    ensures !IsDigit(At(fmt, j)) && At(fmt, j) != '*' && !IsFlag(At(fmt, j))
  {
    var p, z := PrecisionText(precision), Optional(q != '\0', q);
    assert p != "" ==> fmt[j] == p[0] == '.';
    assert z != "" ==> fmt[j + |p|] == z[0] == q;
  }

  lemma RestRead(fmt: string, i: nat, f: Flags, width: int, precision: int, q: char, args: Args, arg: nat)
    requires (width == -1 || width > 0) && precision >= -1 && q in {'\0', 'h', 'l'}
    requires Stands(fmt, i, WrittenRest(width, precision, q))
    requires i + |WrittenRest(width, precision, q)| < |fmt| && Ends(fmt[i + |WrittenRest(width, precision, q)|])
    ensures TakeQualifier(fmt, TakePrecision(fmt, TakeWidth(fmt, i, f, args, arg), args))
            == Spec(f, width, precision, q, i + |WrittenRest(width, precision, q)|, arg)
    ensures !IsFlag(At(fmt, i))
  {
    var w, p, z := WidthText(width), PrecisionText(precision), Optional(q != '\0', q);
    var j := i + |w|;
    StandsCat(fmt, i, w + p, z);
    StandsCat(fmt, i, w, p);
    assert |WrittenRest(width, precision, q)| == |w| + |p| + |z|;
    BehindWidth(fmt, j, precision, q);
    WidthRead(fmt, i, f, width, args, arg);
    PrecisionRead(fmt, Spec(f, width, -1, '\0', j, arg), precision, q, args);
  }

  lemma WidthRead(fmt: string, i: nat, f: Flags, width: int, args: Args, arg: nat)
    requires (width == -1 || width > 0) && Stands(fmt, i, WidthText(width))
    requires var c := At(fmt, i + |WidthText(width)|); !IsDigit(c) && c != '*' && !IsFlag(c)
    ensures TakeWidth(fmt, i, f, args, arg) == Spec(f, width, -1, '\0', i + |WidthText(width)|, arg)
    ensures !IsFlag(At(fmt, i))
  {
    WidthTaken(fmt, i, f, width, args, arg);
    if width > 0 { NumeralTaken(fmt, i, width); }
  }

  /** A specification is read as it was written: flags, width, precision and qualifier. */
  lemma {:induction false} SpecReads(fmt: string, i: nat, f: Flags, width: int, precision: int, q: char,
                                     args: Args, arg: nat)
    requires (width == -1 || width > 0) && precision >= -1 && q in {'\0', 'h', 'l'}
    requires i < |fmt| && fmt[i] == '%' && Stands(fmt, i + 1, Written(f, width, precision, q))
    requires var n := i + 1 + |Written(f, width, precision, q)|; n < |fmt| && Ends(fmt[n])
    ensures TakeSpec(fmt, i, args, arg)
            == Spec(f, width, precision, q, i + 1 + |Written(f, width, precision, q)|, arg)
  {
    var s, t := WrittenFlags(f), WrittenRest(width, precision, q);
    StandsCat(fmt, i + 1, s, t);
    var j := i + 1 + |s|;
    assert |Written(f, width, precision, q)| == |s| + |t|;
    RestRead(fmt, j, f, width, precision, q, args, arg);
    FlagsStand(fmt, i + 1, f);
    SpecIs(fmt, i, f, j, args, arg);
  }

  lemma SpecIs(fmt: string, i: nat, f: Flags, j: nat, args: Args, arg: nat)
    requires i < |fmt| && TakeFlags(fmt, i + 1, PLAIN) == (f, j)
    ensures TakeSpec(fmt, i, args, arg)
            == TakeQualifier(fmt, TakePrecision(fmt, TakeWidth(fmt, j, f, args, arg), args))
  {
  }

  lemma FlagsStand(fmt: string, i: nat, f: Flags)
    requires Stands(fmt, i, WrittenFlags(f)) && !IsFlag(At(fmt, i + |WrittenFlags(f)|))
    ensures TakeFlags(fmt, i, PLAIN) == (f, i + |WrittenFlags(f)|)
  {
    FlagsRead(f);
    FlagsTaken(fmt, i, WrittenFlags(f), PLAIN);
  }

  /** A star takes the width from the arguments, a negative one meaning '-'; a star behind the point takes the
      precision, a negative one meaning 0. */
  lemma StarsRead(fmt: string, i: nat, f: Flags, args: Args, arg: nat)
    ensures At(fmt, i) == '*' ==>
              var n := NumberOf(args.word(arg), false, true);
              TakeWidth(fmt, i, f, args, arg)
              == Spec(if n < 0 then f.(left := true) else f, if n < 0 then -n else n, -1, '\0', i + 1, arg + 1)
    ensures At(fmt, i) == '.' && At(fmt, i + 1) == '*' ==>
              var n := NumberOf(args.word(arg), false, true);
              TakePrecision(fmt, Spec(f, -1, -1, '\0', i, arg), args)
              == Spec(f, -1, if n < 0 then 0 else n, '\0', i + 2, arg + 1)
    ensures At(fmt, i) == '.' && At(fmt, i + 1) != '*' && !IsDigit(At(fmt, i + 1)) ==>
              TakePrecision(fmt, Spec(f, -1, -1, '\0', i, arg), args) == Spec(f, -1, 0, '\0', i + 1, arg)
  {
  }
}
