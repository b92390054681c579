/** Numbers and keys as they are written to flash: flash_set_key and flash_get_key of
    storage/flashwork.c over rt_sprintf of rt-thread/src/kservice.c. */
module FlashText {
  import opened Format

  function OneWord(w: Word): Args {
    Args(_ => w, _ => Null)
  }

  const PLAIN: Flags := Flags(false, false, false, false)

  /** The text of a number in flash. */
  function Printed(w: Word): string {
    SignText(w, true, PLAIN) + Numeral(Magnitude(w, true), 10, false)
  }

  /** The key of a device record. */
  function IndexKey(slot: nat): string {
    "index:" + Numeral(slot, 10, false)
  }

  predicate IsSpace(c: char) { c == ' ' || c == '\t' || c == '\n' || c == '\r' || c as int == 11 || c as int == 12 }

  function SkipSpace(s: string, i: nat): (j: nat)
    requires i <= |s|
    ensures i <= j <= |s|
    decreases |s| - i
  {
    if i < |s| && IsSpace(s[i]) then SkipSpace(s, i + 1) else i
  }

  /** atol of the C library: white space, a sign, digits up to the first other character. */
  function Atol(s: string): int {
    var i := SkipSpace(s, 0);
    if At(s, i) == '-' then 0 - (TakeInt(s, i + 1, 0).0 as int)
    else if At(s, i) == '+' then TakeInt(s, i + 1, 0).0
    else TakeInt(s, i, 0).0
  }

  /** The value flash_get_key returns: the long that atol yields, as a uint32_t. */
  function Parsed(s: string): Word {
    Atol(s) % TWO32
  }

  // ----- the round trip ---------------------------------------------------------------------------

  lemma {:induction false} DigitsAreDigits(n: nat)
    ensures forall c | c in Digits(n, 10, false) :: IsDigit(c)
    ensures n > 0 ==> Digits(n, 10, false) != "" && Digits(n, 10, false)[0] != '0'
  {
    if n > 0 {
      DigitsAreDigits(n / 10);
    }
  }

  lemma {:induction false} TakeOneMore(s: string, i: nat, acc: nat, c: char)
    requires i <= |s| && IsDigit(c) && forall k | i <= k < |s| :: IsDigit(s[k])
    ensures TakeInt(s + [c], i, acc) == (TakeInt(s, i, acc).0 * 10 + (c - '0') as nat, |s| + 1)
    ensures TakeInt(s, i, acc).1 == |s|
    decreases |s| - i
  {
    if i < |s| {
      TakeOneMore(s, i + 1, acc * 10 + (s[i] - '0') as nat, c);
    } else {
      var t := s + [c];
      assert At(t, i) == c && At(t, i + 1) == '\0';
      assert TakeInt(t, i + 1, acc * 10 + (c - '0') as nat) == (acc * 10 + (c - '0') as nat, i + 1);
    }
  }

  lemma {:induction false} TakeDigits(p: string, n: nat)
    ensures TakeInt(p + Digits(n, 10, false), |p|, 0).0 == n
  {
    if n > 0 {
      var rest, c := p + Digits(n / 10, 10, false), DigitChar(n % 10, false);
      TakeDigits(p, n / 10);
      DigitsAreDigits(n / 10);
      TakeOneMore(rest, |p|, 0, c);
      assert p + Digits(n, 10, false) == rest + [c];
    } else {
      assert p + "" == p;
    }
  }

  lemma TakeNumeral(p: string, n: nat)
    ensures TakeInt(p + Numeral(n, 10, false), |p|, 0).0 == n
  {
    if n == 0 {
      assert (p + "0")[|p|] == '0';
      assert TakeInt(p + "0", |p| + 1, 0) == (0, |p| + 1);
    } else {
      TakeDigits(p, n);
    }
  }

  /** print_number without width, precision or flags. */
  lemma PlainNumber(w: Word)
    ensures NumberText(w, 10, -1, -1, PLAIN, true, false)
            == SignText(w, true, PLAIN) + Numeral(Magnitude(w, true), 10, false)
  {
    var sign, digits := SignText(w, true, PLAIN), Numeral(Magnitude(w, true), 10, false);
    assert Max(|digits|, -1) == |digits|;
    assert Fill('0', 0) == "" && Fill(' ', -1 - |digits| - |sign|) == "";
    assert Shown(digits, -1) == digits;
  }

  lemma SpecOfD(fmt: string, i: nat, args: Args)
    requires |fmt| == i + 2 && fmt[i] == '%' && fmt[i + 1] == 'd'
    ensures TakeSpec(fmt, i, args, 0) == Spec(PLAIN, -1, -1, '\0', i + 1, 0)
  {
  }

  lemma OutputOfD(fmt: string, i: nat, w: Word)
    requires |fmt| == i + 2 && fmt[i] == '%' && fmt[i + 1] == 'd'
    ensures Output(fmt, i, OneWord(w), 0) == Printed(w)
  {
    SpecOfD(fmt, i, OneWord(w));
    PlainNumber(w);
    var s := TakeSpec(fmt, i, OneWord(w), 0);
    var p := Convert(fmt, s, OneWord(w));
    assert p.next == i + 2 && p.text == NumberText(w, 10, -1, -1, PLAIN, true, false);
    assert Output(fmt, i + 2, OneWord(w), p.arg) == "";
    assert p.text + "" == p.text;
  }

  /** Writing a 32-bit number with rt_sprintf and reading it back with atol gives it back, negative
      looking ones included. */
  lemma {:induction false} PrintParse(w: Word)
    ensures Parsed(Printed(w)) == w
  {
    var n := Magnitude(w, true);
    AtolOf(n);
    if w < TWO31 {
      assert Printed(w) == Numeral(n, 10, false);
    } else {
      assert Printed(w) == "-" + Numeral(n, 10, false);
    }
  }

  lemma AtolOf(n: nat)
    ensures Atol(Numeral(n, 10, false)) == n && Atol("-" + Numeral(n, 10, false)) == 0 - n
  {
    var digits := Numeral(n, 10, false);
    DigitsAreDigits(n);
    assert digits[0] in digits && IsDigit(digits[0]);
    TakeNumeral("", n);
    assert "" + digits == digits && SkipSpace(digits, 0) == 0;
    TakeNumeral("-", n);
    assert SkipSpace("-" + digits, 0) == 0;
  }

  lemma {:induction false} SpaceSkipped(s: string, i: nat, j: nat)
    requires i <= j <= |s| && (forall k | i <= k < j :: IsSpace(s[k])) && (j < |s| ==> !IsSpace(s[j]))
    ensures SkipSpace(s, i) == j
    decreases j - i
  {
    if i < j { SpaceSkipped(s, i + 1, j); }
  }

  /** atol skips white space, takes one sign, and reads the number. */
  lemma {:induction false} AtolReads(space: string, sign: string, n: nat)
    requires (forall c | c in space :: IsSpace(c)) && sign in {"", "+", "-"}
    ensures Atol(space + sign + Numeral(n, 10, false)) == if sign == "-" then 0 - n else n
  {
    var digits := Numeral(n, 10, false);
    var s := space + sign + digits;
    DigitsAreDigits(n);
    assert digits[0] in digits && IsDigit(digits[0]);
    assert forall k | 0 <= k < |space| :: s[k] == space[k] && space[k] in space;
    assert s[|space|] == if sign == "" then digits[0] else sign[0];
    SpaceSkipped(s, 0, |space|);
    TakeNumeral(space + sign, n);
    assert |space + sign| == |space| + |sign|;
  }

  lemma PlainStep(fmt: string, i: nat, args: Args, arg: nat)
    requires i < |fmt| && fmt[i] != '%' && fmt[i] != '\0'
    ensures Output(fmt, i, args, arg) == [fmt[i]] + Output(fmt, i + 1, args, arg)
  {
  }

  lemma PlainCat(fmt: string, i: nat, j: nat, text: string, rest: string)
    requires i < j <= |fmt| && text == [fmt[i]] + (fmt[i + 1..j] + rest)
    ensures text == fmt[i..j] + rest
  {
    assert fmt[i..j] == [fmt[i]] + fmt[i + 1..j];
  }

  /** Characters other than '%' stand for themselves. */
  lemma {:induction false} OutputPlain(fmt: string, i: nat, j: nat, args: Args, arg: nat)
    requires i <= j <= |fmt| && forall k | i <= k < j :: fmt[k] != '%' && fmt[k] != '\0'
    ensures Output(fmt, i, args, arg) == fmt[i..j] + Output(fmt, j, args, arg)
    decreases j - i
  {
    var rest := Output(fmt, j, args, arg);
    if i < j {
      PlainStep(fmt, i, args, arg);
      OutputPlain(fmt, i + 1, j, args, arg);
      PlainCat(fmt, i, j, Output(fmt, i, args, arg), rest);
    } else {
      assert fmt[i..j] + rest == rest;
    }
  }

  /** Both texts are what rt_sprintf makes of the formats in the source. */
  lemma {:induction false} TextsAreFormatted(w: Word)
    ensures Output("%d", 0, OneWord(w), 0) == Printed(w)
    ensures w < TWO31 ==> Output("index:%d", 0, OneWord(w), 0) == IndexKey(w)
  {
    OutputOfD("%d", 0, w);
    var f := "index:%d";
    OutputOfD(f, 6, w);
    OutputPlain(f, 0, 6, OneWord(w), 0);
    assert f[0..6] == "index:";
    assert w < TWO31 ==> Printed(w) == "" + Numeral(w, 10, false) == Numeral(w, 10, false);
  }

  /** Different slots have different keys, and none of them is a key of another kind. */
  lemma {:induction false} IndexKeysDiffer(a: nat, b: nat)
    ensures IndexKey(a) == IndexKey(b) ==> a == b
    ensures IndexKey(a) != "slot" && IndexKey(a) != "valve_lock"
  {
    TakeNumeral("index:", a);
    TakeNumeral("index:", b);
    assert IndexKey(a)[0] == 'i';
  }
}
