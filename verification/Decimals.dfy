/** Decimal digits: printing natural numbers, and reading digits, unsigned integers and floats back. */
module Decimals {
  import opened Wrappers
  import opened Text

  predicate IsDigit(c: char) {
    '0' <= c <= '9'
  }

  predicate AllDigits(s: string) {
    forall i :: 0 <= i < |s| ==> IsDigit(s[i])
  }

  function Value(s: string): nat
    requires AllDigits(s)
  {
    if s == "" then 0 else 10 * Value(s[..|s| - 1]) + (s[|s| - 1] as int - '0' as int)
  }

  function Digit(d: nat): (c: char)
    requires d < 10
    ensures IsDigit(c) && c as int - '0' as int == d
  {
    (d + '0' as int) as char
  }

  function Show(n: nat): (s: string)
    ensures s != "" && AllDigits(s) && Value(s) == n
  {
    if n < 10 then [Digit(n)]
    else
      var s := Show(n / 10) + [Digit(n % 10)];
      assert s[..|s| - 1] == Show(n / 10);
      s
  }

  lemma ShowInjective(m: nat, n: nat)
    requires Show(m) == Show(n)
    ensures m == n
  {
    assert Value(Show(m)) == Value(Show(n));
  }

  /** `Show` padded with zeros on the left to at least `width` characters. */
  function Padded(n: nat, width: nat): (s: string)
    ensures AllDigits(s) && Value(s) == n && |s| >= width && s != ""
    decreases width - |Show(n)|
  {
    PadLeft(Show(n), width)
  }

  function PadLeft(s: string, width: nat): (r: string)
    requires AllDigits(s)
    ensures AllDigits(r) && Value(r) == Value(s) && |r| == if |s| < width then width else |s|
    ensures s != "" ==> r != ""
    decreases width - |s|
  {
    if |s| >= width then s
    else
      LeadingZero(s);
      PadLeft("0" + s, width)
  }

  /** A signed number, zero-padded after any sign to at least `width` characters. */
  function Signed(n: int, width: nat): string {
    if n >= 0 then Padded(n, width) else "-" + Padded(-n, if width > 0 then width - 1 else 0)
  }

  lemma {:induction false} LeadingZero(s: string)
    requires AllDigits(s)
    ensures AllDigits("0" + s) && Value("0" + s) == Value(s)
  {
    var z := "0" + s;
    if s != "" {
      LeadingZero(s[..|s| - 1]);
      assert z[..|z| - 1] == "0" + s[..|s| - 1];
    }
  }

  // ---- Which texts are numerals ----------------------------------------------------------------

  /** The least number of digits at a width. */
  function Least(width: nat): nat {
    if width == 0 then 1 else width
  }

  /** Digits as they are printed: leading zeros only up to the width. */
  predicate IsUnsigned(s: string, width: nat) {
    AllDigits(s) && |s| >= Least(width) && (|s| == Least(width) || s[0] != '0')
  }

  predicate IsNumeral(s: string, width: nat) {
    || IsUnsigned(s, width)
    || (s != "" && s[0] == '-' && IsUnsigned(s[1..], if width > 0 then width - 1 else 0) && Value(s[1..]) > 0)
  }

  lemma {:induction false} SameDigits(s: string, t: string)
    requires AllDigits(s) && AllDigits(t) && |s| == |t| && Value(s) == Value(t)
    ensures s == t
  {
    if s != "" {
      var (s', t') := (s[..|s| - 1], t[..|t| - 1]);
      var (a, b) := (s[|s| - 1] as int - '0' as int, t[|t| - 1] as int - '0' as int);
      assert IsDigit(s[|s| - 1]) && IsDigit(t[|t| - 1]);
      assert 10 * Value(s') + a == 10 * Value(t') + b;
      SameDigits(s', t');
      assert s == s' + [s[|s| - 1]] && t == t' + [t[|t| - 1]];
    }
  }

  /** Digits without a leading zero are how their value is shown, and no digits show it shorter. */
  lemma {:induction false} ShowOfValue(s: string)
    requires s != "" && AllDigits(s)
    ensures |Show(Value(s))| <= |s|
    ensures s[0] != '0' || |s| == 1 ==> Show(Value(s)) == s
    ensures s[0] != '0' ==> Value(s) > 0
  {
    var s' := s[..|s| - 1];
    assert IsDigit(s[|s| - 1]);
    if |s| == 1 {
      assert Value(s') == 0;
      SameDigits(Show(Value(s)), s);
    } else {
      ShowOfValue(s');
      assert Value(s) / 10 == Value(s');
      if s[0] != '0' {
        SameDigits(Show(Value(s)), s);
      }
    }
  }

  lemma {:induction false} ShowLeads(n: nat)
    ensures Show(n)[0] == '0' ==> n == 0
    ensures |Show(n)| == 1 <==> n < 10
  {
    if n >= 10 {
      ShowLeads(n / 10);
    }
  }

  lemma {:induction false} PadLeftIs(s: string, width: nat)
    requires AllDigits(s)
    ensures |s| >= width ==> PadLeft(s, width) == s
  {
  }

  lemma PaddedIsUnsigned(n: nat, width: nat)
    ensures IsUnsigned(Padded(n, width), width)
  {
    ShowLeads(n);
    PadLeftIs(Show(n), width);
  }

  lemma UnsignedIsPadded(s: string, width: nat)
    requires IsUnsigned(s, width)
    ensures s == Padded(Value(s), width)
  {
    ShowOfValue(s);
    SameDigits(s, Padded(Value(s), width));
  }

  lemma SignedIsNumeral(n: int, width: nat)
    ensures IsNumeral(Signed(n, width), width)
  {
    if n >= 0 {
      PaddedIsUnsigned(n, width);
    } else {
      var w := if width > 0 then width - 1 else 0;
      PaddedIsUnsigned(-n, w);
      assert Signed(n, width)[1..] == Padded(-n, w);
    }
  }

  /** The numerals are exactly what is printed. */
  lemma NumeralIsSigned(s: string, width: nat) returns (n: int)
    requires IsNumeral(s, width)
    ensures s == Signed(n, width)
  {
    hide IsUnsigned, Value, Padded;
    if IsUnsigned(s, width) {
      UnsignedDigits(s, width);
      n := Value(s);
      UnsignedIsPadded(s, width);
    } else {
      var digits := s[1..];
      var w := if width > 0 then width - 1 else 0;
      UnsignedDigits(digits, w);
      n := -(Value(digits) as int);
      UnsignedIsPadded(digits, w);
      assert s == "-" + digits;
    }
  }

  lemma UnsignedDigits(s: string, width: nat)
    requires IsUnsigned(s, width)
    ensures AllDigits(s)
  {
  }

  // ---- Unsigned integers -----------------------------------------------------------------------

  /** Rust's `str::parse::<u32>`: an optional plus sign, at least one digit, and no overflow. */
  function ParseU32(s: string): Option<nat> {
    var digits := if s != "" && s[0] == '+' then s[1..] else s;
    if digits != "" && AllDigits(digits) && Value(digits) < 0x1_0000_0000 then Some(Value(digits)) else None
  }

  /** Digits read as the number they show while it fits, with a plus sign or without one. */
  lemma DigitsAreU32(digits: string, plus: bool)
    requires digits != "" && AllDigits(digits)
    ensures ParseU32((if plus then ['+'] else "") + digits)
            == if Value(digits) < 0x1_0000_0000 then Some(Value(digits)) else None
    ensures ParseU32("") == ParseU32("+") == None
  {
    hide Value;
    assert IsDigit(digits[0]);
    assert "" + digits == digits && (['+'] + digits)[1..] == digits;
  }

  /** And nothing else does. */
  lemma OnlyDigitsAreU32(s: string)
    requires s != "" && (!AllDigits(s[1..]) || (!IsDigit(s[0]) && s[0] != '+'))
    ensures ParseU32(s) == None
  {
  }

  // ---- Floats ----------------------------------------------------------------------------------

  datatype Float = Finite(value: real) | NonFinite

  function LeadingDigits(s: string): (n: nat)
    ensures n <= |s| && AllDigits(s[..n])
    ensures n < |s| ==> !IsDigit(s[n])
  {
    if s == "" || !IsDigit(s[0]) then 0 else 1 + LeadingDigits(s[1..])
  }

  function Pow10(n: nat): (p: real)
    ensures p > 0.0
  {
    if n == 0 then 1.0 else 10.0 * Pow10(n - 1)
  }

  function Exponent(s: string): Option<real> {
    var negative := s != "" && s[0] == '-';
    var digits := if s != "" && (s[0] == '-' || s[0] == '+') then s[1..] else s;
    if digits == "" || !AllDigits(digits) then None
    else Some(if negative then 1.0 / Pow10(Value(digits)) else Pow10(Value(digits)))
  }

  /** Digits with an optional fraction and exponent; some digit must be there. */
  function ParseUnsigned(s: string): Option<real> {
    var n := LeadingDigits(s);
    var afterInt := s[n..];
    var hasPoint := afterInt != "" && afterInt[0] == '.';
    var f := if hasPoint then LeadingDigits(afterInt[1..]) else 0;
    var rest := if hasPoint then afterInt[1 + f..] else afterInt;
    if n + f == 0 then None
    else
      var fraction := if hasPoint then Fraction(afterInt[1..][..f]) else 0.0;
      var scale := Scale(rest);
      if scale.None? then None else Some(Times(Value(s[..n]) as real + fraction, scale.value))
  }

  function Fraction(digits: string): real
    requires AllDigits(digits)
  {
    Value(digits) as real / Pow10(|digits|)
  }

  /** One digit after the point counts tenths, and a further one counts tenths of the place before it. */
  lemma FractionDigits(digits: string, c: char)
    requires AllDigits(digits) && IsDigit(c)
    ensures Fraction("") == 0.0
    ensures Fraction(digits + [c]) == Fraction(digits) + (c as int - '0' as int) as real / Pow10(|digits| + 1)
    ensures Pow10(1) == 10.0
  {
    hide Pow10, Value;
    assert (digits + [c])[..|digits|] == digits;
    NoPlaces(digits, c);
    NextPlace(Value(digits) as real, Pow10(|digits|), (c as int - '0' as int) as real);
  }

  lemma NoPlaces(digits: string, c: char)
    requires AllDigits(digits) && IsDigit(c)
    ensures Value("") == 0 && Pow10(0) == 1.0 && Pow10(1) == 10.0 && Pow10(|digits| + 1) == 10.0 * Pow10(|digits|)
    ensures Value(digits + [c]) == 10 * Value(digits) + (c as int - '0' as int)
  {
    assert (digits + [c])[..|digits|] == digits;
  }

  lemma NextPlace(v: real, p: real, d: real)
    requires p > 0.0
    ensures (10.0 * v + d) / (10.0 * p) == v / p + d / (10.0 * p)
  {
    var q := v / p;
    assert v == q * p;
    assert (10.0 * v) / (10.0 * p) == q;
  }

  function Times(mantissa: real, scale: real): real {
    mantissa * scale
  }

  /** The power of ten that what follows the digits stands for. */
  function Scale(rest: string): Option<real> {
    if rest == "" then Some(1.0) else if rest[0] != 'e' && rest[0] != 'E' then None else Exponent(rest[1..])
  }

  /** Rust's `str::parse::<f64>`, over exact reals. */
  function ParseFloat(s: string): Option<Float> {
    var negative := s != "" && s[0] == '-';
    var body := if s != "" && (s[0] == '-' || s[0] == '+') then s[1..] else s;
    if Lower(body) in {"inf", "infinity", "nan"} then Some(NonFinite)
    else
      var v := ParseUnsigned(body);
      if v.None? then None else Some(Finite(if negative then -v.value else v.value))
  }

  /** Plain digits read as the number they show. */
  lemma DigitsAreFloats(s: string)
    requires s != "" && AllDigits(s)
    ensures ParseFloat(s) == Some(Finite(Value(s) as real))
  {
    hide ParseUnsigned, Times, Value, Numeral.Text, Numeral.Mantissa, Numeral.Scale;
    var n := Numeral(s, None, None);
    WholeIs(s);
    NumeralReads(n);
    assert IsDigit(s[0]);
    assert Lower(s)[0] == s[0];
  }

  lemma WholeIs(s: string)
    requires s != "" && AllDigits(s)
    ensures var n := Numeral(s, None, None);
      n.Valid() && n.Text() == s && Times(n.Mantissa(), n.Scale()) == Value(s) as real
  {
  }

  lemma {:induction false} DigitsLead(digits: string, rest: string)
    requires AllDigits(digits) && (rest == "" || !IsDigit(rest[0]))
    ensures LeadingDigits(digits + rest) == |digits|
  {
    if digits == "" {
      assert digits + rest == rest;
    } else {
      DigitsLead(digits[1..], rest);
      assert (digits + rest)[1..] == digits[1..] + rest;
    }
  }

  /** A power of ten: a letter of either case, a sign or none, and digits. */
  datatype Power = Power(mark: char, sign: Option<bool>, digits: string) {
    predicate Valid() {
      (mark == 'e' || mark == 'E') && digits != "" && AllDigits(digits)
    }

    function Text(): string {
      [mark] + ((if sign.None? then "" else if sign.value then ['+'] else ['-']) + digits)
    }

    function Scale(): real
      requires Valid()
    {
      if sign == Some(false) then 1.0 / Pow10(Value(digits)) else Pow10(Value(digits))
    }
  }

  /** An unsigned numeral: its digits, those after the point if it has one, and a power of ten if it has one. */
  datatype Numeral = Numeral(whole: string, fraction: Option<string>, power: Option<Power>) {
    predicate Valid() {
      && AllDigits(whole) && (fraction.Some? ==> AllDigits(fraction.value))
      && (whole != "" || (fraction.Some? && fraction.value != ""))
      && (power.Some? ==> power.value.Valid())
    }

    function Point(): string {
      if fraction.Some? then ['.'] + fraction.value else ""
    }

    function Ending(): string {
      if power.Some? then power.value.Text() else ""
    }

    function Text(): string {
      whole + (Point() + Ending())
    }

    function Mantissa(): real
      requires Valid()
    {
      Value(whole) as real + if fraction.Some? then Fraction(fraction.value) else 0.0
    }

    function Scale(): real
      requires Valid()
    {
      if power.Some? then power.value.Scale() else 1.0
    }
  }

  lemma PowerReads(p: Power)
    requires p.Valid()
    ensures p.Text() != "" && p.Text()[0] == p.mark && Scale(p.Text()) == Some(p.Scale())
  {
    hide Pow10, Value, Exponent;
    assert IsDigit(p.digits[0]);
    if p.sign.None? {
      assert p.Text()[1..] == p.digits;
      BareReads(p.digits);
    } else {
      var sign := if p.sign.value then '+' else '-';
      assert p.Text()[1..] == [sign] + p.digits;
      SignReads(sign, p.digits);
    }
  }

  lemma BareReads(digits: string)
    requires digits != "" && AllDigits(digits)
    ensures Exponent(digits) == Some(Pow10(Value(digits)))
  {
    hide Pow10, Value;
    assert IsDigit(digits[0]);
  }

  lemma SignReads(sign: char, digits: string)
    requires digits != "" && AllDigits(digits) && (sign == '+' || sign == '-')
    ensures Exponent([sign] + digits) == Some(if sign == '-' then 1.0 / Pow10(Value(digits)) else Pow10(Value(digits)))
  {
    hide Pow10, Value;
    assert ([sign] + digits)[1..] == digits;
  }

  lemma EndingReads(n: Numeral)
    requires n.Valid()
    ensures EndsDigits(n.Ending()) && Scale(n.Ending()) == Some(n.Scale())
  {
    if n.power.Some? {
      PowerReads(n.power.value);
    }
  }

  /** What follows the digits of a numeral. */
  predicate EndsDigits(rest: string) {
    rest == "" || rest[0] == 'e' || rest[0] == 'E'
  }

  /** An unsigned numeral reads as its mantissa times its power of ten. */
  lemma NumeralReads(n: Numeral)
    requires n.Valid()
    ensures ParseUnsigned(n.Text()) == Some(Times(n.Mantissa(), n.Scale()))
  {
    hide Times, Scale, Fraction, Value, ParseUnsigned, Numeral.Scale, Numeral.Ending;
    EndingReads(n);
    if n.fraction.Some? {
      PointedReads(n.whole, n.fraction.value, n.Ending());
    } else {
      WholeReads(n.whole, n.Ending());
      assert "" + n.Ending() == n.Ending();
    }
  }

  lemma WholeReads(whole: string, power: string)
    requires whole != "" && AllDigits(whole) && EndsDigits(power) && Scale(power).Some?
    ensures ParseUnsigned(whole + power) == Some(Times(Value(whole) as real + 0.0, Scale(power).value))
  {
    hide Times, Scale, Fraction, Value, LeadingDigits;
    DigitsLead(whole, power);
    var text := whole + power;
    assert text[..|whole|] == whole && text[|whole|..] == power;
  }

  lemma PointedReads(whole: string, f: string, power: string)
    requires whole + f != "" && AllDigits(whole) && AllDigits(f) && EndsDigits(power) && Scale(power).Some?
    ensures ParseUnsigned(whole + (['.'] + f + power))
            == Some(Times(Value(whole) as real + Fraction(f), Scale(power).value))
  {
    hide Times, Scale, Fraction, Value, LeadingDigits, ParseUnsigned;
    var after := ['.'] + f + power;
    var text := whole + after;
    DigitsLead(whole, after);
    DigitsLead(f, power);
    AfterPoint(f, power);
    assert text[..|whole|] == whole && text[|whole|..] == after;
    PartsRead(text, whole, after, f, power);
  }

  lemma PartsRead(text: string, whole: string, after: string, f: string, power: string)
    requires AllDigits(whole) && AllDigits(f) && |whole| + |f| > 0 && Scale(power).Some?
    requires LeadingDigits(text) == |whole| && text[..|whole|] == whole && text[|whole|..] == after
    requires after != "" && after[0] == '.' && LeadingDigits(after[1..]) == |f|
    requires after[1..][..|f|] == f && after[1 + |f|..] == power
    ensures ParseUnsigned(text) == Some(Times(Value(whole) as real + Fraction(f), Scale(power).value))
  {
    hide Times, Scale, Fraction, Value, LeadingDigits;
  }

  lemma AfterPoint(f: string, power: string)
    ensures var after := ['.'] + f + power;
      after[1..] == f + power && after[1..][..|f|] == f && after[1 + |f|..] == power
  {
  }

  /** Anything else after the digits makes it no numeral, and so does having no digits. */
  lemma JunkReadsNothing(whole: string, rest: string)
    requires AllDigits(whole) && rest != "" && !IsDigit(rest[0]) && rest[0] != '.' && rest[0] != 'e' && rest[0] != 'E'
    ensures ParseUnsigned(whole + rest) == None && ParseUnsigned("") == None
  {
    hide Value;
    DigitsLead(whole, rest);
    assert (whole + rest)[|whole|..] == rest;
  }

  /** And a sign before it does what it says. */
  lemma SignedNumeralReads(n: Numeral, negative: bool)
    requires n.Valid()
    ensures ParseFloat([if negative then '-' else '+'] + n.Text())
            == Some(Finite(if negative then -(Times(n.Mantissa(), n.Scale())) else Times(n.Mantissa(), n.Scale())))
  {
    hide ParseUnsigned, Times, Exponent, Value, Numeral.Mantissa, Numeral.Scale;
    NumeralReads(n);
    var text := n.Text();
    assert ([if negative then '-' else '+'] + text)[1..] == text;
    assert IsDigit(text[0]) || text[0] == '.';
    assert Lower(text)[0] == text[0];
  }

  /** Rounding to the nearest integer, halves away from zero. */
  function Rounded(x: real): int {
    if x >= 0.0 then (x + 0.5).Floor else -(-x + 0.5).Floor
  }

  /** The nearest integer; of two equally near, the one farther from zero. */
  lemma RoundedIs(x: real, n: int)
    ensures Rounded(x) == n <==>
      var d := n as real - x;
      -0.5 <= d <= 0.5 && (d == 0.5 ==> x > 0.0) && (d == -0.5 ==> x < 0.0)
  {
  }

  /** The quotient is the integer part: no farther from zero, and by less than one. */
  lemma TruncatedIs(n: int, d: int)
    requires d > 0
    ensures var r := n - Truncated(n, d) * d; -d < r < d && (n >= 0 ==> r >= 0) && (n <= 0 ==> r <= 0)
  {
    if n < 0 {
      assert -n == d * (-n / d) + -n % d;
    } else {
      assert n == d * (n / d) + n % d;
    }
  }

  /** Integer division truncating toward zero. */
  function Truncated(n: int, d: int): int
    requires d > 0
  {
    if n >= 0 then n / d else -(-n / d)
  }
}
