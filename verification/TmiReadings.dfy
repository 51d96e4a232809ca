/** When the text of one field alone has another reading: a bound, a condition, a list of facilities. */
module TmiReadings {
  import opened Wrappers
  import opened Text
  import opened Decimals
  import opened Tmi
  import opened TmiTheorems
  import opened TmiGrammar

  // ---- A kind read again -----------------------------------------------------------------------

  /** A printed count and the given unit. */
  predicate CountOf(s: string, unit: string) {
    && |s| > |unit| && s[|s| - |unit|..] == unit
    && var n := s[..|s| - |unit|]; IsNumeral(n, 0) && I32(ParseSigned(n))
  }

  predicate KindReadsAgain(k: Kind) {
    k.count.Some? || CountOf(k.name, "MIT") || CountOf(k.name, "MINIT")
  }

  lemma UnitStarts(unit: string)
    requires Counts(unit)
    ensures unit != "" && !IsSignOrDigit(unit[0])
  {
  }

  lemma CountParts(n: int, unit: string)
    requires Counts(unit)
    ensures var s := Signed(n, 0) + unit;
      && NumberLength(s) == |Signed(n, 0)| && s[..|Signed(n, 0)|] == Signed(n, 0) && s[|Signed(n, 0)|..] == unit
      && IsSignOrDigit(s[0]) && ParseSigned(Signed(n, 0)) == n
  {
    SignedReadsBack(n, 0);
    UnitStarts(unit);
    hide Signed, ParseSigned;
    NumberThen(Signed(n, 0), unit);
  }

  lemma CountIsText(n: int, unit: string)
    requires Counts(unit) && I32(n)
    ensures CountOf(Signed(n, 0) + unit, unit)
  {
    CountParts(n, unit);
    SignedIsNumeral(n, 0);
    hide Signed, ParseSigned, IsNumeral, NumberLength;
  }

  /** Two kinds with one text: one counts, and the other is named by the whole. */
  lemma OtherKind(k: Kind, l: Kind, g: Grammar)
    requires AdmissibleKind(k, g) && AdmissibleKind(l, g) && KindText(k) == KindText(l) && k != l
    ensures g.kinds && KindReadsAgain(k)
  {
    hide Signed, ParseSigned, NumberLength, CapsWord;
    if k.count.Some? {
      CountParts(k.count.value, k.name);
    }
    if l.count.Some? {
      CountParts(l.count.value, l.name);
      CountIsText(l.count.value, l.name);
    }
  }

  lemma KindAgain(k: Kind, g: Grammar) returns (l: Kind)
    requires AdmissibleKind(k, g) && g.kinds && KindReadsAgain(k)
    ensures AdmissibleKind(l, g) && KindText(l) == KindText(k) && l != k
  {
    hide Signed, ParseSigned, NumberLength, CapsWord, IsNumeral;
    if k.count.Some? {
      var n := Signed(k.count.value, 0);
      l := Kind(n + k.name, None);
      CountParts(k.count.value, k.name);
      assert l.name[0] != 'M' && l.name[0] != 'T';
      CountIsCaps(k.count.value, k.name);
    } else {
      var unit := if CountOf(k.name, "MIT") then "MIT" else "MINIT";
      var digits := k.name[..|k.name| - |unit|];
      var n := NumeralIsSigned(digits, 0);
      ParsedIs(n);
      l := Kind(unit, Some(n));
      UnitIsCaps(unit);
      assert k.name == digits + unit;
    }
  }

  lemma ParsedIs(n: int)
    ensures ParseSigned(Signed(n, 0)) == n
  {
    SignedReadsBack(n, 0);
  }

  lemma UnitIsCaps(unit: string)
    requires Counts(unit)
    ensures CapsWord(unit) && unit != "TXT"
  {
  }

  lemma CountIsCaps(n: int, unit: string)
    requires Counts(unit)
    ensures CapsWord(Signed(n, 0) + unit)
  {
    UnitIsCaps(unit);
    hide Signed;
    SignedIsCaps(n, 0);
    CapsConcat(Signed(n, 0), unit);
  }

  lemma SignedIsCaps(n: int, width: nat)
    ensures NoSpaces(Signed(n, width)) && Caps(Signed(n, width)) && Signed(n, width) != ""
  {
    SignedReadsBack(n, width);
    forall i | 0 <= i < |Signed(n, width)|
      ensures !IsSpace(Signed(n, width)[i]) && UpperChar(Signed(n, width)[i]) == Signed(n, width)[i]
    {
      assert IsSignOrDigit(Signed(n, width)[i]);
    }
  }

  // ---- A bound read again ----------------------------------------------------------------------

  /** A stretch of digits that ends the operator runs on into the digits `n`: it starts with no zero, and what
      it makes is a value, or one with the minus before it. */
  predicate RunsOn(op: string, n: string) {
    exists k :: 0 <= k < |op| && RunsFrom(op, n, k)
  }

  predicate RunsFrom(op: string, n: string, k: nat)
    requires k < |op|
  {
    && op[k] != '0' && AllDigits(op[k..] + n)
    && (I32(Value(op[k..] + n)) || (k > 0 && op[k - 1] == '-' && I32(-(Value(op[k..] + n) as int))))
  }

  predicate EndsWithMinus(op: string) {
    op != "" && op[|op| - 1] == '-'
  }

  predicate SpeedReadsAgain(b: Bound) {
    b.value < 0 || b.value > 9 || RunsOn(b.op, Padded(b.value, 0)) || (b.value != 0 && EndsWithMinus(b.op))
  }

  predicate AltitudeReadsAgain(b: Bound) {
    || b.value < -99 || b.value > 999
    || (b.value >= 0 && (RunsOn(b.op, Padded(b.value, 3)) || (b.value > 99 && EndsWithMinus(b.op))))
  }

  function TextOf(b: Bound, width: nat): string {
    b.op + Signed(b.value, width)
  }

  /** A numeral ends the text of the bound without being its value. */
  ghost predicate ReadsFrom(b: Bound, width: nat, k: nat) {
    && k < |TextOf(b, width)| && k != |b.op|
    && IsNumeral(TextOf(b, width)[k..], width) && I32(ParseSigned(TextOf(b, width)[k..]))
  }

  /** Two bounds with one text: the operator of the other ends elsewhere. */
  lemma OtherBound(b: Bound, c: Bound, width: nat)
    requires TextOf(b, width) == TextOf(c, width) && b != c && I32(c.value)
    ensures ReadsFrom(b, width, |c.op|)
  {
    SignedIsNumeral(c.value, width);
    SignedReadsBack(c.value, width);
    SignedReadsBack(b.value, width);
    hide IsNumeral, Signed, ParseSigned;
    var text := TextOf(b, width);
    assert text[|c.op|..] == Signed(c.value, width) && text[|b.op|..] == Signed(b.value, width);
    assert text[..|c.op|] == c.op && text[..|b.op|] == b.op;
  }

  lemma BoundFrom(b: Bound, width: nat, k: nat) returns (c: Bound)
    requires ReadsFrom(b, width, k)
    ensures TextOf(c, width) == TextOf(b, width) && c != b && c.op == TextOf(b, width)[..k] && I32(c.value)
  {
    hide IsNumeral, Signed, ParseSigned;
    var text := TextOf(b, width);
    var n := NumeralIsSigned(text[k..], width);
    ReadsBack(n, width);
    c := Bound(text[..k], n);
    assert text == text[..k] + text[k..];
  }

  lemma ReadsBack(n: int, width: nat)
    ensures ParseSigned(Signed(n, width)) == n
  {
    SignedReadsBack(n, width);
  }

  lemma SpeedReadsAgainIff(b: Bound)
    ensures SpeedReadsAgain(b) <==> exists k: nat :: ReadsFrom(b, 0, k)
  {
    if SpeedReadsAgain(b) {
      var k := SpeedFrom(b);
    }
    forall k: nat | ReadsFrom(b, 0, k) ensures SpeedReadsAgain(b) {
      SpeedIsRead(b, k);
    }
  }

  lemma AltitudeReadsAgainIff(b: Bound)
    ensures AltitudeReadsAgain(b) <==> exists k: nat :: ReadsFrom(b, 3, k)
  {
    if AltitudeReadsAgain(b) {
      var k := AltitudeFrom(b);
    }
    forall k: nat | ReadsFrom(b, 3, k) ensures AltitudeReadsAgain(b) {
      AltitudeIsRead(b, k);
    }
  }

  lemma UnsignedParses(s: string)
    requires s != "" && AllDigits(s)
    ensures ParseSigned(s) == Value(s) && ParseSigned("-" + s) == -(Value(s) as int)
  {
    assert IsDigit(s[0]) && ("-" + s)[1..] == s;
  }

  /** Long digits that start with no zero are a numeral, with or without a minus. */
  lemma LongDigits(s: string, width: nat)
    requires AllDigits(s) && |s| > Least(width) && s[0] != '0'
    ensures IsNumeral(s, width) && IsNumeral("-" + s, width)
    ensures ParseSigned(s) == Value(s) && ParseSigned("-" + s) == -(Value(s) as int)
  {
    ShowOfValue(s);
    UnsignedParses(s);
    assert ("-" + s)[1..] == s;
  }

  /** A stretch of digits that runs on is a numeral, or one with the minus before it. */
  lemma RunsOnFrom(b: Bound, width: nat) returns (k: nat)
    requires b.value >= 0 && RunsOn(b.op, Padded(b.value, width))
    ensures ReadsFrom(b, width, k)
  {
    hide IsNumeral, ParseSigned, Value, Padded, I32;
    var n := Padded(b.value, width);
    k :| k < |b.op| && RunsFrom(b.op, n, k);
    var digits := b.op[k..] + n;
    PaddedIsLong(b.value, width);
    assert digits[0] == b.op[k];
    LongDigits(digits, width);
    assert TextOf(b, width) == b.op + n;
    assert (b.op + n)[k..] == digits;
    if !I32(Value(digits)) {
      k := k - 1;
      assert (b.op + n)[k..] == "-" + digits;
    }
  }

  lemma PaddedIsLong(n: nat, width: nat)
    ensures |Padded(n, width)| >= Least(width)
  {
  }

  /** So is a minus with a short value that does not start with a zero. */
  lemma MinusFrom(b: Bound, width: nat) returns (k: nat)
    requires 0 < b.value < 1000 && EndsWithMinus(b.op) && Padded(b.value, width)[0] != '0'
    ensures ReadsFrom(b, width, k)
  {
    k := |b.op| - 1;
    var n := Padded(b.value, width);
    hide Padded;
    UnsignedParses(n);
    assert TextOf(b, width)[k..] == "-" + n && ("-" + n)[1..] == n;
  }

  lemma FewDigits(s: string)
    requires AllDigits(s) && |s| <= 3
    ensures Value(s) < 1000
  {
    if s != "" {
      assert IsDigit(s[|s| - 1]);
      var t := s[..|s| - 1];
      if t != "" {
        assert IsDigit(t[|t| - 1]);
        var u := t[..|t| - 1];
        assert u != "" ==> IsDigit(u[|u| - 1]) && Value(u[..|u| - 1]) == 0;
      }
    }
  }

  /** The last digits of a long value alone are a numeral. */
  lemma LastDigitsFrom(b: Bound, width: nat) returns (k: nat)
    requires |Signed(b.value, width)| > Least(width) && width <= 3
    ensures ReadsFrom(b, width, k)
  {
    var (text, n) := (TextOf(b, width), Signed(b.value, width));
    k := |text| - Least(width);
    var end := n[|n| - Least(width)..];
    assert text[k..] == end;
    EndIsDigits(b.value, width, end);
    FewDigits(end);
    UnsignedParses(end);
  }

  lemma EndIsDigits(n: int, width: nat, end: string)
    requires var s := Signed(n, width); |s| > Least(width) && end == s[|s| - Least(width)..]
    ensures AllDigits(end)
  {
    var s := Signed(n, width);
    if n < 0 {
      assert s[1..] == Padded(-n, if width > 0 then width - 1 else 0);
      assert end == s[1..][|s| - 1 - Least(width)..];
    }
  }

  lemma ShowLength(n: nat)
    ensures |Show(n)| > 1 <==> n > 9
    ensures |Show(n)| > 2 <==> n > 99
    ensures |Show(n)| > 3 <==> n > 999
  {
  }

  lemma SpeedFrom(b: Bound) returns (k: nat)
    requires SpeedReadsAgain(b)
    ensures ReadsFrom(b, 0, k)
  {
    hide RunsOn, ReadsFrom;
    if b.value < 0 || b.value > 9 {
      ShowLength(if b.value < 0 then 0 else b.value);
      k := LastDigitsFrom(b, 0);
    } else if RunsOn(b.op, Padded(b.value, 0)) {
      k := RunsOnFrom(b, 0);
    } else {
      ShowLeads(b.value);
      k := MinusFrom(b, 0);
    }
  }

  lemma AltitudeFrom(b: Bound) returns (k: nat)
    requires AltitudeReadsAgain(b)
    ensures ReadsFrom(b, 3, k)
  {
    hide RunsOn, ReadsFrom;
    if b.value < 0 || b.value > 999 {
      ShowLength(if b.value < 0 then -b.value else b.value);
      k := LastDigitsFrom(b, 3);
    } else if RunsOn(b.op, Padded(b.value, 3)) {
      k := RunsOnFrom(b, 3);
    } else {
      ShowLeads(b.value);
      ShowLength(b.value);
      k := MinusFrom(b, 3);
    }
  }

  lemma UnsignedWithin(op: string, n: string, width: nat, k: nat)
    requires k < |op| && |n| >= Least(width) && IsUnsigned(op[k..] + n, width)
    requires I32(Value(op[k..] + n)) || (k > 0 && op[k - 1] == '-' && I32(-(Value(op[k..] + n) as int)))
    ensures RunsOn(op, n)
  {
    assert op[k] == (op[k..] + n)[0];
    assert RunsFrom(op, n, k);
  }

  lemma NumeralAcross(op: string, n: string, width: nat, k: nat)
    requires k < |op| && |n| >= Least(width) && IsNumeral(op[k..] + n, width) && I32(ParseSigned(op[k..] + n))
    ensures RunsOn(op, n) || (EndsWithMinus(op) && IsNumeral("-" + n, width))
  {
    hide IsUnsigned, RunsOn;
    var tail := op[k..] + n;
    assert tail[0] == op[k];
    if IsUnsigned(tail, width) {
      UnsignedIsDigits(tail, width);
      UnsignedParses(tail);
      UnsignedWithin(op, n, width, k);
    } else if k == |op| - 1 {
      assert tail == "-" + n;
    } else {
      var rest := op[k + 1..] + n;
      var w := if width > 0 then width - 1 else 0;
      assert tail[1..] == rest && tail == "-" + rest;
      UnsignedIsDigits(rest, w);
      UnsignedParses(rest);
      UnsignedWithin(op, n, w, k + 1);
    }
  }

  lemma UnsignedIsDigits(s: string, width: nat)
    requires IsUnsigned(s, width)
    ensures s != "" && AllDigits(s)
  {
  }

  /** A numeral that starts within the operator, before an unsigned value. */
  lemma NumeralWithin(b: Bound, width: nat, k: nat)
    requires b.value >= 0 && ReadsFrom(b, width, k) && k < |b.op| && |Padded(b.value, width)| == Least(width)
    ensures RunsOn(b.op, Padded(b.value, width)) || (EndsWithMinus(b.op) && IsNumeral("-" + Padded(b.value, width), width))
  {
    hide IsNumeral, RunsOn, Padded, ParseSigned;
    assert TextOf(b, width)[k..] == b.op[k..] + Padded(b.value, width);
    NumeralAcross(b.op, Padded(b.value, width), width, k);
  }

  lemma MinusInside(s: string, m: nat, width: nat)
    requires 0 < m < |s| && s[m] == '-'
    ensures !IsNumeral(s, width)
  {
    assert s[1..][m - 1] == '-';
  }

  /** A numeral that ends a negative value does not start within the operator. */
  lemma NotAcrossMinus(b: Bound, width: nat, k: nat)
    requires b.value < 0
    ensures k < |b.op| ==> !ReadsFrom(b, width, k)
  {
    hide IsNumeral, Padded, ParseSigned;
    if k < |b.op| {
      MinusInside(TextOf(b, width)[k..], |b.op| - k, width);
    }
  }

  lemma MinusNumeral(n: nat, width: nat)
    requires |Padded(n, width)| == Least(width) && IsNumeral("-" + Padded(n, width), width)
    ensures n > 0 && (width > 1 ==> Padded(n, width)[0] != '0')
  {
    hide Padded;
    assert ("-" + Padded(n, width))[1..] == Padded(n, width);
  }

  lemma SpeedIsRead(b: Bound, k: nat)
    requires ReadsFrom(b, 0, k)
    ensures SpeedReadsAgain(b)
  {
    hide IsNumeral, RunsOn, ParseSigned;
    if 0 <= b.value <= 9 {
      ShowLength(b.value);
      NumeralWithin(b, 0, k);
      if !RunsOn(b.op, Padded(b.value, 0)) {
        MinusNumeral(b.value, 0);
      }
    }
  }

  lemma AltitudeIsRead(b: Bound, k: nat)
    requires ReadsFrom(b, 3, k)
    ensures AltitudeReadsAgain(b)
  {
    hide RunsOn, Padded, ParseSigned;
    if -99 <= b.value < 0 {
      NotAcrossMinus(b, 3, k);
      ShortNegative(b, k);
    } else if 0 <= b.value <= 999 {
      hide IsNumeral;
      PaddedLength(b.value, 3);
      NumeralWithin(b, 3, k);
      if !RunsOn(b.op, Padded(b.value, 3)) {
        MinusNumeral(b.value, 3);
        ZeroLeads(b.value);
      }
    }
  }

  /** After the minus of two digits there is no numeral three wide. */
  lemma ShortNegative(b: Bound, k: nat)
    requires -99 <= b.value < 0 && k > |b.op|
    ensures !ReadsFrom(b, 3, k)
  {
    PaddedLength(-b.value, 2);
    hide Padded;
    assert |TextOf(b, 3)| == |b.op| + 3;
  }

  lemma PaddedLength(n: nat, width: nat)
    requires 2 <= width <= 3 && n <= if width == 2 then 99 else 999
    ensures |Padded(n, width)| == width
  {
    ShowLength(n);
  }

  lemma ZeroLeads(n: nat)
    ensures n <= 99 ==> Padded(n, 3)[0] == '0'
  {
    ShowLength(n);
    if n <= 99 {
      ZeroPads(Show(n), 3);
    }
  }

  lemma {:induction false} ZeroPads(s: string, width: nat)
    requires AllDigits(s) && |s| < width
    ensures PadLeft(s, width)[0] == '0'
    decreases width - |s|
  {
    LeadingZero(s);
    if |s| + 1 < width {
      ZeroPads("0" + s, width);
    }
  }

  // ---- A text read as a bound ------------------------------------------------------------------

  /** Reads as a bound: with any operator when `signs`, otherwise with all that comes before a sign or digit. */
  predicate ReadsAsBound(text: string, width: nat, signs: bool) {
    if signs then |text| >= Least(width) && IsNumeral(text[|text| - Least(width)..], width)
    else IsNumeral(text[OpLength(text)..], width) && I32(ParseSigned(text[OpLength(text)..]))
  }

  lemma NumeralEnds(s: string, width: nat)
    requires IsNumeral(s, width)
    ensures |s| >= Least(width) && IsNumeral(s[|s| - Least(width)..], width)
  {
    if |s| > Least(width) {
      var end := s[|s| - Least(width)..];
      assert end == s[1..][|s| - 1 - Least(width)..];
    } else {
      assert s[|s| - Least(width)..] == s;
    }
  }

  lemma BoundReads(b: Bound, width: nat, g: Grammar)
    requires AdmissibleOp(b.op, g) && I32(b.value)
    ensures ReadsAsBound(TextOf(b, width), width, g.signs)
  {
    hide IsNumeral, Signed, PlainOp, NoSpaces, ParseSigned;
    var (text, n) := (TextOf(b, width), Signed(b.value, width));
    SignedIsNumeral(b.value, width);
    if g.signs {
      NumeralEnds(n, width);
      assert text[|text| - Least(width)..] == n[|n| - Least(width)..];
    } else {
      SignedReadsBack(b.value, width);
      OpThen(b.op, n);
      assert text[|b.op|..] == n;
    }
  }

  lemma {:induction false} OpIsPlain(text: string)
    requires NoSpaces(text)
    ensures PlainOp(text[..OpLength(text)])
  {
    if text != "" && !IsSignOrDigit(text[0]) {
      OpIsPlain(text[1..]);
      assert text[..OpLength(text)] == [text[0]] + text[1..][..OpLength(text[1..])];
    }
  }

  lemma BoundRead(text: string, width: nat, g: Grammar) returns (b: Bound)
    requires NoSpaces(text) && ReadsAsBound(text, width, g.signs) && width <= 3
    ensures TextOf(b, width) == text && AdmissibleOp(b.op, g) && b.op <= text && I32(b.value)
  {
    hide IsNumeral, Signed, PlainOp, ParseSigned;
    var k := if g.signs then |text| - Least(width) else OpLength(text);
    OpIsPlain(text);
    if g.signs {
      ShortNumeral(text[k..], width);
    }
    var n := NumeralIsSigned(text[k..], width);
    ReadsBack(n, width);
    b := Bound(text[..k], n);
    assert text == text[..k] + text[k..];
  }

  lemma ShortNumeral(s: string, width: nat)
    requires IsNumeral(s, width) && |s| <= 3
    ensures I32(ParseSigned(s))
  {
    if IsUnsigned(s, width) {
      FewDigits(s);
      UnsignedParses(s);
    } else {
      FewDigits(s[1..]);
      UnsignedParses(s[1..]);
      assert s == "-" + s[1..];
    }
  }

  // ---- A condition read again ------------------------------------------------------------------

  predicate ColonInside(c: (string, string)) {
    || (exists i :: 0 < i < |c.0| && c.0[i] == ':')
    || (exists i :: 0 <= i < |c.1| - 1 && c.1[i] == ':')
  }

  lemma LeadOfToken(c: (string, string))
    ensures Lead(ConditionToken(c)) == Lead(c.0)
  {
    var n := RunLength(c.0, ':');
    var rest := c.0[n..] + ":" + c.1;
    assert c.0 == c.0[..n] + c.0[n..];
    assert ConditionToken(c) == c.0[..n] + rest;
    RunThen(c.0[..n], rest, ':');
  }

  lemma OtherCondition(c: (string, string), d: (string, string), g: Grammar)
    requires AdmissibleCondition(c, g) && AdmissibleCondition(d, g) && ConditionToken(c) == ConditionToken(d) && c != d
    ensures g.colons && ColonInside(c)
  {
    var token := ConditionToken(c);
    assert token[|c.0|] == ':' && token[|d.0|] == ':';
    assert c.0 == token[..|c.0|] && c.1 == token[|c.0| + 1..] && d.0 == token[..|d.0|] && d.1 == token[|d.0| + 1..];
    if |d.0| < |c.0| {
      assert c.0[|d.0|] == ':';
    } else {
      assert |d.0| != |c.0|;
      assert c.1[|d.0| - |c.0| - 1] == ':' && d.0[|c.0|] == ':';
    }
  }

  lemma SliceIsCaps(s: string, i: nat, j: nat)
    requires NoSpaces(s) && Caps(s) && i <= j <= |s|
    ensures NoSpaces(s[i..j]) && Caps(s[i..j])
  {
    forall k | 0 <= k < j - i ensures !IsSpace(s[i..j][k]) && UpperChar(s[i..j][k]) == s[i..j][k] {
      assert s[i..j][k] == s[i + k];
    }
  }

  lemma CapsSlices(s: string, i: nat, j: nat)
    requires CapsWord(s) && i < j <= |s|
    ensures CapsWord(s[i..j])
  {
    hide NoSpaces, Caps;
    SliceIsCaps(s, i, j);
  }

  lemma CapsEnd(s: string, i: nat)
    requires CapsWord(s) && i < |s|
    ensures CapsWord(s[i..])
  {
    hide CapsWord;
    CapsSlices(s, i, |s|);
    assert s[i..|s|] == s[i..];
  }

  lemma CapsConcat(a: string, b: string)
    requires NoSpaces(a) && Caps(a) && NoSpaces(b) && Caps(b)
    ensures NoSpaces(a + b) && Caps(a + b)
  {
  }

  lemma TokenIsCaps(c: (string, string))
    requires CapsWord(c.0) && CapsWord(c.1)
    ensures CapsWord(ConditionToken(c))
  {
    CapsConcat(c.0, ":");
    CapsConcat(c.0 + ":", c.1);
  }

  lemma ConditionAgain(c: (string, string), g: Grammar) returns (d: (string, string))
    requires AdmissibleCondition(c, g) && g.colons && ColonInside(c)
    ensures AdmissibleCondition(d, g) && ConditionToken(d) == ConditionToken(c) && d != c
  {
    var token := ConditionToken(c);
    TokenIsCaps(c);
    var k: nat := ColonAt(c);
    hide CapsWord, ColonInside, Lead;
    CapsSlices(token, 0, k);
    CapsEnd(token, k + 1);
    d := (token[..k], token[k + 1..]);
    assert token == token[..k] + ":" + token[k + 1..];
    LeadOfToken(c);
    LeadOfToken(d);
    assert token[0..k] == d.0;
  }

  lemma ColonAt(c: (string, string)) returns (k: nat)
    requires ColonInside(c) && c.1 != ""
    ensures 0 < k < |ConditionToken(c)| - 1 && ConditionToken(c)[k] == ':' && k != |c.0|
  {
    if i :| 0 < i < |c.0| && c.0[i] == ':' {
      k := i;
    } else {
      var i :| 0 <= i < |c.1| - 1 && c.1[i] == ':';
      k := |c.0| + 1 + i;
    }
  }

  // ---- A list read again -----------------------------------------------------------------------

  predicate CommaInside(exclude: seq<string>) {
    |exclude| > 1 || (|exclude| == 1 && exists i :: 0 < i < |exclude[0]| - 1 && exclude[0][i] == ',')
  }

  /** Reads as a list of facilities: as one when `commas`, otherwise split at every comma. */
  predicate ReadsAsList(text: string, commas: bool) {
    commas || forall i :: 0 <= i < |Split(text, ',')| ==> Split(text, ',')[i] != ""
  }

  lemma CommaIs()
    ensures [','] == ","
  {
  }

  lemma SplitAdmissible(exclude: seq<string>, g: Grammar)
    requires exclude != [] && AdmissibleList(exclude, g) && !g.commas
    ensures Split(Join(exclude, ","), ',') == exclude
  {
    CommaIs();
    SplitOfJoin(exclude, ',');
  }

  lemma JoinSingle(w: string, separator: string)
    ensures Join([w], separator) == w
  {
  }

  lemma JoinFirst(ws: seq<string>, separator: string)
    requires |ws| > 1
    ensures Join(ws, separator) == ws[0] + separator + Join(ws[1..], separator)
  {
  }

  lemma {:induction false} JoinNotEmpty(ws: seq<string>)
    requires ws != [] && forall i :: 0 <= i < |ws| ==> ws[i] != ""
    ensures Join(ws, ",") != ""
  {
    assert ws[0] != "";
  }

  lemma OtherList(e: seq<string>, f: seq<string>, g: Grammar)
    requires e != [] && f != [] && AdmissibleList(e, g) && AdmissibleList(f, g) && Join(e, ",") == Join(f, ",") && e != f
    ensures g.commas && CommaInside(e)
  {
    hide Split, Join, Caps, NoSpaces;
    if !g.commas {
      SplitAdmissible(e, g);
      SplitAdmissible(f, g);
    } else if |e| == 1 {
      assert e == [e[0]];
      JoinSingle(e[0], ",");
      if |f| == 1 {
        assert f == [f[0]];
        JoinSingle(f[0], ",");
      } else {
        JoinFirst(f, ",");
        JoinNotEmpty(f[1..]);
        assert f[0] != "" && e[0][|f[0]|] == ',';
      }
    }
  }

  lemma {:induction false} JoinIsCaps(ws: seq<string>)
    requires forall i :: 0 <= i < |ws| ==> CapsWord(ws[i])
    ensures NoSpaces(Join(ws, ",")) && Caps(Join(ws, ",")) && (ws != [] ==> Join(ws, ",") != "")
  {
    hide Caps, NoSpaces;
    if |ws| > 1 {
      JoinIsCaps(ws[1..]);
      assert NoSpaces(",") && Caps(",") by { CommaIsCaps(); }
      CapsConcat(ws[0], ",");
      CapsConcat(ws[0] + ",", Join(ws[1..], ","));
    } else if ws == [] {
      EmptyIsCaps();
    }
  }

  lemma CommaIsCaps()
    ensures NoSpaces(",") && Caps(",")
  {
  }

  lemma EmptyIsCaps()
    ensures NoSpaces("") && Caps("")
  {
  }

  lemma ListAgain(e: seq<string>, g: Grammar) returns (f: seq<string>)
    requires AdmissibleList(e, g) && g.commas && CommaInside(e)
    ensures AdmissibleList(f, g) && f != [] && Join(f, ",") == Join(e, ",") && f != e
  {
    hide Join, Caps, NoSpaces;
    if |e| > 1 {
      f := [Join(e, ",")];
      JoinIsCaps(e);
      JoinSingle(Join(e, ","), ",");
    } else {
      var w := e[0];
      var i :| 0 < i < |w| - 1 && w[i] == ',';
      f := [w[..i], w[i + 1..]];
      assert w[0..i] == w[..i];
      CapsSlices(w, 0, i);
      CapsEnd(w, i + 1);
      JoinFirst(f, ",");
      assert f[1..] == [w[i + 1..]] && e == [w];
      JoinSingle(w[i + 1..], ",");
      JoinSingle(w, ",");
      assert w == w[..i] + "," + w[i + 1..];
    }
  }

  lemma ListReads(e: seq<string>, g: Grammar)
    requires e != [] && AdmissibleList(e, g)
    ensures ReadsAsList(Join(e, ","), g.commas)
  {
    hide Split, Join;
    if !g.commas {
      SplitAdmissible(e, g);
    }
  }

  lemma SplitFirst(s: string)
    ensures var n := RunLength(s, ',');
      Split(s, ',') == if n == |s| then [s] else [s[..n]] + Split(s[n + 1..], ',')
  {
    hide RunLength;
  }

  /** Splitting at the commas loses nothing, and no part holds one. */
  lemma {:induction false} JoinOfSplit(s: string)
    requires NoSpaces(s) && Caps(s)
    ensures var parts := Split(s, ',');
      && Join(parts, ",") == s
      && forall i :: 0 <= i < |parts| ==> NoSpaces(parts[i]) && Caps(parts[i]) && Free(parts[i], ',')
    decreases |s|
  {
    hide Join, NoSpaces, Caps, Split, RunLength, Free;
    var n := RunLength(s, ',');
    SplitFirst(s);
    SliceIsCaps(s, 0, n);
    assert s[0..n] == s[..n];
    if n == |s| {
      JoinSingle(s, ",");
      assert s[..n] == s;
    } else {
      var rest := s[n + 1..];
      SliceIsCaps(s, n + 1, |s|);
      assert s[n + 1..|s|] == rest;
      JoinOfSplit(rest);
      JoinFirst([s[..n]] + Split(rest, ','), ",");
      assert ([s[..n]] + Split(rest, ','))[1..] == Split(rest, ',');
      assert s == s[..n] + "," + rest;
    }
  }

  lemma ListRead(text: string, g: Grammar) returns (e: seq<string>)
    requires CapsWord(text) && ReadsAsList(text, g.commas)
    ensures e != [] && AdmissibleList(e, g) && Join(e, ",") == text
  {
    hide Split, Join, Caps, NoSpaces;
    if g.commas {
      e := [text];
      JoinSingle(text, ",");
    } else {
      e := Split(text, ',');
      JoinOfSplit(text);
    }
  }
}
