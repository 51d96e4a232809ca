/** ARINC 424 fixed-width records (`backend/src/feed/cifp.rs`): columns, coordinates, and leg order. */
module CifpRecords {
  import opened Wrappers
  import opened Text
  import opened Decimals

  datatype Coord = Coord(lat: real, lon: real)

  // ---- Coordinates -----------------------------------------------------------------------------

  /** Degrees, minutes, seconds and hundredths, as far as each field reads as a float. */
  function DecodeDms(digits: string, negative: bool, degLen: nat): Option<Float> {
    if |digits| != degLen + 6 then None
    else
      var (deg, min) := (ParseFloat(digits[..degLen]), ParseFloat(digits[degLen..degLen + 2]));
      var (sec, hun) := (ParseFloat(digits[degLen + 2..degLen + 4]), ParseFloat(digits[degLen + 4..degLen + 6]));
      if deg.None? || min.None? || sec.None? || hun.None? then None
      else if deg.value.Finite? && min.value.Finite? && sec.value.Finite? && hun.value.Finite? then
        var angle := Angle(deg.value.value, min.value.value, sec.value.value, hun.value.value);
        Some(Finite(if negative then -angle else angle))
      else Some(NonFinite)
  }

  function Angle(deg: real, min: real, sec: real, hun: real): real {
    deg + min / 60.0 + (sec + hun / 100.0) / 3600.0
  }

  predicate IsAscii(s: string) {
    forall i :: 0 <= i < |s| ==> s[i] < '\U{80}'
  }

  function DecodeLat(s: string): Option<Float> {
    if |s| != 9 || !IsAscii(s) then None
    else if s[0] == 'N' then DecodeDms(s[1..], false, 2)
    else if s[0] == 'S' then DecodeDms(s[1..], true, 2)
    else None
  }

  function DecodeLon(s: string): Option<Float> {
    if |s| != 10 || !IsAscii(s) then None
    else if s[0] == 'E' then DecodeDms(s[1..], false, 3)
    else if s[0] == 'W' then DecodeDms(s[1..], true, 3)
    else None
  }

  /** The published form of an angle: `DDMMSSHH`, or `DDDMMSSHH` for a longitude. */
  function EncodeDms(deg: nat, min: nat, sec: nat, hun: nat, degLen: nat): string {
    Padded(deg, degLen) + Padded(min, 2) + Padded(sec, 2) + Padded(hun, 2)
  }

  function Hundredths(deg: nat, min: nat, sec: nat, hun: nat): nat {
    ((deg * 60 + min) * 60 + sec) * 100 + hun
  }

  lemma DmsRoundTrip(deg: nat, min: nat, sec: nat, hun: nat, degLen: nat, negative: bool)
    requires |Padded(deg, degLen)| == degLen && |Padded(min, 2)| == |Padded(sec, 2)| == |Padded(hun, 2)| == 2
    ensures
      var angle := Hundredths(deg, min, sec, hun) as real / 360000.0;
      DecodeDms(EncodeDms(deg, min, sec, hun, degLen), negative, degLen) == Some(Finite(if negative then -angle else angle))
  {
    hide EncodeDms, ParseFloat, Padded, Value, AllDigits, Angle, Hundredths;
    DigitsAreFloats(Padded(deg, degLen));
    DigitsAreFloats(Padded(min, 2));
    DigitsAreFloats(Padded(sec, 2));
    DigitsAreFloats(Padded(hun, 2));
    FourFields(deg, min, sec, hun, degLen);
    AngleInHundredths(deg, min, sec, hun);
  }

  lemma FourFields(deg: nat, min: nat, sec: nat, hun: nat, n: nat)
    requires |Padded(deg, n)| == n && |Padded(min, 2)| == |Padded(sec, 2)| == |Padded(hun, 2)| == 2
    ensures var t := EncodeDms(deg, min, sec, hun, n);
      && |t| == n + 6 && t[..n] == Padded(deg, n) && t[n..n + 2] == Padded(min, 2)
      && t[n + 2..n + 4] == Padded(sec, 2) && t[n + 4..n + 6] == Padded(hun, 2)
  {
    hide Padded, AllDigits, Value;
  }

  lemma AngleInHundredths(deg: nat, min: nat, sec: nat, hun: nat)
    ensures Angle(deg as real, min as real, sec as real, hun as real)
            == Hundredths(deg, min, sec, hun) as real / 360000.0
  {
  }

  lemma TwoDigits(n: nat)
    requires n < 100
    ensures |Padded(n, 2)| == 2
  {
    assert |Show(n)| <= 2 by {
      if n >= 10 {
        assert |Show(n / 10)| == 1;
      }
    }
  }

  lemma ThreeDigits(n: nat)
    requires n < 1000
    ensures |Padded(n, 3)| == 3
  {
    if n >= 10 {
      TwoDigits(n / 10);
      assert |Show(n / 10)| <= 2;
    }
  }

  lemma DigitsAreAscii(c: char, digits: string)
    requires c < '\U{80}' && AllDigits(digits)
    ensures IsAscii([c] + digits) && ([c] + digits)[1..] == digits
  {
  }

  lemma FieldsAreDigits(deg: nat, min: nat, sec: nat, hun: nat, degLen: nat)
    requires |Padded(deg, degLen)| == degLen && |Padded(min, 2)| == |Padded(sec, 2)| == |Padded(hun, 2)| == 2
    ensures var s := EncodeDms(deg, min, sec, hun, degLen); AllDigits(s) && |s| == degLen + 6
  {
    hide Padded;
  }

  /** Every published latitude decodes to exactly the angle it states, to the hundredth of a second. */
  lemma LatRoundTrip(north: bool, deg: nat, min: nat, sec: nat, hun: nat)
    requires deg < 100 && min < 60 && sec < 60 && hun < 100
    ensures
      var angle := Hundredths(deg, min, sec, hun) as real / 360000.0;
      DecodeLat([if north then 'N' else 'S'] + EncodeDms(deg, min, sec, hun, 2))
      == Some(Finite(if north then angle else -angle))
  {
    TwoDigits(deg);
    TwoDigits(min);
    TwoDigits(sec);
    TwoDigits(hun);
    FieldsAreDigits(deg, min, sec, hun, 2);
    hide DecodeDms, EncodeDms, Padded, AllDigits, IsAscii, Hundredths;
    DigitsAreAscii(if north then 'N' else 'S', EncodeDms(deg, min, sec, hun, 2));
    DmsRoundTrip(deg, min, sec, hun, 2, !north);
  }

  /** Every published longitude decodes to exactly the angle it states. */
  lemma LonRoundTrip(east: bool, deg: nat, min: nat, sec: nat, hun: nat)
    requires deg < 1000 && min < 60 && sec < 60 && hun < 100
    ensures
      var angle := Hundredths(deg, min, sec, hun) as real / 360000.0;
      DecodeLon([if east then 'E' else 'W'] + EncodeDms(deg, min, sec, hun, 3))
      == Some(Finite(if east then angle else -angle))
  {
    ThreeDigits(deg);
    TwoDigits(min);
    TwoDigits(sec);
    TwoDigits(hun);
    FieldsAreDigits(deg, min, sec, hun, 3);
    hide DecodeDms, EncodeDms, Padded, AllDigits, IsAscii, Hundredths;
    DigitsAreAscii(if east then 'E' else 'W', EncodeDms(deg, min, sec, hun, 3));
    DmsRoundTrip(deg, min, sec, hun, 3, !east);
  }

  predicate InCoverage(lat: real, lon: real) {
    -90.0 <= lat <= 90.0 && -180.0 <= lon <= 180.0
  }

  function Round5(x: real): real {
    Rounded(x * 100000.0) as real / 100000.0
  }

  /** The rounded coordinate has five decimals and is as near as five decimals come. */
  lemma Round5Close(x: real)
    ensures x - 0.000005 <= Round5(x) <= x + 0.000005
    ensures (Round5(x) * 100000.0).Floor as real == Round5(x) * 100000.0
  {
    assert Round5(x) * 100000.0 == Rounded(x * 100000.0) as real;
  }

  // ---- Columns ---------------------------------------------------------------------------------

  predicate IsPrimary(c: char) {
    c == '0' || c == '1'
  }

  /** Long enough, and plain text. */
  predicate Usable(line: string) {
    |line| >= 51 && IsAscii(line)
  }

  function Field(line: string, lo: nat, hi: nat): string
    requires lo <= hi <= |line|
  {
    Trim(line[lo..hi])
  }

  /** The rounded position of a fix record, when its columns decode to somewhere on the globe. */
  function Position(line: string): Option<Coord>
    requires Usable(line)
  {
    var lat, lon := DecodeLat(line[32..41]), DecodeLon(line[41..51]);
    if lat.None? || lon.None? || lat.value.NonFinite? || lon.value.NonFinite? then None
    else if !InCoverage(lat.value.value, lon.value.value) then None
    else Some(Coord(Round5(lat.value.value), Round5(lon.value.value)))
  }

  /** What one fix record files: an identifier and a position. */
  function Fix(line: string, section: char, subsection: char, subsectionPos: nat, lo: nat, hi: nat): Option<(string, Coord)>
    requires lo <= hi <= 51 && subsectionPos < 51
  {
    if !Usable(line) || line[4] != section || line[subsectionPos] != subsection || !IsPrimary(line[21]) then None
    else if Field(line, lo, hi) == "" then None
    else
      var at := Position(line);
      if at.None? then None else Some((Upper(Field(line, lo, hi)), at.value))
  }

  // ---- Legs ------------------------------------------------------------------------------------

  /** One leg: its sequence number, and the fix it names with the table the fix lives in. */
  datatype Leg = Leg(seqNo: nat, fix: string, section: char, subsection: char)

  datatype Waypoint = Waypoint(fix: string, at: Coord)

  predicate InOrder(s: seq<Leg>) {
    forall i, j :: 0 <= i < j < |s| ==> s[i].seqNo <= s[j].seqNo
  }

  function Insert(s: seq<Leg>, l: Leg): (r: seq<Leg>)
    requires InOrder(s)
    ensures InOrder(r)
    ensures forall x :: x in r ==> x == l || x in s
  {
    if s == [] || s[|s| - 1].seqNo <= l.seqNo then s + [l]
    else
      var last := |s| - 1;
      var r := Insert(s[..last], l);
      StaysBelow(s, r, l);
      r + [s[last]]
  }

  lemma StaysBelow(s: seq<Leg>, r: seq<Leg>, l: Leg)
    requires s != [] && InOrder(s) && l.seqNo < s[|s| - 1].seqNo && forall x :: x in r ==> x == l || x in s[..|s| - 1]
    ensures forall i :: 0 <= i < |r| ==> r[i].seqNo <= s[|s| - 1].seqNo
  {
    forall i | 0 <= i < |r| ensures r[i].seqNo <= s[|s| - 1].seqNo {
      assert r[i] in r;
      if r[i] != l {
        var j :| 0 <= j < |s| - 1 && s[j] == r[i];
      }
    }
  }

  /** `sort_by_key` on the sequence number: stable. */
  function Sorted(s: seq<Leg>): (r: seq<Leg>)
    ensures InOrder(r)
  {
    if s == [] then [] else Insert(Sorted(s[..|s| - 1]), s[|s| - 1])
  }

  /** The legs of `s` numbered `n`, in the order they stand. */
  function Numbered(s: seq<Leg>, n: nat): seq<Leg> {
    if s == [] then []
    else
      var last := |s| - 1;
      Numbered(s[..last], n) + if s[last].seqNo == n then [s[last]] else []
  }

  lemma NumberedLast(s: seq<Leg>, l: Leg, n: nat)
    ensures Numbered(s + [l], n) == if l.seqNo == n then Numbered(s, n) + [l] else Numbered(s, n)
  {
    assert (s + [l])[..|s|] == s;
  }

  lemma InsertAtEnd(s: seq<Leg>, l: Leg)
    requires InOrder(s) && (s == [] || s[|s| - 1].seqNo <= l.seqNo)
    ensures Insert(s, l) == s + [l]
  {
  }

  lemma InsertBefore(front: seq<Leg>, last: Leg, l: Leg)
    requires InOrder(front + [last]) && last.seqNo > l.seqNo
    ensures InOrder(front) && Insert(front + [last], l) == Insert(front, l) + [last]
  {
    assert (front + [last])[..|front|] == front;
  }

  lemma {:induction false} InsertKeepsTies(s: seq<Leg>, l: Leg, n: nat)
    requires InOrder(s)
    ensures Numbered(Insert(s, l), n) == Numbered(s + [l], n)
  {
    hide Numbered, Insert;
    if s == [] || s[|s| - 1].seqNo <= l.seqNo {
      InsertAtEnd(s, l);
    } else {
      var front, last := s[..|s| - 1], s[|s| - 1];
      assert s == front + [last];
      InsertBefore(front, last, l);
      InsertKeepsTies(front, l, n);
      NumberedLast(s, l, n);
      NumberedLast(front, l, n);
      NumberedLast(front, last, n);
      NumberedLast(Insert(front, l), last, n);
    }
  }

  lemma SortedLast(front: seq<Leg>, l: Leg)
    ensures Sorted(front + [l]) == Insert(Sorted(front), l)
  {
    assert (front + [l])[..|front|] == front;
  }

  /** Legs with the same number keep the order they were filed in. */
  lemma {:induction false} SortedIsStable(s: seq<Leg>, n: nat)
    ensures Numbered(Sorted(s), n) == Numbered(s, n)
  {
    if s != [] {
      hide Insert, Numbered, Sorted, InOrder;
      var front, l := s[..|s| - 1], s[|s| - 1];
      assert s == front + [l];
      SortedIsStable(front, n);
      SortedLast(front, l);
      InsertKeepsTies(Sorted(front), l, n);
      NumberedLast(Sorted(front), l, n);
      NumberedLast(front, l, n);
    }
  }

  /** `Sorted` is the only ordered list that keeps, for every number, the legs filed with it in order. */
  lemma {:induction false} SortedUnique(r: seq<Leg>, t: seq<Leg>)
    requires InOrder(r) && InOrder(t) && forall n :: Numbered(r, n) == Numbered(t, n)
    ensures r == t
    decreases |r| + |t|
  {
    if t != [] {
      LastNumbered(t);
    }
    if r != [] {
      LastNumbered(r);
    }
    if r != [] && t != [] {
      var a, b := r[|r| - 1], t[|t| - 1];
      LargestNumbered(r, b.seqNo);
      LargestNumbered(t, a.seqNo);
      assert a.seqNo == b.seqNo;
      assert a == b;
      var r', t' := r[..|r| - 1], t[..|t| - 1];
      assert r == r' + [a] && t == t' + [b];
      forall n ensures Numbered(r', n) == Numbered(t', n) {
        NumberedLast(r', a, n);
        NumberedLast(t', b, n);
        if a.seqNo == n {
          var (x, y) := (Numbered(r', n), Numbered(t', n));
          assert x == (x + [a])[..|x + [a]| - 1] && y == (y + [a])[..|y + [a]| - 1];
        }
      }
      SortedUnique(r', t');
    }
  }

  lemma LastNumbered(s: seq<Leg>)
    requires s != []
    ensures var l := s[|s| - 1]; Numbered(s, l.seqNo) != [] && Numbered(s, l.seqNo)[|Numbered(s, l.seqNo)| - 1] == l
  {
  }

  lemma {:induction false} LargestNumbered(s: seq<Leg>, n: nat)
    requires s != [] && InOrder(s) && Numbered(s, n) != []
    ensures n <= s[|s| - 1].seqNo
  {
    NumberedMembers(s, n);
    var l := Numbered(s, n)[0];
    assert l in s;
  }

  lemma {:induction false} NumberedMembers(s: seq<Leg>, n: nat)
    ensures forall l :: l in Numbered(s, n) ==> l in s && l.seqNo == n
  {
    if s != [] {
      NumberedMembers(s[..|s| - 1], n);
    }
  }
}
