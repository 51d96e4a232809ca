/** The published columns of the records read, and that each record is read back to its own fields. */
module CifpColumns {
  import opened Wrappers
  import opened Text
  import opened Decimals
  import opened CifpRecords
  import Airways = CifpAirways
  import Procedures = CifpProcedures

  function Blanks(n: nat): (s: string)
    ensures |s| == n && forall i :: 0 <= i < n ==> s[i] == ' '
  {
    seq(n, _ => ' ')
  }

  /** A name set at the left of its column. */
  function Column(name: string, width: nat): (s: string)
    requires |name| <= width
    ensures |s| == width
  {
    name + Blanks(width - |name|)
  }

  /** A name as it is kept: plain text in capitals, with no blank at either end. */
  predicate IsName(name: string) {
    IsAscii(name) && IsTrimmed(name) && Upper(name) == name
  }

  lemma ColumnReadsBack(name: string, width: nat)
    requires IsName(name) && |name| <= width
    ensures IsAscii(Column(name, width)) && Trim(Column(name, width)) == name
  {
    TrimOf("", name, Blanks(width - |name|));
    assert "" + name + Blanks(width - |name|) == Column(name, width);
  }

  lemma DigitsReadBack(n: nat, width: nat)
    requires |Padded(n, width)| == width && n < 0x1_0000_0000
    ensures IsAscii(Padded(n, width)) && ParseU32(Trim(Padded(n, width))) == Some(n)
  {
    hide Padded;
    var s := Padded(n, width);
    assert s[0] in s && s[|s| - 1] in s;
    assert IsDigit(s[0]) && IsDigit(s[|s| - 1]);
    TrimOf("", s, "");
    assert "" + s + "" == s;
  }

  // ---- Fix records -----------------------------------------------------------------------------

  /** A hemisphere and an angle in its own units. */
  datatype Dms = Dms(positive: bool, deg: nat, min: nat, sec: nat, hun: nat) {
    predicate Valid(degrees: nat) {
      deg < degrees && min < 60 && sec < 60 && hun < 100
    }

    function Angle(): real {
      var angle := Hundredths(deg, min, sec, hun) as real / 360000.0;
      if positive then angle else -angle
    }
  }

  function LatText(lat: Dms): string {
    [if lat.positive then 'N' else 'S'] + EncodeDms(lat.deg, lat.min, lat.sec, lat.hun, 2)
  }

  function LonText(lon: Dms): string {
    [if lon.positive then 'E' else 'W'] + EncodeDms(lon.deg, lon.min, lon.sec, lon.hun, 3)
  }

  lemma LatColumn(lat: Dms)
    requires lat.Valid(100)
    ensures IsAscii(LatText(lat)) && |LatText(lat)| == 9 && DecodeLat(LatText(lat)) == Some(Finite(lat.Angle()))
  {
    hide EncodeDms, IsAscii, DecodeLat, Hundredths;
    LatRoundTrip(lat.positive, lat.deg, lat.min, lat.sec, lat.hun);
    DecodedLat(LatText(lat));
  }

  lemma DecodedLat(s: string)
    requires DecodeLat(s).Some?
    ensures IsAscii(s) && |s| == 9
  {
  }

  lemma LonColumn(lon: Dms)
    requires lon.Valid(1000)
    ensures IsAscii(LonText(lon)) && |LonText(lon)| == 10 && DecodeLon(LonText(lon)) == Some(Finite(lon.Angle()))
  {
    hide EncodeDms, IsAscii, DecodeLon, Hundredths;
    LonRoundTrip(lon.positive, lon.deg, lon.min, lon.sec, lon.hun);
    DecodedLon(LonText(lon));
  }

  lemma DecodedLon(s: string)
    requires DecodeLon(s).Some?
    ensures IsAscii(s) && |s| == 10
  {
  }

  /** A fix record: `middle` is columns 6 to 13, and `width` that of the identifier's column from column 14. */
  datatype FixRecord = FixRecord(
    area: string, section: char, middle: string, ident: string, width: nat, gap: string, continuation: char,
    notes: string, lat: Dms, lon: Dms, rest: string)
  {
    predicate Valid() {
      && IsAscii(area) && IsAscii(middle) && IsAscii(gap) && IsAscii(notes) && IsAscii(rest)
      && section < '\U{80}' && continuation < '\U{80}'
      && |area| == 4 && |middle| == 8 && |notes| == 10
      && width <= 8 && |gap| == 8 - width
      && IsName(ident) && 0 < |ident| <= width
      && lat.Valid(100) && lon.Valid(1000)
    }

    function Columns(): Layout
      requires Valid()
    {
      Then(area, Then([section], Then(middle, Then(Column(ident, width), Then(gap,
        Then([continuation], Then(notes, Then(LatText(lat), Then(LonText(lon), End(rest))))))))))
    }
  }

  /** A record set out a column at a time. */
  datatype Layout = End(text: string) | Then(text: string, next: Layout)

  function Written(l: Layout): string {
    if l.End? then l.text else l.text + Written(l.next)
  }

  lemma NextColumn(s: string, at: nat, l: Layout)
    requires l.Then? && at <= |s| && s[at..] == Written(l)
    ensures at + |l.text| <= |s| && s[at..at + |l.text|] == l.text && s[at + |l.text|..] == Written(l.next)
    ensures IsAscii(l.text) && IsAscii(Written(l.next)) ==> IsAscii(Written(l))
    ensures l.text != "" ==> s[at] == l.text[0]
  {
    assert s[at..at + |l.text|] == s[at..][..|l.text|];
    assert s[at + |l.text|..] == s[at..][|l.text|..];
    assert l.text != "" ==> s[at] == s[at..][0];
  }

  lemma LastColumn(c: char, rest: string)
    requires c < '\U{80}'
    ensures IsAscii([c]) && Written(End(rest)) == rest
  {
  }

  /** The columns of `l` from offset `at`, where `l` is set out in `s`. */
  ghost predicate SetOut(s: string, at: nat, l: Layout) {
    at <= |s| && s[at..] == Written(l)
  }

  lemma FixHead(r: FixRecord, s: string)
    requires r.Valid() && s == Written(r.Columns())
    ensures |s| >= 21 && s[0..4] == r.area && s[4] == r.section && s[5] == r.middle[0] && s[12] == r.middle[7]
    ensures s[13..13 + r.width] == Column(r.ident, r.width)
    ensures SetOut(s, 21, r.Columns().next.next.next.next.next)
    ensures IsAscii(Written(r.Columns().next.next.next.next.next)) ==> IsAscii(s)
  {
    hide LatText, LonText, Column, IsName, Trim, Upper, IsTrimmed, IsAscii, Written, Dms.Valid;
    ColumnReadsBack(r.ident, r.width);
    LastColumn(r.section, "");
    var l0 := r.Columns();
    assert s[0..] == s;
    NextColumn(s, 0, l0);
    var l1 := l0.next;
    NextColumn(s, 4, l1);
    var l2 := l1.next;
    NextColumn(s, 5, l2);
    var l3 := l2.next;
    NextColumn(s, 13, l3);
    var l4 := l3.next;
    NextColumn(s, 13 + r.width, l4);
  }

  lemma FixTail(r: FixRecord, s: string)
    requires r.Valid() && SetOut(s, 21, r.Columns().next.next.next.next.next)
    ensures |s| >= 51 && s[21] == r.continuation && s[32..41] == LatText(r.lat) && s[41..51] == LonText(r.lon)
    ensures IsAscii(Written(r.Columns().next.next.next.next.next))
  {
    hide LatText, LonText, Column, IsName, Trim, Upper, IsTrimmed, Dms.Valid, DecodeLat, DecodeLon, IsAscii, Written;
    LatColumn(r.lat);
    LonColumn(r.lon);
    LastColumn(r.continuation, r.rest);
    var l5 := r.Columns().next.next.next.next.next;
    NextColumn(s, 21, l5);
    var l6 := l5.next;
    NextColumn(s, 22, l6);
    var l7 := l6.next;
    NextColumn(s, 32, l7);
    var l8 := l7.next;
    NextColumn(s, 41, l8);
  }

  /** A fix record written in its columns files its identifier and its position, and files nothing when it is a
      continuation or its position is off the globe. */
  lemma FixReadsBack(r: FixRecord, subsectionPos: nat)
    requires r.Valid() && (subsectionPos == 5 || subsectionPos == 12)
    ensures
      var (lat, lon) := (r.lat.Angle(), r.lon.Angle());
      Fix(Written(r.Columns()), r.section, r.middle[subsectionPos - 5], subsectionPos, 13, 13 + r.width)
      == if (r.continuation == '0' || r.continuation == '1') && -90.0 <= lat <= 90.0 && -180.0 <= lon <= 180.0
         then Some((r.ident, Coord(Round5(lat), Round5(lon)))) else None
  {
    hide LatText, LonText, Column, Trim, Upper, DecodeLat, DecodeLon, Round5, IsAscii, Written, FixRecord.Columns,
      Dms.Angle,
      IsTrimmed, Dms.Valid, Fix;
    var s := Written(r.Columns());
    FixHead(r, s);
    FixTail(r, s);
    LatColumn(r.lat);
    LonColumn(r.lon);
    ColumnReadsBack(r.ident, r.width);
    FixOf(s, subsectionPos, 13 + r.width, r.ident, r.lat.Angle(), r.lon.Angle());
  }

  lemma FixOf(s: string, subsectionPos: nat, hi: nat, ident: string, lat: real, lon: real)
    requires Usable(s) && subsectionPos < 51 && 13 <= hi <= 51
    requires Trim(s[13..hi]) == ident && ident != "" && Upper(ident) == ident
    requires DecodeLat(s[32..41]) == Some(Finite(lat)) && DecodeLon(s[41..51]) == Some(Finite(lon))
    ensures Fix(s, s[4], s[subsectionPos], subsectionPos, 13, hi)
            == if (s[21] == '0' || s[21] == '1') && -90.0 <= lat <= 90.0 && -180.0 <= lon <= 180.0
               then Some((ident, Coord(Round5(lat), Round5(lon)))) else None
  {
    hide Trim, Upper, DecodeLat, DecodeLon, Round5, IsAscii;
  }

  lemma FixIsOf(s: string, section: char, subsection: char, subsectionPos: nat, lo: nat, hi: nat)
    requires lo <= hi <= 51 && subsectionPos < 51
    ensures Fix(s, section, subsection, subsectionPos, lo, hi).Some? ==>
      |s| >= 51 && s[4] == section && s[subsectionPos] == subsection
  {
  }

  /** A fix record of one of an airway's three tables files its position under its area and identifier. */
  lemma AirwayFixReadsBack(r: FixRecord)
    requires r.Valid() && (r.continuation == '0' || r.continuation == '1')
    requires -90.0 <= r.lat.Angle() <= 90.0 && -180.0 <= r.lon.Angle() <= 180.0
    ensures
      var filed := Some(((r.area, r.ident), Coord(Round5(r.lat.Angle()), Round5(r.lon.Angle()))));
      var s := Written(r.Columns());
      && (r.section == 'D' && r.middle[0] == ' ' && r.width == 4 ==> Airways.NAVAID(s) == filed)
      && (r.section == 'D' && r.middle[0] == 'B' && r.width == 4 ==> Airways.NDB(s) == filed)
      && (r.section == 'E' && r.middle[0] == 'A' && r.width == 5 ==> Airways.WAYPOINT(s) == filed)
    ensures
      var s := Written(r.Columns());
      && (Airways.NAVAID(s).Some? ==> r.section == 'D' && r.middle[0] == ' ')
      && (Airways.NDB(s).Some? ==> r.section == 'D' && r.middle[0] == 'B')
      && (Airways.WAYPOINT(s).Some? ==> r.section == 'E' && r.middle[0] == 'A')
  {
    hide LatText, LonText, Column, Trim, Upper, Round5, IsAscii, Written, FixRecord.Columns, Dms.Angle, IsTrimmed,
      Dms.Valid, Fix;
    FixReadsBack(r, 5);
    var s := Written(r.Columns());
    FixHead(r, s);
    FixIsOf(s, 'D', ' ', 5, 13, 17);
    FixIsOf(s, 'D', 'B', 5, 13, 17);
    FixIsOf(s, 'E', 'A', 5, 13, 18);
  }

  /** A fix record of one of a procedure's four tables files its position under its identifier. */
  lemma ProcedureFixReadsBack(r: FixRecord)
    requires r.Valid() && (r.continuation == '0' || r.continuation == '1')
    requires -90.0 <= r.lat.Angle() <= 90.0 && -180.0 <= r.lon.Angle() <= 180.0
    ensures
      var filed := Some((r.ident, Coord(Round5(r.lat.Angle()), Round5(r.lon.Angle()))));
      var s := Written(r.Columns());
      && (r.section == 'D' && r.middle[0] == ' ' && r.width == 4 ==> Procedures.NAVAID(s) == filed)
      && (r.section == 'D' && r.middle[0] == 'B' && r.width == 4 ==> Procedures.NDB(s) == filed)
      && (r.section == 'E' && r.middle[0] == 'A' && r.width == 5 ==> Procedures.WAYPOINT(s) == filed)
      && (r.section == 'P' && r.middle[7] == 'C' && r.width == 5 ==> Procedures.TERMINAL(s) == filed)
    ensures
      var s := Written(r.Columns());
      && (Procedures.NAVAID(s).Some? ==> r.section == 'D' && r.middle[0] == ' ')
      && (Procedures.NDB(s).Some? ==> r.section == 'D' && r.middle[0] == 'B')
      && (Procedures.WAYPOINT(s).Some? ==> r.section == 'E' && r.middle[0] == 'A')
      && (Procedures.TERMINAL(s).Some? ==> r.section == 'P' && r.middle[7] == 'C')
  {
    hide LatText, LonText, Column, Trim, Upper, Round5, IsAscii, Written, FixRecord.Columns, Dms.Angle, IsTrimmed,
      Dms.Valid, Fix;
    FixReadsBack(r, 5);
    FixReadsBack(r, 12);
    var s := Written(r.Columns());
    FixHead(r, s);
    FixIsOf(s, 'D', ' ', 5, 13, 17);
    FixIsOf(s, 'D', 'B', 5, 13, 17);
    FixIsOf(s, 'E', 'A', 5, 13, 18);
    FixIsOf(s, 'P', 'C', 12, 13, 18);
  }

  // ---- Leg records -----------------------------------------------------------------------------

  /** What an airway or procedure record says of one leg, from column 30. */
  datatype LegEnd = LegEnd(fix: string, gap: string, section: char, subsection: char, continuation: char, rest: string) {
    predicate Valid() {
      && IsName(fix) && |fix| <= 5 && IsAscii(gap) && |gap| == 2 && IsAscii(rest) && |rest| >= 12
      && section < '\U{80}' && subsection < '\U{80}' && continuation < '\U{80}'
    }

    function Columns(): Layout
      requires Valid()
    {
      Then(Column(fix, 5), Then(gap, Then([section], Then([subsection], Then([continuation], End(rest))))))
    }
  }

  lemma LegEndColumns(e: LegEnd, s: string)
    requires e.Valid() && SetOut(s, 29, e.Columns())
    ensures |s| >= 51 && s[29..34] == Column(e.fix, 5) && s[36] == e.section && s[37] == e.subsection
    ensures s[38] == e.continuation && IsAscii(Written(e.Columns()))
  {
    hide Column, IsName, Trim, Upper, IsTrimmed, IsAscii, Written;
    ColumnReadsBack(e.fix, 5);
    LastColumn(e.section, "");
    LastColumn(e.subsection, "");
    LastColumn(e.continuation, e.rest);
    var l0 := e.Columns();
    NextColumn(s, 29, l0);
    var l1 := l0.next;
    NextColumn(s, 34, l1);
    var l2 := l1.next;
    NextColumn(s, 36, l2);
    var l3 := l2.next;
    NextColumn(s, 37, l3);
    var l4 := l3.next;
    NextColumn(s, 38, l4);
  }

  datatype AirwayLeg = AirwayLeg(area: string, kind: string, gap: string, route: string, notes: string, number: nat,
    end: LegEnd) {
    predicate Valid() {
      && IsAscii(area) && |area| == 4 && IsAscii(kind) && |kind| == 2 && IsAscii(gap) && |gap| == 7
      && IsAscii(notes) && |notes| == 7
      && IsName(route) && 0 < |route| <= 5 && number < 10000 && end.Valid() && end.fix != ""
    }

    function Columns(): Layout
      requires Valid()
    {
      Then(area, Then(kind, Then(gap, Then(Column(route, 5), Then(notes, Then(Padded(number, 4), end.Columns()))))))
    }
  }

  lemma AirwayLegColumns(r: AirwayLeg, s: string)
    requires r.Valid() && s == Written(r.Columns()) && |Padded(r.number, 4)| == 4
    ensures |s| >= 29 && s[0..4] == r.area && s[4..6] == r.kind
    ensures s[13..18] == Column(r.route, 5) && s[25..29] == Padded(r.number, 4)
    ensures SetOut(s, 29, r.end.Columns()) && (IsAscii(Written(r.end.Columns())) ==> IsAscii(s))
  {
    hide Column, IsName, Trim, Upper, IsTrimmed, IsAscii, Written, Padded, LegEnd.Columns, LegEnd.Valid;
    ColumnReadsBack(r.route, 5);
    DigitsReadBack(r.number, 4);
    var l0 := r.Columns();
    assert s[0..] == s;
    NextColumn(s, 0, l0);
    var l1 := l0.next;
    NextColumn(s, 4, l1);
    var l2 := l1.next;
    NextColumn(s, 6, l2);
    var l3 := l2.next;
    NextColumn(s, 13, l3);
    var l4 := l3.next;
    NextColumn(s, 18, l4);
    var l5 := l4.next;
    NextColumn(s, 25, l5);
  }

  /** An airway leg written in its columns is filed under its area and route; a continuation, or a record
      that is not an enroute airway's, files nothing. */
  lemma AirwayLegReadsBack(r: AirwayLeg)
    requires r.Valid()
    ensures Airways.LegEntry(Written(r.Columns()))
            == if r.kind == "ER" && (r.end.continuation == '0' || r.end.continuation == '1')
               then Some(((r.area, r.route), Leg(r.number, r.end.fix, r.end.section, r.end.subsection))) else None
  {
    hide Column, Trim, Upper, IsTrimmed, IsAscii, Written, Padded, AirwayLeg.Columns, LegEnd.Columns, ParseU32;
    FourDigits(r.number);
    var s := Written(r.Columns());
    AirwayLegColumns(r, s);
    LegEndColumns(r.end, s);
    ColumnReadsBack(r.route, 5);
    ColumnReadsBack(r.end.fix, 5);
    DigitsReadBack(r.number, 4);
  }

  lemma FourDigits(n: nat)
    requires n < 10000
    ensures |Padded(n, 4)| == 4
  {
    if n >= 1000 {
      ThreeDigits(n / 10);
      assert |Show(n / 10)| <= 3;
    } else {
      ThreeDigits(n);
    }
  }

  /** A SID or STAR record: `kind` is its thirteenth column. */
  datatype ProcedureLeg = ProcedureLeg(
    area: string, section: char, gap: string, apt: string, notes: string, kind: char, proc: string, route: string,
    transition: string, quals: string, number: nat, end: LegEnd)
  {
    predicate Valid() {
      && IsAscii(area) && |area| == 4 && IsAscii(gap) && |gap| == 1 && IsAscii(notes) && |notes| == 2
      && IsAscii(route) && |route| == 1 && IsAscii(quals) && |quals| == 1 && section < '\U{80}' && kind < '\U{80}'
      && IsName(apt) && 0 < |apt| <= 4 && IsName(proc) && 0 < |proc| <= 6 && IsName(transition) && |transition| <= 5
      && number < 1000 && end.Valid()
    }

    function Columns(): Layout
      requires Valid()
    {
      Then(area, Then([section], Then(gap, Then(Column(apt, 4), Then(notes, Then([kind], Then(Column(proc, 6),
        Last())))))))
    }

    function Last(): Layout
      requires Valid()
    {
      Then(route, Then(Column(transition, 5), Then(quals, Then(Padded(number, 3), end.Columns()))))
    }
  }

  lemma ProcedureLegHead(r: ProcedureLeg, s: string)
    requires r.Valid() && s == Written(r.Columns())
    ensures |s| >= 19 && s[4] == r.section && s[6..10] == Column(r.apt, 4)
    ensures s[12] == r.kind && s[13..19] == Column(r.proc, 6)
    ensures SetOut(s, 19, r.Last()) && (IsAscii(Written(r.Last())) ==> IsAscii(s))
  {
    hide Column, IsName, Trim, Upper, IsTrimmed, IsAscii, Written, Padded, LegEnd.Columns, LegEnd.Valid,
      ProcedureLeg.Last;
    ColumnReadsBack(r.apt, 4);
    ColumnReadsBack(r.proc, 6);
    LastColumn(r.section, "");
    LastColumn(r.kind, "");
    var l0 := r.Columns();
    assert s[0..] == s;
    NextColumn(s, 0, l0);
    var l1 := l0.next;
    NextColumn(s, 4, l1);
    var l2 := l1.next;
    NextColumn(s, 5, l2);
    var l3 := l2.next;
    NextColumn(s, 6, l3);
    var l4 := l3.next;
    NextColumn(s, 10, l4);
    var l5 := l4.next;
    NextColumn(s, 12, l5);
    var l6 := l5.next;
    NextColumn(s, 13, l6);
  }

  lemma ProcedureLegTail(r: ProcedureLeg, s: string)
    requires r.Valid() && SetOut(s, 19, r.Last()) && |Padded(r.number, 3)| == 3
    ensures |s| >= 29 && s[20..25] == Column(r.transition, 5) && s[26..29] == Padded(r.number, 3)
    ensures SetOut(s, 29, r.end.Columns()) && (IsAscii(Written(r.end.Columns())) ==> IsAscii(Written(r.Last())))
  {
    hide Column, IsName, Trim, Upper, IsTrimmed, IsAscii, Written, Padded, LegEnd.Columns, LegEnd.Valid;
    ColumnReadsBack(r.transition, 5);
    DigitsReadBack(r.number, 3);
    var l0 := r.Last();
    NextColumn(s, 19, l0);
    var l1 := l0.next;
    NextColumn(s, 20, l1);
    var l2 := l1.next;
    NextColumn(s, 25, l2);
    var l3 := l2.next;
    NextColumn(s, 26, l3);
  }

  /** A procedure leg written in its columns is filed under its procedure, airport and transition, with the common
      route's spelled either way; a continuation, or a record of neither a SID nor a STAR, files nothing. */
  lemma ProcedureLegReadsBack(r: ProcedureLeg)
    requires r.Valid()
    ensures
      var transition := if r.transition == "ALL" then "" else r.transition;
      Procedures.LegEntry(Written(r.Columns()))
      == if r.section == 'P' && (r.kind == 'D' || r.kind == 'E')
        && (r.end.continuation == '0' || r.end.continuation == '1')
         then Some((Procedures.Group(r.kind, r.proc, r.apt, transition),
                    Leg(r.number, r.end.fix, r.end.section, r.end.subsection))) else None
  {
    hide Column, Trim, Upper, IsTrimmed, IsAscii, Written, Padded, ProcedureLeg.Columns, ProcedureLeg.Last,
      LegEnd.Columns,
      ParseU32;
    ThreeDigits(r.number);
    var s := Written(r.Columns());
    ProcedureLegHead(r, s);
    ProcedureLegTail(r, s);
    LegEndColumns(r.end, s);
    ColumnReadsBack(r.apt, 4);
    ColumnReadsBack(r.proc, 6);
    ColumnReadsBack(r.transition, 5);
    ColumnReadsBack(r.end.fix, 5);
    DigitsReadBack(r.number, 3);
  }

  /** A line that is too short, or not plain text, files nothing anywhere. */
  lemma UnusableFilesNothing(line: string)
    requires |line| < 51 || exists i :: 0 <= i < |line| && line[i] >= '\U{80}'
    ensures Airways.LegEntry(line).None? && Procedures.LegEntry(line).None?
    ensures Airways.NAVAID(line).None? && Airways.NDB(line).None? && Airways.WAYPOINT(line).None?
    ensures Procedures.NAVAID(line).None? && Procedures.NDB(line).None?
    ensures Procedures.WAYPOINT(line).None? && Procedures.TERMINAL(line).None?
  {
  }
}
