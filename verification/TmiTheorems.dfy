/** The prefixed half of the NTML grammar reads back exactly; the two bare positions provably do not. */
module TmiTheorems {
  import opened Wrappers
  import opened Text
  import opened Decimals
  import opened Tmi

  // ---- The half that reads back ----------------------------------------------------------------

  predicate PlainOp(op: string) {
    forall i :: 0 <= i < |op| ==> !IsSpace(op[i]) && !IsSignOrDigit(op[i])
  }

  predicate PlainOpt(s: Option<string>) {
    OptClean(s).Some? ==> IsWord(OptClean(s).value)
  }

  const RESERVED: seq<string> := ["TYPE", "SPD", "ALT", "EXCL"]

  /** A condition carries a detail, and its name could not introduce any other field. */
  predicate PlainCondition(r: Restriction) {
    OptClean(r.condition).Some? ==>
      var c := OptClean(r.condition).value;
      && IsWord(c) && Free(c, ':') && c !in RESERVED
      && OptClean(r.conditionDetail).Some? && IsWord(OptClean(r.conditionDetail).value)
  }

  /** One token, and not the one that stands for free text. */
  predicate WordKind(kind: string) {
    IsWord(kind) && kind != "TXT"
  }

  predicate PlainKind(kind: string) {
    WordKind(kind) && !IsSignOrDigit(kind[0])
  }

  predicate PlainExclude(excluded: seq<string>) {
    forall i :: 0 <= i < |excluded| ==> IsWord(excluded[i]) && Free(excluded[i], ',')
  }

  /** One token a field, no qualifier, no free text, no kind that starts like a number, and every condition with
      its detail. */
  predicate Plain(r: Restriction) {
    PlainHead(r) && PlainKind(Clean(r.kind)) && PlainTail(r)
  }

  /** Around the kind: one token a field, and no qualifier. */
  predicate PlainHead(r: Restriction) {
    IsWord(Clean(r.element)) && PlainOpt(r.via) && OptClean(r.qualifier).None?
  }

  predicate PlainTail(r: Restriction) {
    && PlainOpt(r.aircraft)
    && (r.speed.Some? ==> PlainOp(Collapse(r.speed.value.op)))
    && (r.altitude.Some? ==> PlainOp(Clean(r.altitude.value.op)))
    && PlainCondition(r) && PlainExclude(Excluded(r.exclude))
  }

  // ---- Numbers ---------------------------------------------------------------------------------

  lemma SignedReadsBack(n: int, width: nat)
    ensures ParseSigned(Signed(n, width)) == n
    ensures var s := Signed(n, width); s != "" && forall i :: 0 <= i < |s| ==> IsSignOrDigit(s[i])
  {
    if n < 0 {
      assert Signed(n, width)[1..] == Padded(-n, if width > 0 then width - 1 else 0);
    }
  }

  lemma {:induction false} OpThen(op: string, rest: string)
    requires PlainOp(op) && rest != "" && IsSignOrDigit(rest[0])
    ensures OpLength(op + rest) == |op|
  {
    if op == "" {
      assert op + rest == rest;
    } else {
      OpThen(op[1..], rest);
      assert (op + rest)[1..] == op[1..] + rest;
    }
  }

  lemma BoundReadsBack(op: string, value: int, width: nat)
    requires PlainOp(op)
    ensures ParseBound(op + Signed(value, width)) == Bound(op, value)
  {
    SignedReadsBack(value, width);
    var n := Signed(value, width);
    OpThen(op, n);
    assert (op + n)[..|op|] == op && (op + n)[|op|..] == n;
  }

  lemma {:induction false} NumberThen(n: string, rest: string)
    requires (forall i :: 0 <= i < |n| ==> IsSignOrDigit(n[i])) && rest != "" && !IsSignOrDigit(rest[0])
    ensures NumberLength(n + rest) == |n|
  {
    if n == "" {
      assert n + rest == rest;
    } else {
      NumberThen(n[1..], rest);
      assert (n + rest)[1..] == n[1..] + rest;
    }
  }

  // ---- Words of the parts ----------------------------------------------------------------------

  function Flat(parts: seq<string>): seq<string> {
    if parts == [] then [] else Words(parts[0]) + Flat(parts[1..])
  }

  lemma {:induction false} WordsOfParts(parts: seq<string>)
    ensures Words(Join(parts, " ")) == Flat(parts)
  {
    hide Words;
    if parts == [] {
      NoWords();
    } else if |parts| == 1 {
      assert Flat(parts[1..]) == [];
    } else {
      WordsOfParts(parts[1..]);
      WordsAcrossSpace(parts[0], Join(parts[1..], " "));
    }
  }

  lemma FlatFirst(a: string, rest: seq<string>)
    ensures Flat([a] + rest) == Words(a) + Flat(rest)
  {
    assert ([a] + rest)[1..] == rest;
  }

  lemma {:induction false} FlatConcat(a: seq<string>, b: seq<string>)
    ensures Flat(a + b) == Flat(a) + Flat(b)
  {
    hide Words, Flat;
    if a == [] {
      FlatNone();
      assert a + b == b && [] + Flat(b) == Flat(b);
    } else {
      FlatConcat(a[1..], b);
      FlatFirst(a[0], a[1..] + b);
      FlatFirst(a[0], a[1..]);
      assert a + b == [a[0]] + (a[1..] + b) && a == [a[0]] + a[1..];
    }
  }

  lemma FlatNone()
    ensures Flat([]) == []
  {
  }

  lemma {:induction false} FlatWords(ws: seq<string>)
    requires AllWords(ws)
    ensures Flat(ws) == ws
  {
    hide Words;
    if ws != [] {
      FlatWords(ws[1..]);
      WordIsItself(ws[0]);
    }
  }

  lemma NoSpacesConcat(a: string, b: string)
    requires NoSpaces(a) && NoSpaces(b)
    ensures NoSpaces(a + b)
  {
  }

  lemma {:induction false} NoSpacesJoin(ws: seq<string>)
    requires forall i :: 0 <= i < |ws| ==> NoSpaces(ws[i])
    ensures NoSpaces(Join(ws, ","))
  {
    if |ws| > 1 {
      NoSpacesJoin(ws[1..]);
      NoSpacesConcat(ws[0], ",");
      NoSpacesConcat(ws[0] + ",", Join(ws[1..], ","));
    }
  }

  lemma NoSpacesSigned(n: int, width: nat)
    ensures NoSpaces(Signed(n, width))
  {
    SignedReadsBack(n, width);
    forall i | 0 <= i < |Signed(n, width)| ensures !IsSpace(Signed(n, width)[i]) {
      assert IsSignOrDigit(Signed(n, width)[i]);
    }
  }

  lemma Prefixed(prefix: string, v: string)
    requires IsWord(prefix) && NoSpaces(v)
    ensures IsWord(prefix + v)
  {
    NoSpacesConcat(prefix, v);
  }

  /** Under the hypotheses, every part of the tail is one word. */
  lemma TailIsWords(r: Restriction)
    requires PlainTail(r)
    ensures AllWords(Part(OptClean(r.aircraft), "TYPE:")) && AllWords(SpeedPart(r.speed)) && AllWords(AltitudePart(r.altitude))
    ensures AllWords(ConditionPart(r)) && AllWords(ExcludePart(Excluded(r.exclude)))
  {
    hide Clean, Collapse, OptClean, Signed, Join, Excluded;
    if OptClean(r.aircraft).Some? {
      Prefixed("TYPE:", OptClean(r.aircraft).value);
    }
    if r.speed.Some? {
      NoSpacesSigned(r.speed.value.value, 0);
      NoSpacesConcat(Collapse(r.speed.value.op), Signed(r.speed.value.value, 0));
      Prefixed("SPD:", Collapse(r.speed.value.op) + Signed(r.speed.value.value, 0));
    }
    if r.altitude.Some? {
      NoSpacesSigned(r.altitude.value.value, 3);
      NoSpacesConcat(Clean(r.altitude.value.op), Signed(r.altitude.value.value, 3));
      Prefixed("ALT:", Clean(r.altitude.value.op) + Signed(r.altitude.value.value, 3));
    }
    if OptClean(r.condition).Some? {
      NoSpacesConcat(OptClean(r.condition).value, ":");
      NoSpacesConcat(OptClean(r.condition).value + ":", OptClean(r.conditionDetail).value);
    }
    if Excluded(r.exclude) != [] {
      NoSpacesJoin(Excluded(r.exclude));
      Prefixed("EXCL:", Join(Excluded(r.exclude), ","));
    }
  }

  lemma ConcatWords(a: seq<string>, b: seq<string>)
    requires AllWords(a) && AllWords(b)
    ensures AllWords(a + b)
  {
  }

  lemma FlatTail(r: Restriction)
    requires PlainTail(r)
    ensures Flat(Tail(r)) == Tail(r)
  {
    hide Clean, Collapse, OptClean, Excluded, PlainTail, ConditionPart, SpeedPart, AltitudePart, ExcludePart,
      AllWords, Part;
    TailIsWords(r);
    var (a, s, l) := (Part(OptClean(r.aircraft), "TYPE:"), SpeedPart(r.speed), AltitudePart(r.altitude));
    var (c, e) := (ConditionPart(r), ExcludePart(Excluded(r.exclude)));
    ConcatWords(c, e);
    ConcatWords(l, c + e);
    ConcatWords(s, l + (c + e));
    ConcatWords(a, s + (l + (c + e)));
    FlatWords(Tail(r));
  }

  // ---- Reading the tail back -------------------------------------------------------------------

  /** The first token, if any, is introduced by one of `names`. */
  predicate HeadAmong(tokens: seq<string>, names: set<string>) {
    tokens == [] || (SplitOnce(tokens[0], ':').Some? && SplitOnce(tokens[0], ':').value.0 in names)
  }

  lemma HeadOf(name: string, v: string, rest: seq<string>)
    requires Free(name, ':')
    ensures SplitOnce(([name + ":" + v] + rest)[0], ':') == Some((name, v))
    ensures Take([name + ":" + v] + rest, name) == Some(v) && Skip([name + ":" + v] + rest, name) == rest
  {
    SplitAtFirst(name, ':', v);
    assert [':'] == ":";
    assert ([name + ":" + v] + rest)[1..] == rest;
  }

  lemma Absent(tokens: seq<string>, name: string, names: set<string>)
    requires HeadAmong(tokens, names) && name !in names
    ensures Take(tokens, name) == None && Skip(tokens, name) == tokens
  {
  }

  /** A named optional field in front of the rest is taken exactly when it is there. */
  lemma Named(name: string, v: Option<string>, prefix: string, rest: seq<string>, names: set<string>)
    requires Free(name, ':') && prefix == name + ":" && HeadAmong(rest, names) && name !in names
    ensures Take(Part(v, prefix) + rest, name) == v
    ensures Skip(Part(v, prefix) + rest, name) == rest
    ensures HeadAmong(Part(v, prefix) + rest, names + {name})
  {
    hide SplitOnce;
    if v.Some? {
      HeadOf(name, v.value, rest);
    } else {
      assert Part(v, prefix) + rest == rest;
      Absent(rest, name, names);
    }
  }

  function BoundText(b: Option<Bound>, width: nat): Option<string> {
    if b.Some? then Some(b.value.op + Signed(b.value.value, width)) else None
  }

  lemma ExcludeReadsBack(excluded: seq<string>)
    requires PlainExclude(excluded)
    ensures HeadAmong(ExcludePart(excluded), {"EXCL"})
    ensures var v := Take(ExcludePart(excluded), "EXCL"); (if v.Some? then Split(v.value, ',') else []) == excluded
  {
    hide SplitOnce, Split, Join;
    if excluded != [] {
      HeadOf("EXCL", Join(excluded, ","), []);
      assert "EXCL" + ":" + Join(excluded, ",") == "EXCL:" + Join(excluded, ",");
      assert ["EXCL:" + Join(excluded, ",")] + [] == ["EXCL:" + Join(excluded, ",")];
      SplitOfJoin(excluded, ',');
      assert [','] == ",";
    }
  }

  function ConditionOf(r: Restriction): Option<(string, string)> {
    var (c, d) := (OptClean(r.condition), OptClean(r.conditionDetail));
    if c.Some? && d.Some? then Some((c.value, d.value)) else None
  }

  lemma ConditionReadsBack(r: Restriction, rest: seq<string>)
    requires PlainCondition(r) && HeadAmong(rest, {"EXCL"})
    ensures
      var tokens := ConditionPart(r) + rest;
      && TakeCondition(tokens) == ConditionOf(r)
      && (if TakeCondition(tokens).Some? then tokens[1..] else tokens) == rest
      && HeadAmong(tokens, {"EXCL"} + if ConditionOf(r).Some? then {ConditionOf(r).value.0} else {})
  {
    hide SplitOnce, OptClean;
    if OptClean(r.condition).Some? {
      var (c, d) := (OptClean(r.condition).value, OptClean(r.conditionDetail).value);
      HeadOf(c, d, rest);
      assert c != "EXCL" by { assert "EXCL" == RESERVED[3]; }
      assert (ConditionPart(r) + rest)[1..] == rest;
    } else {
      assert ConditionPart(r) + rest == rest;
    }
  }

  lemma PrefixesAre()
    ensures "TYPE:" == "TYPE" + ":" && "SPD:" == "SPD" + ":" && "ALT:" == "ALT" + ":"
    ensures Free("TYPE", ':') && Free("SPD", ':') && Free("ALT", ':')
    ensures "TYPE" != "SPD" && "TYPE" != "ALT" && "SPD" != "ALT" && "EXCL" != "TYPE" && "EXCL" != "SPD" && "EXCL" != "ALT"
    ensures "TYPE" in RESERVED && "SPD" in RESERVED && "ALT" in RESERVED
  {
    assert RESERVED[0] == "TYPE" && RESERVED[1] == "SPD" && RESERVED[2] == "ALT";
    assert "TYPE"[0] != "SPD"[0] && "TYPE"[0] != "ALT"[0] && "SPD"[0] != "ALT"[0] && "EXCL"[0] != "TYPE"[0];
  }

  function SpeedOf(r: Restriction): Option<Bound> {
    if r.speed.Some? then Some(Bound(Collapse(r.speed.value.op), r.speed.value.value)) else None
  }

  function AltitudeOf(r: Restriction): Option<Bound> {
    if r.altitude.Some? then Some(Bound(Clean(r.altitude.value.op), r.altitude.value.value)) else None
  }

  lemma TailReadsBack(r: Restriction, f: Fields)
    requires PlainTail(r)
    ensures DecodeTail(f, Tail(r)) == f.(
      aircraft := OptClean(r.aircraft), speed := SpeedOf(r), altitude := AltitudeOf(r), condition := ConditionOf(r),
      exclude := Excluded(r.exclude))
  {
    hide OptClean, Clean, Collapse, Excluded, Take, Skip, TakeCondition, HeadAmong;
    hide ConditionPart, ExcludePart, Signed, ParseBound, Split, PlainOp, ConditionOf;
    PrefixesAre();
    var excluded := Excluded(r.exclude);
    var t5 := ExcludePart(excluded);
    ExcludeReadsBack(excluded);
    var t4 := ConditionPart(r) + t5;
    ConditionReadsBack(r, t5);
    var names := {"EXCL"} + if ConditionOf(r).Some? then {ConditionOf(r).value.0} else {};
    NotReserved(r);
    var (speed, altitude) := (BoundText(SpeedOf(r), 0), BoundText(AltitudeOf(r), 3));
    assert SpeedPart(r.speed) == Part(speed, "SPD:") && AltitudePart(r.altitude) == Part(altitude, "ALT:");
    var t3 := AltitudePart(r.altitude) + t4;
    Named("ALT", altitude, "ALT:", t4, names);
    var t2 := SpeedPart(r.speed) + t3;
    Named("SPD", speed, "SPD:", t3, names + {"ALT"});
    Named("TYPE", OptClean(r.aircraft), "TYPE:", t2, names + {"ALT"} + {"SPD"});
    if r.speed.Some? {
      BoundReadsBack(Collapse(r.speed.value.op), r.speed.value.value, 0);
    }
    if r.altitude.Some? {
      BoundReadsBack(Clean(r.altitude.value.op), r.altitude.value.value, 3);
    }
  }

  lemma NotReserved(r: Restriction)
    requires PlainCondition(r)
    ensures ConditionOf(r).Some? ==> ConditionOf(r).value.0 !in RESERVED
  {
  }

  // ---- Reading the whole line back -------------------------------------------------------------

  function KindToken(r: Restriction): string {
    var kind := Clean(r.kind);
    if kind == "MIT" || kind == "MINIT" then Signed(if r.value.Some? then r.value.value else 0, 0) + kind else kind
  }

  predicate NotLower(s: string) {
    s != "" && !('a' <= s[0] <= 'z')
  }

  lemma KindIsToken(r: Restriction)
    requires WordKind(Clean(r.kind))
    ensures KindPart(r) == [KindToken(r)] && IsWord(KindToken(r)) && NotLower(KindToken(r))
  {
    hide Signed, Collapse, Upper;
    var kind := Clean(r.kind);
    var n := if r.value.Some? then r.value.value else 0;
    if kind == "MIT" || kind == "MINIT" {
      SignedReadsBack(n, 0);
      NoSpacesSigned(n, 0);
      NoSpacesConcat(Signed(n, 0), kind);
    } else {
      assert kind[0] == UpperChar(Collapse(r.kind)[0]);
    }
  }

  lemma KindReadsBack(r: Restriction, f: Fields, rest: seq<string>)
    requires PlainKind(Clean(r.kind))
    ensures ReadKind(f, [KindToken(r)] + rest) == (f.(kind := Normal(r).kind, value := Normal(r).value), rest)
  {
    hide Signed, ParseSigned, Collapse;
    var kind := Clean(r.kind);
    var n := if r.value.Some? then r.value.value else 0;
    if kind == "MIT" || kind == "MINIT" {
      SignedReadsBack(n, 0);
      NumberThen(Signed(n, 0), kind);
      assert KindToken(r)[..|Signed(n, 0)|] == Signed(n, 0) && KindToken(r)[|Signed(n, 0)|..] == kind;
    } else {
      NumberThen("", kind);
      assert "" + kind == kind;
    }
    assert ([KindToken(r)] + rest)[1..] == rest;
  }

  function ViaTokens(via: Option<string>): seq<string> {
    if via.Some? then ["via", via.value] else []
  }

  lemma ViaReadsBack(via: Option<string>, k: string, f: Fields, rest: seq<string>)
    requires NotLower(k)
    ensures ReadVia(f, ViaTokens(via) + ([k] + rest)) == (if via.Some? then f.(via := via) else f, [k] + rest)
  {
    var tokens := ViaTokens(via) + ([k] + rest);
    if via.Some? {
      assert tokens[2..] == [k] + rest;
    } else {
      assert tokens == [k] + rest && k[0] != "via"[0];
    }
  }

  function DirectionOf(r: Restriction): Direction {
    var d := Lower(Collapse(r.direction));
    if d == "arrivals" then Arrivals else if d == "departures" then Departures else Enroute
  }

  lemma DirectionReadsBack(r: Restriction, f: Fields, rest: seq<string>)
    requires f.direction == Enroute && rest != [] && (NotLower(rest[0]) || rest[0] == "via")
    ensures ReadDirection(f, DirectionPart(r.direction) + rest) == ReadVia(f.(direction := DirectionOf(r)), rest)
  {
    hide ReadVia, Lower, Collapse;
    var tokens := DirectionPart(r.direction) + rest;
    assert "arrivals"[0] == 'a' && "departures"[0] == 'd' && "via"[0] == 'v';
    if DirectionPart(r.direction) == [] {
      assert tokens == rest;
    } else {
      assert tokens[1..] == rest;
    }
  }

  function HeadTokens(r: Restriction): seq<string> {
    DirectionPart(r.direction) + (ViaTokens(OptClean(r.via)) + ([KindToken(r)] + Tail(r)))
  }

  lemma HeadReadsBack(r: Restriction, f: Fields)
    requires WordKind(Clean(r.kind)) && f.direction == Enroute && f.via == None
    ensures ReadDirection(f, HeadTokens(r))
            == (f.(direction := DirectionOf(r), via := OptClean(r.via)), [KindToken(r)] + Tail(r))
  {
    hide Clean, OptClean, Excluded, Tail, ReadVia, ReadDirection, WordKind, KindToken, DirectionPart, DirectionOf;
    var rest := [KindToken(r)] + Tail(r);
    KindIsToken(r);
    DirectionReadsBack(r, f, ViaTokens(OptClean(r.via)) + rest);
    var g := f.(direction := DirectionOf(r));
    ViaReadsBack(OptClean(r.via), KindToken(r), g, Tail(r));
  }

  lemma FlatVia(via: Option<string>)
    requires via.Some? ==> IsWord(via.value)
    ensures Flat(Part(via, "via ")) == ViaTokens(via)
  {
    hide Words, Flat;
    FlatNone();
    if via.Some? {
      WordsAcrossSpace("via", via.value);
      WordIsItself("via");
      WordIsItself(via.value);
      assert "via" + " " + via.value == "via " + via.value;
      FlatFirst("via " + via.value, []);
      assert ["via " + via.value] + [] == ["via " + via.value];
    }
  }

  lemma DirectionsAreWords()
    ensures IsWord("arrivals") && IsWord("departures")
  {
  }

  lemma FlatDirection(direction: string)
    ensures Flat(DirectionPart(direction)) == DirectionPart(direction)
  {
    hide Lower, Collapse, Flat, IsWord;
    DirectionsAreWords();
    FlatWords(DirectionPart(direction));
  }

  lemma WordsOfLine(r: Restriction)
    requires PlainHead(r) && WordKind(Clean(r.kind)) && Flat(Tail(r)) == Tail(r)
    ensures Words(Encoded(r)) == [Clean(r.element)] + HeadTokens(r)
  {
    hide Words, Join, Clean, OptClean, Tail, DirectionPart, KindToken, KindPart, Flat, Part;
    var (d, v, k) := (DirectionPart(r.direction), Part(OptClean(r.via), "via "), KindPart(r));
    var (q, t) := (Part(OptClean(r.qualifier), ""), Tail(r));
    NoQualifier(r);
    WordsOfParts(Parts(r));
    KindIsToken(r);
    FlatVia(OptClean(r.via));
    FlatDirection(r.direction);
    FlatWords([Clean(r.element)]);
    FlatWords([KindToken(r)]);
    FlatConcat([Clean(r.element)], d + (v + (k + (q + t))));
    FlatConcat(d, v + (k + (q + t)));
    FlatConcat(v, k + (q + t));
    FlatConcat(k, q + t);
    assert q + t == t;
  }

  lemma NoQualifier(r: Restriction)
    requires OptClean(r.qualifier).None?
    ensures Part(OptClean(r.qualifier), "") == []
  {
  }

  /** However the tokens from the kind on read, those before it read back, and the kind's token and the tail are
      what is left. */
  lemma HeadOfLine(r: Restriction)
    requires PlainHead(r) && WordKind(Clean(r.kind)) && Flat(Tail(r)) == Tail(r)
    ensures ReadHead(Encoded(r))
            == (BLANK.(element := Normal(r).element, direction := Normal(r).direction, via := Normal(r).via),
                [KindToken(r)] + Tail(r))
  {
    hide Words, Encoded, HeadTokens, ReadDirection, Clean, OptClean, Excluded, Collapse, Lower, KindToken;
    WordsOfLine(r);
    var tokens := Words(Encoded(r));
    assert tokens[0] == Clean(r.element) && tokens[1..] == HeadTokens(r);
    HeadReadsBack(r, BLANK.(element := Clean(r.element)));
  }

  /** The reference parser recovers every field of a restriction in the prefixed half, up to capitals and
      whitespace. */
  lemma DecodeUndoesEncode(r: Restriction)
    requires Plain(r)
    ensures Decode(Encoded(r)) == Normal(r)
  {
    hide Encoded, ReadHead, ReadKind, Clean, OptClean, Excluded, PlainTail, Collapse, Lower, DecodeTail, Tail, KindToken;
    FlatTail(r);
    HeadOfLine(r);
    var head := ReadHead(Encoded(r)).0;
    KindReadsBack(r, head, Tail(r));
    TailReadsBack(r, head.(kind := Normal(r).kind, value := Normal(r).value));
  }

  /** So equal lines mean equal restrictions there. */
  lemma PrefixedHalfIsUnambiguous(r: Restriction, s: Restriction)
    requires Plain(r) && Plain(s) && Encoded(r) == Encoded(s)
    ensures Normal(r) == Normal(s)
  {
    DecodeUndoesEncode(r);
    DecodeUndoesEncode(s);
  }

  // ---- The two bare positions ------------------------------------------------------------------

  lemma JoinMore(a: string, rest: seq<string>)
    ensures Join([a] + rest, " ") == if rest == [] then a else a + " " + Join(rest, " ")
  {
    assert ([a] + rest)[1..] == rest;
  }

  /** Two neighbouring parts print like one part with a space in it. */
  lemma {:induction false} JoinFuses(h: seq<string>, a: string, b: string, rest: seq<string>)
    ensures Join(h + ([a] + ([b] + rest)), " ") == Join(h + ([a + " " + b] + rest), " ")
  {
    hide Join;
    if h == [] {
      JoinMore(a, [b] + rest);
      assert h + ([a] + ([b] + rest)) == [a] + ([b] + rest) && h + ([a + " " + b] + rest) == [a + " " + b] + rest;
      if rest == [] {
        JoinOne(b);
        JoinOne(a + " " + b);
        assert [b] + rest == [b] && [a + " " + b] + rest == [a + " " + b];
      } else {
        JoinMore(b, rest);
        JoinMore(a + " " + b, rest);
        assert a + " " + (b + " " + Join(rest, " ")) == a + " " + b + " " + Join(rest, " ");
      }
    } else {
      JoinFuses(h[1..], a, b, rest);
      JoinMore(h[0], h[1..] + ([a] + ([b] + rest)));
      JoinMore(h[0], h[1..] + ([a + " " + b] + rest));
      assert h == [h[0]] + h[1..];
      assert h + ([a] + ([b] + rest)) == [h[0]] + (h[1..] + ([a] + ([b] + rest)));
      assert h + ([a + " " + b] + rest) == [h[0]] + (h[1..] + ([a + " " + b] + rest));
    }
  }

  lemma JoinOne(a: string)
    ensures Join([a], " ") == a
  {
  }

  lemma {:induction false} JoinWords(v: seq<string>, w: seq<string>)
    requires v != [] && w != []
    ensures Join(v + w, " ") == Join(v, " ") + " " + Join(w, " ")
  {
    hide Join;
    if |v| == 1 {
      JoinOne(v[0]);
      JoinMore(v[0], w);
      assert v + w == [v[0]] + w && v == [v[0]];
    } else {
      JoinWords(v[1..], w);
      JoinMore(v[0], v[1..] + w);
      JoinMore(v[0], v[1..]);
      assert v + w == [v[0]] + (v[1..] + w) && v == [v[0]] + v[1..];
      assert v[0] + " " + (Join(v[1..], " ") + " " + Join(w, " ")) == v[0] + " " + Join(v[1..], " ") + " " + Join(w, " ");
    }
  }

  lemma CleanAcrossSpace(a: string, b: string)
    requires Collapse(a) != "" && Collapse(b) != ""
    ensures Collapse(a + " " + b) == Collapse(a) + " " + Collapse(b)
    ensures Clean(a + " " + b) == Clean(a) + " " + Clean(b)
  {
    WordsAcrossSpace(a, b);
    JoinWords(Words(a), Words(b));
    hide Words, Join;
    UpperConcat(Collapse(a) + " ", Collapse(b));
    UpperConcat(Collapse(a), " ");
    assert Upper(" ") == " ";
  }

  /** With a qualifier and a bare condition the line tells nothing of where one ends: folding the condition
      into the qualifier prints the same, for every such restriction. */
  lemma QualifierSwallowsCondition(r: Restriction, s: Restriction)
    requires Opt(r.qualifier).Some? && Opt(r.condition).Some? && Opt(r.conditionDetail).None?
    requires r.aircraft.None? && r.speed.None? && r.altitude.None?
    requires s == r.(qualifier := Some(r.qualifier.value + " " + r.condition.value), condition := None)
    ensures Encoded(r) == Encoded(s)
    ensures OptClean(r.qualifier) != OptClean(s.qualifier) && OptClean(r.condition) != OptClean(s.condition)
  {
    var (q, c) := (r.qualifier.value, r.condition.value);
    CleanAcrossSpace(q, c);
    hide Words, Join, Clean, Collapse, KindPart, DirectionPart, Excluded;
    var head := [Clean(r.element)] + (DirectionPart(r.direction) + (Part(OptClean(r.via), "via ") + KindPart(r)));
    var excl := ExcludePart(Excluded(r.exclude));
    JoinFuses(head, Clean(q), Clean(c), excl);
    SameKind(r, s);
    TailOf(r, [Clean(c)], excl);
    TailOf(s, [], excl);
    assert "" + Clean(q) == Clean(q) && "" + (Clean(q) + " " + Clean(c)) == Clean(q) + " " + Clean(c);
    HeadOfParts(r, [Clean(q)], [Clean(c)] + excl);
    HeadOfParts(s, [Clean(q) + " " + Clean(c)], [] + excl);
    assert |Clean(q) + " " + Clean(c)| != |Clean(q)|;
    assert [] + excl == excl;
  }

  lemma SameKind(r: Restriction, s: Restriction)
    requires s.kind == r.kind && s.value == r.value && s.text == r.text
    ensures KindPart(r) == KindPart(s)
  {
  }

  lemma TailOf(r: Restriction, condition: seq<string>, excl: seq<string>)
    requires r.aircraft.None? && r.speed.None? && r.altitude.None?
    requires condition == ConditionPart(r) && excl == ExcludePart(Excluded(r.exclude))
    ensures Tail(r) == condition + excl
  {
    hide Excluded, Join;
    assert Part(OptClean(r.aircraft), "TYPE:") == [] && SpeedPart(r.speed) == [] && AltitudePart(r.altitude) == [];
    assert [] + ([] + ([] + (condition + excl))) == condition + excl;
  }

  lemma HeadOfParts(r: Restriction, qualifier: seq<string>, tail: seq<string>)
    requires qualifier == Part(OptClean(r.qualifier), "") && tail == Tail(r)
    ensures
      var head := [Clean(r.element)] + (DirectionPart(r.direction) + (Part(OptClean(r.via), "via ") + KindPart(r)));
      Parts(r) == head + (qualifier + tail)
  {
    hide Clean, DirectionPart, OptClean, KindPart, Tail, Part;
    var (e, d, v, k) := ([Clean(r.element)], DirectionPart(r.direction), Part(OptClean(r.via), "via "), KindPart(r));
    assert e + (d + (v + (k + (qualifier + tail)))) == (e + (d + (v + k))) + (qualifier + tail);
  }

  /** So does a kind that does not count: it swallows a bare condition behind it. */
  lemma KindSwallowsCondition(r: Restriction, s: Restriction)
    requires var k := Clean(r.kind); k != "MIT" && k != "MINIT" && k != "TXT" && k != ""
    requires Opt(r.qualifier).None? && Opt(r.condition).Some? && Opt(r.conditionDetail).None?
    requires r.aircraft.None? && r.speed.None? && r.altitude.None?
    requires s == r.(kind := r.kind + " " + r.condition.value, condition := None)
    ensures Encoded(r) == Encoded(s)
    ensures Clean(r.kind) != Clean(s.kind) && OptClean(r.condition) != OptClean(s.condition)
  {
    hide *;
    OptIsSome(r.condition);
    var (k, c) := (Clean(r.kind), Clean(r.condition.value));
    var front := [Clean(r.element)] + (DirectionPart(r.direction) + Part(OptClean(r.via), "via "));
    var excl := ExcludePart(Excluded(r.exclude));
    CleanIsCollapsed(r.kind);
    ConditionIsBare(r, s);
    CleanAcrossSpace(r.kind, r.condition.value);
    assert |k + " " + c| != |k|;
    LongNotOne(k, c);
    PlainKindPart(r);
    PlainKindPart(s);
    QualifierIsNone(r);
    QualifierIsNone(s);
    TailOf(r, [c], excl);
    TailOf(s, [], excl);
    JoinFuses(front, k, c, excl);
    FrontOfParts(r, [k], []);
    FrontOfParts(s, [k + " " + c], []);
    assert [] + ([c] + excl) == [c] + excl && [] + ([] + excl) == excl;
    EncodedIs(r);
    EncodedIs(s);
  }

  lemma ConditionIsBare(r: Restriction, s: Restriction)
    requires Opt(r.condition).Some? && Opt(r.conditionDetail).None? && s.condition.None?
    ensures r.condition.Some? && Collapse(r.condition.value) != "" && OptClean(r.condition) != OptClean(s.condition)
    ensures ConditionPart(r) == [Clean(r.condition.value)] && ConditionPart(s) == []
  {
    CleanIsCollapsed(r.condition.value);
    CleanOpt(r.conditionDetail);
    hide Clean, Collapse;
  }

  lemma QualifierIsNone(r: Restriction)
    requires Opt(r.qualifier).None?
    ensures Part(OptClean(r.qualifier), "") == []
  {
    CleanOpt(r.qualifier);
  }

  lemma LongNotOne(k: string, c: string)
    requires k != ""
    ensures var t := k + " " + c; t != "MIT" && t != "MINIT" && t != "TXT"
  {
    assert (k + " " + c)[|k|] == ' ';
  }

  lemma TypeIsClean()
    ensures Clean("TYPE") == "TYPE" && Collapse("TYPE") == "TYPE" && Clean("TXT") == "TXT"
  {
    WordIsItself("TYPE");
    WordIsItself("TXT");
    hide Words, Collapse;
    assert Upper("TYPE") == "TYPE" && Upper("TXT") == "TXT";
  }

  /** Free text can spell out any other kind with its qualifier. */
  lemma TextSpellsKind(r: Restriction, s: Restriction)
    requires var k := Clean(r.kind); k != "MIT" && k != "MINIT" && k != "TXT" && k != ""
    requires Opt(r.qualifier).Some?
    requires s == r.(kind := "TXT", text := Some(Clean(r.kind) + " " + Clean(r.qualifier.value)), qualifier := None)
    ensures Encoded(r) == Encoded(s) && Clean(r.kind) != Clean(s.kind)
  {
    hide *;
    OptIsSome(r.qualifier);
    var (k, q) := (Clean(r.kind), Clean(r.qualifier.value));
    var front := [Clean(r.element)] + (DirectionPart(r.direction) + Part(OptClean(r.via), "via "));
    PlainKindPart(r);
    CleanIsCollapsed(r.kind);
    QualifierPart(r);
    TextPart(s, k, r.qualifier.value);
    NoQualifierPart(s);
    TypeIsClean();
    SameTail(r, s);
    JoinFuses(front, k, q, Tail(r));
    FrontOfParts(r, [k], [q]);
    FrontOfParts(s, [k + " " + q], []);
    assert [] + Tail(r) == Tail(r);
    EncodedIs(r);
    EncodedIs(s);
  }

  lemma OptIsSome(s: Option<string>)
    requires Opt(s).Some?
    ensures s.Some?
  {
  }

  lemma EncodedIs(r: Restriction)
    ensures Encoded(r) == Join(Parts(r), " ")
  {
  }

  lemma PlainKindPart(r: Restriction)
    requires var k := Clean(r.kind); k != "MIT" && k != "MINIT" && k != "TXT"
    ensures KindPart(r) == [Clean(r.kind)]
  {
    hide Clean;
  }

  lemma TextPart(s: Restriction, k: string, q: string)
    requires s.kind == "TXT" && s.text == Some(k + " " + Clean(q)) && k == Clean(k) && k != "" && Collapse(q) != ""
    ensures KindPart(s) == [k + " " + Clean(q)]
  {
    TypeIsClean();
    CleanIsCollapsed(k);
    CleanIsCollapsed(q);
    CleanAcrossSpace(k, Clean(q));
    hide Clean, Collapse;
    assert "" + (k + " " + Clean(q)) == k + " " + Clean(q);
  }

  lemma QualifierPart(r: Restriction)
    requires Opt(r.qualifier).Some?
    ensures Part(OptClean(r.qualifier), "") == [Clean(r.qualifier.value)]
    ensures Collapse(r.qualifier.value) != ""
  {
    hide Clean, Collapse;
    assert "" + Clean(r.qualifier.value) == Clean(r.qualifier.value);
  }

  lemma NoQualifierPart(r: Restriction)
    requires r.qualifier.None?
    ensures Part(OptClean(r.qualifier), "") == []
  {
  }

  lemma SameTail(r: Restriction, s: Restriction)
    requires s == r.(kind := s.kind, text := s.text, qualifier := s.qualifier)
    ensures Tail(r) == Tail(s)
  {
    hide Clean, Collapse, OptClean, Excluded, Join, Signed;
  }

  lemma FrontOfParts(r: Restriction, kind: seq<string>, qualifier: seq<string>)
    requires kind == KindPart(r) && qualifier == Part(OptClean(r.qualifier), "")
    ensures
      var front := [Clean(r.element)] + (DirectionPart(r.direction) + Part(OptClean(r.via), "via "));
      Parts(r) == front + (kind + (qualifier + Tail(r)))
  {
    hide Clean, DirectionPart, OptClean, KindPart, Tail, Part;
    var (e, d, v, t) := ([Clean(r.element)], DirectionPart(r.direction), Part(OptClean(r.via), "via "), Tail(r));
    assert e + (d + (v + (kind + (qualifier + t)))) == (e + (d + v)) + (kind + (qualifier + t));
  }

  /** A condition named like a prefix prints as the field that prefix introduces. */
  lemma ReservedConditionCollides(r: Restriction, s: Restriction)
    requires r.condition == Some("TYPE") && Opt(r.conditionDetail).Some?
    requires r.aircraft.None? && r.speed.None? && r.altitude.None?
    requires s == r.(aircraft := r.conditionDetail, condition := None)
    ensures Encoded(r) == Encoded(s) && OptClean(r.aircraft) != OptClean(s.aircraft)
  {
    hide *;
    OptIsSome(r.conditionDetail);
    var d := Clean(r.conditionDetail.value);
    var excl := ExcludePart(Excluded(r.exclude));
    var h := [Clean(r.element)] + (DirectionPart(r.direction) + (Part(OptClean(r.via), "via ") + KindPart(r)));
    var q := Part(OptClean(r.qualifier), "");
    TypeCondition(r);
    TailOf(r, ["TYPE:" + d], excl);
    TypeTail(s, r.conditionDetail.value);
    SameKind(r, s);
    HeadOfParts(r, q, ["TYPE:" + d] + excl);
    HeadOfParts(s, q, ["TYPE:" + d] + excl);
    EncodedIs(r);
    EncodedIs(s);
    NoAircraft(r, s);
  }

  lemma TypeCondition(r: Restriction)
    requires r.condition == Some("TYPE") && Opt(r.conditionDetail).Some?
    ensures ConditionPart(r) == ["TYPE:" + Clean(r.conditionDetail.value)] && Collapse(r.conditionDetail.value) != ""
  {
    TypeIsClean();
    hide Clean, Collapse;
    assert "TYPE" + ":" + Clean(r.conditionDetail.value) == "TYPE:" + Clean(r.conditionDetail.value);
  }

  lemma TypeTail(s: Restriction, aircraft: string)
    requires s.aircraft == Some(aircraft) && Collapse(aircraft) != "" && s.speed.None? && s.altitude.None? && s.condition.None?
    ensures Tail(s) == ["TYPE:" + Clean(aircraft)] + ExcludePart(Excluded(s.exclude))
  {
    hide Clean, Collapse, ExcludePart, Excluded;
    var excl := ExcludePart(Excluded(s.exclude));
    assert [] + ([] + ([] + excl)) == excl;
  }

  lemma NoAircraft(r: Restriction, s: Restriction)
    requires r.aircraft.None? && s.aircraft.Some? && Collapse(s.aircraft.value) != ""
    ensures OptClean(r.aircraft) != OptClean(s.aircraft)
  {
  }

  // ---- One line --------------------------------------------------------------------------------

  lemma {:induction false} JoinIsOneLine(parts: seq<string>, separator: string)
    requires AllOneLine(parts) && OneLine(separator)
    ensures OneLine(Join(parts, separator))
  {
    if parts != [] {
      assert OneLine(parts[0]);
    }
    if |parts| > 1 {
      hide OneLine;
      JoinIsOneLine(parts[1..], separator);
      ConcatIsOneLine(parts[0], separator);
      ConcatIsOneLine(parts[0] + separator, Join(parts[1..], separator));
    }
  }

  lemma SignedIsOneLine(n: int, width: nat)
    ensures OneLine(Signed(n, width))
  {
    SignedReadsBack(n, width);
    forall i | 0 <= i < |Signed(n, width)| ensures Signed(n, width)[i] != '\n' {
      assert IsSignOrDigit(Signed(n, width)[i]);
    }
  }

  lemma OptIsOneLine(s: Option<string>)
    ensures OptClean(s).Some? ==> OneLine(OptClean(s).value)
    ensures Opt(s).Some? ==> OneLine(Opt(s).value)
  {
    if s.Some? {
      CleanIsOneLine(s.value);
      CollapsedIsOneLine(s.value);
    }
  }

  lemma PartIsOneLine(s: Option<string>, prefix: string)
    requires OneLine(prefix) && (s.Some? ==> OneLine(s.value))
    ensures AllOneLine(Part(s, prefix))
  {
    hide OneLine;
    if s.Some? {
      ConcatIsOneLine(prefix, s.value);
    }
  }

  lemma {:induction false} ExcludedAreOneLine(exclude: seq<string>)
    ensures AllOneLine(Excluded(exclude))
  {
    hide OneLine, Clean;
    if exclude != [] {
      CleanIsOneLine(exclude[0]);
      ExcludedAreOneLine(exclude[1..]);
    }
  }

  lemma PrefixesAreOneLine()
    ensures OneLine("") && OneLine(" ") && OneLine(",") && OneLine(":") && OneLine("arrivals") && OneLine("departures")
    ensures OneLine("via ") && OneLine("TYPE:") && OneLine("SPD:") && OneLine("ALT:") && OneLine("EXCL:")
  {
  }

  lemma KindPartIsOneLine(r: Restriction)
    ensures AllOneLine(KindPart(r))
  {
    hide OneLine, Clean, Opt, Signed;
    CleanIsOneLine(r.kind);
    OptIsOneLine(r.text);
    PrefixesAreOneLine();
    PartIsOneLine(Opt(r.text), "");
    var n := if r.value.Some? then r.value.value else 0;
    SignedIsOneLine(n, 0);
    ConcatIsOneLine(Signed(n, 0), Clean(r.kind));
  }

  lemma BoundIsOneLine(prefix: string, op: string, value: int, width: nat)
    requires OneLine(prefix) && OneLine(op)
    ensures OneLine(prefix + (op + Signed(value, width)))
  {
    hide OneLine, Signed;
    SignedIsOneLine(value, width);
    ConcatIsOneLine(op, Signed(value, width));
    ConcatIsOneLine(prefix, op + Signed(value, width));
  }

  lemma TailIsOneLine(r: Restriction)
    ensures AllOneLine(Part(OptClean(r.aircraft), "TYPE:")) && AllOneLine(SpeedPart(r.speed))
    ensures AllOneLine(AltitudePart(r.altitude))
    ensures AllOneLine(ConditionPart(r)) && AllOneLine(ExcludePart(Excluded(r.exclude)))
  {
    hide OneLine, Clean, Collapse, OptClean, Signed, Join, Excluded;
    PrefixesAreOneLine();
    OptIsOneLine(r.aircraft);
    PartIsOneLine(OptClean(r.aircraft), "TYPE:");
    if r.speed.Some? {
      CollapsedIsOneLine(r.speed.value.op);
      BoundIsOneLine("SPD:", Collapse(r.speed.value.op), r.speed.value.value, 0);
    }
    if r.altitude.Some? {
      CleanIsOneLine(r.altitude.value.op);
      BoundIsOneLine("ALT:", Clean(r.altitude.value.op), r.altitude.value.value, 3);
    }
    OptIsOneLine(r.condition);
    OptIsOneLine(r.conditionDetail);
    if OptClean(r.condition).Some? && OptClean(r.conditionDetail).Some? {
      ConcatIsOneLine(OptClean(r.condition).value, ":");
      ConcatIsOneLine(OptClean(r.condition).value + ":", OptClean(r.conditionDetail).value);
    }
    ExcludedAreOneLine(r.exclude);
    JoinIsOneLine(Excluded(r.exclude), ",");
    ConcatIsOneLine("EXCL:", Join(Excluded(r.exclude), ","));
  }

  lemma AllConcat(a: seq<string>, b: seq<string>)
    requires AllOneLine(a) && AllOneLine(b)
    ensures AllOneLine(a + b)
  {
    hide OneLine;
  }

  lemma DirectionIsOneLine(direction: string)
    ensures AllOneLine(DirectionPart(direction))
  {
    hide OneLine, Lower, Collapse;
    PrefixesAreOneLine();
  }

  /** Whatever the author typed in whatever field, a restriction encodes to one line. */
  lemma EncodedIsOneLine(r: Restriction)
    ensures OneLine(Encoded(r))
  {
    hide OneLine, AllOneLine, Clean, OptClean, DirectionPart, KindPart, Part;
    hide SpeedPart, AltitudePart, ConditionPart, ExcludePart, Join;
    var (e, d, v) := ([Clean(r.element)], DirectionPart(r.direction), Part(OptClean(r.via), "via "));
    var (k, q) := (KindPart(r), Part(OptClean(r.qualifier), ""));
    var (a, s, l) := (Part(OptClean(r.aircraft), "TYPE:"), SpeedPart(r.speed), AltitudePart(r.altitude));
    var (c, x) := (ConditionPart(r), ExcludePart(Excluded(r.exclude)));
    PrefixesAreOneLine();
    ElementIsOneLine(r.element);
    DirectionIsOneLine(r.direction);
    OptIsOneLine(r.via);
    PartIsOneLine(OptClean(r.via), "via ");
    KindPartIsOneLine(r);
    OptIsOneLine(r.qualifier);
    PartIsOneLine(OptClean(r.qualifier), "");
    TailIsOneLine(r);
    AllConcat(c, x);
    AllConcat(l, c + x);
    AllConcat(s, l + (c + x));
    AllConcat(a, s + (l + (c + x)));
    AllConcat(q, Tail(r));
    AllConcat(k, q + Tail(r));
    AllConcat(v, k + (q + Tail(r)));
    AllConcat(d, v + (k + (q + Tail(r))));
    AllConcat(e, d + (v + (k + (q + Tail(r)))));
    JoinIsOneLine(Parts(r), " ");
  }

  lemma ElementIsOneLine(element: string)
    ensures AllOneLine([Clean(element)])
  {
    CleanIsOneLine(element);
  }

  /** Each of a row's optional parts is one line. */
  lemma FacilitiesAreOneLine(requesting: Option<string>, providing: Option<string>)
    ensures Facilities(requesting, providing).Some? ==> OneLine(Facilities(requesting, providing).value)
  {
    if requesting.Some? {
      CleanIsOneLine(requesting.value);
    }
    if providing.Some? {
      CleanIsOneLine(providing.value);
    }
    hide Clean, Collapse;
  }

  /** Whatever the stored restriction and facilities hold, the row is one line, and the same line as for the
      collapsed restriction. */
  lemma RowIsOneLine(
      stamp: string, restriction: string, window: Option<string>, requesting: Option<string>, providing: Option<string>)
    requires OneLine(stamp) && (window.Some? ==> OneLine(window.value))
    ensures OneLine(NtmlLine(stamp, restriction, window, requesting, providing))
    ensures NtmlLine(stamp, Collapse(restriction), window, requesting, providing)
            == NtmlLine(stamp, restriction, window, requesting, providing)
  {
    CollapsedIsOneLine(restriction);
    CollapseIdempotent(restriction);
    FacilitiesAreOneLine(requesting, providing);
    hide Collapse, Facilities, Join, OneLine;
    var f := Facilities(requesting, providing);
    assert window.Some? ==> "" + window.value == window.value;
    assert f.Some? ==> "" + f.value == f.value;
    PrefixesAreOneLine();
    JoinIsOneLine([stamp, Collapse(restriction)] + (Part(window, "") + Part(f, "")), " ");
  }

  /** Present and not blank. */
  predicate Says(s: Option<string>) {
    s.Some? && Collapse(s.value) != ""
  }

  /** The facilities of a row: the one that requests first, then the one that provides, in capitals. */
  lemma FacilitiesAre(requesting: Option<string>, providing: Option<string>)
    ensures Says(requesting) && Says(providing)
            ==> Facilities(requesting, providing) == Some(Clean(requesting.value) + ":" + Clean(providing.value))
    ensures Says(requesting) && !Says(providing) ==> Facilities(requesting, providing) == Some(Clean(requesting.value))
    ensures !Says(requesting) && Says(providing) ==> Facilities(requesting, providing) == Some(Clean(providing.value))
    ensures !Says(requesting) && !Says(providing) ==> Facilities(requesting, providing) == None
  {
    hide Collapse, Clean;
  }

  /** A value that is known, after a space. */
  function After(s: Option<string>): string {
    if s.Some? then " " + s.value else ""
  }

  lemma JoinKnown(a: string, s: Option<string>, rest: seq<string>)
    ensures Join([a] + (Part(s, "") + rest), " ") ==
      if s.None? then Join([a] + rest, " ") else a + (" " + Join([s.value] + rest, " "))
  {
    hide Join;
    if s.Some? {
      assert "" + s.value == s.value;
      assert Part(s, "") + rest == [s.value] + rest;
      JoinMore(a, [s.value] + rest);
      assert a + " " + Join([s.value] + rest, " ") == a + (" " + Join([s.value] + rest, " "));
    } else {
      assert Part(s, "") + rest == rest;
    }
  }

  lemma JoinLast(a: string, s: Option<string>)
    ensures Join([a] + Part(s, ""), " ") == a + After(s)
  {
    JoinKnown(a, s, []);
    assert Part(s, "") + [] == Part(s, "");
  }

  /** A row is its stamp, the restriction, the window if it is known, and the facilities, told apart by spaces. */
  lemma RowReads(
      stamp: string, restriction: string, window: Option<string>, requesting: Option<string>, providing: Option<string>)
    ensures NtmlLine(stamp, restriction, window, requesting, providing)
            == stamp + (" " + (Collapse(restriction) + (After(window) + After(Facilities(requesting, providing)))))
  {
    hide Collapse, Facilities, Join, Part;
    var f := Facilities(requesting, providing);
    var r := Collapse(restriction);
    JoinKnown(stamp, Some(r), Part(window, "") + Part(f, ""));
    OnePart(r);
    assert [stamp, r] + (Part(window, "") + Part(f, "")) == [stamp] + ([r] + (Part(window, "") + Part(f, "")));
    JoinKnown(r, window, Part(f, ""));
    JoinLast(r, f);
    if window.Some? {
      JoinLast(window.value, f);
      assert After(window) == " " + window.value;
      assert " " + (window.value + After(f)) == After(window) + After(f);
    } else {
      assert After(window) + After(f) == After(f);
    }
  }

  lemma OnePart(s: string)
    ensures Part(Some(s), "") == [s]
  {
    assert "" + s == s;
  }

  /** So is the row of a cancellation. */
  lemma CancelRowIsOneLine(stamp: string, restriction: string, requesting: Option<string>, providing: Option<string>)
    requires OneLine(stamp)
    ensures OneLine(NtmlCancelLine(stamp, restriction, requesting, providing))
    ensures NtmlCancelLine(stamp, Collapse(restriction), requesting, providing)
            == NtmlCancelLine(stamp, restriction, requesting, providing)
  {
    CollapsedIsOneLine(restriction);
    CollapseIdempotent(restriction);
    FacilitiesAreOneLine(requesting, providing);
    CancelIsOneLine();
    hide Collapse, Facilities, Join, OneLine;
    var f := Facilities(requesting, providing);
    assert f.Some? ==> "" + f.value == f.value;
    PrefixesAreOneLine();
    JoinIsOneLine([stamp, Collapse(restriction), "CANCEL TMI"] + Part(f, ""), " ");
  }

  lemma CancelIsOneLine()
    ensures OneLine("CANCEL TMI")
  {
  }

  /** It is its stamp, the restriction, the words that cancel it, and the facilities. */
  lemma CancelRowReads(stamp: string, restriction: string, requesting: Option<string>, providing: Option<string>)
    ensures NtmlCancelLine(stamp, restriction, requesting, providing)
            == stamp + (" " + (Collapse(restriction) + (" " + ("CANCEL TMI" + After(Facilities(requesting, providing))))))
  {
    hide Collapse, Facilities, Join, Part;
    var f := Facilities(requesting, providing);
    var (r, cancel) := (Collapse(restriction), "CANCEL TMI");
    JoinKnown(stamp, Some(r), [cancel] + Part(f, ""));
    JoinKnown(r, Some(cancel), Part(f, ""));
    JoinLast(cancel, f);
    OnePart(r);
    OnePart(cancel);
    assert [stamp, r, cancel] + Part(f, "") == [stamp] + ([r] + ([cancel] + Part(f, "")));
  }
}
