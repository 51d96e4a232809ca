/** The NTML restriction codec (`backend/src/tmi.rs`), and a reference parser for the part of its grammar
    that can be read back. Formatted times are opaque strings. */
module Tmi {
  import opened Wrappers
  import opened Text
  import opened Decimals
  import opened Selections

  datatype Bound = Bound(op: string, value: int)

  /** The range of every value: the source's are `i32`. */
  predicate I32(n: int) {
    -0x8000_0000 <= n < 0x8000_0000
  }

  datatype Restriction = Restriction(
    element: string, direction: string, via: Option<string>, kind: string, value: Option<int>,
    text: Option<string>, qualifier: Option<string>, aircraft: Option<string>, speed: Option<Bound>,
    altitude: Option<Bound>, condition: Option<string>, conditionDetail: Option<string>, exclude: seq<string>)

  // ---- Encoding --------------------------------------------------------------------------------

  function Part(s: Option<string>, prefix: string): seq<string> {
    if s.Some? then [prefix + s.value] else []
  }

  function DirectionPart(direction: string): seq<string> {
    var d := Lower(Collapse(direction));
    if d == "arrivals" then ["arrivals"] else if d == "departures" then ["departures"] else []
  }

  /** Present and not blank, in capitals. */
  function OptClean(s: Option<string>): Option<string> {
    if Opt(s).Some? then Some(Clean(s.value)) else None
  }

  function KindPart(r: Restriction): seq<string> {
    var kind := Clean(r.kind);
    if kind == "MIT" || kind == "MINIT" then [Signed(if r.value.Some? then r.value.value else 0, 0) + kind]
    else if kind == "TXT" then Part(Opt(r.text), "")
    else [kind]
  }

  function SpeedPart(b: Option<Bound>): seq<string> {
    if b.Some? then ["SPD:" + (Collapse(b.value.op) + Signed(b.value.value, 0))] else []
  }

  function AltitudePart(b: Option<Bound>): seq<string> {
    if b.Some? then ["ALT:" + (Clean(b.value.op) + Signed(b.value.value, 3))] else []
  }

  function ConditionPart(r: Restriction): seq<string> {
    var (c, d) := (OptClean(r.condition), OptClean(r.conditionDetail));
    if c.None? then [] else if d.Some? then [c.value + ":" + d.value] else [c.value]
  }

  /** The excluded facilities that are not blank. */
  function Excluded(exclude: seq<string>): seq<string> {
    if exclude == [] then []
    else (if Clean(exclude[0]) != "" then [Clean(exclude[0])] else []) + Excluded(exclude[1..])
  }

  function ExcludePart(excluded: seq<string>): seq<string> {
    if excluded == [] then [] else ["EXCL:" + Join(excluded, ",")]
  }

  function Tail(r: Restriction): seq<string> {
    Part(OptClean(r.aircraft), "TYPE:")
    + (SpeedPart(r.speed) + (AltitudePart(r.altitude) + (ConditionPart(r) + ExcludePart(Excluded(r.exclude)))))
  }

  function Parts(r: Restriction): seq<string> {
    [Clean(r.element)]
    + (DirectionPart(r.direction)
       + (Part(OptClean(r.via), "via ") + (KindPart(r) + (Part(OptClean(r.qualifier), "") + Tail(r)))))
  }

  function Encoded(r: Restriction): string {
    Join(Parts(r), " ")
  }

  method Encode(r: Restriction) returns (line: string)
    ensures line == Encoded(r)
  {
    hide Clean, Collapse, Lower, Signed, Join, Opt, Tail, OptClean;
    var parts := [Clean(r.element)];
    var direction := Lower(Collapse(r.direction));
    if direction == "arrivals" {
      parts := parts + ["arrivals"];
    } else if direction == "departures" {
      parts := parts + ["departures"];
    }
    assert parts == [Clean(r.element)] + DirectionPart(r.direction);
    ghost var p1 := parts;
    CleanOpt(r.via);
    var via := Opt(r.via);
    if via.Some? {
      parts := parts + ["via " + Clean(via.value)];
    }
    assert parts == p1 + Part(OptClean(r.via), "via ");
    ghost var p2 := parts;
    var kind := Clean(r.kind);
    if kind == "MIT" || kind == "MINIT" {
      parts := parts + [Signed(if r.value.Some? then r.value.value else 0, 0) + kind];
    } else if kind == "TXT" {
      var t := Opt(r.text);
      if t.Some? {
        assert "" + t.value == t.value;
        parts := parts + [t.value];
      }
    } else {
      parts := parts + [kind];
    }
    assert parts == p2 + KindPart(r);
    ghost var p3 := parts;
    CleanOpt(r.qualifier);
    var q := Opt(r.qualifier);
    if q.Some? {
      assert "" + Clean(q.value) == Clean(q.value);
      parts := parts + [Clean(q.value)];
    }
    assert parts == p3 + Part(OptClean(r.qualifier), "");
    var tail := EncodeTail(r);
    parts := parts + tail;
    Associate([Clean(r.element)], DirectionPart(r.direction), Part(OptClean(r.via), "via "), KindPart(r),
              Part(OptClean(r.qualifier), ""), tail);
    line := Join(parts, " ");
  }

  lemma Associate<T>(a: seq<T>, b: seq<T>, c: seq<T>, d: seq<T>, e: seq<T>, f: seq<T>)
    ensures a + b + c + d + e + f == a + (b + (c + (d + (e + f))))
  {
  }

  method EncodeTail(r: Restriction) returns (parts: seq<string>)
    ensures parts == Tail(r)
  {
    hide Clean, Collapse, Signed, Join, Opt, OptClean, Excluded;
    parts := [];
    CleanOpt(r.aircraft);
    var a := Opt(r.aircraft);
    if a.Some? {
      parts := parts + ["TYPE:" + Clean(a.value)];
    }
    assert parts == [] + Part(OptClean(r.aircraft), "TYPE:");
    ghost var p1 := parts;
    if r.speed.Some? {
      parts := parts + ["SPD:" + (Collapse(r.speed.value.op) + Signed(r.speed.value.value, 0))];
    }
    assert parts == p1 + SpeedPart(r.speed);
    ghost var p2 := parts;
    if r.altitude.Some? {
      parts := parts + ["ALT:" + (Clean(r.altitude.value.op) + Signed(r.altitude.value.value, 3))];
    }
    assert parts == p2 + AltitudePart(r.altitude);
    ghost var p3 := parts;
    CleanOpt(r.condition);
    CleanOpt(r.conditionDetail);
    var c := Opt(r.condition);
    if c.Some? {
      var d := Opt(r.conditionDetail);
      parts := parts + [if d.Some? then Clean(c.value) + ":" + Clean(d.value) else Clean(c.value)];
    }
    assert parts == p3 + ConditionPart(r);
    ghost var p4 := parts;
    var excl := PrintExcluded(r.exclude);
    if excl != [] {
      parts := parts + ["EXCL:" + Join(excl, ",")];
    }
    assert parts == p4 + ExcludePart(Excluded(r.exclude));
    Associate([], Part(OptClean(r.aircraft), "TYPE:"), SpeedPart(r.speed), AltitudePart(r.altitude), ConditionPart(r),
              ExcludePart(excl));
  }

  method PrintExcluded(exclude: seq<string>) returns (out: seq<string>)
    ensures out == Excluded(exclude)
  {
    hide Clean;
    out := [];
    for i := 0 to |exclude|
      invariant out + Excluded(exclude[i..]) == Excluded(exclude)
    {
      ghost var before, rest := out, Excluded(exclude[i + 1..]);
      var e := Clean(exclude[i]);
      if e != "" {
        out := out + [e];
      }
      ExcludedFirst(exclude[i..]);
      assert exclude[i..][1..] == exclude[i + 1..];
      assert before + ((if e != "" then [e] else []) + rest) == out + rest;
    }
  }

  lemma ExcludedFirst(exclude: seq<string>)
    requires exclude != []
    ensures Excluded(exclude) == (if Clean(exclude[0]) != "" then [Clean(exclude[0])] else []) + Excluded(exclude[1..])
  {
  }

  ghost function Named(exclude: seq<string>): set<nat> {
    set i | 0 <= i < |exclude| && Clean(exclude[i]) != ""
  }

  lemma {:induction false} ExcludedLast(exclude: seq<string>, e: string)
    ensures Excluded(exclude + [e]) == Excluded(exclude) + if Clean(e) != "" then [Clean(e)] else []
  {
    hide Clean;
    if exclude == [] {
      assert [] + [e] == [e] && [e][1..] == [];
    } else {
      ExcludedLast(exclude[1..], e);
      assert (exclude + [e])[1..] == exclude[1..] + [e];
    }
  }

  /** The facilities excluded are those that are not blank, in capitals and in the order they are listed. */
  lemma {:induction false} ExcludedInOrder(exclude: seq<string>) returns (ix: seq<nat>)
    ensures Lists(ix, Named(exclude)) && |ix| == |Excluded(exclude)|
    ensures forall k :: 0 <= k < |ix| ==> ix[k] < |exclude| && Excluded(exclude)[k] == Clean(exclude[ix[k]])
  {
    hide Clean;
    if exclude == [] {
      ix := [];
    } else {
      var last := |exclude| - 1;
      ix := ExcludedInOrder(exclude[..last]);
      ExcludedLast(exclude[..last], exclude[last]);
      assert exclude == exclude[..last] + [exclude[last]];
      if Clean(exclude[last]) != "" {
        assert Named(exclude) == Named(exclude[..last]) + {last};
        ListsGrow(ix, Named(exclude[..last]), last);
        ix := ix + [last];
      } else {
        assert Named(exclude) == Named(exclude[..last]);
      }
    }
  }

  lemma CleanOpt(s: Option<string>)
    ensures OptClean(s) == if Opt(s).Some? then Some(Clean(Opt(s).value)) else None
  {
    if s.Some? {
      CleanIsCollapsed(s.value);
    }
  }

  // ---- What a line can be read back as ---------------------------------------------------------

  datatype Direction = Enroute | Arrivals | Departures

  /** A restriction up to capitals and whitespace. */
  datatype Fields = Fields(
    element: string, direction: Direction, via: Option<string>, kind: string, value: Option<int>,
    aircraft: Option<string>, speed: Option<Bound>, altitude: Option<Bound>,
    condition: Option<(string, string)>, exclude: seq<string>)

  function Normal(r: Restriction): Fields {
    var kind := Clean(r.kind);
    var d := Lower(Collapse(r.direction));
    var (c, detail) := (OptClean(r.condition), OptClean(r.conditionDetail));
    Fields(
      Clean(r.element), if d == "arrivals" then Arrivals else if d == "departures" then Departures else Enroute,
      OptClean(r.via), kind,
      if kind == "MIT" || kind == "MINIT" then Some(if r.value.Some? then r.value.value else 0) else None,
      OptClean(r.aircraft),
      if r.speed.Some? then Some(Bound(Collapse(r.speed.value.op), r.speed.value.value)) else None,
      if r.altitude.Some? then Some(Bound(Clean(r.altitude.value.op), r.altitude.value.value)) else None,
      if c.Some? && detail.Some? then Some((c.value, detail.value)) else None,
      Excluded(r.exclude))
  }

  predicate IsSignOrDigit(c: char) {
    c == '-' || IsDigit(c)
  }

  /** How many characters come before the first sign or digit. */
  function OpLength(s: string): (n: nat)
    ensures n <= |s|
  {
    if s == "" || IsSignOrDigit(s[0]) then 0 else 1 + OpLength(s[1..])
  }

  /** How many leading signs and digits. */
  function NumberLength(s: string): (n: nat)
    ensures n <= |s|
  {
    if s == "" || !IsSignOrDigit(s[0]) then 0 else 1 + NumberLength(s[1..])
  }

  function ParseSigned(s: string): int {
    if s != "" && s[0] == '-' && AllDigits(s[1..]) then -(Value(s[1..]) as int) else if AllDigits(s) then Value(s) else 0
  }

  function ParseBound(s: string): Bound {
    Bound(s[..OpLength(s)], ParseSigned(s[OpLength(s)..]))
  }

  /** The value of the first token, if `name` and a colon introduce it. */
  function Take(tokens: seq<string>, name: string): Option<string> {
    if tokens == [] then None
    else
      var s := SplitOnce(tokens[0], ':');
      if s.Some? && s.value.0 == name then Some(s.value.1) else None
  }

  function Skip(tokens: seq<string>, name: string): seq<string> {
    if Take(tokens, name).Some? then tokens[1..] else tokens
  }

  function TakeCondition(tokens: seq<string>): Option<(string, string)> {
    if tokens == [] then None
    else
      var s := SplitOnce(tokens[0], ':');
      if s.Some? && s.value.0 != "EXCL" then s else None
  }

  function DecodeTail(f: Fields, tokens: seq<string>): Fields {
    var t1 := Skip(tokens, "TYPE");
    var t2 := Skip(t1, "SPD");
    var t3 := Skip(t2, "ALT");
    var condition := TakeCondition(t3);
    var t4 := if condition.Some? then t3[1..] else t3;
    var (speed, altitude, excl) := (Take(t1, "SPD"), Take(t2, "ALT"), Take(t4, "EXCL"));
    f.(aircraft := Take(tokens, "TYPE"),
       speed := if speed.Some? then Some(ParseBound(speed.value)) else None,
       altitude := if altitude.Some? then Some(ParseBound(altitude.value)) else None,
       condition := condition,
       exclude := if excl.Some? then Split(excl.value, ',') else [])
  }

  /** The kind, and the tokens left after it. */
  function ReadKind(f: Fields, tokens: seq<string>): (Fields, seq<string>) {
    if tokens == [] then (f, [])
    else
      var n := NumberLength(tokens[0]);
      (f.(kind := tokens[0][n..], value := if n > 0 then Some(ParseSigned(tokens[0][..n])) else None), tokens[1..])
  }

  /** The fields before the kind, and the tokens left from it on. */
  function ReadVia(f: Fields, tokens: seq<string>): (Fields, seq<string>) {
    if |tokens| >= 2 && tokens[0] == "via" then (f.(via := Some(tokens[1])), tokens[2..]) else (f, tokens)
  }

  function ReadDirection(f: Fields, tokens: seq<string>): (Fields, seq<string>) {
    if tokens != [] && tokens[0] == "arrivals" then ReadVia(f.(direction := Arrivals), tokens[1..])
    else if tokens != [] && tokens[0] == "departures" then ReadVia(f.(direction := Departures), tokens[1..])
    else ReadVia(f, tokens)
  }

  const BLANK := Fields("", Enroute, None, "", None, None, None, None, None, [])

  function ReadHead(line: string): (Fields, seq<string>) {
    var tokens := Words(line);
    if tokens == [] then (BLANK, []) else ReadDirection(BLANK.(element := tokens[0]), tokens[1..])
  }

  /** The reference parser. */
  function Decode(line: string): Fields {
    var (head, fromKind) := ReadHead(line);
    var (f, tokens) := ReadKind(head, fromKind);
    DecodeTail(f, tokens)
  }

  // ---- The rows of the log ---------------------------------------------------------------------

  /** `REQUESTING:PROVIDING`, or whichever of the two is known. */
  function Facilities(requesting: Option<string>, providing: Option<string>): Option<string> {
    var (req, prov) := (OptClean(requesting), OptClean(providing));
    if req.Some? && prov.Some? then Some(req.value + ":" + prov.value)
    else if req.Some? then req else prov
  }

  /** `stamp` is the log stamp, and `window` the valid window when both its ends are known. */
  function NtmlLine(
      stamp: string, restriction: string, window: Option<string>, requesting: Option<string>, providing: Option<string>): string
  {
    Join([stamp, Collapse(restriction)] + (Part(window, "") + Part(Facilities(requesting, providing), "")), " ")
  }

  function NtmlCancelLine(
      stamp: string, restriction: string, requesting: Option<string>, providing: Option<string>): string
  {
    Join([stamp, Collapse(restriction), "CANCEL TMI"] + Part(Facilities(requesting, providing), ""), " ")
  }
}
