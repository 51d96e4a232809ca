/** Enroute airways (`parse_airways` in `backend/src/feed/cifp.rs`), for every order in which the map of
    leg groups may be iterated. */
module CifpAirways {
  import opened Wrappers
  import opened Text
  import opened Decimals
  import opened Records
  import opened CifpRecords

  /** Area code and identifier: neither is unique in a file without the other. */
  type Key = (string, string)

  /** A fix record of one of the three tables an airway leg can point at. */
  function FixEntry(section: char, subsection: char, lo: nat, hi: nat): string -> Option<(Key, Coord)>
    requires lo <= hi <= 51
  {
    line =>
      var f := Fix(line, section, subsection, 5, lo, hi);
      if f.None? then None else Some(((line[0..4], f.value.0), f.value.1))
  }

  const NAVAID := FixEntry('D', ' ', 13, 17)
  const NDB := FixEntry('D', 'B', 13, 17)
  const WAYPOINT := FixEntry('E', 'A', 13, 18)

  /** The leg an Enroute Airway record files, under its area and route. */
  function LegEntry(line: string): Option<(Key, Leg)> {
    if !Usable(line) || line[4] != 'E' || line[5] != 'R' || !IsPrimary(line[38]) then None
    else
      var route, fix := Upper(Field(line, 13, 18)), Upper(Field(line, 29, 34));
      var number := ParseU32(Field(line, 25, 29));
      if number.None? || route == "" || fix == "" then None
      else Some(((line[0..4], route), Leg(number.value, fix, line[36], line[37])))
  }

  datatype Tables = Tables(navaids: map<Key, seq<Coord>>, ndbs: map<Key, seq<Coord>>, waypoints: map<Key, seq<Coord>>)

  ghost predicate TablesOf(t: Tables, lines: seq<string>) {
    && DistinctGroups(t.navaids, lines, NAVAID)
    && DistinctGroups(t.ndbs, lines, NDB)
    && DistinctGroups(t.waypoints, lines, WAYPOINT)
  }

  /** Where leg `l` of an airway in `area` points: the first position filed, in that area, in the table
      its section and subsection name. */
  function Locate(lines: seq<string>, area: string, l: Leg): Option<Waypoint> {
    var positions :=
      if l.section == 'D' && l.subsection == 'B' then Filed(lines, NDB, (area, l.fix))
      else if l.section == 'D' then Filed(lines, NAVAID, (area, l.fix))
      else if l.section == 'E' && l.subsection == 'A' then Filed(lines, WAYPOINT, (area, l.fix))
      else [];
    if positions == [] then None else Some(Waypoint(l.fix, positions[0]))
  }

  function Resolve(lines: seq<string>, area: string, legs: seq<Leg>): seq<Waypoint> {
    if legs == [] then []
    else
      var last := |legs| - 1;
      var at := Locate(lines, area, legs[last]);
      Resolve(lines, area, legs[..last]) + if at.Some? then [at.value] else []
  }

  /** The path of one route in one area: its legs in sequence, resolved through that area's tables. */
  function Path(lines: seq<string>, area: string, route: string): seq<Waypoint> {
    Resolve(lines, area, Sorted(Filed(lines, LegEntry, (area, route))))
  }

  datatype Airway = Airway(t: string, w: seq<Waypoint>)

  /** One turn of the fold. */
  function Richer(before: Option<Airway>, k: Key, path: seq<Waypoint>, route: string): Option<Airway> {
    if k.1 != route || |path| < 2 || (before.Some? && |before.value.w| >= |path|) then before
    else Some(Airway(if k.1 == "" then "" else k.1[..1], path))
  }

  /** The airway `route` as the fold over `order` leaves it: replaced only by a longer path. */
  function Kept(lines: seq<string>, order: seq<Key>, route: string): Option<Airway> {
    if order == [] then None
    else
      var k := order[|order| - 1];
      Richer(Kept(lines, order[..|order| - 1], route), k, Path(lines, k.0, k.1), route)
  }

  /** `order` visits every group of legs once. */
  ghost predicate Visits(lines: seq<string>, order: seq<Key>) {
    VisitsEach(lines, LegEntry, order)
  }

  // ---- The parser ------------------------------------------------------------------------------

  method Resolved(t: Tables, area: string, legs: seq<Leg>, ghost lines: seq<string>) returns (w: seq<Waypoint>)
    requires TablesOf(t, lines)
    ensures w == Resolve(lines, area, legs)
  {
    w := [];
    for i := 0 to |legs|
      invariant w == Resolve(lines, area, legs[..i])
    {
      var l := legs[i];
      assert legs[..i + 1][..i] == legs[..i];
      LocateInTables(t, lines, area, l);
      if l.section == 'D' || (l.section == 'E' && l.subsection == 'A') {
        var table := if l.section == 'D' then if l.subsection == 'B' then t.ndbs else t.navaids else t.waypoints;
        if (area, l.fix) in table && table[(area, l.fix)] != [] {
          w := w + [Waypoint(l.fix, table[(area, l.fix)][0])];
        }
      }
    }
    assert legs[..|legs|] == legs;
  }

  lemma LocateInTables(t: Tables, lines: seq<string>, area: string, l: Leg)
    requires TablesOf(t, lines)
    ensures
      if l.section == 'D' || (l.section == 'E' && l.subsection == 'A') then
        var table := if l.section == 'D' then if l.subsection == 'B' then t.ndbs else t.navaids else t.waypoints;
        Locate(lines, area, l)
        == if (area, l.fix) in table && table[(area, l.fix)] != []
           then Some(Waypoint(l.fix, table[(area, l.fix)][0])) else None
      else Locate(lines, area, l) == None
  {
    hide NAVAID, NDB, WAYPOINT;
  }

  /** Each airway of `out` is what the fold over `order` keeps of it. */
  ghost predicate Folds(out: map<string, Airway>, lines: seq<string>, order: seq<Key>) {
    forall route :: Get(out, route) == Kept(lines, order, route)
  }

  /** Any iteration order may be taken. */
  method ParseAirways(lines: seq<string>) returns (out: map<string, Airway>)
    ensures exists order :: Visits(lines, order) && Folds(out, lines, order)
  {
    var navaids := GroupDistinct(lines, NAVAID);
    var ndbs := GroupDistinct(lines, NDB);
    var waypoints := GroupDistinct(lines, WAYPOINT);
    var tables := Tables(navaids, ndbs, waypoints);
    var byAreaRoute := GroupBy(lines, LegEntry);
    hide LegEntry, NAVAID, NDB, WAYPOINT, Resolve, Path, Sorted, Kept, Filed;
    KeptNone(lines);
    out := map[];
    ghost var order: seq<Key> := [];
    var rest := byAreaRoute.Keys;
    while rest != {}
      invariant rest <= byAreaRoute.Keys
      invariant forall k :: k in order <==> k in byAreaRoute.Keys - rest
      invariant forall i, j :: 0 <= i < j < |order| ==> order[i] != order[j]
      invariant forall route :: Get(out, route) == Kept(lines, order, route)
    {
      var k :| k in rest;
      assert k !in order;
      rest := rest - {k};
      var (area, route) := k;
      var w := Resolved(tables, area, Sorted(byAreaRoute[k]), lines);
      PathOf(lines, area, route);
      ghost var before := out;
      assert Get(out, route) == Kept(lines, order, route);
      if |w| >= 2 {
        var t := if route == "" then "" else route[..1];
        if !(route in out && |out[route].w| >= |w|) {
          out := out[route := Airway(t, w)];
        }
      }
      KeptStep(lines, order, k);
      order := order + [k];
    }
    assert Visits(lines, order) && Folds(out, lines, order);
  }

  lemma PathOf(lines: seq<string>, area: string, route: string)
    ensures Path(lines, area, route) == Resolve(lines, area, Sorted(Filed(lines, LegEntry, (area, route))))
  {
  }

  lemma KeptNone(lines: seq<string>)
    ensures forall route :: Kept(lines, [], route) == None
  {
  }

  lemma KeptStep(lines: seq<string>, order: seq<Key>, k: Key)
    ensures forall route ::
      Kept(lines, order + [k], route) == Richer(Kept(lines, order, route), k, Path(lines, k.0, k.1), route)
  {
    assert (order + [k])[..|order|] == order;
  }
}
