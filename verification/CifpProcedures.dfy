/** SIDs and STARs (`parse_procedures` in `backend/src/feed/cifp.rs`), for every order in which the map of
    leg groups may be iterated. */
module CifpProcedures {
  import opened Wrappers
  import opened Text
  import opened Decimals
  import opened Records
  import opened CifpRecords

  /** A fix record, filed by identifier alone. */
  function FixEntry(section: char, subsection: char, subsectionPos: nat, lo: nat, hi: nat): string -> Option<(string, Coord)>
    requires lo <= hi <= 51 && subsectionPos < 51
  {
    line => Fix(line, section, subsection, subsectionPos, lo, hi)
  }

  const NAVAID := FixEntry('D', ' ', 5, 13, 17)
  const NDB := FixEntry('D', 'B', 5, 13, 17)
  const WAYPOINT := FixEntry('E', 'A', 5, 13, 18)
  const TERMINAL := FixEntry('P', 'C', 12, 13, 18)

  /** One airport's filing of one transition of one procedure; the common route's transition is empty. */
  datatype Group = Group(sub: char, proc: string, apt: string, transition: string)

  /** The leg a SID (`D`) or STAR (`E`) record files. */
  function LegEntry(line: string): Option<(Group, Leg)> {
    if !Usable(line) || line[4] != 'P' || !IsPrimary(line[38]) || (line[12] != 'D' && line[12] != 'E') then None
    else
      var apt, proc := Upper(Field(line, 6, 10)), Upper(Field(line, 13, 19));
      var number := ParseU32(Field(line, 26, 29));
      if apt == "" || proc == "" || number.None? then None
      else
        var filed := Upper(Field(line, 20, 25));
        Some((Group(line[12], proc, apt, if filed == "ALL" then "" else filed),
              Leg(number.value, Upper(Field(line, 29, 34)), line[36], line[37])))
  }

  /** The airport a procedure record files its procedure for. */
  function AirportEntry(line: string): Option<(string, string)> {
    var e := LegEntry(line);
    if e.None? then None else Some((e.value.0.proc, e.value.0.apt))
  }

  datatype Tables = Tables(
    navaids: map<string, seq<Coord>>, ndbs: map<string, seq<Coord>>,
    waypoints: map<string, seq<Coord>>, terminal: map<string, seq<Coord>>)

  ghost predicate TablesOf(t: Tables, lines: seq<string>) {
    && DistinctGroups(t.navaids, lines, NAVAID) && DistinctGroups(t.ndbs, lines, NDB)
    && DistinctGroups(t.waypoints, lines, WAYPOINT) && DistinctGroups(t.terminal, lines, TERMINAL)
  }

  /** Where leg `l` points, if it names a fix that its table holds. */
  function Locate(lines: seq<string>, l: Leg): Option<Waypoint> {
    var positions :=
      if l.fix == "" then []
      else if l.section == 'D' && l.subsection == 'B' then Filed(lines, NDB, l.fix)
      else if l.section == 'D' then Filed(lines, NAVAID, l.fix)
      else if l.section == 'E' && l.subsection == 'A' then Filed(lines, WAYPOINT, l.fix)
      else if l.section == 'P' && l.subsection == 'C' then Filed(lines, TERMINAL, l.fix)
      else [];
    if positions == [] then None else Some(Waypoint(l.fix, positions[0]))
  }

  function Resolve(lines: seq<string>, legs: seq<Leg>): seq<Waypoint> {
    if legs == [] then []
    else
      var last := |legs| - 1;
      var at := Locate(lines, legs[last]);
      Resolve(lines, legs[..last]) + if at.Some? then [at.value] else []
  }

  function Path(lines: seq<string>, g: Group): seq<Waypoint> {
    Resolve(lines, Sorted(Filed(lines, LegEntry, g)))
  }

  datatype Procedure = Procedure(
    ptype: string, apt: seq<string>, common: seq<Waypoint>, transitions: map<string, seq<Waypoint>>)

  function PType(sub: char): string {
    if sub == 'E' then "STAR" else "SID"
  }

  /** One turn of the fold: a longer path replaces, and the first turn decides the type. */
  function Turn(before: Option<Procedure>, g: Group, path: seq<Waypoint>, proc: string): Option<Procedure> {
    if g.proc != proc || path == [] then before
    else
      var p := if before.None? then Procedure(PType(g.sub), [], [], map[]) else before.value;
      Some(
        if g.transition == "" then if |path| > |p.common| then p.(common := path) else p
        else if g.transition in p.transitions && |p.transitions[g.transition]| >= |path| then p
        else p.(transitions := p.transitions[g.transition := path]))
  }

  function Kept(lines: seq<string>, order: seq<Group>, proc: string): Option<Procedure> {
    if order == [] then None
    else
      var g := order[|order| - 1];
      Turn(Kept(lines, order[..|order| - 1], proc), g, Path(lines, g), proc)
  }

  /** The parsed procedure: the fold's, with every filing airport. */
  function Parsed(lines: seq<string>, order: seq<Group>, proc: string): Option<Procedure> {
    var kept := Kept(lines, order, proc);
    if kept.None? then None
    else Some(kept.value.(apt := SortedNames(Filed(lines, AirportEntry, proc))))
  }

  ghost predicate Visits(lines: seq<string>, order: seq<Group>) {
    VisitsEach(lines, LegEntry, order)
  }

  // ---- The parser ------------------------------------------------------------------------------

  function TableFor(t: Tables, l: Leg): Option<map<string, seq<Coord>>> {
    if l.section == 'D' && l.subsection == 'B' then Some(t.ndbs)
    else if l.section == 'D' then Some(t.navaids)
    else if l.section == 'E' && l.subsection == 'A' then Some(t.waypoints)
    else if l.section == 'P' && l.subsection == 'C' then Some(t.terminal)
    else None
  }

  method Resolved(t: Tables, legs: seq<Leg>, ghost lines: seq<string>) returns (w: seq<Waypoint>)
    requires TablesOf(t, lines)
    ensures w == Resolve(lines, legs)
  {
    w := [];
    for i := 0 to |legs|
      invariant w == Resolve(lines, legs[..i])
    {
      var l := legs[i];
      assert legs[..i + 1][..i] == legs[..i];
      LocateInTables(t, lines, l);
      var table := TableFor(t, l);
      if l.fix != "" && table.Some? && l.fix in table.value && table.value[l.fix] != [] {
        w := w + [Waypoint(l.fix, table.value[l.fix][0])];
      }
    }
    assert legs[..|legs|] == legs;
  }

  lemma LocateInTables(t: Tables, lines: seq<string>, l: Leg)
    requires TablesOf(t, lines)
    ensures
      var table := TableFor(t, l);
      Locate(lines, l)
      == if l.fix != "" && table.Some? && l.fix in table.value && table.value[l.fix] != []
         then Some(Waypoint(l.fix, table.value[l.fix][0])) else None
  {
    hide NAVAID, NDB, WAYPOINT, TERMINAL;
  }

  /** Each procedure of `out` is what the fold over `order` keeps of it. */
  ghost predicate Folds(out: map<string, Procedure>, lines: seq<string>, order: seq<Group>) {
    forall proc :: Get(out, proc) == Kept(lines, order, proc)
  }

  /** The same, with its airports. */
  ghost predicate Parses(out: map<string, Procedure>, lines: seq<string>, order: seq<Group>) {
    forall proc :: Get(out, proc) == Parsed(lines, order, proc)
  }

  /** The fold over the groups, in any order. */
  method Fold(t: Tables, groups: map<Group, seq<Leg>>, ghost lines: seq<string>) returns (out: map<string, Procedure>)
    requires TablesOf(t, lines) && Groups(groups, lines, LegEntry)
    ensures exists order :: Visits(lines, order) && Folds(out, lines, order)
  {
    hide LegEntry, Resolve, Path, Sorted, Kept, Filed, TablesOf, Turn;
    KeptNone(lines);
    out := map[];
    ghost var order: seq<Group> := [];
    var rest := groups.Keys;
    while rest != {}
      invariant rest <= groups.Keys
      invariant forall g :: g in order <==> g in groups.Keys - rest
      invariant forall i, j :: 0 <= i < j < |order| ==> order[i] != order[j]
      invariant forall proc :: Get(out, proc) == Kept(lines, order, proc)
    {
      var g :| g in rest;
      assert g !in order;
      rest := rest - {g};
      var w := Resolved(t, Sorted(groups[g]), lines);
      PathOf(lines, g);
      ghost var before := out;
      if w != [] {
        var p := if g.proc in out then out[g.proc] else Procedure(PType(g.sub), [], [], map[]);
        if g.transition == "" {
          if |w| > |p.common| {
            p := p.(common := w);
          }
        } else if !(g.transition in p.transitions && |p.transitions[g.transition]| >= |w|) {
          p := p.(transitions := p.transitions[g.transition := w]);
        }
        out := out[g.proc := p];
      }
      KeptStep(lines, order, g);
      order := order + [g];
      forall proc ensures Get(out, proc) == Kept(lines, order, proc) {
        assert Get(before, proc) == Kept(lines, order[..|order| - 1], proc) by { assert order[..|order| - 1] + [g] == order; }
        TurnIs(Get(before, proc), g, w, proc);
      }
    }
    assert Visits(lines, order) && Folds(out, lines, order);
  }

  lemma PathOf(lines: seq<string>, g: Group)
    ensures Path(lines, g) == Resolve(lines, Sorted(Filed(lines, LegEntry, g)))
  {
  }

  lemma KeptNone(lines: seq<string>)
    ensures forall proc :: Kept(lines, [], proc) == None
  {
  }

  lemma KeptStep(lines: seq<string>, order: seq<Group>, g: Group)
    ensures forall proc :: Kept(lines, order + [g], proc) == Turn(Kept(lines, order, proc), g, Path(lines, g), proc)
  {
    assert (order + [g])[..|order|] == order;
  }

  lemma TurnIs(before: Option<Procedure>, g: Group, path: seq<Waypoint>, proc: string)
    ensures Turn(before, g, path, proc) ==
      if g.proc != proc || path == [] then before
      else
        var p := if before.None? then Procedure(PType(g.sub), [], [], map[]) else before.value;
        Some(
          if g.transition == "" then if |path| > |p.common| then p.(common := path) else p
          else if g.transition in p.transitions && |p.transitions[g.transition]| >= |path| then p
          else p.(transitions := p.transitions[g.transition := path]))
  {
  }

  /** Each procedure's airports, in order. */
  method FillAirports(folded: map<string, Procedure>, aptsByProc: map<string, seq<string>>) returns (out: map<string, Procedure>)
    ensures forall proc :: Get(out, proc) ==
              if proc in folded && proc in aptsByProc then Some(folded[proc].(apt := SortedNames(aptsByProc[proc])))
              else Get(folded, proc)
  {
    out := folded;
    var rest := aptsByProc.Keys;
    while rest != {}
      invariant rest <= aptsByProc.Keys
      invariant forall proc :: Get(out, proc) ==
                  if proc in folded && proc in aptsByProc.Keys - rest
                  then Some(folded[proc].(apt := SortedNames(aptsByProc[proc]))) else Get(folded, proc)
    {
      var proc :| proc in rest;
      rest := rest - {proc};
      if proc in out {
        out := out[proc := out[proc].(apt := SortedNames(aptsByProc[proc]))];
      }
    }
  }

  method ParseProcedures(lines: seq<string>) returns (out: map<string, Procedure>)
    ensures exists order :: Visits(lines, order) && Parses(out, lines, order)
  {
    hide LegEntry, AirportEntry, Kept, Filed, NAVAID, NDB, WAYPOINT, TERMINAL;
    var navaids := GroupDistinct(lines, NAVAID);
    var ndbs := GroupDistinct(lines, NDB);
    var waypoints := GroupDistinct(lines, WAYPOINT);
    var terminal := GroupDistinct(lines, TERMINAL);
    var groups := GroupBy(lines, LegEntry);
    var aptsByProc := GroupDistinct(lines, AirportEntry);
    var folded := Fold(Tables(navaids, ndbs, waypoints, terminal), groups, lines);
    ghost var order :| Visits(lines, order) && Folds(folded, lines, order);
    out := FillAirports(folded, aptsByProc);
    forall proc ensures Get(out, proc) == Parsed(lines, order, proc) {
      if proc in folded {
        KeptIsFiled(lines, order, proc);
        SameNames(Distinct(Filed(lines, AirportEntry, proc)), Filed(lines, AirportEntry, proc));
      }
    }
    assert Parses(out, lines, order);
  }

  lemma SameNames(r: seq<string>, s: seq<string>)
    requires forall y :: y in r <==> y in s
    ensures SortedNames(r) == SortedNames(s)
  {
    AscendingUnique(SortedNames(r), SortedNames(s));
  }

  /** A procedure that resolved a point was filed for some airport. */
  lemma KeptIsFiled(lines: seq<string>, order: seq<Group>, proc: string)
    requires Visits(lines, order) && Kept(lines, order, proc).Some?
    ensures Filed(lines, AirportEntry, proc) != []
  {
    KeptNames(lines, order, proc);
    var g :| g in order && g.proc == proc;
    var l := Filed(lines, LegEntry, g)[0];
    FiledMembers(lines, LegEntry, g, l);
    var line :| line in lines && LegEntry(line) == Some((g, l));
    assert AirportEntry(line) == Some((proc, g.apt));
    FiledMembers(lines, AirportEntry, proc, g.apt);
  }

  lemma {:induction false} KeptNames(lines: seq<string>, order: seq<Group>, proc: string)
    requires Kept(lines, order, proc).Some?
    ensures exists g :: g in order && g.proc == proc
  {
    hide Path;
    var last := |order| - 1;
    if order[last].proc == proc {
      assert order[last] in order;
    } else {
      KeptNames(lines, order[..last], proc);
      var g :| g in order[..last] && g.proc == proc;
      assert g in order;
    }
  }
}
