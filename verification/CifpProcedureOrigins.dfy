/** Where a parsed procedure comes from: the lines of the points of its routes, and of its type. */
module CifpProcedureOrigins {
  import opened Wrappers
  import opened Selections
  import opened Records
  import opened CifpRecords
  import opened CifpSequence
  import opened CifpProcedures
  import opened CifpProcedureTheorems

  /** Where a leg stands, if it names a fix: at the position filed first in the one table its section and
      subsection name. */
  ghost predicate Stands(lines: seq<string>, l: Leg, p: Waypoint) {
    && p.fix == l.fix && l.fix != ""
    && match (l.section, l.subsection)
       case ('D', 'B') => FiledFirst(lines, NDB, l.fix, p.at)
       case ('D', _) => FiledFirst(lines, NAVAID, l.fix, p.at)
       case ('E', 'A') => FiledFirst(lines, WAYPOINT, l.fix, p.at)
       case ('P', 'C') => FiledFirst(lines, TERMINAL, l.fix, p.at)
       case _ => false
  }

  /** Line `i` files a leg of `g` that stands at `p`. */
  ghost predicate Points(lines: seq<string>, g: Group, i: nat, p: Waypoint) {
    && i < |lines| && LegEntry(lines[i]).Some?
    && LegEntry(lines[i]).value.0 == g && Stands(lines, LegEntry(lines[i]).value.1, p)
  }

  ghost predicate PointsSomewhere(lines: seq<string>, g: Group, i: nat) {
    exists p :: Points(lines, g, i, p)
  }

  /** The lines whose leg of `g` stands anywhere. */
  ghost function Standing(lines: seq<string>, g: Group): set<nat> {
    set i | 0 <= i < |lines| && PointsSomewhere(lines, g, i)
  }

  /** `w` has one point for each standing leg of `g`, by sequence number and then by place in the
      file: `at[k]` is the line of the k-th. */
  ghost predicate Follows(lines: seq<string>, g: Group, w: seq<Waypoint>, at: seq<nat>) {
    && |at| == |w| && Sequences(lines, LegEntry, at, Standing(lines, g))
    && forall k :: 0 <= k < |w| ==> Points(lines, g, at[k], w[k])
  }

  lemma LocatedStands(lines: seq<string>, l: Leg, p: Waypoint)
    ensures Locate(lines, l) == Some(p) <==> Stands(lines, l, p)
  {
    hide NAVAID, NDB, WAYPOINT, TERMINAL, FiledFirst, Filed;
    FirstOfFiled(lines, NAVAID, l.fix);
    FirstOfFiled(lines, NDB, l.fix);
    FirstOfFiled(lines, WAYPOINT, l.fix);
    FirstOfFiled(lines, TERMINAL, l.fix);
  }

  /** The positions of the legs that locate. */
  ghost function Located(lines: seq<string>, legs: seq<Leg>): set<nat> {
    set i | 0 <= i < |legs| && Locate(lines, legs[i]).Some?
  }

  lemma {:induction false} ResolveInOrder(lines: seq<string>, legs: seq<Leg>) returns (ix: seq<nat>)
    ensures Lists(ix, Located(lines, legs)) && |ix| == |Resolve(lines, legs)|
    ensures forall k :: 0 <= k < |ix| ==>
      ix[k] < |legs| && Locate(lines, legs[ix[k]]) == Some(Resolve(lines, legs)[k])
  {
    hide Locate, Located, Resolve;
    if legs == [] {
      ix := [];
      NothingLocated(lines);
    } else {
      var last := |legs| - 1;
      ix := ResolveInOrder(lines, legs[..last]);
      ResolveLast(lines, legs);
      LocatedLast(lines, legs);
      if Locate(lines, legs[last]).Some? {
        ListsGrow(ix, Located(lines, legs[..last]), last);
        ix := ix + [last];
      }
    }
  }

  lemma NothingLocated(lines: seq<string>)
    ensures Located(lines, []) == {} && Resolve(lines, []) == []
  {
  }

  lemma ResolveLast(lines: seq<string>, legs: seq<Leg>)
    requires legs != []
    ensures var (at, front) := (Locate(lines, legs[|legs| - 1]), Resolve(lines, legs[..|legs| - 1]));
      Resolve(lines, legs) == if at.Some? then front + [at.value] else front
  {
    hide Locate;
  }

  lemma LocatedLast(lines: seq<string>, legs: seq<Leg>)
    requires legs != []
    ensures var (last, front) := (|legs| - 1, Located(lines, legs[..|legs| - 1]));
      && Located(lines, legs) == (if Locate(lines, legs[last]).Some? then front + {last} else front)
      && forall i :: i in front ==> i < last
  {
    hide Locate;
  }

  lemma LocatedIsStanding(lines: seq<string>, g: Group, l: Leg, i: nat)
    requires i < |lines| && LegEntry(lines[i]) == Some((g, l))
    ensures i in Standing(lines, g) <==> Locate(lines, l).Some?
    ensures forall p :: Locate(lines, l) == Some(p) ==> Points(lines, g, i, p)
  {
    hide Locate, Stands, LegEntry;
    forall p ensures Points(lines, g, i, p) <==> Locate(lines, l) == Some(p) {
      LocatedStands(lines, l, p);
    }
    if Locate(lines, l).Some? {
      assert Points(lines, g, i, Locate(lines, l).value);
    }
  }

  /** The path of a group, traced back to the file. */
  lemma PathFollows(lines: seq<string>, g: Group) returns (at: seq<nat>)
    ensures Follows(lines, g, Path(lines, g), at)
  {
    var legs := Sorted(Filed(lines, LegEntry, g));
    var all := SortedLines(lines, LegEntry, g);
    var ix := ResolveInOrder(lines, legs);
    var hits := Standing(lines, g);
    hide LegEntry, Locate, Filed, Sorted, Resolve, Points, Sequences;
    forall i | 0 <= i < |all| ensures all[i] in hits <==> i in Located(lines, legs) {
      LocatedIsStanding(lines, g, legs[i], all[i]);
    }
    assert (set i | 0 <= i < |all| && all[i] in hits) == Located(lines, legs);
    StandingIsFiled(lines, g);
    at := SequenceOfSome(lines, LegEntry, all, Filing(lines, LegEntry, g), ix, hits);
    forall k | 0 <= k < |at| ensures Points(lines, g, at[k], Path(lines, g)[k]) {
      LocatedIsStanding(lines, g, legs[ix[k]], all[ix[k]]);
    }
  }

  lemma StandingIsFiled(lines: seq<string>, g: Group)
    ensures Standing(lines, g) <= Filing(lines, LegEntry, g)
  {
    hide LegEntry, Stands;
  }

  // ---- Of a procedure --------------------------------------------------------------------------

  /** Line `i` files a leg of procedure `proc`, in group `g`, that stands somewhere. */
  ghost predicate Resolves(lines: seq<string>, proc: string, g: Group, i: nat) {
    g.proc == proc && i in Standing(lines, g)
  }

  /** A STAR for an `E` in the record's thirteenth column, a SID for a `D`. */
  ghost predicate OfType(lines: seq<string>, i: nat, ptype: string) {
    && i < |lines| && |lines[i]| > 12
    && (ptype == "STAR" <==> lines[i][12] == 'E') && (ptype == "SID" <==> lines[i][12] == 'D')
  }

  /** The lines of a path's points are those of its group's standing legs. */
  lemma PathResolves(lines: seq<string>, g: Group)
    ensures Path(lines, g) != [] <==> Standing(lines, g) != {}
  {
    hide Path, Standing;
    var at := PathFollows(lines, g);
    if Path(lines, g) != [] {
      assert at[0] in at;
    }
    if Standing(lines, g) != {} {
      var i :| i in Standing(lines, g);
      assert i in at;
    }
  }

  /** A procedure is kept exactly when some line files a leg of it that stands. */
  lemma KeptIffStanding(lines: seq<string>, order: seq<Group>, proc: string)
    requires Visits(lines, order)
    ensures Parsed(lines, order, proc).Some? <==> exists g, i :: Resolves(lines, proc, g, i)
  {
    EveryProcedureAccounted(lines, order, proc);
    hide Path, Standing, Parsed, Visits, Filed;
    var p := Parsed(lines, order, proc);
    if p.Some? {
      var g: Group :| g.proc == proc && Path(lines, g) != [];
      PathResolves(lines, g);
      var i :| i in Standing(lines, g);
      assert Resolves(lines, proc, g, i);
    }
    forall g, i | Resolves(lines, proc, g, i) ensures p.Some? {
      PathResolves(lines, g);
    }
  }

  /** The common route, and each transition, runs through one airport's filing: a point for each of its own
      legs that stands, in sequence. */
  lemma RoutesFollow(lines: seq<string>, order: seq<Group>, proc: string, t: string)
    requires Visits(lines, order) && Route(Parsed(lines, order, proc), t) != []
    ensures exists g: Group, at ::
      g.proc == proc && g.transition == t && Follows(lines, g, Route(Parsed(lines, order, proc), t), at)
  {
    EveryProcedureAccounted(lines, order, proc);
    hide Path, Follows, Parsed, Visits, Filed;
    var w := Route(Parsed(lines, order, proc), t);
    assert Longest(lines, ANY, proc, t, w);
    var g: Group :| g.proc == proc && g.transition == t && w == Path(lines, g);
    var at := PathFollows(lines, g);
    assert Follows(lines, g, w, at);
  }

  /** A kept procedure has the type of the record of some leg of it that stands. */
  lemma TypeIsFiled(lines: seq<string>, order: seq<Group>, proc: string, p: Procedure)
    requires Visits(lines, order) && Parsed(lines, order, proc) == Some(p)
    ensures exists g, i :: Resolves(lines, proc, g, i) && OfType(lines, i, p.ptype)
  {
    hide Path, Standing, Visits, Filed, OfType, PType;
    EveryProcedureAccounted(lines, order, proc);
    hide Parsed;
    var g: Group :| g.proc == proc && Path(lines, g) != [] && p.ptype == PType(g.sub);
    PathResolves(lines, g);
    var i :| i in Standing(lines, g);
    SubOfLine(lines, g, i);
    assert Resolves(lines, proc, g, i);
  }

  lemma SubOfLine(lines: seq<string>, g: Group, i: nat)
    requires i in Standing(lines, g)
    ensures OfType(lines, i, PType(g.sub))
  {
  }
}
