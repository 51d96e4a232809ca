/** What no iteration order can change about the parsed airways, and exactly what one can. */
module CifpAirwayTheorems {
  import opened Wrappers
  import opened Selections
  import opened Records
  import opened CifpRecords
  import opened CifpSequence
  import opened CifpAirways

  // ---- The richest area ------------------------------------------------------------------------

  lemma {:induction false} KeptAmong(lines: seq<string>, order: seq<Key>, route: string)
    ensures
      match Kept(lines, order, route)
      case None => forall k :: k in order && k.1 == route ==> |Path(lines, k.0, route)| < 2
      case Some(a) =>
        && |a.w| >= 2
        && (exists k :: k in order && k.1 == route && a == Airway(if route == "" then "" else route[..1], Path(lines, k.0, route)))
        && forall k :: k in order && k.1 == route ==> |Path(lines, k.0, route)| <= |a.w|
  {
    hide Path;
    if order != [] {
      var last := |order| - 1;
      KeptAmong(lines, order[..last], route);
      assert order == order[..last] + [order[last]];
    }
  }

  lemma UnfiledPath(lines: seq<string>, area: string, route: string)
    requires Filed(lines, LegEntry, (area, route)) == []
    ensures Path(lines, area, route) == []
  {
  }

  /** An airway is there exactly when some area resolves two of its points; its path is one area's own,
      and no area has a longer one. */
  lemma RichestArea(lines: seq<string>, order: seq<Key>, route: string)
    requires Visits(lines, order)
    ensures
      match Kept(lines, order, route)
      case None => forall area :: |Path(lines, area, route)| < 2
      case Some(a) =>
        && |a.w| >= 2
        && (exists area :: a == Airway(if route == "" then "" else route[..1], Path(lines, area, route)))
        && forall area :: |Path(lines, area, route)| <= |a.w|
  {
    hide Path, Kept, Filed;
    KeptAmong(lines, order, route);
    forall area ensures (area, route) in order || Path(lines, area, route) == [] {
      if (area, route) !in order {
        UnfiledPath(lines, area, route);
      }
    }
  }

  /** Presence and length are the same for every iteration order. */
  lemma LengthIsOrderFree(lines: seq<string>, o1: seq<Key>, o2: seq<Key>, route: string)
    requires Visits(lines, o1) && Visits(lines, o2)
    ensures var (a, b) := (Kept(lines, o1, route), Kept(lines, o2, route));
      (a.Some? <==> b.Some?) && (a.Some? ==> |a.value.w| == |b.value.w| && a.value.t == b.value.t)
  {
    hide Path, Kept, Visits;
    RichestArea(lines, o1, route);
    RichestArea(lines, o2, route);
  }

  // ---- Never spliced, and in sequence ----------------------------------------------------------

  /** Where leg `l` of an airway in `area` stands: at the position filed first, in that area, in the one table
      its section and subsection name. */
  ghost predicate Stands(lines: seq<string>, area: string, l: Leg, p: Waypoint) {
    && p.fix == l.fix
    && match (l.section, l.subsection)
       case ('D', 'B') => FiledFirst(lines, NDB, (area, l.fix), p.at)
       case ('D', _) => FiledFirst(lines, NAVAID, (area, l.fix), p.at)
       case ('E', 'A') => FiledFirst(lines, WAYPOINT, (area, l.fix), p.at)
       case _ => false
  }

  /** Line `i` files a leg of `route` in `area` that stands at `p`. */
  ghost predicate Points(lines: seq<string>, area: string, route: string, i: nat, p: Waypoint) {
    && i < |lines| && LegEntry(lines[i]).Some?
    && LegEntry(lines[i]).value.0 == (area, route) && Stands(lines, area, LegEntry(lines[i]).value.1, p)
  }

  ghost predicate PointsSomewhere(lines: seq<string>, area: string, route: string, i: nat) {
    exists p :: Points(lines, area, route, i, p)
  }

  /** The lines whose leg of `route` in `area` stands anywhere. */
  ghost function Standing(lines: seq<string>, area: string, route: string): set<nat> {
    set i | 0 <= i < |lines| && PointsSomewhere(lines, area, route, i)
  }

  /** `w` has one point for each standing leg of `route` in `area`, by sequence number and then by place in the
      file: `at[k]` is the line of the k-th. */
  ghost predicate Follows(lines: seq<string>, area: string, route: string, w: seq<Waypoint>, at: seq<nat>) {
    && |at| == |w| && Sequences(lines, LegEntry, at, Standing(lines, area, route))
    && forall k :: 0 <= k < |w| ==> Points(lines, area, route, at[k], w[k])
  }

  lemma LocatedStands(lines: seq<string>, area: string, l: Leg, p: Waypoint)
    ensures Locate(lines, area, l) == Some(p) <==> Stands(lines, area, l, p)
  {
    hide NAVAID, NDB, WAYPOINT, FiledFirst, Filed;
    FirstOfFiled(lines, NAVAID, (area, l.fix));
    FirstOfFiled(lines, NDB, (area, l.fix));
    FirstOfFiled(lines, WAYPOINT, (area, l.fix));
  }

  /** The positions of the legs that locate. */
  ghost function Located(lines: seq<string>, area: string, legs: seq<Leg>): set<nat> {
    set i | 0 <= i < |legs| && Locate(lines, area, legs[i]).Some?
  }

  lemma {:induction false} ResolveInOrder(lines: seq<string>, area: string, legs: seq<Leg>) returns (ix: seq<nat>)
    ensures Lists(ix, Located(lines, area, legs)) && |ix| == |Resolve(lines, area, legs)|
    ensures forall k :: 0 <= k < |ix| ==>
      ix[k] < |legs| && Locate(lines, area, legs[ix[k]]) == Some(Resolve(lines, area, legs)[k])
  {
    hide Locate, Located, Resolve;
    if legs == [] {
      ix := [];
      NothingLocated(lines, area);
    } else {
      var last := |legs| - 1;
      ix := ResolveInOrder(lines, area, legs[..last]);
      ResolveLast(lines, area, legs);
      LocatedLast(lines, area, legs);
      if Locate(lines, area, legs[last]).Some? {
        ListsGrow(ix, Located(lines, area, legs[..last]), last);
        ix := ix + [last];
      }
    }
  }

  lemma NothingLocated(lines: seq<string>, area: string)
    ensures Located(lines, area, []) == {} && Resolve(lines, area, []) == []
  {
  }

  lemma ResolveLast(lines: seq<string>, area: string, legs: seq<Leg>)
    requires legs != []
    ensures var (at, front) := (Locate(lines, area, legs[|legs| - 1]), Resolve(lines, area, legs[..|legs| - 1]));
      Resolve(lines, area, legs) == if at.Some? then front + [at.value] else front
  {
    hide Locate;
  }

  lemma LocatedLast(lines: seq<string>, area: string, legs: seq<Leg>)
    requires legs != []
    ensures var (last, front) := (|legs| - 1, Located(lines, area, legs[..|legs| - 1]));
      && Located(lines, area, legs) == (if Locate(lines, area, legs[last]).Some? then front + {last} else front)
      && forall i :: i in front ==> i < last
  {
    hide Locate;
  }

  lemma LocatedIsStanding(lines: seq<string>, area: string, route: string, l: Leg, i: nat)
    requires i < |lines| && LegEntry(lines[i]) == Some(((area, route), l))
    ensures i in Standing(lines, area, route) <==> Locate(lines, area, l).Some?
    ensures forall p :: Locate(lines, area, l) == Some(p) ==> Points(lines, area, route, i, p)
  {
    hide Locate, Stands, LegEntry;
    forall p ensures Points(lines, area, route, i, p) <==> Locate(lines, area, l) == Some(p) {
      LocatedStands(lines, area, l, p);
    }
    if Locate(lines, area, l).Some? {
      assert Points(lines, area, route, i, Locate(lines, area, l).value);
    }
  }

  /** The path of a route in an area, traced back to the file. */
  lemma PathFollows(lines: seq<string>, area: string, route: string) returns (at: seq<nat>)
    ensures Follows(lines, area, route, Path(lines, area, route), at)
  {
    var legs := Sorted(Filed(lines, LegEntry, (area, route)));
    var all := SortedLines(lines, LegEntry, (area, route));
    var ix := ResolveInOrder(lines, area, legs);
    var hits := Standing(lines, area, route);
    hide LegEntry, Locate, Filed, Sorted, Resolve, Points, Sequences;
    forall i | 0 <= i < |all| ensures all[i] in hits <==> i in Located(lines, area, legs) {
      LocatedIsStanding(lines, area, route, legs[i], all[i]);
    }
    assert (set i | 0 <= i < |all| && all[i] in hits) == Located(lines, area, legs);
    StandingIsFiled(lines, area, route);
    at := SequenceOfSome(lines, LegEntry, all, Filing(lines, LegEntry, (area, route)), ix, hits);
    forall k | 0 <= k < |at| ensures Points(lines, area, route, at[k], Path(lines, area, route)[k]) {
      LocatedIsStanding(lines, area, route, legs[ix[k]], all[ix[k]]);
    }
  }

  lemma StandingIsFiled(lines: seq<string>, area: string, route: string)
    ensures Standing(lines, area, route) <= Filing(lines, LegEntry, (area, route))
  {
    hide LegEntry, Stands;
  }

  /** A parsed airway runs through one area: a point for each of that area's own legs that stands there, in
      sequence, and no leg or position of another area. */
  lemma NeverSpliced(lines: seq<string>, order: seq<Key>, route: string)
    requires Visits(lines, order) && Kept(lines, order, route).Some?
    ensures exists area, at :: Follows(lines, area, route, Kept(lines, order, route).value.w, at)
  {
    hide Path, Kept, Follows, Visits;
    RichestArea(lines, order, route);
    var w := Kept(lines, order, route).value.w;
    var area :| w == Path(lines, area, route);
    var at := PathFollows(lines, area, route);
    assert Follows(lines, area, route, w, at);
  }

  // ---- Exactly when the order shows ------------------------------------------------------------

  ghost predicate Richest(lines: seq<string>, area: string, route: string) {
    && |Path(lines, area, route)| >= 2
    && forall b :: |Path(lines, b, route)| <= |Path(lines, area, route)|
  }

  /** Every area with a longest path for `route` has the same one. */
  ghost predicate Undisputed(lines: seq<string>, route: string) {
    forall a, b :: Richest(lines, a, route) && Richest(lines, b, route)
                   ==> Path(lines, a, route) == Path(lines, b, route)
  }

  lemma {:induction false} FirstRichestStays(lines: seq<string>, order: seq<Key>, area: string, route: string)
    requires order != [] && order[0] == (area, route) && Richest(lines, area, route)
    ensures Kept(lines, order, route).Some? && Kept(lines, order, route).value.w == Path(lines, area, route)
  {
    hide Path;
    var last := |order| - 1;
    if last > 0 {
      FirstRichestStays(lines, order[..last], area, route);
    }
  }

  /** The output for `route` is the same for every iteration order exactly when its longest path is
      undisputed: two areas tying with different paths is the one way the order shows. */
  lemma OrderShowsIffDisputed(lines: seq<string>, route: string)
    ensures Undisputed(lines, route) <==>
            forall o1, o2 :: Visits(lines, o1) && Visits(lines, o2) ==> Kept(lines, o1, route) == Kept(lines, o2, route)
  {
    hide Path, Kept, VisitsEach, Filed;
    if Undisputed(lines, route) {
      forall o1, o2 | Visits(lines, o1) && Visits(lines, o2)
        ensures Kept(lines, o1, route) == Kept(lines, o2, route)
      {
        SameWhenUndisputed(lines, o1, o2, route);
      }
    } else {
      var a, b :| Richest(lines, a, route) && Richest(lines, b, route) && Path(lines, a, route) != Path(lines, b, route);
      RichestIsFiled(lines, a, route);
      RichestIsFiled(lines, b, route);
      var o1 := OrderFrom(lines, LegEntry, (a, route));
      var o2 := OrderFrom(lines, LegEntry, (b, route));
      FirstRichestStays(lines, o1, a, route);
      FirstRichestStays(lines, o2, b, route);
      assert Visits(lines, o1) && Visits(lines, o2) && Kept(lines, o1, route) != Kept(lines, o2, route);
    }
  }

  lemma RichestIsFiled(lines: seq<string>, area: string, route: string)
    requires Richest(lines, area, route)
    ensures Filed(lines, LegEntry, (area, route)) != []
  {
    if Filed(lines, LegEntry, (area, route)) == [] {
      UnfiledPath(lines, area, route);
    }
  }

  lemma SameWhenUndisputed(lines: seq<string>, o1: seq<Key>, o2: seq<Key>, route: string)
    requires Undisputed(lines, route) && Visits(lines, o1) && Visits(lines, o2)
    ensures Kept(lines, o1, route) == Kept(lines, o2, route)
  {
    hide Path, Kept, Visits;
    RichestArea(lines, o1, route);
    RichestArea(lines, o2, route);
    LengthIsOrderFree(lines, o1, o2, route);
    var (x, y) := (Kept(lines, o1, route), Kept(lines, o2, route));
    if x.Some? {
      var a :| x.value.w == Path(lines, a, route);
      var b :| y.value.w == Path(lines, b, route);
      assert Richest(lines, a, route) && Richest(lines, b, route);
    }
  }
}
