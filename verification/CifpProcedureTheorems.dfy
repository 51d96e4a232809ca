/** What no iteration order can change about the parsed procedures, and exactly what one can. */
module CifpProcedureTheorems {
  import opened Wrappers
  import opened Text
  import opened Records
  import opened CifpRecords
  import opened CifpProcedures

  // ---- The longest filing ----------------------------------------------------------------------

  /** `w` is a longest path filed, among the groups of `among`, for a transition of `proc`. */
  ghost predicate Longest(lines: seq<string>, among: iset<Group>, proc: string, transition: string, w: seq<Waypoint>) {
    && (w == [] || exists g :: g in among && g.proc == proc && g.transition == transition && w == Path(lines, g))
    && forall g :: g in among && g.proc == proc && g.transition == transition ==> |Path(lines, g)| <= |w|
  }

  /** The kept path of a transition; the empty transition is the common route. */
  function Route(kept: Option<Procedure>, t: string): seq<Waypoint> {
    if kept.None? then []
    else if t == "" then kept.value.common
    else if t in kept.value.transitions then kept.value.transitions[t] else []
  }

  /** Some filing of `proc` in `among` resolves a point and has the given type. */
  ghost predicate Typed(lines: seq<string>, among: iset<Group>, proc: string, ptype: string) {
    exists g :: g in among && g.proc == proc && Path(lines, g) != [] && ptype == PType(g.sub)
  }

  ghost predicate WellFormed(p: Procedure) {
    "" !in p.transitions && forall t :: t in p.transitions ==> p.transitions[t] != []
  }

  /** What the fold keeps of the groups of `among`. */
  ghost predicate Accounted(lines: seq<string>, among: iset<Group>, proc: string, kept: Option<Procedure>) {
    && (kept.None? ==> forall g :: g in among && g.proc == proc ==> Path(lines, g) == [])
    && (kept.Some? ==> WellFormed(kept.value) && Typed(lines, among, proc, kept.value.ptype))
    && forall t :: Longest(lines, among, proc, t, Route(kept, t))
  }

  ghost function Members(order: seq<Group>): iset<Group> {
    iset g | g in order
  }

  lemma KeptLastAmong(lines: seq<string>, order: seq<Group>, proc: string)
    requires order != []
    ensures Accounted(lines, Members(order), proc, Kept(lines, order, proc))
    decreases |order|, 0
  {
    hide Path, Turn, Accounted;
    var front, g := order[..|order| - 1], order[|order| - 1];
    assert order == front + [g];
    KeptAmong(lines, front, proc);
    KeptStep(lines, front, g);
    hide Kept;
    TurnAccounted(lines, Members(front), g, proc, Kept(lines, front, proc));
    assert Members(order) == Members(front) + iset{g};
  }

  lemma {:induction false} KeptAmong(lines: seq<string>, order: seq<Group>, proc: string)
    ensures Accounted(lines, Members(order), proc, Kept(lines, order, proc))
    decreases |order|, 1
  {
    if order == [] {
      assert Kept(lines, order, proc) == None;
    } else {
      KeptLastAmong(lines, order, proc);
    }
  }

  lemma LongestGrows(lines: seq<string>, among: iset<Group>, g: Group, proc: string, t: string, w: seq<Waypoint>)
    requires Longest(lines, among, proc, t, w)
    ensures
      var next := if g.proc == proc && g.transition == t && |Path(lines, g)| > |w| then Path(lines, g) else w;
      Longest(lines, among + iset{g}, proc, t, next)
  {
    hide Path;
  }

  lemma TurnRoute(before: Option<Procedure>, g: Group, path: seq<Waypoint>, proc: string, t: string)
    requires before.Some? ==> WellFormed(before.value)
    ensures
      var w := Route(before, t);
      Route(Turn(before, g, path, proc), t) == if g.proc == proc && g.transition == t && |path| > |w| then path else w
    ensures
      var after := Turn(before, g, path, proc);
      (after.Some? ==> WellFormed(after.value)) && (before.Some? ==> after.Some? && after.value.ptype == before.value.ptype)
  {
  }

  lemma TurnTyped(lines: seq<string>, among: iset<Group>, g: Group, proc: string, before: Option<Procedure>)
    requires before.Some? ==> Typed(lines, among, proc, before.value.ptype)
    ensures var after := Turn(before, g, Path(lines, g), proc);
      after.Some? ==> Typed(lines, among + iset{g}, proc, after.value.ptype)
  {
    hide Path;
    if before.Some? {
      var h :| h in among && h.proc == proc && Path(lines, h) != [] && before.value.ptype == PType(h.sub);
      assert h in among + iset{g};
    } else {
      assert g in among + iset{g};
    }
  }

  lemma TurnAccounted(lines: seq<string>, among: iset<Group>, g: Group, proc: string, before: Option<Procedure>)
    requires Accounted(lines, among, proc, before)
    ensures Accounted(lines, among + iset{g}, proc, Turn(before, g, Path(lines, g), proc))
  {
    hide Path, Longest, Route, Typed, WellFormed;
    var after := Turn(before, g, Path(lines, g), proc);
    TurnTyped(lines, among, g, proc, before);
    TurnRoute(before, g, Path(lines, g), proc, "");
    forall t ensures Longest(lines, among + iset{g}, proc, t, Route(after, t)) {
      TurnRoute(before, g, Path(lines, g), proc, t);
      LongestGrows(lines, among, g, proc, t, Route(before, t));
    }
  }

  lemma UnfiledPath(lines: seq<string>, g: Group)
    requires Filed(lines, LegEntry, g) == []
    ensures Path(lines, g) == []
  {
  }

  lemma LongestOfAll(lines: seq<string>, order: seq<Group>, proc: string, t: string, w: seq<Waypoint>)
    requires Visits(lines, order) && Longest(lines, Members(order), proc, t, w)
    ensures Longest(lines, ANY, proc, t, w)
  {
    hide Path, Filed;
    forall g: Group | g.proc == proc && g.transition == t ensures |Path(lines, g)| <= |w| {
      if g !in order {
        UnfiledPath(lines, g);
      }
    }
  }

  ghost const ANY: iset<Group> := iset g: Group | true

  /** A procedure is there exactly when some filing of it resolves a point. Its common route and each
      transition are some airport's own paths, longest over all airports; and the airports are exactly those
      that file it, in order. */
  lemma EveryProcedureAccounted(lines: seq<string>, order: seq<Group>, proc: string)
    requires Visits(lines, order)
    ensures Accounted(lines, ANY, proc, Parsed(lines, order, proc))
    ensures Parsed(lines, order, proc).Some? ==>
      var apt := Parsed(lines, order, proc).value.apt;
      Ascending(apt) && forall a :: a in apt <==> a in Filed(lines, AirportEntry, proc)
  {
    hide Path, Filed, Turn;
    KeptAmong(lines, order, proc);
    var kept, parsed := Kept(lines, order, proc), Parsed(lines, order, proc);
    hide Kept;
    forall g: Group | g.proc == proc && kept.None? ensures Path(lines, g) == [] {
      if g !in order {
        UnfiledPath(lines, g);
      }
    }
    assert kept.Some? ==> Typed(lines, ANY, proc, kept.value.ptype);
    forall t ensures Longest(lines, ANY, proc, t, Route(parsed, t)) {
      assert Route(parsed, t) == Route(kept, t);
      LongestOfAll(lines, order, proc, t, Route(kept, t));
    }
  }

  /** The transitions are exactly those that resolve a point somewhere. */
  lemma TransitionKeys(lines: seq<string>, order: seq<Group>, proc: string, t: string)
    requires Visits(lines, order) && Parsed(lines, order, proc).Some?
    ensures t in Parsed(lines, order, proc).value.transitions <==>
      t != "" && exists g: Group :: g.proc == proc && g.transition == t && Path(lines, g) != []
  {
    EveryProcedureAccounted(lines, order, proc);
    hide Path, Parsed, Visits;
    var p := Parsed(lines, order, proc);
    assert Longest(lines, ANY, proc, t, Route(p, t));
    if t in p.value.transitions {
      var g: Group :| g.proc == proc && g.transition == t && Route(p, t) == Path(lines, g);
    }
  }

  // ---- Lengths do not depend on the order, nor on verbatim repeats -----------------------------

  /** The same presence, transitions and lengths, whatever the paths themselves. */
  ghost predicate SameLengths(a: Option<Procedure>, b: Option<Procedure>) {
    && (a.Some? <==> b.Some?)
    && (a.Some? ==> a.value.transitions.Keys == b.value.transitions.Keys)
    && forall t :: |Route(a, t)| == |Route(b, t)|
  }

  ghost predicate AlsoFiled(n: seq<string>, g: Group, path: seq<Waypoint>) {
    exists h: Group :: h.proc == g.proc && h.transition == g.transition && Path(n, h) == path
  }

  /** Every path filed in `m` for a procedure and transition is also filed for them in `n`. */
  ghost predicate Covers(n: seq<string>, m: seq<string>) {
    forall g: Group :: Path(m, g) != [] ==> AlsoFiled(n, g, Path(m, g))
  }

  lemma CoverOf(m: seq<string>, n: seq<string>, g: Group) returns (h: Group)
    requires Covers(n, m) && Path(m, g) != []
    ensures h.proc == g.proc && h.transition == g.transition && Path(n, h) == Path(m, g)
  {
    hide Path;
    assert AlsoFiled(n, g, Path(m, g));
    h :| h.proc == g.proc && h.transition == g.transition && Path(n, h) == Path(m, g);
  }

  lemma LongestLength(m: seq<string>, n: seq<string>, proc: string, t: string, v: seq<Waypoint>, w: seq<Waypoint>)
    requires Covers(n, m) && Longest(m, ANY, proc, t, v) && Longest(n, ANY, proc, t, w)
    ensures |v| <= |w|
  {
    hide Path, Covers;
    if v != [] {
      var g: Group :| g.proc == proc && g.transition == t && v == Path(m, g);
      var h := CoverOf(m, n, g);
      assert h in ANY;
    }
  }

  lemma PresentWhereCovered(m: seq<string>, n: seq<string>, proc: string, a: Option<Procedure>, b: Option<Procedure>)
    requires Covers(n, m) && Accounted(m, ANY, proc, a) && Accounted(n, ANY, proc, b) && a.Some?
    ensures b.Some?
  {
    hide Path, Longest, Covers, Route;
    var g: Group :| g.proc == proc && Path(m, g) != [];
    var h := CoverOf(m, n, g);
    assert h in ANY;
  }

  lemma SamePathsSameLengths(m: seq<string>, n: seq<string>, proc: string, a: Option<Procedure>, b: Option<Procedure>)
    requires Covers(n, m) && Covers(m, n) && Accounted(m, ANY, proc, a) && Accounted(n, ANY, proc, b)
    ensures SameLengths(a, b)
  {
    hide Path, Covers, Longest;
    if a.Some? { PresentWhereCovered(m, n, proc, a, b); }
    if b.Some? { PresentWhereCovered(n, m, proc, b, a); }
    forall t ensures |Route(a, t)| == |Route(b, t)| {
      LongestLength(m, n, proc, t, Route(a, t), Route(b, t));
      LongestLength(n, m, proc, t, Route(b, t), Route(a, t));
    }
    if a.Some? {
      forall t ensures t in a.value.transitions <==> t in b.value.transitions {
        assert |Route(a, t)| == |Route(b, t)|;
      }
    }
  }

  lemma CoversSelf(m: seq<string>)
    ensures Covers(m, m)
  {
    hide Path;
  }

  /** Two iteration orders keep the same procedures, airports, transitions and path lengths. */
  lemma LengthsAreOrderFree(lines: seq<string>, o1: seq<Group>, o2: seq<Group>, proc: string)
    requires Visits(lines, o1) && Visits(lines, o2)
    ensures var (a, b) := (Parsed(lines, o1, proc), Parsed(lines, o2, proc));
      SameLengths(a, b) && (a.Some? ==> a.value.apt == b.value.apt)
  {
    EveryProcedureAccounted(lines, o1, proc);
    EveryProcedureAccounted(lines, o2, proc);
    CoversSelf(lines);
    SamePathsSameLengths(lines, lines, proc, Parsed(lines, o1, proc), Parsed(lines, o2, proc));
    hide Covers, Accounted, SameLengths, Filed, Kept, Visits;
  }

  // ---- Re-filing -------------------------------------------------------------------------------

  lemma {:induction false} FiledConcat<K, V>(a: seq<string>, b: seq<string>, entry: string -> Option<(K, V)>, k: K)
    ensures Filed(a + b, entry, k) == Filed(a, entry, k) + Filed(b, entry, k)
  {
    if b == [] {
      assert a + b == a;
    } else {
      var last := |b| - 1;
      FiledConcat(a, b[..last], entry, k);
      assert a + b == a + b[..last] + [b[last]] && b == b[..last] + [b[last]];
      FiledLast(a + b[..last], b[last], entry, k);
      FiledLast(b[..last], b[last], entry, k);
    }
  }

  lemma {:induction false} NothingFiled<K, V>(lines: seq<string>, entry: string -> Option<(K, V)>, k: K)
    requires forall line :: line in lines ==> entry(line).None?
    ensures Filed(lines, entry, k) == []
  {
    if lines != [] {
      NothingFiled(lines[..|lines| - 1], entry, k);
      assert lines[|lines| - 1] in lines;
    }
  }

  /** A procedure leg is no fix record of any table. */
  lemma LegIsNoFix(line: string)
    requires LegEntry(line).Some?
    ensures NAVAID(line).None? && NDB(line).None? && WAYPOINT(line).None? && TERMINAL(line).None?
  {
  }

  ghost predicate AllLegs(extra: seq<string>) {
    forall line :: line in extra ==> LegEntry(line).Some?
  }

  lemma TableUnchanged<V>(lines: seq<string>, extra: seq<string>, entry: string -> Option<(string, V)>, k: string)
    requires forall line :: line in extra ==> entry(line).None?
    ensures Filed(lines + extra, entry, k) == Filed(lines, entry, k)
  {
    NothingFiled(extra, entry, k);
    FiledConcat(lines, extra, entry, k);
  }

  lemma LegsAreNoFixes(extra: seq<string>)
    requires AllLegs(extra)
    ensures forall line :: line in extra ==> NAVAID(line).None?
    ensures forall line :: line in extra ==> NDB(line).None?
    ensures forall line :: line in extra ==> WAYPOINT(line).None?
    ensures forall line :: line in extra ==> TERMINAL(line).None?
  {
    forall line | line in extra
      ensures NAVAID(line).None? && NDB(line).None? && WAYPOINT(line).None? && TERMINAL(line).None?
    {
      LegIsNoFix(line);
    }
  }

  lemma LocateUnchanged(lines: seq<string>, extra: seq<string>, l: Leg)
    requires AllLegs(extra)
    ensures Locate(lines + extra, l) == Locate(lines, l)
  {
    hide NAVAID, NDB, WAYPOINT, TERMINAL, LegEntry, Filed, AllLegs;
    LegsAreNoFixes(extra);
    TableUnchanged(lines, extra, NAVAID, l.fix);
    TableUnchanged(lines, extra, NDB, l.fix);
    TableUnchanged(lines, extra, WAYPOINT, l.fix);
    TableUnchanged(lines, extra, TERMINAL, l.fix);
  }

  lemma {:induction false} ResolveUnchanged(lines: seq<string>, extra: seq<string>, legs: seq<Leg>)
    requires AllLegs(extra)
    ensures Resolve(lines + extra, legs) == Resolve(lines, legs)
  {
    hide Locate, AllLegs;
    if legs != [] {
      ResolveUnchanged(lines, extra, legs[..|legs| - 1]);
      LocateUnchanged(lines, extra, legs[|legs| - 1]);
    }
  }

  /** `extra` files, for airport `to`, nothing but whole groups that `from` already files, leg for leg. */
  ghost predicate Refiles(lines: seq<string>, extra: seq<string>, from: string, to: string) {
    && AllLegs(extra)
    && forall g: Group ::
         var copy := Filed(extra, LegEntry, g);
         copy != [] ==> g.apt == to && Filed(lines, LegEntry, g) == [] && copy == Filed(lines, LegEntry, g.(apt := from))
  }

  lemma RefiledPath(lines: seq<string>, extra: seq<string>, from: string, to: string, g: Group)
    requires Refiles(lines, extra, from, to)
    ensures Path(lines + extra, g) == if Filed(extra, LegEntry, g) == [] then Path(lines, g) else Path(lines, g.(apt := from))
  {
    hide LegEntry, Resolve, Sorted, Filed, AllLegs;
    FiledConcat(lines, extra, LegEntry, g);
    var legs := Filed(lines + extra, LegEntry, g);
    ResolveUnchanged(lines, extra, Sorted(legs));
    if Filed(extra, LegEntry, g) == [] {
      assert legs == Filed(lines, LegEntry, g);
    } else {
      assert legs == Filed(lines, LegEntry, g.(apt := from));
    }
  }

  lemma RefilingCovers(lines: seq<string>, extra: seq<string>, from: string, to: string)
    requires Refiles(lines, extra, from, to)
    ensures Covers(lines + extra, lines) && Covers(lines, lines + extra)
  {
    hide Path, Filed, LegEntry;
    forall g: Group | Path(lines, g) != [] ensures AlsoFiled(lines + extra, g, Path(lines, g)) {
      RefiledPath(lines, extra, from, to, g);
      if Filed(lines, LegEntry, g) == [] {
        UnfiledPath(lines, g);
      }
    }
    forall g: Group ensures AlsoFiled(lines, g, Path(lines + extra, g)) {
      RefiledPath(lines, extra, from, to, g);
    }
  }

  /** A metroplex repeat, the same legs filed verbatim at one more airport, changes no kept length. */
  lemma RefilingKeepsLengths(
      lines: seq<string>, extra: seq<string>, from: string, to: string, o1: seq<Group>, o2: seq<Group>, proc: string)
    requires Refiles(lines, extra, from, to) && Visits(lines, o1) && Visits(lines + extra, o2)
    ensures SameLengths(Parsed(lines, o1, proc), Parsed(lines + extra, o2, proc))
  {
    RefilingCovers(lines, extra, from, to);
    EveryProcedureAccounted(lines, o1, proc);
    EveryProcedureAccounted(lines + extra, o2, proc);
    hide Covers, Accounted, SameLengths, Filed, Visits, Refiles, Parsed;
    SamePathsSameLengths(lines, lines + extra, proc, Parsed(lines, o1, proc), Parsed(lines + extra, o2, proc));
  }

  // ---- Exactly when the order shows ------------------------------------------------------------

  /** No other filing of the same procedure and transition has a longer path. */
  ghost predicate LongestFiling(lines: seq<string>, g: Group) {
    && Path(lines, g) != []
    && forall h: Group :: h.proc == g.proc && h.transition == g.transition ==> |Path(lines, h)| <= |Path(lines, g)|
  }

  ghost predicate OneType(lines: seq<string>, proc: string) {
    forall g: Group, h: Group :: g.proc == h.proc == proc && Path(lines, g) != [] && Path(lines, h) != []
                                 ==> PType(g.sub) == PType(h.sub)
  }

  ghost predicate OnePath(lines: seq<string>, proc: string) {
    forall g, h :: LongestFiling(lines, g) && LongestFiling(lines, h) 
                   && g.proc == h.proc == proc && g.transition == h.transition
                   ==> Path(lines, g) == Path(lines, h)
  }

  lemma FirstTurn(g: Group, path: seq<Waypoint>)
    requires path != []
    ensures var p := Turn(None, g, path, g.proc); p.Some? && p.value.ptype == PType(g.sub) && Route(p, g.transition) == path
  {
  }

  lemma {:induction false} FirstStays(lines: seq<string>, order: seq<Group>, g: Group)
    requires order != [] && order[0] == g && Path(lines, g) != []
    ensures var kept := Kept(lines, order, g.proc);
      && kept.Some? && kept.value.ptype == PType(g.sub)
      && (LongestFiling(lines, g) ==> Route(kept, g.transition) == Path(lines, g))
  {
    hide Path, Route, Turn, WellFormed;
    var front, last := order[..|order| - 1], order[|order| - 1];
    assert order == front + [last];
    KeptStep(lines, front, last);
    if front == [] {
      assert Kept(lines, front, g.proc) == None;
      FirstTurn(g, Path(lines, g));
    } else {
      hide Kept;
      FirstStays(lines, front, g);
      KeptAmong(lines, front, g.proc);
      TurnRoute(Kept(lines, front, g.proc), last, Path(lines, last), g.proc, g.transition);
    }
  }

  lemma SameRoutesSameProcedure(a: Procedure, b: Procedure)
    requires WellFormed(a) && WellFormed(b) && a.ptype == b.ptype && a.apt == b.apt
    requires forall t :: Route(Some(a), t) == Route(Some(b), t)
    ensures a == b
  {
    assert a.common == Route(Some(a), "") == Route(Some(b), "") == b.common;
    forall t ensures Get(a.transitions, t) == Get(b.transitions, t) {
      assert Route(Some(a), t) == Route(Some(b), t);
    }
    SameEntries(a.transitions, b.transitions);
  }

  lemma LongestIsFiling(lines: seq<string>, proc: string, t: string, w: seq<Waypoint>) returns (g: Group)
    requires Longest(lines, ANY, proc, t, w) && w != []
    ensures g.proc == proc && g.transition == t && w == Path(lines, g) && LongestFiling(lines, g)
  {
    hide Path;
    g :| g.proc == proc && g.transition == t && w == Path(lines, g);
    forall h: Group | h.proc == proc && h.transition == t ensures |Path(lines, h)| <= |w| {
      assert h in ANY;
    }
  }

  lemma SameRoute(lines: seq<string>, proc: string, t: string, v: seq<Waypoint>, w: seq<Waypoint>)
    requires OnePath(lines, proc) && Longest(lines, ANY, proc, t, v) && Longest(lines, ANY, proc, t, w)
    ensures v == w
  {
    hide Longest, Path, LongestFiling, Covers;
    CoversSelf(lines);
    LongestLength(lines, lines, proc, t, v, w);
    LongestLength(lines, lines, proc, t, w, v);
    if v != [] {
      var g := LongestIsFiling(lines, proc, t, v);
      var h := LongestIsFiling(lines, proc, t, w);
    }
  }

  lemma SameWhenUndisputed(lines: seq<string>, o1: seq<Group>, o2: seq<Group>, proc: string)
    requires OneType(lines, proc) && OnePath(lines, proc) && Visits(lines, o1) && Visits(lines, o2)
    ensures Parsed(lines, o1, proc) == Parsed(lines, o2, proc)
  {
    hide Path, Parsed, Visits, Longest, OnePath, Route, WellFormed, SameLengths, Filed;
    EveryProcedureAccounted(lines, o1, proc);
    EveryProcedureAccounted(lines, o2, proc);
    LengthsAreOrderFree(lines, o1, o2, proc);
    var (a, b) := (Parsed(lines, o1, proc), Parsed(lines, o2, proc));
    SameLengthsPresence(a, b);
    if a.Some? {
      forall t ensures Route(a, t) == Route(b, t) {
        SameRoute(lines, proc, t, Route(a, t), Route(b, t));
      }
      SameRoutesSameProcedure(a.value, b.value);
    }
  }

  lemma SameLengthsPresence(a: Option<Procedure>, b: Option<Procedure>)
    requires SameLengths(a, b)
    ensures a.Some? <==> b.Some?
  {
  }

  /** A group that resolves a point may be visited first; it then decides the type, and, when no filing of
      its transition is longer, that transition's path. */
  lemma ParsedFrom(lines: seq<string>, g: Group) returns (order: seq<Group>)
    requires Path(lines, g) != []
    ensures Visits(lines, order)
    ensures var parsed := Parsed(lines, order, g.proc);
      && parsed.Some? && parsed.value.ptype == PType(g.sub)
      && (LongestFiling(lines, g) ==> Route(parsed, g.transition) == Path(lines, g))
  {
    if Filed(lines, LegEntry, g) == [] {
      UnfiledPath(lines, g);
    }
    hide Path, Filed, VisitsEach, LongestFiling, Kept;
    order := OrderFrom(lines, LegEntry, g);
    FirstStays(lines, order, g);
  }

  ghost predicate OrderFree(lines: seq<string>, proc: string) {
    forall o1, o2 :: Visits(lines, o1) && Visits(lines, o2) ==> Parsed(lines, o1, proc) == Parsed(lines, o2, proc)
  }

  /** The whole output for `proc` is the same for every iteration order exactly when all its filings are of
      one type, SID or STAR, and longest filings of the same transition agree. */
  lemma OrderShowsIffDisputed(lines: seq<string>, proc: string)
    ensures OrderFree(lines, proc) <==> OneType(lines, proc) && OnePath(lines, proc)
  {
    hide Path, Parsed, Visits, LongestFiling, Route, PType;
    if !OneType(lines, proc) {
      var g: Group, h: Group :| g.proc == h.proc == proc && Path(lines, g) != [] && Path(lines, h) != []
                                   && PType(g.sub) != PType(h.sub);
      var o1 := ParsedFrom(lines, g);
      var o2 := ParsedFrom(lines, h);
      assert Parsed(lines, o1, proc) != Parsed(lines, o2, proc);
    } else if !OnePath(lines, proc) {
      var g, h :| LongestFiling(lines, g) && LongestFiling(lines, h) && g.proc == h.proc == proc
                  && g.transition == h.transition && Path(lines, g) != Path(lines, h);
      LongestResolves(lines, g);
      LongestResolves(lines, h);
      var o1 := ParsedFrom(lines, g);
      var o2 := ParsedFrom(lines, h);
      assert Parsed(lines, o1, proc) != Parsed(lines, o2, proc);
    } else {
      forall o1, o2 | Visits(lines, o1) && Visits(lines, o2) ensures Parsed(lines, o1, proc) == Parsed(lines, o2, proc) {
        SameWhenUndisputed(lines, o1, o2, proc);
      }
    }
  }

  lemma LongestResolves(lines: seq<string>, g: Group)
    requires LongestFiling(lines, g)
    ensures Path(lines, g) != []
  {
  }
}
