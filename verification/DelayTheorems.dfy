/** The collector's safety over whole runs: nothing is timed that the snapshots do not show. */
module DelayTheorems {
  import opened Wrappers
  import opened Delays
  import opened DelayRuns
  import opened DelayWitness

  // ---- Part-way through a snapshot -------------------------------------------------------------

  ghost predicate ArrAccounted(w: World, h: seq<Snapshot>, c: string, s: ArrSession, upto: nat, quiet: nat)
    requires upto <= |h| && quiet <= |h|
  {
    exists tr :: ArrExplained(w, h, c, s, tr, upto, quiet)
  }

  ghost predicate DepAccounted(w: World, h: seq<Snapshot>, c: string, s: DepSession, upto: nat, quiet: nat)
    requires upto <= |h| && quiet <= |h|
  {
    exists tr :: DepExplained(w, h, c, s, tr, upto, quiet)
  }

  ghost predicate ArrHeld(w: World, h: seq<Snapshot>, c: string, s: Option<ArrSession>, seen: bool, done: bool)
    requires h != []
  {
    s.Some? ==> ArrAccounted(w, h, c, s.value, if seen then |h| else |h| - 1, if done then |h| - 1 else |h|)
  }

  ghost predicate DepHeld(w: World, h: seq<Snapshot>, c: string, s: Option<DepSession>, seen: bool, done: bool)
    requires h != []
  {
    s.Some? ==> DepAccounted(w, h, c, s.value, if seen then |h| else |h| - 1, if done then |h| - 1 else |h|)
  }

  ghost predicate PassHeld(w: World, h: seq<Snapshot>, c: string, pass: Pass)
    requires h != []
  {
    && ArrHeld(w, h, c, pass.arr, pass.arrSeen, pass.arrDone)
    && DepHeld(w, h, c, pass.dep, pass.depSeen, pass.depDone)
    && forall l :: l in pass.legs ==> Witnessed(w, h, c, l)
  }

  lemma GrowHolds(h: seq<Snapshot>, p: Pilot)
    requires h != []
    ensures |Grow(h, p)| == |h| && p in Grow(h, p)[|h| - 1].pilots
  {
  }

  lemma ArrSight(w: World, h: seq<Snapshot>, snap: Snapshot, s: Option<ArrSession>, p: Pilot, c: string, seen: bool, done: bool)
    requires h != [] && p.callsign == c && snap == Grow(h, p)[|h| - 1] && ArrHeld(w, h, c, s, seen, done)
    ensures
      var o, h' := SightArrival(w, snap, p, s), Grow(h, p);
      && ArrHeld(w, h', c, o.session, seen || o.seen, done || o.done)
      && forall l :: l in o.legs ==> Witnessed(w, h', c, l)
  {
    hide SightArrival, ArrExplained, Witnessed, ArrivalWitnessed, Grow;
    var o, h' := SightArrival(w, snap, p, s), Grow(h, p);
    GrowHolds(h, p);
    if s.None? {
      ArrSightNew(w, h, snap, p, c, seen, done);
    } else {
      var tr :| ArrExplained(w, h, c, s.value, tr, if seen then |h| else |h| - 1, if done then |h| - 1 else |h|);
      var tr' := ArrStep(w, h, snap, p, c, s.value, tr, seen, done);
      ArrLegsAreDone(w, snap, p, s.value);
      forall l | l in o.legs ensures Witnessed(w, h', c, l) {
        ArrLeg(w, h', p, c, s.value, tr', l);
        ArrMade(w, h', c, l, tr', p);
      }
    }
  }

  lemma ArrSightNew(w: World, h: seq<Snapshot>, snap: Snapshot, p: Pilot, c: string, seen: bool, done: bool)
    requires h != [] && p.callsign == c && snap == Grow(h, p)[|h| - 1]
    ensures
      var o := SightArrival(w, snap, p, None);
      o.legs == [] && ArrHeld(w, Grow(h, p), c, o.session, seen || o.seen, done || o.done)
  {
    var o, k, quiet := SightArrival(w, snap, p, None), |h| - 1, if done then |h| - 1 else |h|;
    if o.session.Some? {
      assert OutsideRing(w, snap, p, c, o.session.value.arr);
      ArrOpened(w, h, p, c, o.session.value.arr, quiet);
      hide ArrExplained;
      assert ArrExplained(w, Grow(h, p), c, o.session.value, ArrTrace(k, p, k, p, k, p), |h|, quiet);
    }
  }

  lemma ArrLegsAreDone(w: World, snap: Snapshot, p: Pilot, s: ArrSession)
    ensures var o := SightArrival(w, snap, p, Some(s)); o.legs != [] ==> o.done && o.seen
    ensures forall l :: l in SightArrival(w, snap, p, Some(s)).legs ==> l.kind.Arrival?
  {
  }

  lemma ArrMade(w: World, h: seq<Snapshot>, c: string, l: Leg, tr: ArrTrace, p: Pilot)
    requires ArrivalWitnessed(w, h, c, l, tr, p)
    ensures Witnessed(w, h, c, l)
  {
    assert h[..|h|] == h;
    assert l.kind.Arrival?;
    hide ArrivalWitnessed;
    assert ArrivalWitnessed(w, h[..|h|], c, l, tr, p);
  }

  lemma DepSight(w: World, h: seq<Snapshot>, snap: Snapshot, s: Option<DepSession>, p: Pilot, c: string, seen: bool, done: bool)
    requires h != [] && p.callsign == c && snap == Grow(h, p)[|h| - 1] && DepHeld(w, h, c, s, seen, done)
    ensures
      var o, h' := SightDeparture(w, snap, p, s), Grow(h, p);
      && DepHeld(w, h', c, o.session, seen || o.seen, done || o.done)
      && forall l :: l in o.legs ==> Witnessed(w, h', c, l)
  {
    hide SightDeparture, DepExplained, Witnessed, DepartureWitnessed, Grow;
    var o, h' := SightDeparture(w, snap, p, s), Grow(h, p);
    GrowHolds(h, p);
    if s.None? {
      DepSightNew(w, h, snap, p, c, seen, done);
    } else {
      var tr :| DepExplained(w, h, c, s.value, tr, if seen then |h| else |h| - 1, if done then |h| - 1 else |h|);
      var tr' := DepStep(w, h, snap, p, c, s.value, tr, seen, done);
      DepLegsAreDone(w, snap, p, s.value);
      forall l | l in o.legs ensures Witnessed(w, h', c, l) {
        DepLeg(w, h', p, c, s.value, tr', l);
        DepMade(w, h', c, l, tr', p);
      }
    }
  }

  lemma DepSightNew(w: World, h: seq<Snapshot>, snap: Snapshot, p: Pilot, c: string, seen: bool, done: bool)
    requires h != [] && p.callsign == c && snap == Grow(h, p)[|h| - 1]
    ensures
      var o := SightDeparture(w, snap, p, None);
      o.legs == [] && DepHeld(w, Grow(h, p), c, o.session, seen || o.seen, done || o.done)
  {
    var o, k, quiet := SightDeparture(w, snap, p, None), |h| - 1, if done then |h| - 1 else |h|;
    if o.session.Some? {
      assert AtField(w, snap, p, c, o.session.value.dep);
      DepOpened(w, h, p, c, o.session.value.dep, quiet);
      hide DepExplained;
      assert DepExplained(w, Grow(h, p), c, o.session.value, DepTrace(k, p, k, p), |h|, quiet);
    }
  }

  lemma DepLegsAreDone(w: World, snap: Snapshot, p: Pilot, s: DepSession)
    ensures var o := SightDeparture(w, snap, p, Some(s)); o.legs != [] ==> o.done && o.seen
  {
  }

  lemma DepMade(w: World, h: seq<Snapshot>, c: string, l: Leg, tr: DepTrace, p: Pilot)
    requires DepartureWitnessed(w, h, c, l, tr, p)
    ensures Witnessed(w, h, c, l)
  {
    assert h[..|h|] == h;
    assert l.kind.Departure?;
    hide DepartureWitnessed;
    assert DepartureWitnessed(w, h[..|h|], c, l, tr, p);
  }

  lemma PassStep(w: World, h: seq<Snapshot>, snap: Snapshot, pass: Pass, p: Pilot, c: string)
    requires h != [] && p.callsign == c && snap.(pilots := []) == h[|h| - 1].(pilots := [])
    requires PassHeld(w, h, c, pass)
    ensures PassHeld(w, Grow(h, p), c, Sight(w, snap, pass, p))
  {
    var snap', h' := Grow(h, p)[|h| - 1], Grow(h, p);
    SightIgnoresOthers(w, snap, snap', pass, p);
    hide SightArrival, SightDeparture, Witnessed;
    ArrSight(w, h, snap', pass.arr, p, c, pass.arrSeen, pass.arrDone);
    DepSight(w, h, snap', pass.dep, p, c, pass.depSeen, pass.depDone);
    hide ArrHeld, DepHeld;
    forall l | l in pass.legs ensures Witnessed(w, h', c, l) {
      WitnessedGrow(w, h, p, c, l);
    }
  }

  // ---- Between snapshots -----------------------------------------------------------------------

  /** A surviving session was sighted in the latest snapshot, has not gone stale, and is explained. */
  ghost predicate Survives(w: World, h: seq<Snapshot>, c: string, f: Flight) {
    && (f.arr.Some? ==> h != [] && h[|h| - 1].nowMs - f.arr.value.firstMs < 10_800_000
                        && ArrAccounted(w, h, c, f.arr.value, |h|, |h|))
    && (f.dep.Some? ==> h != [] && h[|h| - 1].nowMs - f.dep.value.firstSeenMs < 10_800_000
                        && DepAccounted(w, h, c, f.dep.value, |h|, |h|))
  }

  lemma FollowedNext(
      kind: Kind, h: seq<Snapshot>, empty: Snapshot, c: string, field: string, first: nat, firstMs: int)
    requires Followed(kind, h, c, field, first, firstMs, |h|) && Fresh(h[|h| - 1].nowMs, firstMs)
    ensures Followed(kind, h + [empty], c, field, first, firstMs, |h|)
  {
    hide FiledIn;
    forall m | first <= m < |h| ensures Fresh(h[m].nowMs, firstMs) {
      if m < |h| - 1 {
        assert Fresh(h[m].nowMs, firstMs);
      }
    }
  }

  lemma CrossedNext(
      w: World, h: seq<Snapshot>, empty: Snapshot, c: string, s: ArrSession, tr: ArrTrace)
    requires empty.pilots == [] && Crossed(w, h, c, s.arr, tr.first, s.entryMs, tr.entered, tr.enterer, |h|)
    ensures Crossed(w, h + [empty], c, s.arr, tr.first, s.entryMs, tr.entered, tr.enterer, |h| + 1)
  {
    assert forall p :: !InsideRing(w, empty, p, c, s.arr) && !TouchedDown(w, empty, p, c, s.arr);
    hide InsideRing, TouchedDown;
  }

  lemma NextArr(w: World, h: seq<Snapshot>, empty: Snapshot, c: string, s: ArrSession, tr: ArrTrace)
    requires ArrExplained(w, h, c, s, tr, |h|, |h|) && empty.pilots == []
    requires Fresh(h[|h| - 1].nowMs, s.firstMs)
    ensures ArrExplained(w, h + [empty], c, s, tr, |h|, |h| + 1)
  {
    FollowedNext(Arrival, h, empty, c, s.arr, tr.first, s.firstMs);
    CrossedNext(w, h, empty, c, s, tr);
    hide Followed, Crossed, OutsideRing;
  }

  lemma NextDep(w: World, h: seq<Snapshot>, empty: Snapshot, c: string, s: DepSession, tr: DepTrace)
    requires DepExplained(w, h, c, s, tr, |h|, |h|) && empty.pilots == []
    requires Fresh(h[|h| - 1].nowMs, s.firstSeenMs)
    ensures DepExplained(w, h + [empty], c, s, tr, |h|, |h| + 1)
  {
    FollowedNext(Departure, h, empty, c, s.dep, tr.first, s.firstSeenMs);
    assert forall p :: !Filed(Departure, empty, p, c, s.dep);
    hide Followed, AtField, Filed;
  }

  lemma NextSnapshot(w: World, h: seq<Snapshot>, c: string, f: Flight, empty: Snapshot)
    requires Survives(w, h, c, f) && empty.pilots == []
    ensures PassHeld(w, h + [empty], c, Pass(f.dep, false, false, f.arr, false, false, []))
  {
    hide ArrExplained, DepExplained;
    if f.arr.Some? {
      var tr :| ArrExplained(w, h, c, f.arr.value, tr, |h|, |h|);
      NextArr(w, h, empty, c, f.arr.value, tr);
    }
    if f.dep.Some? {
      var tr :| DepExplained(w, h, c, f.dep.value, tr, |h|, |h|);
      NextDep(w, h, empty, c, f.dep.value, tr);
    }
  }

  lemma {:induction false} PassWitnessed(
      w: World, rest: seq<Snapshot>, snap: Snapshot, f: Flight, sightings: seq<Pilot>, c: string)
    requires Survives(w, rest, c, f) && forall p :: p in sightings ==> p.callsign == c
    ensures PassHeld(w, rest + [snap.(pilots := sightings)], c, FlightPass(w, snap, f, sightings))
  {
    if sightings == [] {
      NextSnapshot(w, rest, c, f, snap.(pilots := []));
    } else {
      hide Sight;
      var last := |sightings| - 1;
      var h := rest + [snap.(pilots := sightings[..last])];
      PassWitnessed(w, rest, snap, f, sightings[..last], c);
      PassStep(w, h, snap, FlightPass(w, snap, f, sightings[..last]), sightings[last], c);
      assert sightings[..last] + [sightings[last]] == sightings;
      assert Grow(h, sightings[last]) == rest + [snap.(pilots := sightings)];
    }
  }

  lemma {:induction false} RunWitnessed(w: World, h: seq<Snapshot>, c: string)
    requires forall m, p :: 0 <= m < |h| && p in h[m].pilots ==> p.callsign == c
    ensures Survives(w, h, c, FlightOf(Run(w, h).state, c))
    ensures forall l :: l in Run(w, h).legs ==> Witnessed(w, h, c, l)
  {
    hide Witnessed, ArrAccounted, DepAccounted, FlightPass, Emitted, Advance, PassHeld, Survives, Only, FlightOf, Settle;
    if h == [] {
      NothingHeld(w, h, c);
    } else {
      var last := |h| - 1;
      var rest, snap := h[..last], h[last];
      var t := Run(w, rest).state;
      RunWitnessed(w, rest, c);
      PassWitnessed(w, rest, snap, FlightOf(t, c), snap.pilots, c);
      assert rest + [snap.(pilots := snap.pilots)] == h;
      AllOnly(snap.pilots, c);
      EmittedIsPass(w, snap, t, snap.pilots, c);
      AdvanceAt(w, snap, t, c);
      SettledSurvives(w, h, c, PassOf(w, snap, t, snap.pilots, c));
      forall l | l in Run(w, rest).legs ensures Witnessed(w, h, c, l) {
        WitnessedAppend(w, rest, snap, c, l);
      }
    }
  }

  lemma NothingHeld(w: World, h: seq<Snapshot>, c: string)
    requires h == []
    ensures Survives(w, h, c, FlightOf(Run(w, h).state, c)) && Run(w, h).legs == []
  {
  }

  lemma SettledSurvives(w: World, h: seq<Snapshot>, c: string, pass: Pass)
    requires h != [] && PassHeld(w, h, c, pass)
    ensures Survives(w, h, c, Settle(pass, h[|h| - 1].nowMs))
    ensures forall l :: l in pass.legs ==> Witnessed(w, h, c, l)
  {
    hide ArrAccounted, DepAccounted, Witnessed;
  }

  // ---- Every flight at once --------------------------------------------------------------------

  /** Both histories show the same sightings of `c`. */
  ghost predicate SameView(h: seq<Snapshot>, g: seq<Snapshot>, c: string) {
    && |h| == |g|
    && forall m :: 0 <= m < |h| ==>
         && h[m].nowMs == g[m].nowMs && h[m].airports == g[m].airports
         && forall p: Pilot :: p.callsign == c && p in h[m].pilots ==> p in g[m].pilots
  }

  lemma ViewFiled(kind: Kind, h: seq<Snapshot>, g: seq<Snapshot>, c: string, field: string)
    requires SameView(h, g, c)
    ensures forall m, p :: 0 <= m < |h| && Filed(kind, h[m], p, c, field) ==> Filed(kind, g[m], p, c, field)
  {
  }

  lemma ViewArr(w: World, h: seq<Snapshot>, g: seq<Snapshot>, c: string, arr: string)
    requires SameView(h, g, c)
    ensures forall m, p :: 0 <= m < |h| && InsideRing(w, h[m], p, c, arr) ==> InsideRing(w, g[m], p, c, arr)
    ensures forall m, p :: 0 <= m < |h| && OutsideRing(w, h[m], p, c, arr) ==> OutsideRing(w, g[m], p, c, arr)
    ensures forall m, p :: 0 <= m < |h| && TouchedDown(w, h[m], p, c, arr) ==> TouchedDown(w, g[m], p, c, arr)
  {
  }

  lemma ViewFollowed(
      kind: Kind, h: seq<Snapshot>, g: seq<Snapshot>, c: string, field: string, first: nat, firstMs: int, upto: nat)
    requires SameView(h, g, c) && upto <= |h| && Followed(kind, h, c, field, first, firstMs, upto)
    ensures Followed(kind, g, c, field, first, firstMs, upto)
  {
    ViewFiled(kind, h, g, c, field);
    forall m | first <= m < upto ensures FiledIn(kind, g[m], c, field) {
      assert FiledIn(kind, h[m], c, field);
      var p :| Filed(kind, h[m], p, c, field);
      assert Filed(kind, g[m], p, c, field);
    }
  }

  lemma ViewCrossed(
      w: World, h: seq<Snapshot>, g: seq<Snapshot>, c: string, arr: string, first: nat, entry: Option<int>,
      entered: nat, enterer: Pilot, quiet: nat)
    requires SameView(h, g, c) && SameView(g, h, c) && quiet <= |h|
    requires Crossed(w, h, c, arr, first, entry, entered, enterer, quiet)
    ensures Crossed(w, g, c, arr, first, entry, entered, enterer, quiet)
  {
    ViewArr(w, h, g, c, arr);
    ViewArr(w, g, h, c, arr);
    hide InsideRing, TouchedDown;
  }

  lemma ViewFlown(h: seq<Snapshot>, g: seq<Snapshot>, c: string, arr: string, first: nat, flown: nat, flyer: Pilot, until: nat)
    requires SameView(h, g, c) && SameView(g, h, c) && until <= |h| && Flown(h, c, arr, first, flown, flyer, until)
    ensures Flown(g, c, arr, first, flown, flyer, until)
  {
    ViewFiled(Arrival, h, g, c, arr);
    ViewFiled(Arrival, g, h, c, arr);
    hide Filed;
  }

  lemma ViewRolled(h: seq<Snapshot>, g: seq<Snapshot>, c: string, first: nat, s: DepSession, rolled: nat, roller: Pilot, quiet: nat)
    requires SameView(h, g, c) && SameView(g, h, c) && quiet <= |h| && Rolled(h, c, first, s, rolled, roller, quiet)
    ensures Rolled(g, c, first, s, rolled, roller, quiet)
  {
    ViewFiled(Departure, h, g, c, s.dep);
    ViewFiled(Departure, g, h, c, s.dep);
    hide Filed;
  }

  lemma ViewAtField(w: World, h: seq<Snapshot>, g: seq<Snapshot>, c: string, m: nat, p: Pilot, dep: string)
    requires SameView(h, g, c) && m < |h| && AtField(w, h[m], p, c, dep)
    ensures AtField(w, g[m], p, c, dep)
  {
  }

  lemma ViewCompleted(kind: Kind, h: seq<Snapshot>, g: seq<Snapshot>, c: string, l: Leg, p: Pilot, min: int, max: int)
    requires SameView(h, g, c) && Completed(kind, h, c, l, p, min, max)
    ensures Completed(kind, g, c, l, p, min, max)
  {
    ViewFiled(kind, h, g, c, l.airport);
    hide Filed;
  }

  lemma ViewArrival(w: World, h: seq<Snapshot>, g: seq<Snapshot>, c: string, l: Leg, tr: ArrTrace, p: Pilot)
    requires SameView(h, g, c) && SameView(g, h, c) && ArrivalWitnessed(w, h, c, l, tr, p)
    ensures ArrivalWitnessed(w, g, c, l, tr, p)
  {
    hide Followed, Crossed, OutsideRing, TouchedDown, Flown, Completed, SameView, Fits;
    var at := |h| - 1;
    ViewTimes(h, g, c);
    CompletedLast(Arrival, h, c, l, p, MIN_TRANSIT_SEC, MAX_TRANSIT_SEC);
    ViewCompleted(Arrival, h, g, c, l, p, MIN_TRANSIT_SEC, MAX_TRANSIT_SEC);
    ViewFollowed(Arrival, h, g, c, l.airport, tr.first, h[tr.first].nowMs, |h|);
    ViewCrossed(w, h, g, c, l.airport, tr.first, Some(l.startMs), tr.entered, tr.enterer, at);
    ViewFlown(h, g, c, l.airport, tr.first, tr.flown, tr.flyer, at);
    ViewArr(w, h, g, c, l.airport);
  }

  lemma ViewTimes(h: seq<Snapshot>, g: seq<Snapshot>, c: string)
    requires SameView(h, g, c)
    ensures |h| == |g| && forall m :: 0 <= m < |h| ==> h[m].nowMs == g[m].nowMs
  {
  }

  lemma CompletedLast(kind: Kind, h: seq<Snapshot>, c: string, l: Leg, p: Pilot, min: int, max: int)
    requires Completed(kind, h, c, l, p, min, max)
    ensures h != []
  {
  }

  lemma ViewDeparture(w: World, h: seq<Snapshot>, g: seq<Snapshot>, c: string, l: Leg, tr: DepTrace, p: Pilot)
    requires SameView(h, g, c) && SameView(g, h, c) && DepartureWitnessed(w, h, c, l, tr, p)
    ensures DepartureWitnessed(w, g, c, l, tr, p)
  {
    hide Followed, AtField, Rolled, Completed, SameView, Fits;
    ViewTimes(h, g, c);
    CompletedLast(Departure, h, c, l, p, MIN_TAXI_SEC, MAX_TAXI_SEC);
    ViewCompleted(Departure, h, g, c, l, p, MIN_TAXI_SEC, MAX_TAXI_SEC);
    ViewFollowed(Departure, h, g, c, l.airport, tr.first, h[tr.first].nowMs, |h|);
    ViewRolled(h, g, c, tr.first, RolledFrom(h, l, tr), tr.rolled, tr.roller, |h| - 1);
    ViewAtField(w, h, g, c, tr.first, tr.opener, l.airport);
  }

  lemma AloneView(snaps: seq<Snapshot>, c: string, n: nat)
    requires n <= |snaps|
    ensures SameView(AllAlone(snaps, c)[..n], snaps[..n], c) && SameView(snaps[..n], AllAlone(snaps, c)[..n], c)
  {
  }

  /** Every leg of every run is witnessed by the snapshots. */
  lemma EveryLegWitnessed(w: World, snaps: seq<Snapshot>, l: Leg)
    requires l in Run(w, snaps).legs
    ensures Witnessed(w, snaps, l.callsign, l)
  {
    hide ArrivalWitnessed, DepartureWitnessed, Run, AllAlone, SameView, LegsOf, FlightOf, Survives, Witnessed;
    var c := l.callsign;
    var h := AllAlone(snaps, c);
    Independence(w, snaps, c);
    assert l in LegsOf(Run(w, snaps).legs, c);
    AllOfOne(snaps, c);
    RunWitnessed(w, h, c);
    ViewWitnessed(w, snaps, c, l);
  }

  lemma AllOfOne(snaps: seq<Snapshot>, c: string)
    ensures forall m, p :: 0 <= m < |snaps| && p in AllAlone(snaps, c)[m].pilots ==> p.callsign == c
  {
  }

  lemma ViewWitnessed(w: World, snaps: seq<Snapshot>, c: string, l: Leg)
    requires Witnessed(w, AllAlone(snaps, c), c, l)
    ensures Witnessed(w, snaps, c, l)
  {
    hide ArrivalWitnessed, DepartureWitnessed, AllAlone, SameView;
    var h := AllAlone(snaps, c);
    match l.kind
    case Arrival =>
      var n, tr, p :| 0 <= n <= |h| && ArrivalWitnessed(w, h[..n], c, l, tr, p);
      AloneView(snaps, c, n);
      ViewArrival(w, h[..n], snaps[..n], c, l, tr, p);
    case Departure =>
      var n, tr, p :| 0 <= n <= |h| && DepartureWitnessed(w, h[..n], c, l, tr, p);
      AloneView(snaps, c, n);
      ViewDeparture(w, h[..n], snaps[..n], c, l, tr, p);
  }

  /** Every session still held belongs to a flight in the latest snapshot, is under three hours old, and
      is explained by the snapshots. */
  lemma EverySessionExplained(w: World, snaps: seq<Snapshot>, c: string)
    ensures Survives(w, snaps, c, FlightOf(Run(w, snaps).state, c))
  {
    hide Run, AllAlone, SameView, LegsOf, FlightOf, Survives, Witnessed;
    var h := AllAlone(snaps, c);
    Independence(w, snaps, c);
    AllOfOne(snaps, c);
    RunWitnessed(w, h, c);
    AloneView(snaps, c, |snaps|);
    assert h[..|snaps|] == h && snaps[..|snaps|] == snaps;
    ViewSurvives(w, h, snaps, c, FlightOf(Run(w, snaps).state, c));
  }

  lemma ViewSurvives(w: World, h: seq<Snapshot>, g: seq<Snapshot>, c: string, f: Flight)
    requires SameView(h, g, c) && SameView(g, h, c) && Survives(w, h, c, f)
    ensures Survives(w, g, c, f)
  {
    hide ArrAccounted, DepAccounted;
    if f.arr.Some? {
      ViewArrAccounted(w, h, g, c, f.arr.value);
    }
    if f.dep.Some? {
      ViewDepAccounted(w, h, g, c, f.dep.value);
    }
  }

  lemma ViewArrAccounted(w: World, h: seq<Snapshot>, g: seq<Snapshot>, c: string, s: ArrSession)
    requires SameView(h, g, c) && SameView(g, h, c) && ArrAccounted(w, h, c, s, |h|, |h|)
    ensures ArrAccounted(w, g, c, s, |g|, |g|)
  {
    var tr :| ArrExplained(w, h, c, s, tr, |h|, |h|);
    ViewFollowed(Arrival, h, g, c, s.arr, tr.first, s.firstMs, |h|);
    ViewCrossed(w, h, g, c, s.arr, tr.first, s.entryMs, tr.entered, tr.enterer, |h|);
    ViewFlown(h, g, c, s.arr, tr.first, tr.flown, tr.flyer, |h|);
    ViewArr(w, h, g, c, s.arr);
    hide Followed, Crossed, OutsideRing, Flown;
    assert ArrExplained(w, g, c, s, tr, |g|, |g|);
  }

  lemma ViewDepAccounted(w: World, h: seq<Snapshot>, g: seq<Snapshot>, c: string, s: DepSession)
    requires SameView(h, g, c) && SameView(g, h, c) && DepAccounted(w, h, c, s, |h|, |h|)
    ensures DepAccounted(w, g, c, s, |g|, |g|)
  {
    var tr :| DepExplained(w, h, c, s, tr, |h|, |h|);
    ViewFollowed(Departure, h, g, c, s.dep, tr.first, s.firstSeenMs, |h|);
    ViewRolled(h, g, c, tr.first, s, tr.rolled, tr.roller, |h|);
    ViewAtField(w, h, g, c, tr.first, tr.opener, s.dep);
    hide Followed, AtField, Rolled;
    assert DepExplained(w, g, c, s, tr, |g|, |g|);
  }
}
