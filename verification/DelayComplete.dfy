/** The other direction: a flight the snapshots show departing or arriving, sighted once in each, has its
    leg recorded, whatever else the snapshots hold. */
module DelayComplete {
  import opened Wrappers
  import opened Delays
  import opened DelayRuns
  import opened DelayWitness

  /** `c` is sighted exactly once, as `ps[m]`, in each snapshot `m` from `i` to `n`, filing `field`, and the
      session that starts at `i` is never stale before `n`. */
  ghost predicate Sighted(
      kind: Kind, snaps: seq<Snapshot>, ps: seq<Pilot>, c: string, field: string, i: nat, n: nat)
  {
    && i <= n < |snaps| == |ps|
    && (forall m :: i <= m <= n ==> Only(snaps[m].pilots, c) == [ps[m]] && Filed(kind, snaps[m], ps[m], c, field))
    && (forall m :: i <= m < n ==> snaps[m].nowMs - snaps[i].nowMs < 10_800_000)
  }

  function StateAfter(w: World, snaps: seq<Snapshot>, m: nat, c: string): Flight
    requires m <= |snaps|
  {
    FlightOf(Run(w, snaps[..m]).state, c)
  }

  /** One sighting takes the flight's sessions on by exactly its own outcome. */
  lemma OneSighting(w: World, snaps: seq<Snapshot>, m: nat, c: string, p: Pilot)
    requires m < |snaps| && Only(snaps[m].pilots, c) == [p]
    ensures
      var f, now := StateAfter(w, snaps, m, c), snaps[m].nowMs;
      var (d, a) := (SightDeparture(w, snaps[m], p, f.dep), SightArrival(w, snaps[m], p, f.arr));
      && StateAfter(w, snaps, m + 1, c) == Flight(
           if d.session.Some? && !d.done && d.seen && Fresh(now, d.session.value.firstSeenMs) then d.session else None,
           if a.session.Some? && !a.done && a.seen && Fresh(now, a.session.value.firstMs) then a.session else None)
      && forall l :: l in d.legs || l in a.legs ==> l in Run(w, snaps[..m + 1]).legs
  {
    hide SightArrival, SightDeparture;
    var snap, f := snaps[m], StateAfter(w, snaps, m, c);
    var t := Run(w, snaps[..m]).state;
    assert snaps[..m + 1][..m] == snaps[..m];
    AdvanceAt(w, snap, t, c);
    EmittedAlone(w, snap, t, snap.pilots, c);
    assert [p][..0] == [];
    assert FlightPass(w, snap, f, []) == Pass(f.dep, false, false, f.arr, false, false, []);
    var legs := Emitted(w, snap, t, snap.pilots);
    forall l | l in PassOf(w, snap, t, snap.pilots, c).legs ensures l in Run(w, snaps[..m + 1]).legs {
      assert l in LegsOf(legs, c);
    }
  }

  // ---- Arrivals --------------------------------------------------------------------------------

  /** Opened outside the ring at `i`, first inside it at `j`, first down at `n`. */
  ghost predicate Arrives(
      w: World, snaps: seq<Snapshot>, ps: seq<Pilot>, c: string, arr: string, i: nat, j: nat, n: nat)
  {
    && Sighted(Arrival, snaps, ps, c, arr, i, n) && i < j < n
    && OutsideRing(w, snaps[i], ps[i], c, arr)
    && (forall m :: i < m < j ==> !InsideRing(w, snaps[m], ps[m], c, arr))
    && InsideRing(w, snaps[j], ps[j], c, arr)
    && (forall m :: j < m < n ==> !TouchedDown(w, snaps[m], ps[m], c, arr))
    && TouchedDown(w, snaps[n], ps[n], c, arr)
  }

  /** The session an arrival holds after snapshot `m` of its timeline. */
  ghost predicate ArrivalHeld(snaps: seq<Snapshot>, arr: string, i: nat, j: nat, m: nat, s: Option<ArrSession>)
    requires i < |snaps| && j < |snaps|
  {
    && s.Some? && s.value.arr == arr && s.value.firstMs == snaps[i].nowMs
    && s.value.entryMs == if m < j then None else Some(snaps[j].nowMs)
  }

  lemma ArrivalOpens(w: World, snap: Snapshot, p: Pilot, c: string, arr: string, s: Option<ArrSession>)
    requires OutsideRing(w, snap, p, c, arr) && (s.Some? ==> s.value.arr != arr)
    ensures SightArrival(w, snap, p, s)
            == Sighting(Some(ArrSession(arr, snap.nowMs, None, p.heading)), true, false, [])
  {
  }

  lemma {:induction false} ArrivalTracked(
      w: World, snaps: seq<Snapshot>, ps: seq<Pilot>, c: string, arr: string, i: nat, j: nat, n: nat, m: nat)
    requires Arrives(w, snaps, ps, c, arr, i, j, n) && i <= m < n
    requires var s := StateAfter(w, snaps, i, c).arr; s.Some? ==> s.value.arr != arr
    ensures ArrivalHeld(snaps, arr, i, j, m, StateAfter(w, snaps, m + 1, c).arr)
    decreases m
  {
    hide StateAfter, Only, SightArrival, SightDeparture, InsideRing, TouchedDown, OutsideRing;
    var snap, p, s := snaps[m], ps[m], StateAfter(w, snaps, m, c).arr;
    OneSighting(w, snaps, m, c, p);
    if m == i {
      ArrivalOpens(w, snap, p, c, arr, s);
    } else {
      ArrivalTracked(w, snaps, ps, c, arr, i, j, n, m - 1);
      ArrCases(w, snap, p, c, s.value);
      ArrivalKept(w, snap, p, c, s.value);
    }
  }

  lemma ArrivalKept(w: World, snap: Snapshot, p: Pilot, c: string, s: ArrSession)
    requires Filed(Arrival, snap, p, c, s.arr)
    ensures SightArrival(w, snap, p, Some(s)).session.Some?
    ensures SightArrival(w, snap, p, Some(s)).session.value.arr == s.arr
    ensures InsideRing(w, snap, p, c, s.arr) ==> !TouchedDown(w, snap, p, c, s.arr)
  {
  }

  lemma ArrivalLands(w: World, snap: Snapshot, p: Pilot, c: string, s: ArrSession)
    requires TouchedDown(w, snap, p, c, s.arr) && s.entryMs.Some?
    requires MIN_TRANSIT_SEC * 1000 <= snap.nowMs - s.entryMs.value < (MAX_TRANSIT_SEC + 1) * 1000
    ensures var o := SightArrival(w, snap, p, Some(s));
      && o.done && |o.legs| == 1 && var l := o.legs[0];
      l.kind == Arrival && l.callsign == c && l.airport == s.arr && l.startMs == s.entryMs.value && l.endMs == snap.nowMs
  {
  }

  /** Such a flight's transit is recorded, from the crossing to the touchdown, and its session is over. */
  lemma ArrivalRecorded(
      w: World, snaps: seq<Snapshot>, ps: seq<Pilot>, c: string, arr: string, i: nat, j: nat, n: nat)
    requires Arrives(w, snaps, ps, c, arr, i, j, n)
    requires var s := StateAfter(w, snaps, i, c).arr; s.Some? ==> s.value.arr != arr
    requires 60_000 <= snaps[n].nowMs - snaps[j].nowMs < 10_801_000
    ensures StateAfter(w, snaps, n + 1, c).arr == None
    ensures exists l :: l in Run(w, snaps[..n + 1]).legs && l.kind == Arrival && l.callsign == c && l.airport == arr
                        && l.startMs == snaps[j].nowMs && l.endMs == snaps[n].nowMs
  {
    hide StateAfter, Only, Run, SightArrival, SightDeparture, InsideRing, TouchedDown, OutsideRing;
    ArrivalTracked(w, snaps, ps, c, arr, i, j, n, n - 1);
    OneSighting(w, snaps, n, c, ps[n]);
    var s := StateAfter(w, snaps, n, c).arr.value;
    ArrivalLands(w, snaps[n], ps[n], c, s);
    assert SightArrival(w, snaps[n], ps[n], Some(s)).legs[0] in SightArrival(w, snaps[n], ps[n], Some(s)).legs;
  }

  // ---- Departures ------------------------------------------------------------------------------

  /** At its field at `i`, first rolling at `j`, first airborne at `n`. */
  ghost predicate Departs(
      w: World, snaps: seq<Snapshot>, ps: seq<Pilot>, c: string, dep: string, i: nat, j: nat, n: nat)
  {
    && Sighted(Departure, snaps, ps, c, dep, i, n) && i < j <= n
    && AtField(w, snaps[i], ps[i], c, dep)
    && (forall m :: i < m < j ==> ps[m].groundspeed <= 7)
    && ps[j].groundspeed > 7
    && (forall m :: j <= m < n ==> ps[m].groundspeed <= 60 && ps[m].altitude < ps[j].altitude + 100)
    && (ps[n].groundspeed > 60 || ps[n].altitude >= ps[j].altitude + 100)
  }

  /** The session a departure holds after snapshot `m` of its timeline. */
  ghost predicate DepartureHeld(
      snaps: seq<Snapshot>, ps: seq<Pilot>, dep: string, i: nat, j: nat, m: nat, s: Option<DepSession>)
    requires i < |snaps| && j < |snaps| == |ps|
  {
    && s.Some? && s.value.dep == dep && s.value.firstSeenMs == snaps[i].nowMs
    && if m < j then s.value.phase.Watching?
       else s.value.phase.Rolling? && s.value.startMs == Some(snaps[j].nowMs) && s.value.baseAlt == ps[j].altitude
  }

  lemma DepartureOpens(w: World, snap: Snapshot, p: Pilot, c: string, dep: string, s: Option<DepSession>)
    requires AtField(w, snap, p, c, dep) && (s.Some? ==> s.value.dep != dep)
    ensures SightDeparture(w, snap, p, s)
            == Sighting(Some(DepSession(dep, Watching, snap.nowMs, None, p.altitude)), true, false, [])
  {
  }

  lemma {:induction false} DepartureTracked(
      w: World, snaps: seq<Snapshot>, ps: seq<Pilot>, c: string, dep: string, i: nat, j: nat, n: nat, m: nat)
    requires Departs(w, snaps, ps, c, dep, i, j, n) && i <= m < n
    requires var s := StateAfter(w, snaps, i, c).dep; s.Some? ==> s.value.dep != dep
    ensures DepartureHeld(snaps, ps, dep, i, j, m, StateAfter(w, snaps, m + 1, c).dep)
    decreases m
  {
    hide StateAfter, Only, SightArrival, SightDeparture, AtField;
    var snap, p, s := snaps[m], ps[m], StateAfter(w, snaps, m, c).dep;
    OneSighting(w, snaps, m, c, p);
    if m == i {
      DepartureOpens(w, snap, p, c, dep, s);
    } else {
      DepartureTracked(w, snaps, ps, c, dep, i, j, n, m - 1);
      DepCases(w, snap, p, c, s.value);
      DepartureKept(w, snap, p, c, s.value);
    }
  }

  lemma DepartureKept(w: World, snap: Snapshot, p: Pilot, c: string, s: DepSession)
    requires Filed(Departure, snap, p, c, s.dep)
    ensures SightDeparture(w, snap, p, Some(s)).session.Some?
    ensures SightDeparture(w, snap, p, Some(s)).session.value.dep == s.dep
  {
  }

  lemma DepartureLifts(w: World, snap: Snapshot, p: Pilot, c: string, s: DepSession)
    requires Filed(Departure, snap, p, c, s.dep)
    requires var r := Roll(snap, p, s);
      && r.phase.Rolling? && r.startMs.Some? && Airborne(p, r.baseAlt)
      && var start := TaxiStart(snap.nowMs, r.startMs.value, s.firstSeenMs);
      MIN_TAXI_SEC * 1000 <= snap.nowMs - start < (MAX_TAXI_SEC + 1) * 1000
    ensures var o, r := SightDeparture(w, snap, p, Some(s)), Roll(snap, p, s);
      && o.done && |o.legs| == 1 && var l := o.legs[0];
      && l.kind == Departure && l.callsign == c && l.airport == s.dep && l.endMs == snap.nowMs
      && l.startMs == TaxiStart(snap.nowMs, r.startMs.value, s.firstSeenMs)
  {
  }

  /** Such a flight's taxi-out is recorded, from the roll (or the first sighting, for a roll caught late)
      to wheels-up, and its session is over. */
  lemma DepartureRecorded(
      w: World, snaps: seq<Snapshot>, ps: seq<Pilot>, c: string, dep: string, i: nat, j: nat, n: nat)
    requires Departs(w, snaps, ps, c, dep, i, j, n)
    requires var s := StateAfter(w, snaps, i, c).dep; s.Some? ==> s.value.dep != dep
    requires var start := TaxiStart(snaps[n].nowMs, snaps[j].nowMs, snaps[i].nowMs);
      3_000 <= snaps[n].nowMs - start < 3_601_000
    ensures StateAfter(w, snaps, n + 1, c).dep == None
    ensures exists l :: l in Run(w, snaps[..n + 1]).legs && l.kind == Departure && l.callsign == c && l.airport == dep
                        && l.startMs == TaxiStart(snaps[n].nowMs, snaps[j].nowMs, snaps[i].nowMs)
                        && l.endMs == snaps[n].nowMs
  {
    hide StateAfter, Only, Run, SightArrival, SightDeparture, AtField;
    DepartureTracked(w, snaps, ps, c, dep, i, j, n, n - 1);
    OneSighting(w, snaps, n, c, ps[n]);
    var s := StateAfter(w, snaps, n, c).dep.value;
    DepartureLifts(w, snaps[n], ps[n], c, s);
    assert SightDeparture(w, snaps[n], ps[n], Some(s)).legs[0] in SightDeparture(w, snaps[n], ps[n], Some(s)).legs;
  }

  /** A climb-out at or below 500 ft is taken for a fresh departure at its field: after one departure leg,
      two more such sightings record a second, so claims hold per session and not per flight. */
  lemma LowClimbOutDepartsTwice(
      w: World, snaps: seq<Snapshot>, ps: seq<Pilot>, c: string, dep: string, i: nat, j: nat, n: nat)
    requires Departs(w, snaps, ps, c, dep, i, j, n) && n + 2 < |snaps| && Sighted(Departure, snaps, ps, c, dep, n + 1, n + 2)
    requires var s := StateAfter(w, snaps, i, c).dep; s.Some? ==> s.value.dep != dep
    requires var start := TaxiStart(snaps[n].nowMs, snaps[j].nowMs, snaps[i].nowMs);
      3_000 <= snaps[n].nowMs - start < 3_601_000
    requires AtField(w, snaps[n + 1], ps[n + 1], c, dep) && ps[n + 1].groundspeed > 60
    requires ps[n + 2].groundspeed > 60 && 3_000 <= snaps[n + 2].nowMs - snaps[n + 1].nowMs < 3_600_000
    ensures exists l :: l in Run(w, snaps[..n + 3]).legs && l.kind == Departure && l.callsign == c && l.airport == dep
                        && l.startMs == snaps[n + 1].nowMs && l.endMs == snaps[n + 2].nowMs
  {
    hide StateAfter, Run, AtField, Only;
    DepartureRecorded(w, snaps, ps, c, dep, i, j, n);
    DepartureRecorded(w, snaps, ps, c, dep, n + 1, n + 2, n + 2);
  }
}
