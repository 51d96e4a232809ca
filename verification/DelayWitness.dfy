/** Every leg the collector emits, and every session it still holds, has a witness in the snapshots. */
module DelayWitness {
  import opened Wrappers
  import opened Text
  import opened Delays

  // ---- What the snapshots show -----------------------------------------------------------------

  /** `p` is a sighting of `c` that files `field` as its departure or its (known) destination. */
  ghost predicate Filed(kind: Kind, snap: Snapshot, p: Pilot, c: string, field: string) {
    && p in snap.pilots && p.callsign == c && p.flightPlan.Some?
    && match kind
       case Departure => p.flightPlan.value.departure != "" && Upper(p.flightPlan.value.departure) == field
       case Arrival => Upper(p.flightPlan.value.arrival) == field && field in snap.airports
  }

  ghost predicate FiledIn(kind: Kind, snap: Snapshot, c: string, field: string) {
    exists p :: Filed(kind, snap, p, c, field)
  }

  ghost function Miles(w: World, snap: Snapshot, p: Pilot, field: string): real
    requires field in snap.airports
  {
    var at := snap.airports[field];
    w.distance(p.latitude, p.longitude, at.lat, at.lon)
  }

  ghost predicate OutsideRing(w: World, snap: Snapshot, p: Pilot, c: string, arr: string) {
    Filed(Arrival, snap, p, c, arr) && p.groundspeed > 60 && 40.0 < Miles(w, snap, p, arr) <= 60.0
  }

  ghost predicate InsideRing(w: World, snap: Snapshot, p: Pilot, c: string, arr: string) {
    Filed(Arrival, snap, p, c, arr) && p.groundspeed > 60 && Miles(w, snap, p, arr) <= 40.0
  }

  ghost predicate TouchedDown(w: World, snap: Snapshot, p: Pilot, c: string, arr: string) {
    Filed(Arrival, snap, p, c, arr) && p.groundspeed < 40 && Miles(w, snap, p, arr) <= 3.0
  }

  ghost predicate AtField(w: World, snap: Snapshot, p: Pilot, c: string, dep: string) {
    && Filed(Departure, snap, p, c, dep) && dep in snap.airports && Miles(w, snap, p, dep) <= 15.0
    && (p.groundspeed <= 60 || p.altitude <= 500)
    && var arr := Upper(p.flightPlan.value.arrival);
       !(p.groundspeed <= 60 && arr in snap.airports && Miles(w, snap, p, arr) < 5.0)
  }

  /** Followed in every snapshot from `first` up to `upto`, and never allowed to go stale. */
  ghost predicate Followed(kind: Kind, h: seq<Snapshot>, c: string, field: string, first: nat, firstMs: int, upto: nat)
    requires upto <= |h|
  {
    && first < |h| && h[first].nowMs == firstMs
    && (forall m :: first <= m < upto ==> FiledIn(kind, h[m], c, field))
    && (forall m :: first <= m < |h| - 1 ==> h[m].nowMs - firstMs < 10_800_000)
  }

  /** When the ring was first crossed, if it was, and that no touchdown came before `quiet`. */
  ghost predicate Crossed(
      w: World, h: seq<Snapshot>, c: string, arr: string, first: nat, entry: Option<int>, entered: nat, enterer: Pilot,
      quiet: nat)
    requires quiet <= |h|
  {
    && (entry.Some? ==>
          && first <= entered < |h| && h[entered].nowMs == entry.value
          && InsideRing(w, h[entered], enterer, c, arr)
          && forall m, p :: entered < m < quiet ==> !TouchedDown(w, h[m], p, c, arr))
    && forall m, p :: first < m < (if entry.Some? then entered else |h|) ==> !InsideRing(w, h[m], p, c, arr)
  }

  /** `flyer`, seen in snapshot `flown`, is the last sighting in flight before `until`. */
  ghost predicate Flown(h: seq<Snapshot>, c: string, arr: string, first: nat, flown: nat, flyer: Pilot, until: nat)
    requires until <= |h|
  {
    && first <= flown < |h| && Filed(Arrival, h[flown], flyer, c, arr) && flyer.groundspeed > 60
    && forall m, p :: flown < m < until && Filed(Arrival, h[m], p, c, arr) ==> p.groundspeed <= 60
  }

  /** When the flight first rolled, if it has, and that it was not airborne before `quiet`. */
  ghost predicate Rolled(h: seq<Snapshot>, c: string, first: nat, s: DepSession, rolled: nat, roller: Pilot, quiet: nat)
    requires quiet <= |h|
  {
    && (s.phase.Watching? <==> s.startMs.None?)
    && (s.phase.Rolling? ==>
          && first <= rolled < |h| && Filed(Departure, h[rolled], roller, c, s.dep) && roller.groundspeed > 7
          && s.startMs == Some(h[rolled].nowMs) && s.baseAlt == roller.altitude
          && forall m, p :: rolled < m < quiet && Filed(Departure, h[m], p, c, s.dep)
                            ==> p.groundspeed <= 60 && p.altitude < roller.altitude + 100)
    && forall m, p :: first < m < (if s.phase.Rolling? then rolled else |h|) && Filed(Departure, h[m], p, c, s.dep)
                      ==> p.groundspeed <= 7
  }

  // ---- Witnesses -------------------------------------------------------------------------------

  /** Which snapshots, and which sightings in them, opened a session, crossed the ring, and last flew. */
  datatype ArrTrace = ArrTrace(first: nat, opener: Pilot, entered: nat, enterer: Pilot, flown: nat, flyer: Pilot)

  /** Which snapshots, and which sightings in them, opened a session and started it rolling. */
  datatype DepTrace = DepTrace(first: nat, opener: Pilot, rolled: nat, roller: Pilot)

  /** `tr` explains session `s` after the snapshots `h`: followed in each before `upto`, not touched
      down in any before `quiet`. */
  ghost predicate ArrExplained(
      w: World, h: seq<Snapshot>, c: string, s: ArrSession, tr: ArrTrace, upto: nat, quiet: nat)
    requires upto <= |h| && quiet <= |h|
  {
    && Followed(Arrival, h, c, s.arr, tr.first, s.firstMs, upto)
    && OutsideRing(w, h[tr.first], tr.opener, c, s.arr)
    && Crossed(w, h, c, s.arr, tr.first, s.entryMs, tr.entered, tr.enterer, quiet)
    && Flown(h, c, s.arr, tr.first, tr.flown, tr.flyer, |h|)
    && tr.flyer.heading == s.lastHdg
  }

  /** `tr` explains session `s` after the snapshots `h`: followed in each before `upto`, not airborne in
      any before `quiet`. */
  ghost predicate DepExplained(
      w: World, h: seq<Snapshot>, c: string, s: DepSession, tr: DepTrace, upto: nat, quiet: nat)
    requires upto <= |h| && quiet <= |h|
  {
    && Followed(Departure, h, c, s.dep, tr.first, s.firstSeenMs, upto)
    && AtField(w, h[tr.first], tr.opener, c, s.dep)
    && Rolled(h, c, tr.first, s, tr.rolled, tr.roller, quiet)
  }

  /** `l` was completed in the last snapshot of `h`, by its sighting `p`. */
  ghost predicate Completed(kind: Kind, h: seq<Snapshot>, c: string, l: Leg, p: Pilot, min: int, max: int) {
    && h != [] && var last := h[|h| - 1];
    && l.kind == kind && l.callsign == c && Filed(kind, last, p, c, l.airport)
    && l.cid == p.cid
    && l.aircraft == (if p.flightPlan.value.aircraftShort == "" then None else Some(p.flightPlan.value.aircraftShort))
    && l.endMs == last.nowMs && l.durationSec == (l.endMs - l.startMs) / 1000 && min <= l.durationSec <= max
  }

  /** The leg runs from the first crossing of the ring, on a session opened outside it, to the first
      touchdown, in the last snapshot of `h`; the flight was followed throughout, and the runway fits its
      last heading in flight. */
  ghost predicate ArrivalWitnessed(w: World, h: seq<Snapshot>, c: string, l: Leg, tr: ArrTrace, lander: Pilot) {
    && Completed(Arrival, h, c, l, lander, 60, 10800)
    && var at := |h| - 1;
    && tr.first < |h| && Followed(Arrival, h, c, l.airport, tr.first, h[tr.first].nowMs, |h|)
    && OutsideRing(w, h[tr.first], tr.opener, c, l.airport)
    && Crossed(w, h, c, l.airport, tr.first, Some(l.startMs), tr.entered, tr.enterer, at) && tr.entered < at
    && TouchedDown(w, h[at], lander, c, l.airport)
    && Flown(h, c, l.airport, tr.first, tr.flown, tr.flyer, at)
    && Fits(EndsOf(w, l.airport), tr.flyer.heading, l.runway)
    && l.procedure == w.starOf(lander.flightPlan.value.route, l.airport)
  }

  /** The leg runs from the first roll (or the first sighting, for a roll caught late) of a session opened
      at the field to the first snapshot after it with the flight airborne, the last of `h`, followed
      throughout. */
  ghost predicate DepartureWitnessed(w: World, h: seq<Snapshot>, c: string, l: Leg, tr: DepTrace, flyer: Pilot) {
    && Completed(Departure, h, c, l, flyer, 3, 3600)
    && tr.first <= tr.rolled < |h| && Followed(Departure, h, c, l.airport, tr.first, h[tr.first].nowMs, |h|)
    && AtField(w, h[tr.first], tr.opener, c, l.airport)
    && Rolled(h, c, tr.first, RolledFrom(h, l, tr), tr.rolled, tr.roller, |h| - 1)
    && (flyer.groundspeed > 60 || flyer.altitude >= tr.roller.altitude + 100)
    && l.startMs == (if l.endMs - h[tr.rolled].nowMs < 3000 && h[tr.first].nowMs < h[tr.rolled].nowMs
                     then h[tr.first].nowMs else h[tr.rolled].nowMs)
    && Fits(EndsOf(w, l.airport), flyer.heading, l.runway)
    && l.procedure == w.sidOf(flyer.flightPlan.value.route)
  }

  /** The session that a departure leg completes. */
  ghost function RolledFrom(h: seq<Snapshot>, l: Leg, tr: DepTrace): DepSession
    requires tr.first <= tr.rolled < |h|
  {
    DepSession(l.airport, Rolling, h[tr.first].nowMs, Some(h[tr.rolled].nowMs), tr.roller.altitude)
  }

  /** Some prefix of the snapshots ends with the completion of `l`, and explains it. */
  ghost predicate Witnessed(w: World, h: seq<Snapshot>, c: string, l: Leg) {
    match l.kind
    case Arrival => exists n, tr, p :: 0 <= n <= |h| && ArrivalWitnessed(w, h[..n], c, l, tr, p)
    case Departure => exists n, tr, p :: 0 <= n <= |h| && DepartureWitnessed(w, h[..n], c, l, tr, p)
  }

  // ---- One more sighting -----------------------------------------------------------------------

  /** One more sighting in the latest snapshot. */
  function Grow(h: seq<Snapshot>, p: Pilot): seq<Snapshot>
    requires h != []
  {
    var k := |h| - 1;
    h[..k] + [h[k].(pilots := h[k].pilots + [p])]
  }

  lemma GrowFiled(kind: Kind, h: seq<Snapshot>, p: Pilot, c: string, field: string)
    requires h != []
    ensures var k, h' := |h| - 1, Grow(h, p);
      && (forall q :: Filed(kind, h[k], q, c, field) ==> Filed(kind, h'[k], q, c, field))
      && (forall q :: Filed(kind, h'[k], q, c, field) ==> q == p || Filed(kind, h[k], q, c, field))
  {
  }

  lemma GrowArr(w: World, h: seq<Snapshot>, p: Pilot, c: string, arr: string)
    requires h != []
    ensures var k, h' := |h| - 1, Grow(h, p);
      && (forall q :: InsideRing(w, h[k], q, c, arr) ==> InsideRing(w, h'[k], q, c, arr))
      && (forall q :: InsideRing(w, h'[k], q, c, arr) ==> q == p || InsideRing(w, h[k], q, c, arr))
      && (forall q :: TouchedDown(w, h[k], q, c, arr) ==> TouchedDown(w, h'[k], q, c, arr))
      && (forall q :: TouchedDown(w, h'[k], q, c, arr) ==> q == p || TouchedDown(w, h[k], q, c, arr))
      && (forall q :: OutsideRing(w, h[k], q, c, arr) ==> OutsideRing(w, h'[k], q, c, arr))
  {
  }

  lemma FollowedGrow(kind: Kind, h: seq<Snapshot>, p: Pilot, c: string, field: string, first: nat, firstMs: int, upto: nat)
    requires h != [] && upto <= |h| && Followed(kind, h, c, field, first, firstMs, upto)
    ensures Followed(kind, Grow(h, p), c, field, first, firstMs, upto)
    ensures upto >= |h| - 1 && Filed(kind, Grow(h, p)[|h| - 1], p, c, field)
            ==> Followed(kind, Grow(h, p), c, field, first, firstMs, |h|)
  {
    GrowFiled(kind, h, p, c, field);
    var h', k := Grow(h, p), |h| - 1;
    if FiledIn(kind, h[k], c, field) {
      var q :| Filed(kind, h[k], q, c, field);
      assert Filed(kind, h'[k], q, c, field);
    }
  }

  lemma CrossedGrow(
      w: World, h: seq<Snapshot>, p: Pilot, c: string, arr: string, first: nat, entry: Option<int>,
      entered: nat, enterer: Pilot, quiet: nat)
    requires h != [] && quiet <= |h| && Crossed(w, h, c, arr, first, entry, entered, enterer, quiet)
    requires var h', k := Grow(h, p), |h| - 1;
      && (entry.None? ==> !InsideRing(w, h'[k], p, c, arr))
      && (entry.Some? && quiet == |h| ==> !TouchedDown(w, h'[k], p, c, arr))
    ensures Crossed(w, Grow(h, p), c, arr, first, entry, entered, enterer, quiet)
  {
    hide InsideRing, TouchedDown;
    GrowArr(w, h, p, c, arr);
  }

  lemma CrossedNow(
      w: World, h: seq<Snapshot>, p: Pilot, c: string, arr: string, first: nat, entered: nat, enterer: Pilot, quiet: nat)
    requires first < |h| && quiet <= |h| && Crossed(w, h, c, arr, first, None, entered, enterer, quiet)
    requires InsideRing(w, Grow(h, p)[|h| - 1], p, c, arr)
    ensures Crossed(w, Grow(h, p), c, arr, first, Some(h[|h| - 1].nowMs), |h| - 1, p, quiet)
  {
    hide InsideRing, TouchedDown;
    GrowArr(w, h, p, c, arr);
  }

  lemma FlownGrow(h: seq<Snapshot>, p: Pilot, c: string, arr: string, first: nat, flown: nat, flyer: Pilot, until: nat)
    requires h != [] && |h| - 1 <= until <= |h| && Flown(h, c, arr, first, flown, flyer, until)
    ensures var h', k := Grow(h, p), |h| - 1;
      if until == |h| && Filed(Arrival, h'[k], p, c, arr) && p.groundspeed > GS_STOP
      then Flown(h', c, arr, first, k, p, until)
      else Flown(h', c, arr, first, flown, flyer, until)
  {
    hide Filed;
    GrowFiled(Arrival, h, p, c, arr);
  }

  lemma RolledGrow(h: seq<Snapshot>, p: Pilot, c: string, first: nat, s: DepSession, rolled: nat, roller: Pilot, quiet: nat)
    requires h != [] && |h| - 1 <= quiet <= |h| && Rolled(h, c, first, s, rolled, roller, quiet)
    requires Filed(Departure, Grow(h, p)[|h| - 1], p, c, s.dep) ==>
      if s.phase.Watching? then p.groundspeed <= GS_START
      else quiet == |h| - 1 || !Airborne(p, s.baseAlt)
    ensures Rolled(Grow(h, p), c, first, s, rolled, roller, quiet)
  {
    hide Filed;
    GrowFiled(Departure, h, p, c, s.dep);
  }

  lemma RolledNow(
      h: seq<Snapshot>, snap: Snapshot, p: Pilot, c: string, first: nat, s: DepSession, rolled: nat, roller: Pilot,
      quiet: nat)
    requires first < |h| && |h| - 1 <= quiet <= |h| && Rolled(h, c, first, s, rolled, roller, quiet)
    requires s.phase.Watching? && p.groundspeed > GS_START && snap.nowMs == h[|h| - 1].nowMs
    requires Filed(Departure, Grow(h, p)[|h| - 1], p, c, s.dep)
    ensures Rolled(Grow(h, p), c, first, Roll(snap, p, s), |h| - 1, p, quiet)
  {
    hide Filed;
    GrowFiled(Departure, h, p, c, s.dep);
  }

  /** The cases of an arrival sighting. */
  lemma ArrCases(w: World, snap: Snapshot, p: Pilot, c: string, s: ArrSession)
    requires p.callsign == c && p in snap.pilots
    ensures
      var o := SightArrival(w, snap, p, Some(s));
      && o.session.Some? && var s' := o.session.value;
      if s'.arr != s.arr then
        && o.seen && !o.done && OutsideRing(w, snap, p, c, s'.arr)
        && s' == ArrSession(s'.arr, snap.nowMs, None, p.heading)
      else
        && s'.firstMs == s.firstMs
        && (o.seen <==> Filed(Arrival, snap, p, c, s.arr))
        && (s'.lastHdg == if o.seen && p.groundspeed > GS_STOP then p.heading else s.lastHdg)
        && (s'.entryMs == if s.entryMs.None? && InsideRing(w, snap, p, c, s.arr) then Some(snap.nowMs) else s.entryMs)
        && (o.done <==> s.entryMs.Some? && TouchedDown(w, snap, p, c, s.arr))
  {
  }

  lemma ArrStep(
      w: World, h: seq<Snapshot>, snap: Snapshot, p: Pilot, c: string, s: ArrSession, tr: ArrTrace, seen: bool, done: bool)
      returns (tr': ArrTrace)
    requires h != [] && p.callsign == c && snap == Grow(h, p)[|h| - 1]
    requires ArrExplained(w, h, c, s, tr, if seen then |h| else |h| - 1, if done then |h| - 1 else |h|)
    ensures
      var o := SightArrival(w, snap, p, Some(s));
      && o.session.Some?
      && ArrExplained(w, Grow(h, p), c, o.session.value, tr', if seen || o.seen then |h| else |h| - 1,
                      if done || o.done then |h| - 1 else |h|)
  {
    hide SightArrival, Crossed, Flown, Followed, InsideRing, TouchedDown, OutsideRing;
    var o, h', k := SightArrival(w, snap, p, Some(s)), Grow(h, p), |h| - 1;
    var upto, quiet := if seen then |h| else k, if done then k else |h|;
    ArrCases(w, snap, p, c, s);
    tr' := tr;
    if o.session.value.arr != s.arr {
      tr' := ArrTrace(k, p, k, p, k, p);
      ArrOpened(w, h, p, c, o.session.value.arr, quiet);
    } else {
      FollowedBounds(Arrival, h, c, s.arr, tr.first, s.firstMs, upto);
      FollowedGrow(Arrival, h, p, c, s.arr, tr.first, s.firstMs, upto);
      OutsideGrow(w, h, tr.first, p, tr.opener, c, s.arr);
      FlownGrow(h, p, c, s.arr, tr.first, tr.flown, tr.flyer, |h|);
      if o.seen && p.groundspeed > GS_STOP {
        tr' := tr'.(flown := k, flyer := p);
      }
      if o.session.value.entryMs != s.entryMs {
        tr' := tr'.(entered := k, enterer := p);
        CrossedNow(w, h, p, c, s.arr, tr.first, tr.entered, tr.enterer, quiet);
      } else {
        var q := if o.done then k else quiet;
        QuietSooner(w, h, c, s, tr, quiet, q);
        CrossedGrow(w, h, p, c, s.arr, tr.first, s.entryMs, tr.entered, tr.enterer, q);
      }
    }
  }

  lemma OutsideGrow(w: World, h: seq<Snapshot>, m: nat, p: Pilot, q: Pilot, c: string, arr: string)
    requires m < |h| && OutsideRing(w, h[m], q, c, arr)
    ensures OutsideRing(w, Grow(h, p)[m], q, c, arr)
  {
  }

  lemma FollowedBounds(kind: Kind, h: seq<Snapshot>, c: string, field: string, first: nat, firstMs: int, upto: nat)
    requires upto <= |h| && Followed(kind, h, c, field, first, firstMs, upto)
    ensures first < |h|
  {
  }

  lemma QuietSooner(w: World, h: seq<Snapshot>, c: string, s: ArrSession, tr: ArrTrace, quiet: nat, sooner: nat)
    requires sooner <= quiet <= |h|
    requires Crossed(w, h, c, s.arr, tr.first, s.entryMs, tr.entered, tr.enterer, quiet)
    ensures Crossed(w, h, c, s.arr, tr.first, s.entryMs, tr.entered, tr.enterer, sooner)
  {
  }

  lemma ArrOpened(w: World, h: seq<Snapshot>, p: Pilot, c: string, arr: string, quiet: nat)
    requires h != [] && quiet <= |h| && OutsideRing(w, Grow(h, p)[|h| - 1], p, c, arr)
    ensures var k := |h| - 1;
      ArrExplained(w, Grow(h, p), c, ArrSession(arr, h[k].nowMs, None, p.heading), ArrTrace(k, p, k, p, k, p), |h|, quiet)
  {
    assert FiledIn(Arrival, Grow(h, p)[|h| - 1], c, arr);
  }

  /** The cases of a departure sighting. */
  lemma DepCases(w: World, snap: Snapshot, p: Pilot, c: string, s: DepSession)
    requires p.callsign == c && p in snap.pilots
    ensures
      var o := SightDeparture(w, snap, p, Some(s));
      && o.session.Some? && var s' := o.session.value;
      if s'.dep != s.dep then
        && o.seen && !o.done && AtField(w, snap, p, c, s'.dep)
        && s' == DepSession(s'.dep, Watching, snap.nowMs, None, p.altitude)
      else
        && (o.seen <==> Filed(Departure, snap, p, c, s.dep))
        && s' == (if o.seen then Roll(snap, p, s) else s)
        && (o.done <==> o.seen && s'.phase.Rolling? && s'.startMs.Some? && Airborne(p, s'.baseAlt))
  {
  }

  lemma DepStep(
      w: World, h: seq<Snapshot>, snap: Snapshot, p: Pilot, c: string, s: DepSession, tr: DepTrace, seen: bool, done: bool)
      returns (tr': DepTrace)
    requires h != [] && p.callsign == c && snap == Grow(h, p)[|h| - 1]
    requires DepExplained(w, h, c, s, tr, if seen then |h| else |h| - 1, if done then |h| - 1 else |h|)
    ensures
      var o := SightDeparture(w, snap, p, Some(s));
      && o.session.Some?
      && DepExplained(w, Grow(h, p), c, o.session.value, tr', if seen || o.seen then |h| else |h| - 1,
                      if done || o.done then |h| - 1 else |h|)
  {
    var o, h', k := SightDeparture(w, snap, p, Some(s)), Grow(h, p), |h| - 1;
    var upto, quiet := if seen then |h| else k, if done then k else |h|;
    DepCases(w, snap, p, c, s);
    hide SightDeparture;
    tr' := tr;
    if o.session.value.dep != s.dep {
      tr' := DepTrace(k, p, k, p);
      DepOpened(w, h, p, c, o.session.value.dep, quiet);
    } else {
      FollowedGrow(Departure, h, p, c, s.dep, tr.first, s.firstSeenMs, upto);
      FollowedBounds(Departure, h, c, s.dep, tr.first, s.firstSeenMs, upto);
      AtFieldGrow(w, h, tr.first, p, tr.opener, c, s.dep);
      var q := if o.done then k else quiet;
      RolledSooner(h, c, s, tr, quiet, q);
      hide Rolled, Followed, AtField;
      if o.seen && s.phase.Watching? && p.groundspeed > GS_START {
        tr' := tr.(rolled := k, roller := p);
        RolledNow(h, snap, p, c, tr.first, s, tr.rolled, tr.roller, q);
      } else {
        RolledGrow(h, p, c, tr.first, s, tr.rolled, tr.roller, q);
      }
    }
  }

  lemma AtFieldGrow(w: World, h: seq<Snapshot>, m: nat, p: Pilot, q: Pilot, c: string, dep: string)
    requires m < |h| && AtField(w, h[m], q, c, dep)
    ensures AtField(w, Grow(h, p)[m], q, c, dep)
  {
  }

  lemma RolledSooner(h: seq<Snapshot>, c: string, s: DepSession, tr: DepTrace, quiet: nat, sooner: nat)
    requires sooner <= quiet <= |h| && Rolled(h, c, tr.first, s, tr.rolled, tr.roller, quiet)
    ensures Rolled(h, c, tr.first, s, tr.rolled, tr.roller, sooner)
  {
  }

  lemma DepOpened(w: World, h: seq<Snapshot>, p: Pilot, c: string, dep: string, quiet: nat)
    requires h != [] && quiet <= |h| && AtField(w, Grow(h, p)[|h| - 1], p, c, dep)
    ensures var k := |h| - 1;
      DepExplained(w, Grow(h, p), c, DepSession(dep, Watching, h[k].nowMs, None, p.altitude), DepTrace(k, p, k, p), |h|, quiet)
  {
    assert FiledIn(Departure, Grow(h, p)[|h| - 1], c, dep);
  }

  // ---- Legs ------------------------------------------------------------------------------------

  lemma ArrLeg(w: World, h: seq<Snapshot>, p: Pilot, c: string, s: ArrSession, tr: ArrTrace, l: Leg)
    requires h != [] && p.callsign == c && p in h[|h| - 1].pilots
    requires var k := |h| - 1; var o := SightArrival(w, h[k], p, Some(s));
      o.session.Some? && ArrExplained(w, h, c, o.session.value, tr, |h|, k) && l in o.legs
    ensures ArrivalWitnessed(w, h, c, l, tr, p)
  {
    var k := |h| - 1;
    ArrCases(w, h[k], p, c, s);
    ArrLegFields(w, h, p, c, s, l);
    hide SightArrival, Fits, NearestRunway, EndsOf, OutsideRing, TouchedDown, Followed, Completed;
    RunwayFits(w, l.airport, s.lastHdg);
    assert Flown(h, c, l.airport, tr.first, tr.flown, tr.flyer, k);
    assert tr.entered < k by {
      assert h[tr.entered].nowMs == l.startMs;
    }
  }

  lemma ArrLegFields(w: World, h: seq<Snapshot>, p: Pilot, c: string, s: ArrSession, l: Leg)
    requires h != [] && p.callsign == c && p in h[|h| - 1].pilots
    requires l in SightArrival(w, h[|h| - 1], p, Some(s)).legs
    ensures var k := |h| - 1;
      && Completed(Arrival, h, c, l, p, MIN_TRANSIT_SEC, MAX_TRANSIT_SEC)
      && l.airport == s.arr && s.entryMs == Some(l.startMs) && l.startMs < h[k].nowMs
      && l.runway == NearestRunway(w, l.airport, s.lastHdg) && l.procedure == w.starOf(p.flightPlan.value.route, l.airport)
      && SightArrival(w, h[k], p, Some(s)).session == Some(s) && TouchedDown(w, h[k], p, c, l.airport)
  {
  }

  lemma DepLeg(w: World, h: seq<Snapshot>, p: Pilot, c: string, s: DepSession, tr: DepTrace, l: Leg)
    requires h != [] && p.callsign == c && p in h[|h| - 1].pilots
    requires var k := |h| - 1; var o := SightDeparture(w, h[k], p, Some(s));
      o.session.Some? && DepExplained(w, h, c, o.session.value, tr, |h|, k) && l in o.legs
    ensures DepartureWitnessed(w, h, c, l, tr, p)
  {
    var s' := SightDeparture(w, h[|h| - 1], p, Some(s)).session.value;
    DepLegFields(w, h, p, c, s, l);
    hide SightDeparture, Fits, NearestRunway, EndsOf, AtField, Followed, Completed;
    RunwayFits(w, l.airport, p.heading);
    assert s' == RolledFrom(h, l, tr);
  }

  lemma DepLegFields(w: World, h: seq<Snapshot>, p: Pilot, c: string, s: DepSession, l: Leg)
    requires h != [] && p.callsign == c && p in h[|h| - 1].pilots
    requires l in SightDeparture(w, h[|h| - 1], p, Some(s)).legs
    ensures var o := SightDeparture(w, h[|h| - 1], p, Some(s));
      && Completed(Departure, h, c, l, p, MIN_TAXI_SEC, MAX_TAXI_SEC)
      && o.session.Some? && var s' := o.session.value;
      && l.airport == s'.dep && s'.phase.Rolling? && s'.startMs.Some? && Airborne(p, s'.baseAlt)
      && l.startMs == TaxiStart(l.endMs, s'.startMs.value, s'.firstSeenMs)
      && l.runway == NearestRunway(w, l.airport, p.heading) && l.procedure == w.sidOf(p.flightPlan.value.route)
  {
  }

  // ---- Witnesses last --------------------------------------------------------------------------

  lemma ArrWitnessGrow(w: World, h: seq<Snapshot>, p: Pilot, c: string, l: Leg, tr: ArrTrace, q: Pilot)
    requires ArrivalWitnessed(w, h, c, l, tr, q)
    ensures ArrivalWitnessed(w, Grow(h, p), c, l, tr, q)
  {
    hide Followed, Crossed, Flown, OutsideRing, TouchedDown, Filed, Fits;
    FollowedGrow(Arrival, h, p, c, l.airport, tr.first, h[tr.first].nowMs, |h|);
    CrossedGrow(w, h, p, c, l.airport, tr.first, Some(l.startMs), tr.entered, tr.enterer, |h| - 1);
    FlownGrow(h, p, c, l.airport, tr.first, tr.flown, tr.flyer, |h| - 1);
    OutsideGrow(w, h, tr.first, p, tr.opener, c, l.airport);
    GrowArr(w, h, p, c, l.airport);
    GrowFiled(Arrival, h, p, c, l.airport);
  }

  lemma DepWitnessGrow(w: World, h: seq<Snapshot>, p: Pilot, c: string, l: Leg, tr: DepTrace, q: Pilot)
    requires DepartureWitnessed(w, h, c, l, tr, q)
    ensures DepartureWitnessed(w, Grow(h, p), c, l, tr, q)
  {
    hide Followed, Rolled, AtField, Filed, Fits;
    FollowedGrow(Departure, h, p, c, l.airport, tr.first, h[tr.first].nowMs, |h|);
    RolledGrow(h, p, c, tr.first, RolledFrom(h, l, tr), tr.rolled, tr.roller, |h| - 1);
    AtFieldGrow(w, h, tr.first, p, tr.opener, c, l.airport);
    GrowFiled(Departure, h, p, c, l.airport);
  }

  lemma WitnessedGrow(w: World, h: seq<Snapshot>, p: Pilot, c: string, l: Leg)
    requires h != [] && Witnessed(w, h, c, l)
    ensures Witnessed(w, Grow(h, p), c, l)
  {
    hide ArrivalWitnessed, DepartureWitnessed, Grow;
    if l.kind.Arrival? {
      var n, tr, q :| 0 <= n <= |h| && ArrivalWitnessed(w, h[..n], c, l, tr, q);
      ArrivalWitnessGrow(w, h, p, c, l, n, tr, q);
    } else {
      var n, tr, q :| 0 <= n <= |h| && DepartureWitnessed(w, h[..n], c, l, tr, q);
      DepartureWitnessGrow(w, h, p, c, l, n, tr, q);
    }
  }

  lemma ArrivalWitnessGrow(w: World, h: seq<Snapshot>, p: Pilot, c: string, l: Leg, n: nat, tr: ArrTrace, q: Pilot)
    requires h != [] && n <= |h| && l.kind.Arrival? && ArrivalWitnessed(w, h[..n], c, l, tr, q)
    ensures Witnessed(w, Grow(h, p), c, l)
  {
    hide ArrivalWitnessed, DepartureWitnessed, Grow;
    GrowPrefix(h, p, n);
    if n == |h| {
      assert h[..n] == h && Grow(h, p)[..n] == Grow(h, p);
      ArrWitnessGrow(w, h, p, c, l, tr, q);
    }
    assert ArrivalWitnessed(w, Grow(h, p)[..n], c, l, tr, q);
  }

  lemma DepartureWitnessGrow(w: World, h: seq<Snapshot>, p: Pilot, c: string, l: Leg, n: nat, tr: DepTrace, q: Pilot)
    requires h != [] && n <= |h| && l.kind.Departure? && DepartureWitnessed(w, h[..n], c, l, tr, q)
    ensures Witnessed(w, Grow(h, p), c, l)
  {
    hide ArrivalWitnessed, DepartureWitnessed, Grow;
    GrowPrefix(h, p, n);
    if n == |h| {
      assert h[..n] == h && Grow(h, p)[..n] == Grow(h, p);
      DepWitnessGrow(w, h, p, c, l, tr, q);
    }
    assert DepartureWitnessed(w, Grow(h, p)[..n], c, l, tr, q);
  }

  lemma GrowPrefix(h: seq<Snapshot>, p: Pilot, n: nat)
    requires h != [] && n <= |h|
    ensures |Grow(h, p)| == |h| && (n < |h| ==> Grow(h, p)[..n] == h[..n])
  {
  }

  lemma WitnessedAppend(w: World, h: seq<Snapshot>, snap: Snapshot, c: string, l: Leg)
    requires Witnessed(w, h, c, l)
    ensures Witnessed(w, h + [snap], c, l)
  {
    hide ArrivalWitnessed, DepartureWitnessed;
    var h' := h + [snap];
    match l.kind
    case Arrival =>
      var n, tr, q :| 0 <= n <= |h| && ArrivalWitnessed(w, h[..n], c, l, tr, q);
      assert h'[..n] == h[..n];
    case Departure =>
      var n, tr, q :| 0 <= n <= |h| && DepartureWitnessed(w, h[..n], c, l, tr, q);
      assert h'[..n] == h[..n];
  }
}
