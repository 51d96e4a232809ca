/** The delay-leg collector (`backend/src/feed/delays.rs`): what one sighting of one flight does, and
    the imperative pass that interleaves every flight of a snapshot through shared maps. */
module Delays {
  import opened Wrappers
  import opened Text
  import opened Decimals

  const GS_START := 7
  const GS_STOP := 60
  const ALT_CLIMB_FT := 100
  const DEP_PROX_NM := 15.0
  const MIN_TAXI_SEC := 3
  const MAX_TAXI_SEC := 60 * 60
  const TRACK_START_NM := 60.0
  const ENTRY_NM := 40.0
  const LAND_GS := 40
  const LAND_PROX_NM := 3.0
  const MIN_TRANSIT_SEC := 60
  const MAX_TRANSIT_SEC := 3 * 60 * 60
  const SESSION_MAX_AGE_MS := 3 * 60 * 60_000
  const RUNWAY_TOL_DEG := 30

  datatype Phase = Watching | Rolling
  datatype DepSession = DepSession(dep: string, phase: Phase, firstSeenMs: int, startMs: Option<int>, baseAlt: int)
  datatype ArrSession = ArrSession(arr: string, firstMs: int, entryMs: Option<int>, lastHdg: int)

  datatype FlightPlan = FlightPlan(departure: string, arrival: string, aircraftShort: string, route: string)
  datatype Pilot = Pilot(
    callsign: string, cid: int, latitude: real, longitude: real,
    altitude: int, groundspeed: int, heading: int, flightPlan: Option<FlightPlan>)
  datatype Airport = Airport(lat: real, lon: real)
  datatype RunwayEnd = RunwayEnd(id: string, hdg: int)
  datatype Snapshot = Snapshot(nowMs: int, airports: map<string, Airport>, pilots: seq<Pilot>)

  datatype Kind = Departure | Arrival
  datatype Leg = Leg(
    kind: Kind, airport: string, callsign: string, cid: int, aircraft: Option<string>,
    runway: Option<string>, procedure: Option<string>, startMs: int, endMs: int, durationSec: int)

  /** What the collector reads but does not compute: great-circle distance (nautical miles), the runway
      ends of a field, and the procedure filed in a route. */
  datatype World = World(
    distance: (real, real, real, real) -> real,
    runways: map<string, seq<RunwayEnd>>,
    sidOf: string -> Option<string>,
    starOf: (string, string) -> Option<string>)

  function Distance(w: World, p: Pilot, a: Airport): real {
    w.distance(p.latitude, p.longitude, a.lat, a.lon)
  }

  // ---- Landing and take-off runway -------------------------------------------------------------

  function AngleDiff(a: int, b: int): int {
    var d := (if a >= b then a - b else b - a) % 360;
    if d > 180 then 360 - d else d
  }

  /** How far `a` is from `b` when `b` is taken `k` times round the compass. */
  function Gap(a: int, b: int, k: int): nat {
    var d := a - b - 360 * k;
    if d < 0 then -d else d
  }

  /** The difference of two headings is never past half a turn, and is the least over any number of turns. */
  lemma AngleDiffIsLeast(a: int, b: int)
    ensures 0 <= AngleDiff(a, b) <= 180
    ensures exists k :: AngleDiff(a, b) == Gap(a, b, k)
    ensures forall k :: AngleDiff(a, b) <= Gap(a, b, k)
  {
    hide AngleDiff, Gap;
    var k := FoldedTurns(a, b);
    assert AngleDiff(a, b) == Gap(a, b, k);
    forall j ensures Gap(a, b, k) <= Gap(a, b, j) {
      NoneNearer(a, b, k, j);
    }
  }

  lemma NoneNearer(a: int, b: int, k: int, j: int)
    requires Gap(a, b, k) <= 180
    ensures Gap(a, b, k) <= Gap(a, b, j)
  {
  }

  lemma FoldedTurns(a: int, b: int) returns (k: int)
    ensures 0 <= AngleDiff(a, b) <= 180 && AngleDiff(a, b) == Gap(a, b, k)
  {
    var turns := (if a >= b then a - b else b - a) / 360;
    var folded := if AngleDiff(a, b) == (if a >= b then a - b else b - a) % 360 then turns else turns + 1;
    k := if a >= b then folded else -folded;
  }

  /** The runway tagged at a heading: none when no end is within 30 degrees, and otherwise the first of the nearest
      ends, by the least difference over any number of turns. */
  ghost predicate Fits(ends: seq<RunwayEnd>, heading: int, runway: Option<string>) {
    match runway
    case None => forall m, k :: 0 <= m < |ends| ==> Gap(heading, ends[m].hdg, k) > 30
    case Some(id) => exists best, turns :: FitsAt(ends, heading, id, best, turns)
  }

  ghost predicate FitsAt(ends: seq<RunwayEnd>, heading: int, id: string, best: nat, turns: int) {
    && best < |ends| && ends[best].id == id && Gap(heading, ends[best].hdg, turns) <= 30
    && forall m, k :: 0 <= m < |ends| ==>
         && Gap(heading, ends[best].hdg, turns) <= Gap(heading, ends[m].hdg, k)
         && (m < best ==> Gap(heading, ends[best].hdg, turns) < Gap(heading, ends[m].hdg, k))
  }

  /** `best` is the first of the nearest ends among `ends[..k]`. */
  ghost predicate FirstNearest(ends: seq<RunwayEnd>, k: nat, heading: int, best: nat)
    requires k <= |ends|
  {
    && best < k
    && (forall m :: 0 <= m < k ==> AngleDiff(heading, ends[best].hdg) <= AngleDiff(heading, ends[m].hdg))
    && (forall m :: 0 <= m < best ==> AngleDiff(heading, ends[best].hdg) < AngleDiff(heading, ends[m].hdg))
  }

  function NearestIndex(ends: seq<RunwayEnd>, heading: int): (best: nat)
    requires ends != []
    ensures FirstNearest(ends, |ends|, heading, best)
  {
    var last := |ends| - 1;
    if last == 0 then 0
    else
      var best := NearestIndex(ends[..last], heading);
      if AngleDiff(heading, ends[last].hdg) < AngleDiff(heading, ends[best].hdg) then last else best
  }

  function NearestRunway(w: World, icao: string, heading: int): Option<string> {
    if icao !in w.runways || w.runways[icao] == [] then None
    else
      var ends := w.runways[icao];
      var best := NearestIndex(ends, heading);
      if AngleDiff(heading, ends[best].hdg) <= RUNWAY_TOL_DEG then Some(ends[best].id) else None
  }

  function EndsOf(w: World, icao: string): seq<RunwayEnd> {
    if icao in w.runways then w.runways[icao] else []
  }

  lemma NearestFits(ends: seq<RunwayEnd>, heading: int, best: nat)
    requires FirstNearest(ends, |ends|, heading, best)
    ensures Fits(ends, heading, if AngleDiff(heading, ends[best].hdg) <= 30 then Some(ends[best].id) else None)
  {
    hide AngleDiff, Gap;
    forall e: RunwayEnd, k: int ensures AngleDiff(heading, e.hdg) <= Gap(heading, e.hdg, k) {
      AngleDiffIsLeast(heading, e.hdg);
    }
    AngleDiffIsLeast(heading, ends[best].hdg);
    var turns :| AngleDiff(heading, ends[best].hdg) == Gap(heading, ends[best].hdg, turns);
    if AngleDiff(heading, ends[best].hdg) <= 30 {
      assert FitsAt(ends, heading, ends[best].id, best, turns);
    }
  }

  lemma RunwayFits(w: World, icao: string, heading: int)
    ensures Fits(EndsOf(w, icao), heading, NearestRunway(w, icao, heading))
  {
    hide AngleDiff, Gap;
    var ends := EndsOf(w, icao);
    if ends != [] {
      NearestFits(ends, heading, NearestIndex(ends, heading));
    }
  }

  method FindNearestRunway(ends: seq<RunwayEnd>, heading: int) returns (id: Option<string>)
    ensures Fits(ends, heading, id)
    ensures id.Some? ==> ends != [] && id.value == ends[NearestIndex(ends, heading)].id
  {
    var best: Option<(string, int)> := None;
    ghost var at: nat := 0;
    for k := 0 to |ends|
      invariant best.None? <==> k == 0
      invariant best.Some? ==> FirstNearest(ends, k, heading, at)
      invariant best.Some? ==> best.value == (ends[at].id, AngleDiff(heading, ends[at].hdg))
    {
      var e := ends[k];
      var d := AngleDiff(heading, e.hdg);
      if best.None? || d < best.value.1 {
        best := Some((e.id, d));
        at := k;
      }
    }
    if best.Some? {
      NearestFits(ends, heading, at);
      assert FirstNearest(ends, |ends|, heading, NearestIndex(ends, heading));
    }
    id := if best.Some? && best.value.1 <= RUNWAY_TOL_DEG then Some(best.value.0) else None;
  }

  // ---- One sighting of one flight --------------------------------------------------------------

  datatype Sighting<S> = Sighting(session: Option<S>, seen: bool, done: bool, legs: seq<Leg>)

  function Ignored<S>(s: Option<S>): Sighting<S> {
    Sighting(s, false, false, [])
  }

  function Aircraft(fp: FlightPlan): Option<string> {
    if fp.aircraftShort == "" then None else Some(fp.aircraftShort)
  }

  /** Slow and at its filed destination: an arrival turning round, not a departure. */
  predicate ArrivingTurnaround(w: World, snap: Snapshot, p: Pilot, arr: string) {
    p.groundspeed <= GS_STOP && arr in snap.airports && Distance(w, p, snap.airports[arr]) < 5.0
  }

  /** A genuine departure sitting at its field. */
  predicate OpensDeparture(w: World, snap: Snapshot, p: Pilot, dep: string, arr: string)
    requires dep in snap.airports
  {
    && Distance(w, p, snap.airports[dep]) <= DEP_PROX_NM
    && !(p.groundspeed > GS_STOP && p.altitude > 500)
    && !ArrivingTurnaround(w, snap, p, arr)
  }

  predicate Airborne(p: Pilot, baseAlt: int) {
    p.groundspeed > GS_STOP || p.altitude >= baseAlt + ALT_CLIMB_FT
  }

  /** The session once this sighting has started it rolling, if it does. */
  function Roll(snap: Snapshot, p: Pilot, s: DepSession): DepSession {
    if s.phase.Watching? && p.groundspeed > GS_START
    then s.(phase := Rolling, startMs := Some(snap.nowMs), baseAlt := p.altitude)
    else s
  }

  /** A very short observed roll was caught mid-taxi: time it from the first sighting. */
  function TaxiStart(nowMs: int, startMs: int, firstSeenMs: int): int {
    if nowMs - startMs < 3_000 && firstSeenMs < startMs then firstSeenMs else startMs
  }

  function DepartureLegs(w: World, snap: Snapshot, p: Pilot, fp: FlightPlan, dep: string, startMs: int): seq<Leg> {
    var dur := Truncated(snap.nowMs - startMs, 1000);
    if MIN_TAXI_SEC <= dur <= MAX_TAXI_SEC
    then [Leg(Departure, dep, p.callsign, p.cid, Aircraft(fp), NearestRunway(w, dep, p.heading),
              w.sidOf(fp.route), startMs, snap.nowMs, dur)]
    else []
  }

  function SightDeparture(w: World, snap: Snapshot, p: Pilot, s: Option<DepSession>): Sighting<DepSession> {
    if p.flightPlan.None? || p.flightPlan.value.departure == "" then Ignored(s)
    else
      var fp := p.flightPlan.value;
      var dep, arr := Upper(fp.departure), Upper(fp.arrival);
      if s.Some? && s.value.dep == dep then
        var r := Roll(snap, p, s.value);
        if r.phase.Rolling? && Airborne(p, r.baseAlt) && r.startMs.Some? then
          Sighting(Some(r), true, true,
                   DepartureLegs(w, snap, p, fp, dep, TaxiStart(snap.nowMs, r.startMs.value, r.firstSeenMs)))
        else Sighting(Some(r), true, false, [])
      else if dep in snap.airports && OpensDeparture(w, snap, p, dep, arr) then
        Sighting(Some(DepSession(dep, Watching, snap.nowMs, None, p.altitude)), true, false, [])
      else Ignored(s)
  }

  function ArrivalLegs(w: World, snap: Snapshot, p: Pilot, fp: FlightPlan, s: ArrSession, entryMs: int): seq<Leg> {
    var dur := Truncated(snap.nowMs - entryMs, 1000);
    if MIN_TRANSIT_SEC <= dur <= MAX_TRANSIT_SEC
    then [Leg(Arrival, s.arr, p.callsign, p.cid, Aircraft(fp), NearestRunway(w, s.arr, s.lastHdg),
              w.starOf(fp.route, s.arr), entryMs, snap.nowMs, dur)]
    else []
  }

  function SightArrival(w: World, snap: Snapshot, p: Pilot, s: Option<ArrSession>): Sighting<ArrSession> {
    if p.flightPlan.None? then Ignored(s)
    else
      var fp := p.flightPlan.value;
      var arr := Upper(fp.arrival);
      if arr !in snap.airports then Ignored(s)
      else
        var dist := Distance(w, p, snap.airports[arr]);
        if s.Some? && s.value.arr == arr then
          if p.groundspeed > GS_STOP then
            var flown := s.value.(lastHdg := p.heading);
            Sighting(Some(if flown.entryMs.None? && dist <= ENTRY_NM then flown.(entryMs := Some(snap.nowMs)) else flown),
                     true, false, [])
          else if s.value.entryMs.Some? && p.groundspeed < LAND_GS && dist <= LAND_PROX_NM then
            Sighting(s, true, true, ArrivalLegs(w, snap, p, fp, s.value, s.value.entryMs.value))
          else Sighting(s, true, false, [])
        else if p.groundspeed > GS_STOP && ENTRY_NM < dist <= TRACK_START_NM then
          Sighting(Some(ArrSession(arr, snap.nowMs, None, p.heading)), true, false, [])
        else Ignored(s)
  }

  // ---- One flight through one snapshot ---------------------------------------------------------

  /** One flight's sessions between snapshots. */
  datatype Flight = Flight(dep: Option<DepSession>, arr: Option<ArrSession>)

  /** One flight part-way through a snapshot: its sessions, marks and legs so far. */
  datatype Pass = Pass(
    dep: Option<DepSession>, depSeen: bool, depDone: bool,
    arr: Option<ArrSession>, arrSeen: bool, arrDone: bool, legs: seq<Leg>)

  function Sight(w: World, snap: Snapshot, pass: Pass, p: Pilot): Pass {
    var d := SightDeparture(w, snap, p, pass.dep);
    var a := SightArrival(w, snap, p, pass.arr);
    Pass(d.session, pass.depSeen || d.seen, pass.depDone || d.done,
         a.session, pass.arrSeen || a.seen, pass.arrDone || a.done,
         pass.legs + d.legs + a.legs)
  }

  /** The sightings of one flight, in the order the snapshot lists them. */
  function FlightPass(w: World, snap: Snapshot, f: Flight, sightings: seq<Pilot>): Pass {
    if sightings == [] then Pass(f.dep, false, false, f.arr, false, false, [])
    else
      var last := |sightings| - 1;
      Sight(w, snap, FlightPass(w, snap, f, sightings[..last]), sightings[last])
  }

  predicate Fresh(nowMs: int, sinceMs: int) {
    nowMs - sinceMs < SESSION_MAX_AGE_MS
  }

  /** Sessions kept after the snapshot: not completed, sighted in it, and not too old. */
  function Settle(pass: Pass, nowMs: int): Flight {
    Flight(
      if pass.dep.Some? && !pass.depDone && pass.depSeen && Fresh(nowMs, pass.dep.value.firstSeenMs)
      then pass.dep else None,
      if pass.arr.Some? && !pass.arrDone && pass.arrSeen && Fresh(nowMs, pass.arr.value.firstMs)
      then pass.arr else None)
  }

  /** The sightings of callsign `c` in `pilots`. */
  function Only(pilots: seq<Pilot>, c: string): (r: seq<Pilot>)
    ensures forall p :: p in r <==> p in pilots && p.callsign == c
  {
    if pilots == [] then []
    else
      var last := |pilots| - 1;
      Only(pilots[..last], c) + if pilots[last].callsign == c then [pilots[last]] else []
  }

  function LegsOf(legs: seq<Leg>, c: string): (r: seq<Leg>)
    ensures forall l :: l in r <==> l in legs && l.callsign == c
  {
    if legs == [] then []
    else
      var last := |legs| - 1;
      LegsOf(legs[..last], c) + if legs[last].callsign == c then [legs[last]] else []
  }

  // ---- Every flight through one snapshot -------------------------------------------------------

  datatype Tracker = Tracker(dep: map<string, DepSession>, arr: map<string, ArrSession>)

  function FlightOf(t: Tracker, c: string): Flight {
    Flight(Get(t.dep, c), Get(t.arr, c))
  }

  function PassOf(w: World, snap: Snapshot, t: Tracker, pilots: seq<Pilot>, c: string): Pass {
    FlightPass(w, snap, FlightOf(t, c), Only(pilots, c))
  }

  /** Every leg of the snapshot, in the order the pilots complete them. */
  function Emitted(w: World, snap: Snapshot, t: Tracker, pilots: seq<Pilot>): seq<Leg> {
    if pilots == [] then []
    else
      var last := |pilots| - 1;
      var p := pilots[last];
      var before := PassOf(w, snap, t, pilots[..last], p.callsign);
      Emitted(w, snap, t, pilots[..last])
      + SightDeparture(w, snap, p, before.dep).legs + SightArrival(w, snap, p, before.arr).legs
  }

  /** The collector's state after a snapshot: flight by flight, whatever else the snapshot holds. */
  function Advance(w: World, snap: Snapshot, t: Tracker): Tracker {
    var known := t.dep.Keys + t.arr.Keys + set p | p in snap.pilots :: p.callsign;
    Tracker(
      map c | c in known && AdvanceFlight(w, snap, t, c).dep.Some? :: AdvanceFlight(w, snap, t, c).dep.value,
      map c | c in known && AdvanceFlight(w, snap, t, c).arr.Some? :: AdvanceFlight(w, snap, t, c).arr.value)
  }

  function AdvanceFlight(w: World, snap: Snapshot, t: Tracker, c: string): Flight {
    Settle(PassOf(w, snap, t, snap.pilots, c), snap.nowMs)
  }

  class DelayState {
    var dep: map<string, DepSession>
    var arr: map<string, ArrSession>

    function State(): Tracker
      reads this
    {
      Tracker(dep, arr)
    }

    constructor ()
      ensures State() == Tracker(map[], map[])
    {
      dep, arr := map[], map[];
    }

    /** The departure half of one pilot's turn. */
    method SightDep(w: World, snap: Snapshot, p: Pilot) returns (seen: bool, done: bool, legs: seq<Leg>)
      modifies this`dep
      ensures SightDeparture(w, snap, p, Get(old(dep), p.callsign)) == Sighting(Get(dep, p.callsign), seen, done, legs)
      ensures forall c :: c != p.callsign ==> Get(dep, c) == Get(old(dep), c)
    {
      seen, done, legs := false, false, [];
      if p.flightPlan.None? {
        return;
      }
      var fp := p.flightPlan.value;
      var gs, alt := p.groundspeed, p.altitude;
      var field, dest := Upper(fp.departure), Upper(fp.arrival);
      if field == "" {
        return;
      }
      if p.callsign in dep && dep[p.callsign].dep == field {
        var s := dep[p.callsign];
        seen := true;
        if s.phase == Watching && gs > GS_START {
          s := s.(phase := Rolling, startMs := Some(snap.nowMs), baseAlt := alt);
        }
        dep := dep[p.callsign := s];
        if s.phase == Rolling && (gs > GS_STOP || alt >= s.baseAlt + ALT_CLIMB_FT) && s.startMs.Some? {
          var start := s.startMs.value;
          if snap.nowMs - start < 3_000 && s.firstSeenMs < start {
            start := s.firstSeenMs;
          }
          var dur := Truncated(snap.nowMs - start, 1000);
          if MIN_TAXI_SEC <= dur <= MAX_TAXI_SEC {
            legs := [Leg(Departure, field, p.callsign, p.cid, Aircraft(fp), NearestRunway(w, field, p.heading),
                         w.sidOf(fp.route), start, snap.nowMs, dur)];
          }
          done := true;
        }
      } else if field in snap.airports {
        var arrivingTurnaround :=
          gs <= GS_STOP && dest in snap.airports && Distance(w, p, snap.airports[dest]) < 5.0;
        if Distance(w, p, snap.airports[field]) <= DEP_PROX_NM && !(gs > GS_STOP && alt > 500)
          && !arrivingTurnaround
        {
          dep := dep[p.callsign := DepSession(field, Watching, snap.nowMs, None, alt)];
          seen := true;
        }
      }
    }

    /** The arrival half of one pilot's turn. */
    method SightArr(w: World, snap: Snapshot, p: Pilot) returns (seen: bool, done: bool, legs: seq<Leg>)
      modifies this`arr
      ensures SightArrival(w, snap, p, Get(old(arr), p.callsign)) == Sighting(Get(arr, p.callsign), seen, done, legs)
      ensures forall c :: c != p.callsign ==> Get(arr, c) == Get(old(arr), c)
    {
      seen, done, legs := false, false, [];
      if p.flightPlan.None? {
        return;
      }
      var fp, gs := p.flightPlan.value, p.groundspeed;
      var field := Upper(fp.arrival);
      if field !in snap.airports {
        return;
      }
      var dist := Distance(w, p, snap.airports[field]);
      if p.callsign in arr && arr[p.callsign].arr == field {
        var s := arr[p.callsign];
        seen := true;
        if gs > GS_STOP {
          s := s.(lastHdg := p.heading);
          if s.entryMs.None? && dist <= ENTRY_NM {
            s := s.(entryMs := Some(snap.nowMs));
          }
          arr := arr[p.callsign := s];
        } else if s.entryMs.Some? && gs < LAND_GS && dist <= LAND_PROX_NM {
          var dur := Truncated(snap.nowMs - s.entryMs.value, 1000);
          if MIN_TRANSIT_SEC <= dur <= MAX_TRANSIT_SEC {
            legs := [Leg(Arrival, field, p.callsign, p.cid, Aircraft(fp), NearestRunway(w, field, s.lastHdg),
                         w.starOf(fp.route, field), s.entryMs.value, snap.nowMs, dur)];
          }
          done := true;
        }
      } else if gs > GS_STOP && dist > ENTRY_NM && dist <= TRACK_START_NM {
        arr := arr[p.callsign := ArrSession(field, snap.nowMs, None, p.heading)];
        seen := true;
      }
    }

    /** Advance the state machine with a fresh snapshot; returns the completed legs. */
    method Process(w: World, snap: Snapshot) returns (out: seq<Leg>)
      modifies this
      ensures State() == Advance(w, snap, old(State()))
      ensures out == Emitted(w, snap, old(State()), snap.pilots)
    {
      var seenDep, depDone, seenArr, arrDone;
      seenDep, depDone, seenArr, arrDone, out := SightAll(w, snap);
      ghost var st := State();
      DropCompleted(depDone, arrDone);
      dep := map cs | cs in dep && cs in seenDep && snap.nowMs - dep[cs].firstSeenMs < SESSION_MAX_AGE_MS :: dep[cs];
      arr := map cs | cs in arr && cs in seenArr && snap.nowMs - arr[cs].firstMs < SESSION_MAX_AGE_MS :: arr[cs];
      Settled(w, snap, old(State()), st, Marks(seenDep, depDone, seenArr, arrDone), State());
    }

    method DropCompleted(depDone: seq<string>, arrDone: seq<string>)
      modifies this
      ensures dep == old(dep) - Members(depDone) && arr == old(arr) - Members(arrDone)
    {
      for k := 0 to |depDone|
        invariant arr == old(arr) && dep == old(dep) - Members(depDone[..k])
      {
        dep := dep - {depDone[k]};
        assert depDone[..k + 1] == depDone[..k] + [depDone[k]];
      }
      assert depDone[..|depDone|] == depDone;
      for k := 0 to |arrDone|
        invariant dep == old(dep) - Members(depDone) && arr == old(arr) - Members(arrDone[..k])
      {
        arr := arr - {arrDone[k]};
        assert arrDone[..k + 1] == arrDone[..k] + [arrDone[k]];
      }
      assert arrDone[..|arrDone|] == arrDone;
    }

    /** The loop over the snapshot's pilots, before any session is dropped. */
    method SightAll(w: World, snap: Snapshot)
      returns (seenDep: set<string>, depDone: seq<string>, seenArr: set<string>, arrDone: seq<string>, out: seq<Leg>)
      modifies this
      ensures Swept(w, snap, old(State()), snap.pilots, State(), Marks(seenDep, depDone, seenArr, arrDone))
      ensures out == Emitted(w, snap, old(State()), snap.pilots)
    {
      hide SightDeparture, SightArrival, FlightPass, Emitted;
      ghost var t := State();
      var pilots := snap.pilots;
      seenDep, depDone, seenArr, arrDone, out := {}, [], {}, [], [];
      SweptStart(w, snap, t);
      for k := 0 to |pilots|
        invariant Swept(w, snap, t, pilots[..k], State(), Marks(seenDep, depDone, seenArr, arrDone))
        invariant out == Emitted(w, snap, t, pilots[..k])
      {
        var p := pilots[k];
        ghost var (st, marks) := (State(), Marks(seenDep, depDone, seenArr, arrDone));
        var seenD, doneD, legsD := SightDep(w, snap, p);
        var seenA, doneA, legsA := SightArr(w, snap, p);
        if seenD { seenDep := seenDep + {p.callsign}; }
        if doneD { depDone := depDone + [p.callsign]; }
        if seenA { seenArr := seenArr + {p.callsign}; }
        if doneA { arrDone := arrDone + [p.callsign]; }
        out := out + legsD + legsA;
        SweptStep(w, snap, t, pilots[..k], p, st, marks, State(), Marks(seenDep, depDone, seenArr, arrDone));
        assert pilots[..k + 1] == pilots[..k] + [p];
      }
      assert pilots[..|pilots|] == pilots;
    }
  }

  /** The callsigns a pass has marked so far. */
  datatype Marks = Marks(seenDep: set<string>, depDone: seq<string>, seenArr: set<string>, arrDone: seq<string>)

  function Members(s: seq<string>): set<string> {
    set c | c in s
  }

  /** The shared maps and marks agree with flight `c`'s own pass. */
  ghost predicate Agrees(pass: Pass, c: string, st: Tracker, marks: Marks) {
    && Get(st.dep, c) == pass.dep && (c in marks.seenDep <==> pass.depSeen) && (c in marks.depDone <==> pass.depDone)
    && Get(st.arr, c) == pass.arr && (c in marks.seenArr <==> pass.arrSeen) && (c in marks.arrDone <==> pass.arrDone)
  }

  ghost predicate Swept(w: World, snap: Snapshot, t: Tracker, pilots: seq<Pilot>, st: Tracker, marks: Marks) {
    forall c :: Agrees(PassOf(w, snap, t, pilots, c), c, st, marks)
  }

  lemma OnlyLast(pilots: seq<Pilot>, p: Pilot, c: string)
    ensures Only(pilots + [p], c) == if p.callsign == c then Only(pilots, c) + [p] else Only(pilots, c)
  {
    assert (pilots + [p])[..|pilots|] == pilots;
  }

  lemma PassOfLast(w: World, snap: Snapshot, t: Tracker, pilots: seq<Pilot>, p: Pilot, c: string)
    ensures var before := PassOf(w, snap, t, pilots, c);
      PassOf(w, snap, t, pilots + [p], c) == if p.callsign == c then Sight(w, snap, before, p) else before
  {
    OnlyLast(pilots, p, c);
    var s := Only(pilots + [p], c);
    if p.callsign == c {
      assert s[..|s| - 1] == Only(pilots, c);
    }
  }

  lemma SweptStart(w: World, snap: Snapshot, t: Tracker)
    ensures Swept(w, snap, t, [], t, Marks({}, [], {}, []))
    ensures Emitted(w, snap, t, []) == []
  {
  }

  lemma SweptStep(
      w: World, snap: Snapshot, t: Tracker, pilots: seq<Pilot>, p: Pilot,
      st: Tracker, marks: Marks, st': Tracker, marks': Marks)
    requires Swept(w, snap, t, pilots, st, marks)
    requires forall c :: c != p.callsign ==> FlightOf(st', c) == FlightOf(st, c)
    requires
      var d := SightDeparture(w, snap, p, Get(st.dep, p.callsign));
      var a := SightArrival(w, snap, p, Get(st.arr, p.callsign));
      && Get(st'.dep, p.callsign) == d.session && Get(st'.arr, p.callsign) == a.session
      && marks' == Marks(
           if d.seen then marks.seenDep + {p.callsign} else marks.seenDep,
           if d.done then marks.depDone + [p.callsign] else marks.depDone,
           if a.seen then marks.seenArr + {p.callsign} else marks.seenArr,
           if a.done then marks.arrDone + [p.callsign] else marks.arrDone)
    ensures Swept(w, snap, t, pilots + [p], st', marks')
    ensures
      Emitted(w, snap, t, pilots + [p])
      == Emitted(w, snap, t, pilots) + SightDeparture(w, snap, p, Get(st.dep, p.callsign)).legs
         + SightArrival(w, snap, p, Get(st.arr, p.callsign)).legs
  {
    hide SightDeparture, SightArrival, PassOf, Emitted, Agrees;
    EmittedLast(w, snap, t, pilots, p);
    AgreesOn(PassOf(w, snap, t, pilots, p.callsign), p.callsign, st, marks);
    forall c ensures Agrees(PassOf(w, snap, t, pilots + [p], c), c, st', marks') {
      PassOfLast(w, snap, t, pilots, p, c);
      assert Agrees(PassOf(w, snap, t, pilots, c), c, st, marks);
      assert c != p.callsign ==> FlightOf(st', c) == FlightOf(st, c);
      AgreesStep(w, snap, PassOf(w, snap, t, pilots, c), p, c, st, marks, st', marks');
    }
  }

  lemma EmittedLast(w: World, snap: Snapshot, t: Tracker, pilots: seq<Pilot>, p: Pilot)
    ensures var before := PassOf(w, snap, t, pilots, p.callsign);
      Emitted(w, snap, t, pilots + [p])
      == Emitted(w, snap, t, pilots) + SightDeparture(w, snap, p, before.dep).legs + SightArrival(w, snap, p, before.arr).legs
  {
    hide SightDeparture, SightArrival, PassOf;
    assert (pilots + [p])[..|pilots|] == pilots;
  }

  lemma AgreesOn(pass: Pass, c: string, st: Tracker, marks: Marks)
    requires Agrees(pass, c, st, marks)
    ensures Get(st.dep, c) == pass.dep && Get(st.arr, c) == pass.arr
  {
  }

  lemma AgreesStep(
      w: World, snap: Snapshot, pass: Pass, p: Pilot, c: string, st: Tracker, marks: Marks, st': Tracker, marks': Marks)
    requires Agrees(pass, c, st, marks) && (c != p.callsign ==> FlightOf(st', c) == FlightOf(st, c))
    requires
      var d := SightDeparture(w, snap, p, Get(st.dep, p.callsign));
      var a := SightArrival(w, snap, p, Get(st.arr, p.callsign));
      && Get(st'.dep, p.callsign) == d.session && Get(st'.arr, p.callsign) == a.session
      && marks' == Marks(
           if d.seen then marks.seenDep + {p.callsign} else marks.seenDep,
           if d.done then marks.depDone + [p.callsign] else marks.depDone,
           if a.seen then marks.seenArr + {p.callsign} else marks.seenArr,
           if a.done then marks.arrDone + [p.callsign] else marks.arrDone)
    ensures Agrees(if p.callsign == c then Sight(w, snap, pass, p) else pass, c, st', marks')
  {
    hide SightDeparture, SightArrival;
  }

  /** Dropping completed, vanished and lingering sessions is what `Advance` does flight by flight. */
  lemma Settled(w: World, snap: Snapshot, t: Tracker, st: Tracker, marks: Marks, st': Tracker)
    requires Swept(w, snap, t, snap.pilots, st, marks)
    requires forall c :: FlightOf(st', c) == Kept(snap, st, marks, c)
    ensures st' == Advance(w, snap, t)
  {
    var adv := Advance(w, snap, t);
    forall c ensures FlightOf(st', c) == FlightOf(adv, c) {
      assert Agrees(PassOf(w, snap, t, snap.pilots, c), c, st, marks);
      AdvanceAt(w, snap, t, c);
      assert FlightOf(st', c) == Kept(snap, st, marks, c);
    }
    forall c ensures Get(st'.dep, c) == Get(adv.dep, c) { assert FlightOf(st', c) == FlightOf(adv, c); }
    forall c ensures Get(st'.arr, c) == Get(adv.arr, c) { assert FlightOf(st', c) == FlightOf(adv, c); }
    SameEntries(st'.dep, adv.dep);
    SameEntries(st'.arr, adv.arr);
  }

  function Kept(snap: Snapshot, st: Tracker, marks: Marks, c: string): Flight {
    Flight(
      if c in st.dep && c !in marks.depDone && c in marks.seenDep && Fresh(snap.nowMs, st.dep[c].firstSeenMs)
      then Some(st.dep[c]) else None,
      if c in st.arr && c !in marks.arrDone && c in marks.seenArr && Fresh(snap.nowMs, st.arr[c].firstMs)
      then Some(st.arr[c]) else None)
  }

  lemma AdvanceAt(w: World, snap: Snapshot, t: Tracker, c: string)
    ensures FlightOf(Advance(w, snap, t), c) == AdvanceFlight(w, snap, t, c)
  {
    var sightings := Only(snap.pilots, c);
    if sightings != [] {
      assert sightings[0] in snap.pilots && sightings[0].callsign == c;
    }
  }
}
