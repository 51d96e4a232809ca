/** Whole runs of the delay-leg collector: any number of snapshots, any mix of flights in each. */
module DelayRuns {
  import opened Wrappers
  import opened Delays

  datatype Outcome = Outcome(state: Tracker, legs: seq<Leg>)

  function Run(w: World, snaps: seq<Snapshot>): Outcome {
    if snaps == [] then Outcome(Tracker(map[], map[]), [])
    else
      var last := |snaps| - 1;
      var before := Run(w, snaps[..last]);
      Outcome(Advance(w, snaps[last], before.state),
              before.legs + Emitted(w, snaps[last], before.state, snaps[last].pilots))
  }

  /** The collector's loop over the snapshots it is served. */
  method Collect(w: World, snaps: seq<Snapshot>) returns (state: DelayState, legs: seq<Leg>)
    ensures fresh(state) && Outcome(state.State(), legs) == Run(w, snaps)
  {
    state := new DelayState();
    legs := [];
    for k := 0 to |snaps|
      invariant fresh(state) && Outcome(state.State(), legs) == Run(w, snaps[..k])
    {
      var out := state.Process(w, snaps[k]);
      legs := legs + out;
      assert snaps[..k + 1][..k] == snaps[..k];
    }
    assert snaps[..|snaps|] == snaps;
  }

  // ---- Per-callsign independence ---------------------------------------------------------------

  /** A snapshot with every flight but `c` taken out. */
  function Alone(snap: Snapshot, c: string): Snapshot {
    snap.(pilots := Only(snap.pilots, c))
  }

  function AllAlone(snaps: seq<Snapshot>, c: string): (r: seq<Snapshot>)
    ensures |r| == |snaps|
    ensures forall k :: 0 <= k < |snaps| ==> r[k] == Alone(snaps[k], c)
  {
    if snaps == [] then [] else AllAlone(snaps[..|snaps| - 1], c) + [Alone(snaps[|snaps| - 1], c)]
  }

  /** The legs and sessions of `c` are exactly those of the run that never saw another flight, and that
      run holds nothing of any other. */
  lemma {:induction false} Independence(w: World, snaps: seq<Snapshot>, c: string)
    ensures
      var full, alone := Run(w, snaps), Run(w, AllAlone(snaps, c));
      && LegsOf(full.legs, c) == alone.legs
      && FlightOf(full.state, c) == FlightOf(alone.state, c)
      && (forall d :: d != c ==> FlightOf(alone.state, d) == Flight(None, None))
  {
    if snaps != [] {
      var last := |snaps| - 1;
      var snap, rest := snaps[last], snaps[..last];
      var full, alone := Run(w, rest), Run(w, AllAlone(rest, c));
      Independence(w, rest, c);
      assert AllAlone(snaps, c)[..last] == AllAlone(rest, c);
      OnlyTwice(snap.pilots, c);
      EmittedAlone(w, snap, full.state, snap.pilots, c);
      EmittedIsPass(w, Alone(snap, c), alone.state, Only(snap.pilots, c), c);
      LegsOfSum(full.legs, Emitted(w, snap, full.state, snap.pilots), c);
      hide FlightPass, Emitted;
      PassIgnoresOthers(w, snap, FlightOf(full.state, c), Only(snap.pilots, c), c);
      AdvanceAt(w, snap, full.state, c);
      forall d ensures FlightOf(Advance(w, Alone(snap, c), alone.state), d)
                       == AdvanceFlight(w, Alone(snap, c), alone.state, d) {
        AdvanceAt(w, Alone(snap, c), alone.state, d);
      }
      forall d | d != c ensures AdvanceFlight(w, Alone(snap, c), alone.state, d) == Flight(None, None) {
        assert Only(Only(snap.pilots, c), d) == [];
      }
    }
  }

  lemma {:induction false} OnlyTwice(pilots: seq<Pilot>, c: string)
    ensures Only(Only(pilots, c), c) == Only(pilots, c)
    ensures forall d :: d != c ==> Only(Only(pilots, c), d) == []
  {
    var r := Only(pilots, c);
    AllOnly(r, c);
    forall d | d != c ensures Only(r, d) == [] {
      NoneOnly(r, d);
    }
  }

  lemma {:induction false} NoneOnly(pilots: seq<Pilot>, d: string)
    requires forall p :: p in pilots ==> p.callsign != d
    ensures Only(pilots, d) == []
  {
    if pilots != [] {
      var front, p := pilots[..|pilots| - 1], pilots[|pilots| - 1];
      assert pilots == front + [p];
      hide Only;
      NoneOnly(front, d);
      OnlyLast(front, p, d);
    }
  }

  lemma {:induction false} AllOnly(pilots: seq<Pilot>, c: string)
    requires forall p :: p in pilots ==> p.callsign == c
    ensures Only(pilots, c) == pilots
  {
    if pilots != [] {
      var front, p := pilots[..|pilots| - 1], pilots[|pilots| - 1];
      assert pilots == front + [p];
      hide Only;
      AllOnly(front, c);
      OnlyLast(front, p, c);
    }
  }

  lemma LegsOfLast(legs: seq<Leg>, l: Leg, c: string)
    ensures LegsOf(legs + [l], c) == if l.callsign == c then LegsOf(legs, c) + [l] else LegsOf(legs, c)
  {
    assert (legs + [l])[..|legs|] == legs;
  }

  lemma {:induction false} LegsOfSum(a: seq<Leg>, b: seq<Leg>, c: string)
    ensures LegsOf(a + b, c) == LegsOf(a, c) + LegsOf(b, c)
  {
    hide LegsOf;
    if b == [] {
      NoLegsOf(c);
      assert a + b == a;
    } else {
      var front, l := b[..|b| - 1], b[|b| - 1];
      assert b == front + [l] && a + b == a + front + [l];
      LegsOfSum(a, front, c);
      LegsOfLast(a + front, l, c);
      LegsOfLast(front, l, c);
    }
  }

  /** What a sighting does depends on the snapshot's time and airports, not on who else is in it. */
  lemma SightIgnoresOthers(w: World, snap: Snapshot, snap': Snapshot, pass: Pass, p: Pilot)
    requires snap' == snap.(pilots := snap'.pilots)
    ensures Sight(w, snap', pass, p) == Sight(w, snap, pass, p)
  {
    hide SightDeparture, SightArrival;
    DepartureIgnoresOthers(w, snap, snap', p, pass.dep);
    ArrivalIgnoresOthers(w, snap, snap', p, pass.arr);
  }

  lemma DepartureIgnoresOthers(w: World, snap: Snapshot, snap': Snapshot, p: Pilot, s: Option<DepSession>)
    requires snap' == snap.(pilots := snap'.pilots)
    ensures SightDeparture(w, snap', p, s) == SightDeparture(w, snap, p, s)
  {
    hide NearestRunway;
  }

  lemma ArrivalIgnoresOthers(w: World, snap: Snapshot, snap': Snapshot, p: Pilot, s: Option<ArrSession>)
    requires snap' == snap.(pilots := snap'.pilots)
    ensures SightArrival(w, snap', p, s) == SightArrival(w, snap, p, s)
  {
    hide NearestRunway;
  }

  lemma {:induction false} PassIgnoresOthers(w: World, snap: Snapshot, f: Flight, sightings: seq<Pilot>, c: string)
    ensures FlightPass(w, Alone(snap, c), f, sightings) == FlightPass(w, snap, f, sightings)
  {
    hide Sight;
    if sightings != [] {
      var last := |sightings| - 1;
      PassIgnoresOthers(w, snap, f, sightings[..last], c);
      SightIgnoresOthers(w, snap, Alone(snap, c), FlightPass(w, snap, f, sightings[..last]), sightings[last]);
    }
  }

  lemma SightingLegs(w: World, snap: Snapshot, p: Pilot, d: Option<DepSession>, a: Option<ArrSession>, c: string)
    ensures
      var (dl, al) := (SightDeparture(w, snap, p, d).legs, SightArrival(w, snap, p, a).legs);
      && LegsOf(dl, c) == (if p.callsign == c then dl else [])
      && LegsOf(al, c) == (if p.callsign == c then al else [])
  {
    hide SightDeparture, SightArrival, LegsOf;
    LegsAreOwn(w, snap, p, d, a);
    ShortLegsOf(SightDeparture(w, snap, p, d).legs, p.callsign, c);
    ShortLegsOf(SightArrival(w, snap, p, a).legs, p.callsign, c);
  }

  /** A sighting completes at most one leg of each kind, and only for its own flight. */
  lemma LegsAreOwn(w: World, snap: Snapshot, p: Pilot, d: Option<DepSession>, a: Option<ArrSession>)
    ensures var legs := SightDeparture(w, snap, p, d).legs; |legs| <= 1 && forall l :: l in legs ==> l.callsign == p.callsign
    ensures var legs := SightArrival(w, snap, p, a).legs; |legs| <= 1 && forall l :: l in legs ==> l.callsign == p.callsign
  {
    hide NearestRunway;
  }

  lemma ShortLegsOf(legs: seq<Leg>, owner: string, c: string)
    requires |legs| <= 1 && forall l :: l in legs ==> l.callsign == owner
    ensures LegsOf(legs, c) == if owner == c then legs else []
  {
    if legs != [] {
      assert legs[0] in legs && legs[..0] == [];
    }
  }

  /** The legs of `c` among a snapshot's legs are those of its own pass. */
  lemma {:induction false} EmittedAlone(w: World, snap: Snapshot, t: Tracker, pilots: seq<Pilot>, c: string)
    ensures LegsOf(Emitted(w, snap, t, pilots), c) == PassOf(w, snap, t, pilots, c).legs
  {
    hide SightDeparture, SightArrival, LegsOf;
    if pilots == [] {
      assert LegsOf([], c) == [] by { NoLegsOf(c); }
    } else {
      var last := |pilots| - 1;
      var p, rest := pilots[last], pilots[..last];
      EmittedAlone(w, snap, t, rest, c);
      assert rest + [p] == pilots;
      PassOfLast(w, snap, t, rest, p, c);
      var before := PassOf(w, snap, t, rest, p.callsign);
      var d, a := SightDeparture(w, snap, p, before.dep).legs, SightArrival(w, snap, p, before.arr).legs;
      LegsOfSum(Emitted(w, snap, t, rest) + d, a, c);
      LegsOfSum(Emitted(w, snap, t, rest), d, c);
      SightingLegs(w, snap, p, before.dep, before.arr, c);
    }
  }

  lemma NoLegsOf(c: string)
    ensures LegsOf([], c) == []
  {
  }

  lemma EmittedIsPass(w: World, snap: Snapshot, t: Tracker, pilots: seq<Pilot>, c: string)
    requires forall p :: p in pilots ==> p.callsign == c
    ensures Emitted(w, snap, t, pilots) == PassOf(w, snap, t, pilots, c).legs
  {
    EmittedAlone(w, snap, t, pilots, c);
    EmittedOwners(w, snap, t, pilots, c);
    AllLegsOf(Emitted(w, snap, t, pilots), c);
  }

  lemma {:induction false} EmittedOwners(w: World, snap: Snapshot, t: Tracker, pilots: seq<Pilot>, c: string)
    requires forall p :: p in pilots ==> p.callsign == c
    ensures forall l :: l in Emitted(w, snap, t, pilots) ==> l.callsign == c
  {
    hide SightDeparture, SightArrival;
    if pilots != [] {
      var last := |pilots| - 1;
      EmittedOwners(w, snap, t, pilots[..last], c);
      var before := PassOf(w, snap, t, pilots[..last], pilots[last].callsign);
      SightingLegs(w, snap, pilots[last], before.dep, before.arr, c);
    }
  }

  lemma {:induction false} AllLegsOf(legs: seq<Leg>, c: string)
    requires forall l :: l in legs ==> l.callsign == c
    ensures LegsOf(legs, c) == legs
  {
    hide LegsOf;
    if legs == [] {
      NoLegsOf(c);
    } else {
      var front, l := legs[..|legs| - 1], legs[|legs| - 1];
      assert legs == front + [l];
      AllLegsOf(front, c);
      LegsOfLast(front, l, c);
    }
  }
}
