/** Every departure leg of a flight sighted once in each snapshot: exactly when a session is held, exactly when
    a further leg is recorded, and a run that records two for one flight. */
module DelayDepartures {
  import opened Wrappers
  import opened Text
  import opened Delays
  import opened DelayRuns
  import opened DelayWitness
  import opened DelayComplete
  import Openings

  // ---- What the sightings show -----------------------------------------------------------------

  /** From snapshot `a` on, `c` is sighted exactly once in each, as `ps[m]`, filing `field`. */
  ghost predicate SightedOnce(kind: Kind, snaps: seq<Snapshot>, ps: seq<Pilot>, c: string, field: string, a: nat) {
    && |ps| == |snaps|
    && forall m :: a <= m < |snaps| ==> Only(snaps[m].pilots, c) == [ps[m]] && Filed(kind, snaps[m], ps[m], c, field)
  }

  /** The first sighting after `i`, and before `m`, to roll. */
  function FirstRoll(ps: seq<Pilot>, i: nat, m: nat): (j: Option<nat>)
    requires m <= |ps|
    ensures j.Some? ==> i < j.value < m && ps[j.value].groundspeed > 7
    ensures forall x :: i < x < (if j.Some? then j.value else m) ==> ps[x].groundspeed <= 7
    decreases m
  {
    if m <= i + 1 then None
    else
      var j := FirstRoll(ps, i, m - 1);
      if j.Some? then j else if ps[m - 1].groundspeed > 7 then Some(m - 1) else None
  }

  /** Airborne at `x`, on the altitude of the first roll since `i`. */
  predicate Lifts(ps: seq<Pilot>, i: nat, x: nat)
    requires x < |ps|
  {
    var j := FirstRoll(ps, i, x + 1);
    j.Some? && (ps[x].groundspeed > 60 || ps[x].altitude >= ps[j.value].altitude + 100)
  }

  /** A session opened at `i` is over at `x`: the flight has lifted off, or it is three hours old. */
  predicate Over(snaps: seq<Snapshot>, ps: seq<Pilot>, i: nat, x: nat)
    requires i < |snaps| == |ps| && x < |ps|
  {
    Lifts(ps, i, x) || snaps[x].nowMs - snaps[i].nowMs >= 10_800_000
  }

  /** The sightings that can open a session. */
  ghost function Opens(w: World, snaps: seq<Snapshot>, ps: seq<Pilot>, c: string, dep: string): nat -> bool {
    (x: nat) => x < |snaps| && x < |ps| && AtField(w, snaps[x], ps[x], c, dep)
  }

  /** Where the session that a sighting opened is over. */
  ghost function Ends(snaps: seq<Snapshot>, ps: seq<Pilot>): (nat, nat) -> bool {
    (i: nat, x: nat) => i < |snaps| == |ps| && x < |ps| && Over(snaps, ps, i, x)
  }

  /** The sighting from `a` on that opened the session going on before sighting `m`. */
  ghost function Opened(
      w: World, snaps: seq<Snapshot>, ps: seq<Pilot>, c: string, dep: string, a: nat, m: nat): (o: Option<nat>)
    requires m <= |snaps| == |ps|
    ensures o.Some? ==> a <= o.value < m && AtField(w, snaps[o.value], ps[o.value], c, dep)
  {
    Openings.Opened(Opens(w, snaps, ps, c, dep), Ends(snaps, ps), a, m)
  }

  lemma OpensNext(w: World, snaps: seq<Snapshot>, ps: seq<Pilot>, c: string, dep: string, a: nat, m: nat)
    requires a <= m < |snaps| == |ps|
    ensures
      var (o, p) := (Opened(w, snaps, ps, c, dep, a, m), Opened(w, snaps, ps, c, dep, a, m + 1));
      p == if o.Some? then (if Over(snaps, ps, o.value, m) then None else o)
           else if AtField(w, snaps[m], ps[m], c, dep) then Some(m)
           else None
  {
    hide AtField, Over;
    Openings.Next(Opens(w, snaps, ps, c, dep), Ends(snaps, ps), a, m);
  }

  // ---- Which session is held -------------------------------------------------------------------

  function SessionOf(snaps: seq<Snapshot>, ps: seq<Pilot>, dep: string, i: nat, j: Option<nat>): DepSession
    requires i < |snaps| == |ps| && (j.Some? ==> j.value < |snaps|)
  {
    if j.None? then DepSession(dep, Watching, snaps[i].nowMs, None, ps[i].altitude)
    else DepSession(dep, Rolling, snaps[i].nowMs, Some(snaps[j.value].nowMs), ps[j.value].altitude)
  }

  /** The sessions that the sightings up to `m` amount to. */
  ghost function Held(
      w: World, snaps: seq<Snapshot>, ps: seq<Pilot>, c: string, dep: string, a: nat, m: nat): Option<DepSession>
    requires m <= |snaps| == |ps|
  {
    var o := Opened(w, snaps, ps, c, dep, a, m);
    if o.None? then None else Some(SessionOf(snaps, ps, dep, o.value, FirstRoll(ps, o.value, m)))
  }

  /** One sighting with no session open. */
  lemma OpensAt(w: World, snap: Snapshot, p: Pilot, c: string, dep: string)
    requires Filed(Departure, snap, p, c, dep)
    ensures SightDeparture(w, snap, p, None)
            == if AtField(w, snap, p, c, dep)
               then Sighting(Some(DepSession(dep, Watching, snap.nowMs, None, p.altitude)), true, false, [])
               else Ignored(None)
  {
  }

  /** One sighting with the session that `i` opened. */
  lemma GoesOn(
      w: World, snaps: seq<Snapshot>, ps: seq<Pilot>, c: string, dep: string, i: nat, x: nat)
    requires i < x < |snaps| == |ps| && Filed(Departure, snaps[x], ps[x], c, dep)
    ensures
      var o := SightDeparture(w, snaps[x], ps[x], Some(SessionOf(snaps, ps, dep, i, FirstRoll(ps, i, x))));
      && o.session == Some(SessionOf(snaps, ps, dep, i, FirstRoll(ps, i, x + 1)))
      && o.seen && (o.done <==> Lifts(ps, i, x)) && (!o.done ==> o.legs == [])
  {
  }

  /** After every sighting the collector holds the session that the sightings amount to. */
  lemma {:induction false} HoldsOpened(
      w: World, snaps: seq<Snapshot>, ps: seq<Pilot>, c: string, dep: string, a: nat, m: nat)
    requires SightedOnce(Departure, snaps, ps, c, dep, a) && a <= m <= |snaps|
    requires StateAfter(w, snaps, a, c).dep.None?
    ensures StateAfter(w, snaps, m, c).dep == Held(w, snaps, ps, c, dep, a, m)
    decreases m
  {
    hide StateAfter, SightDeparture, SightArrival, AtField, Only, FirstRoll, Filed, Lifts, Opened;
    if m > a {
      var x := m - 1;
      OpensNext(w, snaps, ps, c, dep, a, x);
      HoldsOpened(w, snaps, ps, c, dep, a, x);
      OneSighting(w, snaps, x, c, ps[x]);
      var o := Opened(w, snaps, ps, c, dep, a, x);
      if o.Some? {
        GoesOn(w, snaps, ps, c, dep, o.value, x);
      } else {
        OpensAt(w, snaps[x], ps[x], c, dep);
        NoRollYet(ps, x);
      }
    } else {
      NoneYet(w, snaps, ps, c, dep, a);
    }
  }

  lemma NoneYet(w: World, snaps: seq<Snapshot>, ps: seq<Pilot>, c: string, dep: string, a: nat)
    requires a <= |snaps| == |ps|
    ensures Opened(w, snaps, ps, c, dep, a, a) == None
  {
  }

  lemma NoRollYet(ps: seq<Pilot>, x: nat)
    requires x < |ps|
    ensures FirstRoll(ps, x, x + 1) == None
  {
  }

  /** The session going on at `k` is over there. */
  ghost predicate Ended(w: World, snaps: seq<Snapshot>, ps: seq<Pilot>, c: string, dep: string, a: nat, k: nat)
    requires k < |snaps| == |ps|
  {
    var o := Opened(w, snaps, ps, c, dep, a, k);
    o.Some? && Over(snaps, ps, o.value, k)
  }

  /** For a flight sighted once in every snapshot after it last held none: a departure session is held after
      `m` exactly when it was at its field in one of them and no session has ended since. */
  lemma HeldIff(w: World, snaps: seq<Snapshot>, ps: seq<Pilot>, c: string, dep: string, a: nat, m: nat)
    requires SightedOnce(Departure, snaps, ps, c, dep, a) && a <= m <= |snaps|
    requires StateAfter(w, snaps, a, c).dep.None?
    ensures StateAfter(w, snaps, m, c).dep.Some?
            <==> exists i :: a <= i < m && AtField(w, snaps[i], ps[i], c, dep)
                             && forall k :: i <= k < m ==> !Ended(w, snaps, ps, c, dep, a, k)
  {
    hide StateAfter, AtField, Over, SightedOnce;
    OncePerSnapshot(Departure, snaps, ps, c, dep, a);
    HoldsOpened(w, snaps, ps, c, dep, a, m);
    var (opens, ends) := (Opens(w, snaps, ps, c, dep), Ends(snaps, ps));
    Openings.GoingOnIff(opens, ends, a, m);
    forall k: nat | k < |snaps| ensures Ended(w, snaps, ps, c, dep, a, k) <==> Openings.Ended(opens, ends, a, k) {
    }
    forall i: nat | i < |snaps| ensures opens(i) <==> AtField(w, snaps[i], ps[i], c, dep) {
    }
  }

  lemma OncePerSnapshot(kind: Kind, snaps: seq<Snapshot>, ps: seq<Pilot>, c: string, field: string, a: nat)
    requires SightedOnce(kind, snaps, ps, c, field, a)
    ensures |ps| == |snaps|
  {
  }

  // ---- Which legs are recorded -----------------------------------------------------------------

  function OfKind(legs: seq<Leg>, kind: Kind): (r: seq<Leg>)
    ensures forall l :: l in r <==> l in legs && l.kind == kind
  {
    if legs == [] then []
    else
      var last := |legs| - 1;
      OfKind(legs[..last], kind) + if legs[last].kind == kind then [legs[last]] else []
  }

  lemma {:induction false} OfKindSum(a: seq<Leg>, b: seq<Leg>, kind: Kind)
    ensures OfKind(a + b, kind) == OfKind(a, kind) + OfKind(b, kind)
  {
    hide OfKind;
    if b == [] {
      OfKindLast([], [], kind);
      assert a + b == a;
    } else {
      var front, last := b[..|b| - 1], b[|b| - 1..];
      OfKindSum(a, front, kind);
      OfKindLast(a + front, last, kind);
      OfKindLast(front, last, kind);
      assert b == front + last && a + b == a + front + last;
    }
  }

  lemma OfKindLast(front: seq<Leg>, last: seq<Leg>, kind: Kind)
    requires |last| <= 1
    ensures OfKind(front + last, kind) == OfKind(front, kind) + if last != [] && last[0].kind == kind then last else []
    ensures OfKind([], kind) == []
  {
    if last == [] {
      assert front + last == front;
    } else {
      assert (front + last)[..|front|] == front && last == [last[0]];
    }
  }

  lemma OfKindShort(legs: seq<Leg>, of: Kind, kind: Kind)
    requires |legs| <= 1 && forall l :: l in legs ==> l.kind == of
    ensures OfKind(legs, kind) == if of == kind then legs else []
  {
    if legs != [] {
      assert legs[0] in legs && legs[..0] == [];
    }
  }

  /** The departure legs recorded for `c` in the first `m` snapshots. */
  function Departures(w: World, snaps: seq<Snapshot>, m: nat, c: string): seq<Leg>
    requires m <= |snaps|
  {
    OfKind(LegsOf(Run(w, snaps[..m]).legs, c), Departure)
  }

  lemma KindsOfLegs(w: World, snap: Snapshot, p: Pilot, d: Option<DepSession>, a: Option<ArrSession>)
    ensures forall l :: l in SightDeparture(w, snap, p, d).legs ==> l.kind == Departure
    ensures forall l :: l in SightArrival(w, snap, p, a).legs ==> l.kind == Arrival
  {
    hide NearestRunway;
  }

  /** One sighting adds exactly the departure legs it completes. */
  lemma SightingAdds(w: World, snaps: seq<Snapshot>, m: nat, c: string, p: Pilot)
    requires m < |snaps| && Only(snaps[m].pilots, c) == [p]
    ensures Departures(w, snaps, m + 1, c)
            == Departures(w, snaps, m, c) + SightDeparture(w, snaps[m], p, StateAfter(w, snaps, m, c).dep).legs
  {
    hide SightArrival, SightDeparture, LegsOf, OfKind, Emitted, Only;
    var snap, f := snaps[m], StateAfter(w, snaps, m, c);
    var before := Run(w, snaps[..m]);
    assert snaps[..m + 1][..m] == snaps[..m];
    assert [p][..0] == [];
    EmittedAlone(w, snap, before.state, snap.pilots, c);
    LegsOfSum(before.legs, Emitted(w, snap, before.state, snap.pilots), c);
    var (d, a) := (SightDeparture(w, snap, p, f.dep).legs, SightArrival(w, snap, p, f.arr).legs);
    assert FlightPass(w, snap, f, []) == Pass(f.dep, false, false, f.arr, false, false, []);
    assert PassOf(w, snap, before.state, snap.pilots, c).legs == d + a by { assert [] + d + a == d + a; }
    LegsAreOwn(w, snap, p, f.dep, f.arr);
    KindsOfLegs(w, snap, p, f.dep, f.arr);
    OfKindSum(LegsOf(before.legs, c), d + a, Departure);
    OfKindSum(d, a, Departure);
    OfKindShort(d, Departure, Departure);
    OfKindShort(a, Arrival, Departure);
    assert d + [] == d;
  }

  /** The taxi time of a departure opened at `i` that rolls at `j` and lifts off at `x` is one that is recorded. */
  predicate InBounds(snaps: seq<Snapshot>, i: nat, j: nat, x: nat)
    requires i < |snaps| && j < |snaps| && x < |snaps|
  {
    var late := snaps[x].nowMs - snaps[j].nowMs < 3_000 && snaps[i].nowMs < snaps[j].nowMs;
    3_000 <= snaps[x].nowMs - snaps[if late then i else j].nowMs < 3_601_000
  }

  /** At its field at `i` with no session going on, the flight departs: rolling at `j`, off at `x`, in a taxi
      time that is recorded. */
  ghost predicate Timeline(
      w: World, snaps: seq<Snapshot>, ps: seq<Pilot>, c: string, dep: string, a: nat, i: nat, j: nat, x: nat)
  {
    && a <= i && Departs(w, snaps, ps, c, dep, i, j, x) && Opened(w, snaps, ps, c, dep, a, i).None?
    && InBounds(snaps, i, j, x)
  }

  ghost predicate Leaves(w: World, snaps: seq<Snapshot>, ps: seq<Pilot>, c: string, dep: string, a: nat, x: nat) {
    exists i: nat, j: nat :: Timeline(w, snaps, ps, c, dep, a, i, j, x)
  }

  /** What a session's last sighting records. */
  lemma LiftRecords(
      w: World, snaps: seq<Snapshot>, ps: seq<Pilot>, c: string, dep: string, i: nat, x: nat)
    requires i < x < |snaps| == |ps| && Filed(Departure, snaps[x], ps[x], c, dep) && Lifts(ps, i, x)
    ensures
      var legs := SightDeparture(w, snaps[x], ps[x], Some(SessionOf(snaps, ps, dep, i, FirstRoll(ps, i, x)))).legs;
      |legs| == if InBounds(snaps, i, FirstRoll(ps, i, x + 1).value, x) then 1 else 0
  {
    hide NearestRunway;
  }

  lemma RollIs(ps: seq<Pilot>, i: nat, j: nat, m: nat)
    requires i < j < m <= |ps| && ps[j].groundspeed > GS_START
    requires forall x :: i < x < j ==> ps[x].groundspeed <= GS_START
    ensures FirstRoll(ps, i, m) == Some(j)
  {
    var k := FirstRoll(ps, i, m);
    assert k.Some?;
  }

  lemma TimelineParts(w: World, snaps: seq<Snapshot>, ps: seq<Pilot>, c: string, dep: string, i: nat, j: nat, x: nat)
    requires Departs(w, snaps, ps, c, dep, i, j, x)
    ensures i < j <= x < |snaps| == |ps| && AtField(w, snaps[i], ps[i], c, dep)
    ensures FirstRoll(ps, i, x + 1) == Some(j) && Airborne(ps[x], ps[j].altitude)
  {
    hide AtField, Filed, Only, FirstRoll;
    RollIs(ps, i, j, x + 1);
  }

  lemma NotOverBefore(
      w: World, snaps: seq<Snapshot>, ps: seq<Pilot>, c: string, dep: string, i: nat, j: nat, x: nat, k: nat)
    requires Departs(w, snaps, ps, c, dep, i, j, x) && i < k < x
    ensures !Over(snaps, ps, i, k)
  {
    hide AtField, Filed, Only, FirstRoll;
    if k >= j {
      RollIs(ps, i, j, k + 1);
    }
  }

  lemma NotOverMeans(snaps: seq<Snapshot>, ps: seq<Pilot>, i: nat, j: nat, k: nat)
    requires i < j <= k < |snaps| == |ps| && !Over(snaps, ps, i, k)
    requires ps[j].groundspeed > GS_START && forall y :: i < y < j ==> ps[y].groundspeed <= GS_START
    ensures !Airborne(ps[k], ps[j].altitude)
  {
    hide FirstRoll;
    RollIs(ps, i, j, k + 1);
  }

  lemma LiftRolls(ps: seq<Pilot>, i: nat, x: nat)
    requires x < |ps| && Lifts(ps, i, x)
    ensures FirstRoll(ps, i, x + 1).Some? && Airborne(ps[x], ps[FirstRoll(ps, i, x + 1).value].altitude)
  {
  }

  lemma SightedThrough(
      snaps: seq<Snapshot>, ps: seq<Pilot>, c: string, dep: string, a: nat, i: nat, x: nat)
    requires SightedOnce(Departure, snaps, ps, c, dep, a) && a <= i <= x < |snaps| == |ps|
    requires forall k :: i < k < x ==> !Over(snaps, ps, i, k)
    ensures Sighted(Departure, snaps, ps, c, dep, i, x)
  {
    hide Filed, Only, Lifts;
    forall m | i <= m < x ensures Fresh(snaps[m].nowMs, snaps[i].nowMs) {
      assert m > i ==> !Over(snaps, ps, i, m);
    }
  }

  /** A timeline spans its session, from the opening to the lift-off. */
  lemma TimelineSpans(
      w: World, snaps: seq<Snapshot>, ps: seq<Pilot>, c: string, dep: string, a: nat, i: nat, j: nat, x: nat)
    requires Timeline(w, snaps, ps, c, dep, a, i, j, x)
    ensures i < x < |snaps| == |ps| && FirstRoll(ps, i, x + 1) == Some(j) && Lifts(ps, i, x)
    ensures Openings.Spans(Opens(w, snaps, ps, c, dep), Ends(snaps, ps), a, i, x)
  {
    hide AtField, Departs, FirstRoll, Over, InBounds;
    TimelineParts(w, snaps, ps, c, dep, i, j, x);
    LiftIsOver(snaps, ps, i, x);
    forall k: nat | i < k < x ensures !Ends(snaps, ps)(i, k) {
      NotOverBefore(w, snaps, ps, c, dep, i, j, x, k);
    }
  }

  lemma LiftIsOver(snaps: seq<Snapshot>, ps: seq<Pilot>, i: nat, x: nat)
    requires i < |snaps| == |ps| && x < |ps|
    ensures Lifts(ps, i, x) ==> Over(snaps, ps, i, x)
  {
  }

  /** The converse: a session's lift-off completes a departure. */
  lemma LiftDeparts(w: World, snaps: seq<Snapshot>, ps: seq<Pilot>, c: string, dep: string, a: nat, x: nat)
    requires SightedOnce(Departure, snaps, ps, c, dep, a) && a <= x < |snaps|
    requires var o := Opened(w, snaps, ps, c, dep, a, x); o.Some? && Lifts(ps, o.value, x)
    ensures
      var i := Opened(w, snaps, ps, c, dep, a, x).value;
      && FirstRoll(ps, i, x + 1).Some?
      && Departs(w, snaps, ps, c, dep, i, FirstRoll(ps, i, x + 1).value, x)
      && Opened(w, snaps, ps, c, dep, a, i).None?
  {
    hide AtField, SightedOnce, Over, Lifts, FirstRoll, Sighted;
    OncePerSnapshot(Departure, snaps, ps, c, dep, a);
    var i := Opened(w, snaps, ps, c, dep, a, x).value;
    var (opens, ends) := (Opens(w, snaps, ps, c, dep), Ends(snaps, ps));
    LiftRolls(ps, i, x);
    LiftIsOver(snaps, ps, i, x);
    var j := FirstRoll(ps, i, x + 1).value;
    assert ends(i, x);
    Openings.EndedSpans(opens, ends, a, x);
    forall k | i < k < x ensures !Over(snaps, ps, i, k) {
      assert !ends(i, k);
    }
    SightedThrough(snaps, ps, c, dep, a, i, x);
    forall m | j <= m < x ensures ps[m].groundspeed <= 60 && ps[m].altitude < ps[j].altitude + 100 {
      NotOverMeans(snaps, ps, i, j, m);
    }
  }

  /** One sighting records one more departure when a timeline ends at it, and none otherwise. */
  lemma LeavesAdds(w: World, snaps: seq<Snapshot>, ps: seq<Pilot>, c: string, dep: string, a: nat, x: nat)
    requires SightedOnce(Departure, snaps, ps, c, dep, a) && a <= x < |snaps| && StateAfter(w, snaps, a, c).dep.None?
    ensures |Departures(w, snaps, x + 1, c)|
            == |Departures(w, snaps, x, c)| + if Leaves(w, snaps, ps, c, dep, a, x) then 1 else 0
  {
    hide Departures, StateAfter, Opened, SightDeparture, FirstRoll, Lifts, Departs, InBounds, AtField, Filed, Only;
    HoldsOpened(w, snaps, ps, c, dep, a, x);
    SightingAdds(w, snaps, x, c, ps[x]);
    var o := Opened(w, snaps, ps, c, dep, a, x);
    forall i: nat, j: nat | Timeline(w, snaps, ps, c, dep, a, i, j, x)
      ensures o == Some(i) && FirstRoll(ps, i, x + 1) == Some(j) && Lifts(ps, i, x)
    {
      TimelineEnds(w, snaps, ps, c, dep, a, i, j, x);
    }
    if o.None? {
      OpensAt(w, snaps[x], ps[x], c, dep);
    } else {
      GoesOn(w, snaps, ps, c, dep, o.value, x);
      if Lifts(ps, o.value, x) {
        LiftRecords(w, snaps, ps, c, dep, o.value, x);
        LiftDeparts(w, snaps, ps, c, dep, a, x);
        assert InBounds(snaps, o.value, FirstRoll(ps, o.value, x + 1).value, x)
               ==> Timeline(w, snaps, ps, c, dep, a, o.value, FirstRoll(ps, o.value, x + 1).value, x);
      }
    }
  }

  lemma TimelineEnds(
      w: World, snaps: seq<Snapshot>, ps: seq<Pilot>, c: string, dep: string, a: nat, i: nat, j: nat, x: nat)
    requires Timeline(w, snaps, ps, c, dep, a, i, j, x)
    ensures i < x < |snaps| == |ps| && Opened(w, snaps, ps, c, dep, a, x) == Some(i)
    ensures FirstRoll(ps, i, x + 1) == Some(j) && Lifts(ps, i, x)
  {
    hide AtField, Timeline, FirstRoll;
    TimelineSpans(w, snaps, ps, c, dep, a, i, j, x);
    Openings.SpanIsOpen(Opens(w, snaps, ps, c, dep), Ends(snaps, ps), a, i, x, x);
  }

  ghost function Lifted(w: World, snaps: seq<Snapshot>, ps: seq<Pilot>, c: string, dep: string, a: nat, m: nat): set<nat> {
    set x: nat | a <= x < m && Leaves(w, snaps, ps, c, dep, a, x)
  }

  /** The flight's departures are counted exactly: one leg for each sighting at which a timeline ends. */
  lemma {:induction false} DeparturesCounted(
      w: World, snaps: seq<Snapshot>, ps: seq<Pilot>, c: string, dep: string, a: nat, m: nat)
    requires SightedOnce(Departure, snaps, ps, c, dep, a) && a <= m <= |snaps| && StateAfter(w, snaps, a, c).dep.None?
    ensures |Departures(w, snaps, m, c)| == |Departures(w, snaps, a, c)| + |Lifted(w, snaps, ps, c, dep, a, m)|
    decreases m
  {
    hide Departures, StateAfter, Leaves, SightedOnce;
    if m == a {
      assert Lifted(w, snaps, ps, c, dep, a, m) == {};
    } else {
      DeparturesCounted(w, snaps, ps, c, dep, a, m - 1);
      LeavesAdds(w, snaps, ps, c, dep, a, m - 1);
      var before := Lifted(w, snaps, ps, c, dep, a, m - 1);
      assert Lifted(w, snaps, ps, c, dep, a, m)
             == if Leaves(w, snaps, ps, c, dep, a, m - 1) then before + {m - 1} else before;
    }
  }

  /** After its leg at `n`, a further departure of the flight is recorded by `m` exactly when another timeline
      lies between them. */
  lemma SecondLegIff(
      w: World, snaps: seq<Snapshot>, ps: seq<Pilot>, c: string, dep: string, i: nat, j: nat, n: nat, a: nat, m: nat)
    requires Departs(w, snaps, ps, c, dep, i, j, n) && InBounds(snaps, i, j, n)
    requires var s := StateAfter(w, snaps, i, c).dep; s.Some? ==> s.value.dep != dep
    requires a == n + 1 <= m <= |snaps| && SightedOnce(Departure, snaps, ps, c, dep, a)
    ensures |Departures(w, snaps, m, c)| > |Departures(w, snaps, a, c)|
            <==> exists i': nat, j': nat, x: nat :: Timeline(w, snaps, ps, c, dep, a, i', j', x) && x < m
  {
    hide StateAfter, Departures, Opened, AtField, Only, Filed, Leaves, Run, Timeline;
    DepartureRecorded(w, snaps, ps, c, dep, i, j, n);
    DeparturesCounted(w, snaps, ps, c, dep, a, m);
    var lifted := Lifted(w, snaps, ps, c, dep, a, m);
    if lifted != {} {
      var x :| x in lifted;
      LeavesBy(w, snaps, ps, c, dep, a, x);
    }
    forall i': nat, j': nat, x: nat | Timeline(w, snaps, ps, c, dep, a, i', j', x) && x < m ensures lifted != {} {
      LeavesIf(w, snaps, ps, c, dep, a, i', j', x);
      assert x in lifted;
    }
  }

  lemma LeavesBy(w: World, snaps: seq<Snapshot>, ps: seq<Pilot>, c: string, dep: string, a: nat, x: nat)
    requires Leaves(w, snaps, ps, c, dep, a, x)
    ensures exists i: nat, j: nat :: Timeline(w, snaps, ps, c, dep, a, i, j, x)
  {
  }

  lemma LeavesIf(w: World, snaps: seq<Snapshot>, ps: seq<Pilot>, c: string, dep: string, a: nat, i: nat, j: nat, x: nat)
    requires Timeline(w, snaps, ps, c, dep, a, i, j, x)
    ensures Leaves(w, snaps, ps, c, dep, a, x) && a <= x
  {
  }

  /** Two recorded departures never overlap: one ends before the other opens. */
  lemma TimelinesDisjoint(
      w: World, snaps: seq<Snapshot>, ps: seq<Pilot>, c: string, dep: string, a: nat, i: nat, j: nat, x: nat,
      i': nat, j': nat, x': nat)
    requires Timeline(w, snaps, ps, c, dep, a, i, j, x) && Timeline(w, snaps, ps, c, dep, a, i', j', x') && x < x'
    ensures x < i'
  {
    hide Timeline;
    TimelineSpans(w, snaps, ps, c, dep, a, i, j, x);
    TimelineSpans(w, snaps, ps, c, dep, a, i', j', x');
    Openings.SpansDisjoint(Opens(w, snaps, ps, c, dep), Ends(snaps, ps), a, i, x, i', x');
  }

  // ---- A run that records two ------------------------------------------------------------------

  const STILL := World((a: real, b: real, c: real, d: real) => 0.0, map[], (r: string) => None, (r: string, f: string) => None)

  const PLAN := FlightPlan("KAAA", "", "", "")

  function Seen(gs: int, altitude: int): Pilot {
    Pilot("C1", 1, 0.0, 0.0, altitude, gs, 0, Some(PLAN))
  }

  function At(seconds: int, p: Pilot): Snapshot {
    Snapshot(seconds * 1000, map["KAAA" := Airport(0.0, 0.0)], [p])
  }

  /** Parked, rolling, off the ground, climbing through 400 ft, and away. */
  function ClimbOut(): (ps: seq<Pilot>)
    ensures |ps| == 5
  {
    [Seen(0, 0), Seen(20, 0), Seen(70, 100), Seen(70, 400), Seen(100, 1000)]
  }

  function ClimbOutRun(): (snaps: seq<Snapshot>)
    ensures |snaps| == 5
  {
    var ps := ClimbOut();
    [At(0, ps[0]), At(10, ps[1]), At(20, ps[2]), At(30, ps[3]), At(40, ps[4])]
  }

  lemma OnlyOne(p: Pilot)
    ensures Only([p], p.callsign) == [p]
  {
    assert [p][..0] == [] && [p][0] == p;
  }

  lemma SeenIsFiled(gs: int, altitude: int, seconds: int)
    ensures var p := Seen(gs, altitude);
      Only(At(seconds, p).pilots, "C1") == [p] && Filed(Departure, At(seconds, p), p, "C1", "KAAA")
  {
    hide Upper, Only;
    FieldIsUpper();
    OnlyOne(Seen(gs, altitude));
    assert Seen(gs, altitude) in At(seconds, Seen(gs, altitude)).pilots;
  }

  lemma SeenAtField(gs: int, altitude: int, seconds: int)
    requires gs <= GS_STOP || altitude <= 500
    ensures var p := Seen(gs, altitude); AtField(STILL, At(seconds, p), p, "C1", "KAAA")
  {
    FieldIsUpper();
    SeenIsFiled(gs, altitude, seconds);
    hide Upper, Filed, Only;
    var (p, field) := (Seen(gs, altitude), Airport(0.0, 0.0));
    assert At(seconds, p).airports == map["KAAA" := field] && "" !in At(seconds, p).airports;
    assert Distance(STILL, p, field) == 0.0;
  }

  lemma FieldIsUpper()
    ensures Upper("KAAA") == "KAAA" && Upper("") == ""
  {
  }

  /** Every sighting of such a run is at its place and time, `c` alone. */
  ghost predicate TenApart(snaps: seq<Snapshot>, ps: seq<Pilot>) {
    && |snaps| == |ps| == 5
    && forall m :: 0 <= m < 5 ==> ps[m] == Seen(ps[m].groundspeed, ps[m].altitude) && snaps[m] == At(10 * m, ps[m])
  }

  lemma RunIsTenApart()
    ensures TenApart(ClimbOutRun(), ClimbOut())
  {
  }

  lemma AllSighted(snaps: seq<Snapshot>, ps: seq<Pilot>, i: nat, n: nat)
    requires TenApart(snaps, ps) && i <= n < 5
    ensures Sighted(Departure, snaps, ps, "C1", "KAAA", i, n)
  {
    hide Only, Filed, Seen;
    forall m | 0 <= m < 5 ensures Only(snaps[m].pilots, "C1") == [ps[m]] && Filed(Departure, snaps[m], ps[m], "C1", "KAAA") {
      SeenIsFiled(ps[m].groundspeed, ps[m].altitude, 10 * m);
    }
  }

  ghost predicate ClimbsOut(snaps: seq<Snapshot>, ps: seq<Pilot>) {
    TenApart(snaps, ps) && ps == [Seen(0, 0), Seen(20, 0), Seen(70, 100), Seen(70, 400), Seen(100, 1000)]
  }

  lemma ClimbOutData(snaps: seq<Snapshot>, ps: seq<Pilot>)
    requires ClimbsOut(snaps, ps)
    ensures |snaps| == |ps| == 5 && TenApart(snaps, ps)
    ensures forall m :: 0 <= m < 5 ==> snaps[m].nowMs == 10_000 * m
    ensures ps[0] == Seen(0, 0) && ps[3] == Seen(70, 400) && snaps[0] == At(0, ps[0]) && snaps[3] == At(30, ps[3])
    ensures ps[0].groundspeed == 0 && ps[1].groundspeed == 20 && ps[1].altitude == 0
    ensures ps[2].groundspeed == 70 && ps[3].groundspeed == 70 && ps[4].groundspeed == 100
  {
  }

  lemma ClimbOutDeparts(snaps: seq<Snapshot>, ps: seq<Pilot>)
    requires ClimbsOut(snaps, ps)
    ensures |snaps| == |ps| == 5 && Departs(STILL, snaps, ps, "C1", "KAAA", 0, 1, 2)
    ensures Sighted(Departure, snaps, ps, "C1", "KAAA", 3, 4) && AtField(STILL, snaps[3], ps[3], "C1", "KAAA")
  {
    hide ClimbsOut, TenApart, Only, Filed, AtField, Sighted, Seen, STILL;
    ClimbOutData(snaps, ps);
    AllSighted(snaps, ps, 0, 2);
    AllSighted(snaps, ps, 3, 4);
    SeenAtField(0, 0, 0);
    SeenAtField(70, 400, 30);
  }

  lemma ClimbOutRecordsTwo(w: World, snaps: seq<Snapshot>, ps: seq<Pilot>)
    requires ClimbsOut(snaps, ps) && w == STILL
    ensures
      var legs := Run(w, snaps).legs;
      && (exists l :: l in legs && l.kind == Departure && l.callsign == "C1" && l.startMs == 10_000 && l.endMs == 20_000)
      && (exists l :: l in legs && l.kind == Departure && l.callsign == "C1" && l.startMs == 30_000 && l.endMs == 40_000)
  {
    hide ClimbsOut, TenApart, Departs, AtField, StateAfter, Run, Sighted, STILL, Seen;
    ClimbOutData(snaps, ps);
    ClimbOutDeparts(snaps, ps);
    NothingHeld(w, snaps, "C1");
    DepartureRecorded(w, snaps, ps, "C1", "KAAA", 0, 1, 2);
    LowClimbOutDepartsTwice(w, snaps, ps, "C1", "KAAA", 0, 1, 2);
    LegsStay(w, snaps, 3);
    assert snaps[..5] == snaps;
  }

  /** One take-off, two legs: 10 s of roll to the first, and 10 s more through 400 ft to the second. */
  lemma ClimbOutDepartsTwice()
    ensures
      var legs := Run(STILL, ClimbOutRun()).legs;
      && (exists l :: l in legs && l.kind == Departure && l.callsign == "C1" && l.startMs == 10_000 && l.endMs == 20_000)
      && (exists l :: l in legs && l.kind == Departure && l.callsign == "C1" && l.startMs == 30_000 && l.endMs == 40_000)
  {
    hide TenApart, Run, STILL, ClimbOutRun, Seen;
    RunIsTenApart();
    ClimbOutRecordsTwo(STILL, ClimbOutRun(), ClimbOut());
  }

  lemma NothingHeld(w: World, snaps: seq<Snapshot>, c: string)
    ensures StateAfter(w, snaps, 0, c).dep.None?
  {
    assert snaps[..0] == [];
  }

  lemma {:induction false} LegsStay(w: World, snaps: seq<Snapshot>, m: nat)
    requires m <= |snaps|
    ensures forall l :: l in Run(w, snaps[..m]).legs ==> l in Run(w, snaps).legs
    decreases |snaps|
  {
    hide Emitted, Advance;
    if m < |snaps| {
      var front := snaps[..|snaps| - 1];
      LegsStay(w, front, m);
      assert front[..m] == snaps[..m];
    } else {
      assert snaps[..m] == snaps;
    }
  }
}
