/** Every arrival leg of a flight sighted once in each snapshot: exactly when a session is held, and exactly how
    many legs are recorded. */
module DelayArrivals {
  import opened Wrappers
  import opened Delays
  import opened DelayRuns
  import opened DelayWitness
  import opened DelayComplete
  import opened DelayDepartures
  import Openings

  // ---- What the sightings show -----------------------------------------------------------------

  /** The first sighting after `i`, and before `m`, inside the ring. */
  ghost function FirstInside(
      w: World, snaps: seq<Snapshot>, ps: seq<Pilot>, c: string, arr: string, i: nat, m: nat): (j: Option<nat>)
    requires m <= |snaps| == |ps|
    ensures j.Some? ==> i < j.value < m && InsideRing(w, snaps[j.value], ps[j.value], c, arr)
    ensures forall x :: i < x < (if j.Some? then j.value else m) ==> !InsideRing(w, snaps[x], ps[x], c, arr)
    decreases m
  {
    if m <= i + 1 then None
    else
      var j := FirstInside(w, snaps, ps, c, arr, i, m - 1);
      if j.Some? then j else if InsideRing(w, snaps[m - 1], ps[m - 1], c, arr) then Some(m - 1) else None
  }

  /** The last sighting in flight before `m`, not looking back beyond `i`. */
  function LastFlown(ps: seq<Pilot>, i: nat, m: nat): (h: nat)
    requires i < m <= |ps|
    ensures i <= h < m
    decreases m
  {
    if m == i + 1 then i else if ps[m - 1].groundspeed > 60 then m - 1 else LastFlown(ps, i, m - 1)
  }

  /** Down at `x`, having been inside the ring since `i`. */
  ghost predicate Lands(w: World, snaps: seq<Snapshot>, ps: seq<Pilot>, c: string, arr: string, i: nat, x: nat)
    requires x < |snaps| == |ps|
  {
    FirstInside(w, snaps, ps, c, arr, i, x).Some? && TouchedDown(w, snaps[x], ps[x], c, arr)
  }

  /** A session opened at `i` is over at `x`: the flight has landed, or it is three hours old. */
  ghost predicate Over(w: World, snaps: seq<Snapshot>, ps: seq<Pilot>, c: string, arr: string, i: nat, x: nat)
    requires i < |snaps| == |ps| && x < |ps|
  {
    Lands(w, snaps, ps, c, arr, i, x) || snaps[x].nowMs - snaps[i].nowMs >= 10_800_000
  }

  /** The sightings that can open a session. */
  ghost function Opens(w: World, snaps: seq<Snapshot>, ps: seq<Pilot>, c: string, arr: string): nat -> bool {
    (x: nat) => x < |snaps| && x < |ps| && OutsideRing(w, snaps[x], ps[x], c, arr)
  }

  /** Where the session that a sighting opened is over. */
  ghost function Ends(w: World, snaps: seq<Snapshot>, ps: seq<Pilot>, c: string, arr: string): (nat, nat) -> bool {
    (i: nat, x: nat) => i < |snaps| == |ps| && x < |ps| && Over(w, snaps, ps, c, arr, i, x)
  }

  /** The sighting from `a` on that opened the session going on before sighting `m`. */
  ghost function Opened(
      w: World, snaps: seq<Snapshot>, ps: seq<Pilot>, c: string, arr: string, a: nat, m: nat): (o: Option<nat>)
    requires m <= |snaps| == |ps|
    ensures o.Some? ==> a <= o.value < m && OutsideRing(w, snaps[o.value], ps[o.value], c, arr)
  {
    Openings.Opened(Opens(w, snaps, ps, c, arr), Ends(w, snaps, ps, c, arr), a, m)
  }

  lemma OpensNext(w: World, snaps: seq<Snapshot>, ps: seq<Pilot>, c: string, arr: string, a: nat, m: nat)
    requires a <= m < |snaps| == |ps|
    ensures
      var (o, p) := (Opened(w, snaps, ps, c, arr, a, m), Opened(w, snaps, ps, c, arr, a, m + 1));
      p == if o.Some? then (if Over(w, snaps, ps, c, arr, o.value, m) then None else o)
           else if OutsideRing(w, snaps[m], ps[m], c, arr) then Some(m)
           else None
  {
    hide OutsideRing, Over;
    Openings.Next(Opens(w, snaps, ps, c, arr), Ends(w, snaps, ps, c, arr), a, m);
  }

  // ---- Which session is held -------------------------------------------------------------------

  function SessionOf(snaps: seq<Snapshot>, ps: seq<Pilot>, arr: string, i: nat, j: Option<nat>, h: nat): ArrSession
    requires i < |snaps| == |ps| && h < |ps| && (j.Some? ==> j.value < |snaps|)
  {
    ArrSession(arr, snaps[i].nowMs, if j.Some? then Some(snaps[j.value].nowMs) else None, ps[h].heading)
  }

  /** The session that the sightings from `i` up to `m` amount to. */
  ghost function SessionAt(w: World, snaps: seq<Snapshot>, ps: seq<Pilot>, c: string, arr: string, i: nat, m: nat): ArrSession
    requires i < m <= |snaps| == |ps|
  {
    SessionOf(snaps, ps, arr, i, FirstInside(w, snaps, ps, c, arr, i, m), LastFlown(ps, i, m))
  }

  ghost function Held(
      w: World, snaps: seq<Snapshot>, ps: seq<Pilot>, c: string, arr: string, a: nat, m: nat): Option<ArrSession>
    requires m <= |snaps| == |ps|
  {
    var o := Opened(w, snaps, ps, c, arr, a, m);
    if o.None? then None else Some(SessionAt(w, snaps, ps, c, arr, o.value, m))
  }

  /** One sighting with no session open. */
  lemma OpensAt(w: World, snaps: seq<Snapshot>, ps: seq<Pilot>, c: string, arr: string, x: nat)
    requires x < |snaps| == |ps| && Filed(Arrival, snaps[x], ps[x], c, arr)
    ensures SightArrival(w, snaps[x], ps[x], None)
            == if OutsideRing(w, snaps[x], ps[x], c, arr)
               then Sighting(Some(SessionAt(w, snaps, ps, c, arr, x, x + 1)), true, false, [])
               else Ignored(None)
  {
  }

  /** One sighting with the session that `i` opened. */
  lemma GoesOn(w: World, snaps: seq<Snapshot>, ps: seq<Pilot>, c: string, arr: string, i: nat, x: nat)
    requires i < x < |snaps| == |ps| && Filed(Arrival, snaps[x], ps[x], c, arr)
    ensures
      var o := SightArrival(w, snaps[x], ps[x], Some(SessionAt(w, snaps, ps, c, arr, i, x)));
      && o.session == Some(SessionAt(w, snaps, ps, c, arr, i, x + 1))
      && o.seen && (o.done <==> Lands(w, snaps, ps, c, arr, i, x)) && (!o.done ==> o.legs == [])
  {
    hide NearestRunway;
  }

  /** After every sighting the collector holds the session that the sightings amount to. */
  lemma {:induction false} HoldsOpened(
      w: World, snaps: seq<Snapshot>, ps: seq<Pilot>, c: string, arr: string, a: nat, m: nat)
    requires SightedOnce(Arrival, snaps, ps, c, arr, a) && a <= m <= |snaps|
    requires StateAfter(w, snaps, a, c).arr.None?
    ensures StateAfter(w, snaps, m, c).arr == Held(w, snaps, ps, c, arr, a, m)
    decreases m
  {
    hide StateAfter, SightDeparture, SightArrival, OutsideRing, Only, FirstInside, LastFlown, Filed, Lands, Opened;
    if m > a {
      var x := m - 1;
      OpensNext(w, snaps, ps, c, arr, a, x);
      HoldsOpened(w, snaps, ps, c, arr, a, x);
      OneSighting(w, snaps, x, c, ps[x]);
      var o := Opened(w, snaps, ps, c, arr, a, x);
      if o.Some? {
        GoesOn(w, snaps, ps, c, arr, o.value, x);
      } else {
        OpensAt(w, snaps, ps, c, arr, x);
      }
    } else {
      NoneYet(w, snaps, ps, c, arr, a);
    }
  }

  lemma NoneYet(w: World, snaps: seq<Snapshot>, ps: seq<Pilot>, c: string, arr: string, a: nat)
    requires a <= |snaps| == |ps|
    ensures Opened(w, snaps, ps, c, arr, a, a) == None
  {
  }

  /** The session going on at `k` is over there. */
  ghost predicate Ended(w: World, snaps: seq<Snapshot>, ps: seq<Pilot>, c: string, arr: string, a: nat, k: nat)
    requires k < |snaps| == |ps|
  {
    var o := Opened(w, snaps, ps, c, arr, a, k);
    o.Some? && Over(w, snaps, ps, c, arr, o.value, k)
  }

  /** For a flight sighted once in every snapshot after it last held none: an arrival session is held after `m`
      exactly when it was outside the ring in one of them and no session has ended since. */
  lemma HeldIff(w: World, snaps: seq<Snapshot>, ps: seq<Pilot>, c: string, arr: string, a: nat, m: nat)
    requires SightedOnce(Arrival, snaps, ps, c, arr, a) && a <= m <= |snaps|
    requires StateAfter(w, snaps, a, c).arr.None?
    ensures StateAfter(w, snaps, m, c).arr.Some?
            <==> exists i :: a <= i < m && OutsideRing(w, snaps[i], ps[i], c, arr)
                             && forall k :: i <= k < m ==> !Ended(w, snaps, ps, c, arr, a, k)
  {
    hide StateAfter, OutsideRing, Over, SightedOnce;
    OncePerSnapshot(Arrival, snaps, ps, c, arr, a);
    HoldsOpened(w, snaps, ps, c, arr, a, m);
    var (opens, ends) := (Opens(w, snaps, ps, c, arr), Ends(w, snaps, ps, c, arr));
    Openings.GoingOnIff(opens, ends, a, m);
    forall k: nat | k < |snaps| ensures Ended(w, snaps, ps, c, arr, a, k) <==> Openings.Ended(opens, ends, a, k) {
    }
    forall i: nat | i < |snaps| ensures opens(i) <==> OutsideRing(w, snaps[i], ps[i], c, arr) {
    }
  }

  // ---- Which legs are recorded -----------------------------------------------------------------

  /** The arrival legs recorded for `c` in the first `m` snapshots. */
  function Arrivals(w: World, snaps: seq<Snapshot>, m: nat, c: string): seq<Leg>
    requires m <= |snaps|
  {
    OfKind(LegsOf(Run(w, snaps[..m]).legs, c), Arrival)
  }

  /** One sighting adds exactly the arrival legs it completes. */
  lemma SightingAddsArrival(w: World, snaps: seq<Snapshot>, m: nat, c: string, p: Pilot)
    requires m < |snaps| && Only(snaps[m].pilots, c) == [p]
    ensures Arrivals(w, snaps, m + 1, c)
            == Arrivals(w, snaps, m, c) + SightArrival(w, snaps[m], p, StateAfter(w, snaps, m, c).arr).legs
  {
    hide SightArrival, SightDeparture, LegsOf, OfKind, Emitted, Only;
    var snap, f := snaps[m], StateAfter(w, snaps, m, c);
    var before := Run(w, snaps[..m]);
    assert snaps[..m + 1][..m] == snaps[..m];
    assert [p][..0] == [];
    EmittedAlone(w, snap, before.state, snap.pilots, c);
    LegsOfSum(before.legs, Emitted(w, snap, before.state, snap.pilots), c);
    var (d, a) := (SightDeparture(w, snap, p, f.dep).legs, SightArrival(w, snap, p, f.arr).legs);
    assert FlightPass(w, snap, f, []) == Pass(f.dep, false, false, f.arr, false, false, []);
    assert PassOf(w, snap, before.state, snap.pilots, c).legs == d + a by { assert [] + d + a == d + a; }
    LegsAreOwn(w, snap, p, f.dep, f.arr);
    KindsOfLegs(w, snap, p, f.dep, f.arr);
    OfKindSum(LegsOf(before.legs, c), d + a, Arrival);
    OfKindSum(d, a, Arrival);
    OfKindShort(d, Departure, Arrival);
    OfKindShort(a, Arrival, Arrival);
    assert [] + a == a;
  }

  /** The transit of an arrival that crosses the ring at `j` and is down at `x` is one that is recorded. */
  predicate InBounds(snaps: seq<Snapshot>, j: nat, x: nat)
    requires j < |snaps| && x < |snaps|
  {
    60_000 <= snaps[x].nowMs - snaps[j].nowMs < 10_801_000
  }

  /** Outside the ring at `i` with no session going on, the flight arrives: inside it at `j`, down at `x`, in a
      transit that is recorded. */
  ghost predicate Timeline(
      w: World, snaps: seq<Snapshot>, ps: seq<Pilot>, c: string, arr: string, a: nat, i: nat, j: nat, x: nat)
  {
    && a <= i && Arrives(w, snaps, ps, c, arr, i, j, x) && Opened(w, snaps, ps, c, arr, a, i).None?
    && InBounds(snaps, j, x)
  }

  ghost predicate Comes(w: World, snaps: seq<Snapshot>, ps: seq<Pilot>, c: string, arr: string, a: nat, x: nat) {
    exists i: nat, j: nat :: Timeline(w, snaps, ps, c, arr, a, i, j, x)
  }

  /** What a session's last sighting records. */
  lemma LandingRecords(w: World, snaps: seq<Snapshot>, ps: seq<Pilot>, c: string, arr: string, i: nat, x: nat)
    requires i < x < |snaps| == |ps| && Lands(w, snaps, ps, c, arr, i, x)
    ensures
      var legs := SightArrival(w, snaps[x], ps[x], Some(SessionAt(w, snaps, ps, c, arr, i, x))).legs;
      |legs| == if InBounds(snaps, FirstInside(w, snaps, ps, c, arr, i, x).value, x) then 1 else 0
  {
    hide NearestRunway, LastFlown, FirstInside;
  }

  lemma InsideIs(w: World, snaps: seq<Snapshot>, ps: seq<Pilot>, c: string, arr: string, i: nat, j: nat, m: nat)
    requires i < j < m <= |snaps| == |ps| && InsideRing(w, snaps[j], ps[j], c, arr)
    requires forall x :: i < x < j ==> !InsideRing(w, snaps[x], ps[x], c, arr)
    ensures FirstInside(w, snaps, ps, c, arr, i, m) == Some(j)
  {
    hide InsideRing;
    var k := FirstInside(w, snaps, ps, c, arr, i, m);
    assert k.Some?;
  }

  lemma TimelineParts(w: World, snaps: seq<Snapshot>, ps: seq<Pilot>, c: string, arr: string, i: nat, j: nat, x: nat)
    requires Arrives(w, snaps, ps, c, arr, i, j, x)
    ensures i < j < x < |snaps| == |ps| && OutsideRing(w, snaps[i], ps[i], c, arr)
    ensures FirstInside(w, snaps, ps, c, arr, i, x) == Some(j) && Lands(w, snaps, ps, c, arr, i, x)
  {
    hide OutsideRing, InsideRing, TouchedDown, Filed, Only, FirstInside;
    InsideIs(w, snaps, ps, c, arr, i, j, x);
  }

  lemma NotOverBefore(
      w: World, snaps: seq<Snapshot>, ps: seq<Pilot>, c: string, arr: string, i: nat, j: nat, x: nat, k: nat)
    requires Arrives(w, snaps, ps, c, arr, i, j, x) && i < k < x
    ensures !Over(w, snaps, ps, c, arr, i, k)
  {
    hide OutsideRing, InsideRing, TouchedDown, Filed, Only, FirstInside;
    if k > j {
      InsideIs(w, snaps, ps, c, arr, i, j, k);
    }
  }

  lemma NotOverMeans(w: World, snaps: seq<Snapshot>, ps: seq<Pilot>, c: string, arr: string, i: nat, j: nat, k: nat)
    requires i < j < k < |snaps| == |ps| && !Over(w, snaps, ps, c, arr, i, k)
    requires InsideRing(w, snaps[j], ps[j], c, arr) && forall y :: i < y < j ==> !InsideRing(w, snaps[y], ps[y], c, arr)
    ensures !TouchedDown(w, snaps[k], ps[k], c, arr)
  {
    hide FirstInside, InsideRing, TouchedDown;
    InsideIs(w, snaps, ps, c, arr, i, j, k);
  }

  lemma SightedThrough(
      w: World, snaps: seq<Snapshot>, ps: seq<Pilot>, c: string, arr: string, a: nat, i: nat, x: nat)
    requires SightedOnce(Arrival, snaps, ps, c, arr, a) && a <= i <= x < |snaps| == |ps|
    requires forall k :: i < k < x ==> !Over(w, snaps, ps, c, arr, i, k)
    ensures Sighted(Arrival, snaps, ps, c, arr, i, x)
  {
    hide Filed, Only, Lands;
    forall m | i <= m < x ensures Fresh(snaps[m].nowMs, snaps[i].nowMs) {
      assert m > i ==> !Over(w, snaps, ps, c, arr, i, m);
    }
  }

  lemma LandingIsOver(w: World, snaps: seq<Snapshot>, ps: seq<Pilot>, c: string, arr: string, i: nat, x: nat)
    requires i < |snaps| == |ps| && x < |ps|
    ensures Lands(w, snaps, ps, c, arr, i, x) ==> Over(w, snaps, ps, c, arr, i, x)
    ensures Lands(w, snaps, ps, c, arr, i, x)
            ==> FirstInside(w, snaps, ps, c, arr, i, x).Some? && TouchedDown(w, snaps[x], ps[x], c, arr)
  {
    hide FirstInside, TouchedDown;
  }

  /** A timeline spans its session, from the opening to the touchdown. */
  lemma TimelineSpans(
      w: World, snaps: seq<Snapshot>, ps: seq<Pilot>, c: string, arr: string, a: nat, i: nat, j: nat, x: nat)
    requires Timeline(w, snaps, ps, c, arr, a, i, j, x)
    ensures i < x < |snaps| == |ps| && FirstInside(w, snaps, ps, c, arr, i, x) == Some(j) && Lands(w, snaps, ps, c, arr, i, x)
    ensures Openings.Spans(Opens(w, snaps, ps, c, arr), Ends(w, snaps, ps, c, arr), a, i, x)
  {
    hide OutsideRing, Arrives, FirstInside, Over, InBounds, Lands;
    TimelineParts(w, snaps, ps, c, arr, i, j, x);
    LandingIsOver(w, snaps, ps, c, arr, i, x);
    forall k: nat | i < k < x ensures !Ends(w, snaps, ps, c, arr)(i, k) {
      NotOverBefore(w, snaps, ps, c, arr, i, j, x, k);
    }
  }

  lemma TimelineEnds(
      w: World, snaps: seq<Snapshot>, ps: seq<Pilot>, c: string, arr: string, a: nat, i: nat, j: nat, x: nat)
    requires Timeline(w, snaps, ps, c, arr, a, i, j, x)
    ensures i < x < |snaps| == |ps| && Opened(w, snaps, ps, c, arr, a, x) == Some(i)
    ensures FirstInside(w, snaps, ps, c, arr, i, x) == Some(j) && Lands(w, snaps, ps, c, arr, i, x)
  {
    hide OutsideRing, Timeline, FirstInside, Lands;
    TimelineSpans(w, snaps, ps, c, arr, a, i, j, x);
    Openings.SpanIsOpen(Opens(w, snaps, ps, c, arr), Ends(w, snaps, ps, c, arr), a, i, x, x);
  }

  /** The converse: a session's touchdown completes an arrival. */
  lemma LandingArrives(w: World, snaps: seq<Snapshot>, ps: seq<Pilot>, c: string, arr: string, a: nat, x: nat)
    requires SightedOnce(Arrival, snaps, ps, c, arr, a) && a <= x < |snaps|
    requires var o := Opened(w, snaps, ps, c, arr, a, x); o.Some? && Lands(w, snaps, ps, c, arr, o.value, x)
    ensures
      var i := Opened(w, snaps, ps, c, arr, a, x).value;
      && FirstInside(w, snaps, ps, c, arr, i, x).Some?
      && Arrives(w, snaps, ps, c, arr, i, FirstInside(w, snaps, ps, c, arr, i, x).value, x)
      && Opened(w, snaps, ps, c, arr, a, i).None?
  {
    hide OutsideRing, InsideRing, TouchedDown, SightedOnce, Over, Lands, FirstInside, Sighted;
    OncePerSnapshot(Arrival, snaps, ps, c, arr, a);
    var i := Opened(w, snaps, ps, c, arr, a, x).value;
    var (opens, ends) := (Opens(w, snaps, ps, c, arr), Ends(w, snaps, ps, c, arr));
    LandingIsOver(w, snaps, ps, c, arr, i, x);
    var j := FirstInside(w, snaps, ps, c, arr, i, x).value;
    assert ends(i, x);
    Openings.EndedSpans(opens, ends, a, x);
    forall k | i < k < x ensures !Over(w, snaps, ps, c, arr, i, k) {
      assert !ends(i, k);
    }
    SightedThrough(w, snaps, ps, c, arr, a, i, x);
    forall m | j < m < x ensures !TouchedDown(w, snaps[m], ps[m], c, arr) {
      NotOverMeans(w, snaps, ps, c, arr, i, j, m);
    }
  }

  /** One sighting records one more arrival when a timeline ends at it, and none otherwise. */
  lemma ComesAdds(w: World, snaps: seq<Snapshot>, ps: seq<Pilot>, c: string, arr: string, a: nat, x: nat)
    requires SightedOnce(Arrival, snaps, ps, c, arr, a) && a <= x < |snaps| && StateAfter(w, snaps, a, c).arr.None?
    ensures |Arrivals(w, snaps, x + 1, c)|
            == |Arrivals(w, snaps, x, c)| + if Comes(w, snaps, ps, c, arr, a, x) then 1 else 0
  {
    hide Arrivals, StateAfter, Opened, SightArrival, FirstInside, Lands, Arrives, InBounds, OutsideRing, Filed, Only,
      SessionAt;
    HoldsOpened(w, snaps, ps, c, arr, a, x);
    SightingAddsArrival(w, snaps, x, c, ps[x]);
    var o := Opened(w, snaps, ps, c, arr, a, x);
    forall i: nat, j: nat | Timeline(w, snaps, ps, c, arr, a, i, j, x)
      ensures o == Some(i) && FirstInside(w, snaps, ps, c, arr, i, x) == Some(j) && Lands(w, snaps, ps, c, arr, i, x)
    {
      TimelineEnds(w, snaps, ps, c, arr, a, i, j, x);
    }
    if o.None? {
      OpensAt(w, snaps, ps, c, arr, x);
    } else {
      GoesOn(w, snaps, ps, c, arr, o.value, x);
      if Lands(w, snaps, ps, c, arr, o.value, x) {
        LandingArrives(w, snaps, ps, c, arr, a, x);
        LandingRecords(w, snaps, ps, c, arr, o.value, x);
        var j := FirstInside(w, snaps, ps, c, arr, o.value, x).value;
        assert InBounds(snaps, j, x) ==> Timeline(w, snaps, ps, c, arr, a, o.value, j, x);
      }
    }
  }

  ghost function Landed(w: World, snaps: seq<Snapshot>, ps: seq<Pilot>, c: string, arr: string, a: nat, m: nat): set<nat> {
    set x: nat | a <= x < m && Comes(w, snaps, ps, c, arr, a, x)
  }

  /** The flight's arrivals are counted exactly: one leg for each sighting at which a timeline ends. */
  lemma {:induction false} ArrivalsCounted(
      w: World, snaps: seq<Snapshot>, ps: seq<Pilot>, c: string, arr: string, a: nat, m: nat)
    requires SightedOnce(Arrival, snaps, ps, c, arr, a) && a <= m <= |snaps| && StateAfter(w, snaps, a, c).arr.None?
    ensures |Arrivals(w, snaps, m, c)| == |Arrivals(w, snaps, a, c)| + |Landed(w, snaps, ps, c, arr, a, m)|
    decreases m
  {
    hide Arrivals, StateAfter, Comes, SightedOnce;
    if m == a {
      assert Landed(w, snaps, ps, c, arr, a, m) == {};
    } else {
      ArrivalsCounted(w, snaps, ps, c, arr, a, m - 1);
      ComesAdds(w, snaps, ps, c, arr, a, m - 1);
      var before := Landed(w, snaps, ps, c, arr, a, m - 1);
      assert Landed(w, snaps, ps, c, arr, a, m)
             == if Comes(w, snaps, ps, c, arr, a, m - 1) then before + {m - 1} else before;
    }
  }

  /** Two recorded arrivals never overlap: one ends before the other opens. */
  lemma TimelinesDisjoint(
      w: World, snaps: seq<Snapshot>, ps: seq<Pilot>, c: string, arr: string, a: nat, i: nat, j: nat, x: nat,
      i': nat, j': nat, x': nat)
    requires Timeline(w, snaps, ps, c, arr, a, i, j, x) && Timeline(w, snaps, ps, c, arr, a, i', j', x') && x < x'
    ensures x < i'
  {
    hide Timeline;
    TimelineSpans(w, snaps, ps, c, arr, a, i, j, x);
    TimelineSpans(w, snaps, ps, c, arr, a, i', j', x');
    Openings.SpansDisjoint(Opens(w, snaps, ps, c, arr), Ends(w, snaps, ps, c, arr), a, i, x, i', x');
  }
}
