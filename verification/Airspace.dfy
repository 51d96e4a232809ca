/** Ray casting over ARTCC boundary rings (`backend/src/feed/airspace.rs`), over exact reals. */
module Airspace {
  import opened Walks

  datatype Point = Point(lat: real, lon: real)

  /** The edge between `i` and `j` spans the latitude of `p` (half-open upwards). */
  predicate Straddles(i: Point, j: Point, p: Point) {
    (i.lat > p.lat) != (j.lat > p.lat)
  }

  /** The eastward ray from `p` meets the edge between `i` and `j`. */
  predicate Crosses(i: Point, j: Point, p: Point) {
    && Straddles(i, j, p)
    && p.lon < (j.lon - i.lon) * (p.lat - i.lat) / (j.lat - i.lat) + i.lon
  }

  /** The edges met by the ray from `p`. */
  ghost function Ray(p: Point): (Point, Point) -> bool {
    (a, b) => Crosses(a, b, p)
  }

  /** The even-odd rule: a ring contains `p` when the ray meets its closed boundary oddly often. */
  ghost predicate Inside(ring: seq<Point>, p: Point) {
    |ring| >= 3 && OddRing(ring, Ray(p))
  }

  method PointInRing(ring: seq<Point>, lat: real, lon: real) returns (inside: bool)
    ensures inside <==> Inside(ring, Point(lat, lon))
  {
    if |ring| < 3 {
      return false;
    }
    var p := Point(lat, lon);
    inside := false;
    var j := |ring| - 1;
    for i := 0 to |ring|
      invariant j == if i == 0 then |ring| - 1 else i - 1
      invariant inside <==> OddSoFar(ring, i, p)
    {
      OddSoFarStep(ring, i, p);
      if Crosses(ring[i], ring[j], p) {
        inside := !inside;
      }
      j := i;
    }
    OddSoFarComplete(ring, p);
  }

  /** Parity of the first `i` edges the loop looks at: the closing edge, then the ring in order. */
  ghost predicate OddSoFar(ring: seq<Point>, i: nat, p: Point)
    requires i <= |ring|
  {
    i > 0 && Crosses(ring[0], ring[|ring| - 1], p) != Odd(ring, 0, i - 1, Ray(p))
  }

  lemma OddSoFarStep(ring: seq<Point>, i: nat, p: Point)
    requires i < |ring|
    ensures OddSoFar(ring, i + 1, p)
            <==> OddSoFar(ring, i, p) != Crosses(ring[i], ring[if i == 0 then |ring| - 1 else i - 1], p)
  {
    if i > 0 {
      CrossesSymmetric(ring[i - 1], ring[i], p);
    }
  }

  lemma OddSoFarComplete(ring: seq<Point>, p: Point)
    requires |ring| >= 3
    ensures OddSoFar(ring, |ring|, p) <==> Inside(ring, p)
  {
    CrossesSymmetric(ring[0], ring[|ring| - 1], p);
  }

  // ---- The edge test is a side test ------------------------------------------------------------

  /** Twice the signed area of the triangle `a b p`. */
  function Side(a: Point, b: Point, p: Point): real {
    (b.lon - a.lon) * (p.lat - a.lat) - (b.lat - a.lat) * (p.lon - a.lon)
  }

  lemma QuotientBound(x: real, t: real, d: real)
    requires d != 0.0
    ensures d > 0.0 ==> (x < t / d <==> x * d < t)
    ensures d < 0.0 ==> (x < t / d <==> x * d > t)
  {
    var q := t / d;
    assert q * d == t;
    if d > 0.0 {
      if x < q { assert (q - x) * d > 0.0; } else { assert (x - q) * d >= 0.0; }
    } else {
      if x < q { assert (q - x) * d < 0.0; } else { assert (x - q) * d <= 0.0; }
    }
  }

  lemma CrossesIsSide(a: Point, b: Point, p: Point)
    requires Straddles(a, b, p)
    ensures Crosses(a, b, p) <==> if a.lat < b.lat then Side(a, b, p) > 0.0 else Side(a, b, p) < 0.0
  {
    var t, d := (b.lon - a.lon) * (p.lat - a.lat), b.lat - a.lat;
    QuotientBound(p.lon - a.lon, t, d);
    assert Side(a, b, p) == t - (p.lon - a.lon) * d;
  }

  lemma SideAntisymmetric(a: Point, b: Point, p: Point)
    ensures Side(a, b, p) == -Side(b, a, p)
  {
  }

  lemma CrossesSymmetric(a: Point, b: Point, p: Point)
    ensures Crosses(a, b, p) <==> Crosses(b, a, p)
  {
    if Straddles(a, b, p) {
      CrossesIsSide(a, b, p);
      CrossesIsSide(b, a, p);
      SideAntisymmetric(a, b, p);
    }
  }

  lemma RaySymmetric(p: Point)
    ensures Symmetric(Ray(p))
  {
    forall a, b ensures Crosses(a, b, p) == Crosses(b, a, p) {
      CrossesSymmetric(a, b, p);
    }
  }

  /** The length guard changes nothing: shorter rings hold no point anyway. */
  lemma InsideIsOddRing(ring: seq<Point>, p: Point)
    ensures Inside(ring, p) <==> OddRing(ring, Ray(p))
  {
    RaySymmetric(p);
    if |ring| < 3 {
      ShortRing(ring, Ray(p));
    }
  }

  // ---- Representation independence -------------------------------------------------------------

  lemma RotationInvariant(ring: seq<Point>, k: nat, p: Point)
    requires k <= |ring|
    ensures Inside(ring[k..] + ring[..k], p) <==> Inside(ring, p)
  {
    Rotation(ring, k, Ray(p));
  }

  lemma ReversalInvariant(ring: seq<Point>, p: Point)
    ensures Inside(Reversed(ring), p) <==> Inside(ring, p)
  {
    RaySymmetric(p);
    Reversal(ring, Ray(p));
  }

  /** Repeating any vertex in place changes nothing. */
  lemma RepeatedVertexInvariant(ring: seq<Point>, k: nat, p: Point)
    requires k < |ring|
    ensures Inside(ring[..k + 1] + ring[k..], p) <==> Inside(ring, p)
  {
    RaySymmetric(p);
    Stutter(ring, k, Ray(p));
    InsideIsOddRing(ring, p);
    InsideIsOddRing(ring[..k + 1] + ring[k..], p);
  }

  /** A ring may be filed with or without its closing point. */
  lemma ClosingPointInvariant(ring: seq<Point>, p: Point)
    requires ring != []
    ensures Inside(ring + [ring[0]], p) <==> Inside(ring, p)
  {
    var closed, n := ring + [ring[0]], |ring|;
    RotationInvariant(closed, n, p);
    assert closed[n..] + closed[..n] == ring[..1] + ring[0..];
    RepeatedVertexInvariant(ring, 0, p);
  }

  // ---- Chords and triangulation ----------------------------------------------------------------

  /** Cutting a ring along the chord between vertices `i` and `j` makes containment the exclusive or
      of the two pieces. */
  lemma ChordAdditive(ring: seq<Point>, i: nat, j: nat, p: Point)
    requires i <= j < |ring|
    ensures Inside(ring, p) <==> Inside(ring[i..j + 1], p) != Inside(ring[j..] + ring[..i + 1], p)
  {
    RaySymmetric(p);
    Chord(ring, i, j, Ray(p));
    InsideIsOddRing(ring, p);
    InsideIsOddRing(ring[i..j + 1], p);
    InsideIsOddRing(ring[j..] + ring[..i + 1], p);
  }

  /** How many triangles of the fan from the first vertex hold `p`, modulo two. */
  ghost predicate FanOdd(ring: seq<Point>, p: Point) {
    |ring| >= 3 &&
    FanOdd(ring[..|ring| - 1], p) != Inside([ring[0], ring[|ring| - 2], ring[|ring| - 1]], p)
  }

  /** Any ring, simple or not, holds exactly the points an odd number of its fan triangles hold. */
  lemma {:induction false} FanTriangulation(ring: seq<Point>, p: Point)
    ensures Inside(ring, p) <==> FanOdd(ring, p)
  {
    if |ring| >= 3 {
      var n := |ring|;
      FanTriangulation(ring[..n - 1], p);
      ChordAdditive(ring, 0, n - 2, p);
      assert ring[0..n - 1] == ring[..n - 1];
      var tri := [ring[0], ring[n - 2], ring[n - 1]];
      RotationInvariant(tri, 1, p);
      assert ring[n - 2..] + ring[..1] == tri[1..] + tri[..1];
    }
  }

  // ---- Geometry --------------------------------------------------------------------------------

  /** `p` lies strictly to the left of all three edges. */
  predicate StrictlyWithin(a: Point, b: Point, c: Point, p: Point) {
    Side(a, b, p) > 0.0 && Side(b, c, p) > 0.0 && Side(c, a, p) > 0.0
  }

  /** `p` lies strictly to the right of some edge. */
  predicate StrictlyBeyond(a: Point, b: Point, c: Point, p: Point) {
    Side(a, b, p) < 0.0 || Side(b, c, p) < 0.0 || Side(c, a, p) < 0.0
  }

  lemma Barycentre(a: Point, b: Point, c: Point, p: Point)
    ensures Side(b, c, p) * (a.lat - p.lat) + Side(c, a, p) * (b.lat - p.lat) + Side(a, b, p) * (c.lat - p.lat) == 0.0
    ensures Side(a, b, p) + Side(b, c, p) + Side(c, a, p) == Side(a, b, c)
  {
    var (al, bl, cl) := (a.lat - p.lat, b.lat - p.lat, c.lat - p.lat);
    var (ax, bx, cx) := (a.lon - p.lon, b.lon - p.lon, c.lon - p.lon);
    assert Side(a, b, p) == bl * ax - al * bx by { SideCentred(a, b, p); }
    assert Side(b, c, p) == cl * bx - bl * cx by { SideCentred(b, c, p); }
    assert Side(c, a, p) == al * cx - cl * ax by { SideCentred(c, a, p); }
  }

  lemma SideCentred(a: Point, b: Point, p: Point)
    ensures Side(a, b, p) == (b.lat - p.lat) * (a.lon - p.lon) - (a.lat - p.lat) * (b.lon - p.lon)
  {
  }

  /** A triangle is decided exactly off its boundary lines, whatever its orientation. */
  lemma TriangleExact(a: Point, b: Point, c: Point, p: Point)
    requires Side(a, b, c) > 0.0
    ensures StrictlyWithin(a, b, c, p) ==> Inside([a, b, c], p) && Inside([c, b, a], p)
    ensures StrictlyBeyond(a, b, c, p) ==> !Inside([a, b, c], p) && !Inside([c, b, a], p)
  {
    assert Reversed([a, b, c]) == [c, b, a];
    ReversalInvariant([a, b, c], p);
    InsideTriangle(a, b, c, p);
    TriangleCases(a, b, c, p);
  }

  /** The ray meets an odd number of the three edges. */
  ghost predicate MeetsOddly(a: Point, b: Point, c: Point, p: Point) {
    (Crosses(a, b, p) != Crosses(b, c, p)) != Crosses(c, a, p)
  }

  lemma InsideTriangle(a: Point, b: Point, c: Point, p: Point)
    ensures Inside([a, b, c], p) <==> MeetsOddly(a, b, c, p)
  {
    var s := [a, b, c];
    assert Odd(s, 0, 1, Ray(p)) == Crosses(a, b, p);
  }

  lemma TriangleCases(a: Point, b: Point, c: Point, p: Point)
    requires Side(a, b, c) > 0.0
    ensures StrictlyWithin(a, b, c, p) ==> MeetsOddly(a, b, c, p)
    ensures StrictlyBeyond(a, b, c, p) ==> !MeetsOddly(a, b, c, p)
  {
    SideCyclic(a, b, c);
    SideCyclic(b, c, a);
    if Straddles(a, b, p) && Straddles(b, c, p) {
      CutTriangle(a, b, c, p);
    } else if Straddles(b, c, p) && Straddles(c, a, p) {
      CutTriangle(b, c, a, p);
    } else if Straddles(c, a, p) && Straddles(a, b, p) {
      CutTriangle(c, a, b, p);
    } else {
      UncutTriangle(a, b, c, p);
    }
  }

  lemma SideCyclic(a: Point, b: Point, c: Point)
    ensures Side(a, b, c) == Side(b, c, a)
  {
  }

  /** When no edge spans the latitude, `p` is not strictly within. */
  lemma UncutTriangle(a: Point, b: Point, c: Point, p: Point)
    requires !Straddles(a, b, p) && !Straddles(b, c, p) && !Straddles(c, a, p)
    ensures !StrictlyWithin(a, b, c, p)
  {
    Barycentre(a, b, c, p);
    SideCentred(a, b, p);
    var (u, v, w) := (Side(b, c, p), Side(c, a, p), Side(a, b, p));
    var (x, y, z) := (a.lat - p.lat, b.lat - p.lat, c.lat - p.lat);
    if u > 0.0 && v > 0.0 && w > 0.0 {
      ScaledSign(u, x);
      ScaledSign(v, y);
      ScaledSign(w, z);
      assert false;
    }
  }

  lemma ScaledSign(u: real, x: real)
    requires u > 0.0
    ensures x > 0.0 ==> u * x > 0.0
    ensures x < 0.0 ==> u * x < 0.0
  {
  }

  /** When `a b` and `b c` span the latitude, the ray meets exactly one of them if `p` is strictly
      within, and both or neither if it is strictly beyond. */
  lemma CutTriangle(a: Point, b: Point, c: Point, p: Point)
    requires Side(a, b, c) > 0.0
    requires Straddles(a, b, p) && Straddles(b, c, p)
    ensures StrictlyWithin(a, b, c, p) ==> MeetsOddly(a, b, c, p)
    ensures StrictlyBeyond(a, b, c, p) ==> !MeetsOddly(a, b, c, p)
  {
    var (u, v, w) := (Side(b, c, p), Side(c, a, p), Side(a, b, p));
    CrossesIsSide(a, b, p);
    CrossesIsSide(b, c, p);
    Barycentre(a, b, c, p);
    if Crosses(a, b, p) != Crosses(b, c, p) {
      ThirdSide(u, v, w, a.lat - p.lat, b.lat - p.lat, c.lat - p.lat);
    }
  }

  /** The apex is on one side of the latitude and the base on the other: the base's side test has the
      sign the other two share. */
  lemma ThirdSide(u: real, v: real, w: real, x: real, y: real, z: real)
    requires u * x + v * y + w * z == 0.0 && u + v + w > 0.0
    requires (y > 0.0 && x <= 0.0 && z <= 0.0) || (y <= 0.0 && x > 0.0 && z > 0.0)
    requires (u >= 0.0 && w >= 0.0) || (u <= 0.0 && w <= 0.0)
    ensures u >= 0.0 && v >= 0.0 && w >= 0.0
  {
    assert v * y == -(u * x) - w * z;
  }

  // ---- Closed-ring parity ----------------------------------------------------------------------

  /** The edges that span the latitude of `p`, whether or not the ray meets them. */
  ghost function Latitude(p: Point): (Point, Point) -> bool {
    (a, b) => Straddles(a, b, p)
  }

  /** On the way from `s[i]` to `s[j]` the latitude is spanned oddly often when they differ in side. */
  lemma {:induction false} SpansParity(s: seq<Point>, i: nat, j: nat, p: Point)
    requires i <= j < |s|
    ensures Odd(s, i, j, Latitude(p)) <==> Straddles(s[i], s[j], p)
    decreases j
  {
    if i < j {
      SpansParity(s, i, j - 1, p);
    }
  }

  /** A closed boundary goes up across a latitude as often as it comes down. */
  lemma EvenSpans(ring: seq<Point>, p: Point)
    ensures !OddRing(ring, Latitude(p))
  {
    if ring != [] {
      SpansParity(ring, 0, |ring| - 1, p);
    }
  }

  /** Markings that agree on a walk's edges give it the same parity. */
  lemma {:induction false} SameMarks(s: seq<Point>, i: nat, j: nat, f: (Point, Point) -> bool, g: (Point, Point) -> bool)
    requires i <= j < |s|
    requires forall a, b :: a in s && b in s ==> f(a, b) == g(a, b)
    ensures Odd(s, i, j, f) <==> Odd(s, i, j, g)
    decreases j
  {
    if i < j {
      SameMarks(s, i, j - 1, f, g);
    }
  }

  lemma {:induction false} NoMarks(s: seq<Point>, i: nat, j: nat, f: (Point, Point) -> bool)
    requires i <= j < |s|
    requires forall a, b :: a in s && b in s ==> !f(a, b)
    ensures !Odd(s, i, j, f)
    decreases j
  {
    if i < j {
      NoMarks(s, i, j - 1, f);
    }
  }

  /** Every point outside the bounding box of a ring is reported outside it. */
  lemma OutsideBox(ring: seq<Point>, p: Point)
    requires || (forall v :: v in ring ==> p.lon < v.lon)
             || (forall v :: v in ring ==> v.lon < p.lon)
             || (forall v :: v in ring ==> p.lat < v.lat)
             || (forall v :: v in ring ==> v.lat < p.lat)
    ensures !Inside(ring, p)
  {
    if ring != [] {
      forall a, b | a in ring && b in ring
        ensures (forall v :: v in ring ==> p.lon < v.lon) ==> Crosses(a, b, p) == Straddles(a, b, p)
        ensures (forall v :: v in ring ==> v.lon < p.lon) ==> !Crosses(a, b, p)
      {
        if Straddles(a, b, p) {
          BetweenEnds(a, b, p);
        }
      }
      if forall v :: v in ring ==> p.lon < v.lon {
        EvenSpans(ring, p);
        SameMarks(ring, 0, |ring| - 1, Ray(p), Latitude(p));
      } else {
        NoMarks(ring, 0, |ring| - 1, Ray(p));
      }
    }
  }

  lemma BetweenEnds(a: Point, b: Point, p: Point)
    requires Straddles(a, b, p)
    ensures p.lon < a.lon && p.lon < b.lon ==> Crosses(a, b, p)
    ensures a.lon <= p.lon && b.lon <= p.lon ==> !Crosses(a, b, p)
  {
    CrossesIsSide(a, b, p);
    SideCentred(a, b, p);
    if a.lat < b.lat {
      MixedSigns(b.lat - p.lat, a.lat - p.lat, a.lon - p.lon, b.lon - p.lon);
    } else {
      MixedSigns(a.lat - p.lat, b.lat - p.lat, b.lon - p.lon, a.lon - p.lon);
    }
  }

  lemma MixedSigns(u: real, v: real, x: real, y: real)
    requires u > 0.0 >= v
    ensures x > 0.0 && y > 0.0 ==> u * x - v * y > 0.0
    ensures x <= 0.0 && y <= 0.0 ==> u * x - v * y <= 0.0
  {
    ScaledSign(u, x);
    if v < 0.0 {
      ScaledSign(-v, y);
      assert (-v) * y == -(v * y);
    }
  }

  /** An axis-aligned rectangle is decided exactly, edges included: a half-open box. */
  lemma RectangleExact(south: real, west: real, north: real, east: real, p: Point)
    requires south < north && west < east
    ensures Inside([Point(south, west), Point(south, east), Point(north, east), Point(north, west)], p)
            <==> south <= p.lat < north && west <= p.lon < east
  {
    var (a, b, c, d) := (Point(south, west), Point(south, east), Point(north, east), Point(north, west));
    var s := [a, b, c, d];
    assert Odd(s, 0, 2, Ray(p)) == (Crosses(a, b, p) != Crosses(b, c, p)) by {
      assert Odd(s, 0, 1, Ray(p)) == Crosses(a, b, p);
    }
    if Straddles(b, c, p) {
      CrossesIsSide(b, c, p);
      SideCentred(b, c, p);
      CrossesIsSide(d, a, p);
      SideCentred(d, a, p);
    }
  }
}
