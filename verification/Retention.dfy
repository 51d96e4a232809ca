/** The retention ladder of the position time series (`stats_compaction_once` in `backend/src/jobs.rs`).
    Times are milliseconds since the epoch. */
module Retention {
  import opened Decimals

  const HOUR := 3600000
  const DAY := 24 * HOUR

  /** `(age_days, keep_every)`. */
  const TIERS: seq<(int, int)> := [(7, 4), (14, 4), (21, 4)]

  /** Whole seconds, then whole hours of them. */
  function Bucket(now: int): int {
    Truncated(now / 1000, 3600)
  }

  datatype Slice = Slice(from: int, to: int, keep: int) {
    predicate Holds(ts: int) {
      from <= ts < to
    }
  }

  function SliceOf(now: int, tier: nat): Slice
    requires tier < |TIERS|
  {
    var to := now - TIERS[tier].0 * DAY;
    Slice(to - HOUR, to, TIERS[tier].1)
  }

  // ---- When the tiers run ----------------------------------------------------------------------

  /** The bucket found in `last_tier_hour` by invocation `i`: the one its predecessor left, or zero. */
  function Found(nows: seq<int>, i: nat): int
    requires i <= |nows|
  {
    if i == 0 then 0 else Bucket(nows[i - 1])
  }

  predicate Due(nows: seq<int>, i: nat)
    requires i < |nows|
  {
    Found(nows, i) != Bucket(nows[i])
  }

  ghost predicate NonDecreasing(nows: seq<int>) {
    forall i, j :: 0 <= i < j < |nows| ==> nows[i] <= nows[j]
  }

  lemma BucketMonotone(a: int, b: int)
    requires a <= b
    ensures Bucket(a) <= Bucket(b)
  {
  }

  /** An hour's bucket runs the tiers in its first invocation and in no other, unless it is the bucket
      the counter starts at. */
  lemma OncePerBucket(nows: seq<int>, i: nat)
    requires NonDecreasing(nows) && i < |nows|
    ensures Due(nows, i) <==> (i == 0 ==> Bucket(nows[0]) != 0) && forall j :: 0 <= j < i ==> Bucket(nows[j]) != Bucket(nows[i])
  {
    forall j | 0 <= j < i ensures Bucket(nows[j]) <= Bucket(nows[i - 1]) <= Bucket(nows[i]) {
      BucketMonotone(nows[j], nows[i - 1]);
      BucketMonotone(nows[i - 1], nows[i]);
    }
  }

  // ---- No row twice in one tier ----------------------------------------------------------------

  ghost predicate Apart(nows: seq<int>) {
    forall i, j :: 0 <= i < j < |nows| && Due(nows, i) && Due(nows, j) ==> nows[j] - nows[i] >= HOUR
  }

  predicate Touches(nows: seq<int>, i: nat, tier: nat, ts: int)
    requires i < |nows| && tier < |TIERS|
  {
    Due(nows, i) && SliceOf(nows[i], tier).Holds(ts)
  }

  ghost predicate ThinnedTwice(nows: seq<int>, tier: nat, ts: int)
    requires tier < |TIERS|
  {
    exists i, j :: 0 <= i < j < |nows| && Touches(nows, i, tier, ts) && Touches(nows, j, tier, ts)
  }

  /** No row is thinned twice by one tier exactly when runs that are due are an hour apart. */
  lemma NeverTwiceIffApart(nows: seq<int>, tier: nat)
    requires NonDecreasing(nows) && tier < |TIERS|
    ensures (forall ts :: !ThinnedTwice(nows, tier, ts)) <==> Apart(nows)
  {
    if i, j :| 0 <= i < j < |nows| && Due(nows, i) && Due(nows, j) && nows[j] - nows[i] < HOUR {
      var ts := SliceOf(nows[i], tier).to - 1;
      assert Touches(nows, i, tier, ts) && Touches(nows, j, tier, ts);
      assert ThinnedTwice(nows, tier, ts);
    }
  }

  /** The hour bucket alone does not keep runs an hour apart: one at 0:59 and one at 1:01 are both due,
      and every tier thins the 58 minutes they share twice. */
  lemma BucketIsNotEnough(tier: nat, day: nat, ts: int)
    requires tier < |TIERS| && day > 0
    ensures
      var (a, b) := (day * DAY + 59 * 60000, day * DAY + 61 * 60000);
      && NonDecreasing([a, b]) && Due([a, b], 0) && Due([a, b], 1)
      && (SliceOf(b, tier).from <= ts < SliceOf(a, tier).to ==> ThinnedTwice([a, b], tier, ts))
  {
    var (a, b) := (day * DAY + 59 * 60000, day * DAY + 61 * 60000);
    assert Bucket(a) == day * 24 && Bucket(b) == day * 24 + 1;
    if SliceOf(b, tier).from <= ts < SliceOf(a, tier).to {
      assert Touches([a, b], 0, tier, ts) && Touches([a, b], 1, tier, ts);
    }
  }

  // ---- The tiers in order ----------------------------------------------------------------------

  /** A row meets the tiers in order: an older tier only in a later run. */
  lemma TiersInOrder(nows: seq<int>, i: nat, j: nat, s: nat, t: nat, ts: int)
    requires NonDecreasing(nows) && i < |nows| && j < |nows| && s < t < |TIERS|
    requires Touches(nows, i, s, ts) && Touches(nows, j, t, ts)
    ensures i < j
  {
  }

  /** The tier whose slice holds `ts` in a run at `now`; at most one does. */
  function TierAt(now: int, ts: int): int {
    if SliceOf(now, 0).Holds(ts) then 0
    else if SliceOf(now, 1).Holds(ts) then 1
    else if SliceOf(now, 2).Holds(ts) then 2 else -1
  }

  /** The tiers that thin a row at `ts`, run by run. */
  function Thinnings(nows: seq<int>, ts: int, n: nat): seq<int>
    requires n <= |nows|
  {
    if n == 0 then []
    else
      var t := TierAt(nows[n - 1], ts);
      Thinnings(nows, ts, n - 1) + if Due(nows, n - 1) && t >= 0 then [t] else []
  }

  ghost predicate Ascends(s: seq<int>) {
    && (forall a :: 0 <= a < |s| ==> 0 <= s[a] < |TIERS|)
    && forall a, b :: 0 <= a < b < |s| ==> s[a] < s[b]
  }

  lemma ThinningsLast(nows: seq<int>, ts: int, n: nat)
    requires n < |nows|
    ensures Thinnings(nows, ts, n + 1)
            == if Due(nows, n) && TierAt(nows[n], ts) >= 0 then Thinnings(nows, ts, n) + [TierAt(nows[n], ts)]
               else Thinnings(nows, ts, n)
  {
  }

  lemma {:induction false} ThinningsAscend(nows: seq<int>, ts: int, n: nat)
    requires NonDecreasing(nows) && Apart(nows) && n <= |nows|
    ensures Ascends(Thinnings(nows, ts, n))
  {
    hide *;
    NoThinnings(nows, ts);
    if n > 0 {
      ThinningsLast(nows, ts, n - 1);
      ThinningsAscend(nows, ts, n - 1);
      var before, t := Thinnings(nows, ts, n - 1), TierAt(nows[n - 1], ts);
      TierInRange(nows[n - 1], ts);
      if Due(nows, n - 1) && t >= 0 {
        forall a: nat | a < |before| ensures before[a] < t {
          ThinningIsEarlier(nows, ts, n - 1, a);
        }
        AscendsMore(before, t);
      }
    }
  }

  lemma AscendsMore(s: seq<int>, t: int)
    requires Ascends(s) && 0 <= t < |TIERS| && forall a :: 0 <= a < |s| ==> s[a] < t
    ensures Ascends(s + [t])
  {
  }

  lemma NoThinnings(nows: seq<int>, ts: int)
    ensures Ascends(Thinnings(nows, ts, 0))
  {
  }

  lemma TierInRange(now: int, ts: int)
    ensures TierAt(now, ts) < |TIERS|
  {
  }

  lemma ThinningIsEarlier(nows: seq<int>, ts: int, n: nat, a: nat)
    requires NonDecreasing(nows) && Apart(nows) && n < |nows| && Due(nows, n) && TierAt(nows[n], ts) >= 0
    requires a < |Thinnings(nows, ts, n)|
    ensures Thinnings(nows, ts, n)[a] < TierAt(nows[n], ts)
  {
    hide Thinnings, Due, TierAt, NonDecreasing;
    ThinningHasRun(nows, ts, n, a);
    var i :| 0 <= i < n && Due(nows, i) && TierAt(nows[i], ts) == Thinnings(nows, ts, n)[a];
    LaterTier(nows[i], nows[n], ts);
  }

  lemma LaterTier(before: int, now: int, ts: int)
    requires now - before >= HOUR && TierAt(before, ts) >= 0 && TierAt(now, ts) >= 0
    ensures TierAt(before, ts) < TierAt(now, ts)
  {
  }

  lemma {:induction false} ThinningHasRun(nows: seq<int>, ts: int, n: nat, a: nat)
    requires n <= |nows| && a < |Thinnings(nows, ts, n)|
    ensures Thinnings(nows, ts, n)[a] >= 0
    ensures exists i :: 0 <= i < n && Due(nows, i) && TierAt(nows[i], ts) == Thinnings(nows, ts, n)[a]
  {
    if a < |Thinnings(nows, ts, n - 1)| {
      ThinningHasRun(nows, ts, n - 1, a);
    }
  }

  lemma {:induction false} AscendingAtLeast(s: seq<int>, a: nat)
    requires Ascends(s) && a < |s|
    ensures s[a] >= a
  {
    if a > 0 {
      AscendingAtLeast(s, a - 1);
    }
  }

  /** With due runs an hour apart, a row is thinned at most once per tier, in the tiers' order, so at most
      three times ever. */
  lemma AtMostThreeThinnings(nows: seq<int>, ts: int)
    requires NonDecreasing(nows) && Apart(nows)
    ensures var s := Thinnings(nows, ts, |nows|); Ascends(s) && |s| <= 3
  {
    hide Thinnings;
    ThinningsAscend(nows, ts, |nows|);
    var s := Thinnings(nows, ts, |nows|);
    if s != [] {
      AscendingAtLeast(s, |s| - 1);
    }
  }

  // ---- What a tier keeps -----------------------------------------------------------------------

  datatype Row = Row(session: int, ts: int)

  /** Which timestamps lie in an open or saved capture. */
  type Captured = int -> bool

  /** The rows of one session in a window that no capture protects. The table is listed by time. */
  function Within(rows: seq<Row>, session: int, from: int, to: int, captured: Captured): seq<Row> {
    if rows == [] then []
    else
      var row := rows[|rows| - 1];
      Within(rows[..|rows| - 1], session, from, to, captured)
      + if row.session == session && from <= row.ts < to && !captured(row.ts) then [row] else []
  }

  /** In the slice, an unprotected row stays only if its number among those of its session is a multiple of
      `keep`. */
  function Downsample(rows: seq<Row>, s: Slice, captured: Captured): seq<Row>
    requires s.keep > 0
  {
    if rows == [] then []
    else
      var row := rows[|rows| - 1];
      var number := |Within(rows, row.session, s.from, s.to, captured)|;
      Downsample(rows[..|rows| - 1], s, captured)
      + if s.Holds(row.ts) && !captured(row.ts) && number % s.keep != 0 then [] else [row]
  }

  /** Every `k`-th element. */
  function Thin<T>(s: seq<T>, k: nat): (r: seq<T>)
    requires k > 0
    ensures |r| == |s| / k
  {
    if s == [] then []
    else
      var front := Thin(s[..|s| - 1], k);
      DivStep(|s|, k);
      if |s| % k == 0 then front + [s[|s| - 1]] else front
  }

  lemma DivStep(n: nat, k: nat)
    requires n > 0 && k > 0
    ensures n / k == (n - 1) / k + if n % k == 0 then 1 else 0
  {
    var q, r := (n - 1) / k, (n - 1) % k;
    assert n - 1 == q * k + r;
    if r == k - 1 {
      assert n == (q + 1) * k;
      QuotientIs(n, k, q + 1, 0);
    } else {
      QuotientIs(n, k, q, r + 1);
    }
  }

  lemma QuotientIs(n: nat, k: nat, q: nat, r: nat)
    requires k > 0 && n == q * k + r && r < k
    ensures n / k == q && n % k == r
  {
    var d := n / k - q;
    assert n == (n / k) * k + n % k;
    assert d * k == r - n % k;
    assert d > 0 ==> d * k >= k;
    assert d < 0 ==> d * k + k <= 0;
  }

  /** Thinning by `a` and then by `b` is thinning by `a * b`. */
  lemma {:induction false} ThinCompounds<T>(s: seq<T>, a: nat, b: nat)
    requires a > 0 && b > 0
    ensures Thin(Thin(s, a), b) == Thin(s, a * b)
  {
    if s != [] {
      var last := |s| - 1;
      ThinCompounds(s[..last], a, b);
      DivModCompound(|s|, a, b);
      if |s| % a == 0 {
        assert Thin(s, a)[..|Thin(s, a)| - 1] == Thin(s[..last], a);
      }
    }
  }

  lemma DivModCompound(n: nat, a: nat, b: nat)
    requires a > 0 && b > 0
    ensures a * b > 0
    ensures n % a == 0 && (n / a) % b == 0 <==> n % (a * b) == 0
  {
    var q, r := n / a, n % a;
    var p, t := q / b, q % b;
    TwoDigitsOf(n, a, b, q, r, p, t);
    QuotientIs(n, a * b, p, t * a + r);
    assert t > 0 ==> t * a > 0;
  }

  lemma TwoDigitsOf(n: nat, a: nat, b: nat, q: nat, r: nat, p: nat, t: nat)
    requires n == q * a + r && q == p * b + t && r < a && t < b
    ensures a * b > 0 && n == p * (a * b) + (t * a + r) && t * a + r < a * b
  {
    assert (p * b + t) * a == p * (a * b) + t * a;
    assert t * a <= (b - 1) * a;
  }

  lemma WithinLast(rows: seq<Row>, row: Row, session: int, from: int, to: int, captured: Captured)
    ensures Within(rows + [row], session, from, to, captured)
            == if row.session == session && from <= row.ts < to && !captured(row.ts)
               then Within(rows, session, from, to, captured) + [row]
               else Within(rows, session, from, to, captured)
  {
    assert (rows + [row])[..|rows|] == rows;
  }

  predicate Disjoint(s: Slice, from: int, to: int) {
    s.to <= from || to <= s.from
  }

  /** A pass thins the unprotected rows of its own window, session by session, and touches no other. */
  lemma {:induction false} PassThinsItsWindow(
      rows: seq<Row>, s: Slice, captured: Captured, session: int, from: int, to: int)
    requires s.keep > 0 && (Disjoint(s, from, to) || (s.from == from && s.to == to))
    ensures
      var before := Within(rows, session, from, to, captured);
      Within(Downsample(rows, s, captured), session, from, to, captured)
      == if Disjoint(s, from, to) then before else Thin(before, s.keep)
  {
    hide Thin, Within, Downsample;
    if rows == [] {
      NoRows(s, session, from, to, captured);
    } else {
      var front, row := rows[..|rows| - 1], rows[|rows| - 1];
      assert rows == front + [row];
      PassThinsItsWindow(front, s, captured, session, from, to);
      DownsampleLast(front, row, s, captured);
      WithinLast(Downsample(front, s, captured), row, session, from, to, captured);
      WithinLast(front, row, session, from, to, captured);
      ThinLast(Within(front, session, from, to, captured), row, s.keep);
    }
  }

  lemma NoRows(s: Slice, session: int, from: int, to: int, captured: Captured)
    requires s.keep > 0
    ensures Downsample([], s, captured) == Within([], session, from, to, captured) == []
    ensures Thin(Within([], session, from, to, captured), s.keep) == []
  {
  }

  lemma DownsampleLast(front: seq<Row>, row: Row, s: Slice, captured: Captured)
    requires s.keep > 0
    ensures Downsample(front + [row], s, captured)
            == if s.Holds(row.ts) && !captured(row.ts) && (|Within(front, row.session, s.from, s.to, captured)| + 1) % s.keep != 0
               then Downsample(front, s, captured)
               else Downsample(front, s, captured) + [row]
  {
    assert (front + [row])[..|front|] == front;
    WithinLast(front, row, row.session, s.from, s.to, captured);
  }

  lemma ThinLast<T>(s: seq<T>, x: T, k: nat)
    requires k > 0
    ensures Thin(s + [x], k) == if (|s| + 1) % k == 0 then Thin(s, k) + [x] else Thin(s, k)
  {
    assert (s + [x])[..|s|] == s;
  }

  /** A pass deletes no protected row, and adds none. */
  lemma {:induction false} PassKeepsCaptured(rows: seq<Row>, s: Slice, captured: Captured, row: Row)
    requires s.keep > 0
    ensures row in Downsample(rows, s, captured) ==> row in rows
    ensures row in rows && captured(row.ts) ==> row in Downsample(rows, s, captured)
  {
    hide Within;
    if rows != [] {
      var front, last := rows[..|rows| - 1], rows[|rows| - 1];
      assert rows == front + [last];
      PassKeepsCaptured(front, s, captured, row);
    }
  }

  /** The same rows are unprotected when the captures agree on the window. */
  lemma {:induction false} SameWithin(rows: seq<Row>, session: int, from: int, to: int, a: Captured, b: Captured)
    requires forall ts :: from <= ts < to ==> a(ts) == b(ts)
    ensures Within(rows, session, from, to, a) == Within(rows, session, from, to, b)
  {
    if rows != [] {
      SameWithin(rows[..|rows| - 1], session, from, to, a, b);
    }
  }

  // ---- The job ---------------------------------------------------------------------------------

  /** What the passes of one invocation meet: the captures each tier's pass sees, and the tiers that fail. */
  datatype Tick = Tick(captured: (nat, int) -> bool, failed: set<nat>)

  function Sees(t: Tick, tier: nat): Captured {
    ts => t.captured(tier, ts)
  }

  /** All the tiers' passes of one run that is due; a failed pass is skipped. */
  function TierPasses(rows: seq<Row>, now: int, t: Tick, n: nat): seq<Row>
    requires n <= |TIERS|
  {
    if n == 0 then rows
    else
      var before := TierPasses(rows, now, t, n - 1);
      if n - 1 in t.failed then before else Downsample(before, SliceOf(now, n - 1), Sees(t, n - 1))
  }

  class Compaction {
    var lastTierHour: int
    var rows: seq<Row>

    constructor (rows: seq<Row>)
      ensures lastTierHour == 0 && this.rows == rows
    {
      lastTierHour, this.rows := 0, rows;
    }

    method StatsCompactionOnce(now: int, t: Tick)
      modifies this
      ensures lastTierHour == Bucket(now)
      ensures rows == if old(lastTierHour) != Bucket(now) then TierPasses(old(rows), now, t, |TIERS|) else old(rows)
    {
      var hourBucket := Bucket(now);
      var tiersDue := lastTierHour != hourBucket;
      lastTierHour := hourBucket;
      if tiersDue {
        for k := 0 to |TIERS|
          invariant rows == TierPasses(old(rows), now, t, k)
          invariant lastTierHour == hourBucket
        {
          if k !in t.failed {
            var to := now - TIERS[k].0 * DAY;
            rows := Downsample(rows, Slice(to - HOUR, to, TIERS[k].1), Sees(t, k));
          }
        }
      }
    }
  }

  // ---- The whole ladder, run hourly ------------------------------------------------------------

  /** The table after the first `n` of the invocations `nows`. */
  function After(rows: seq<Row>, nows: seq<int>, ticks: seq<Tick>, n: nat): seq<Row>
    requires n <= |nows| == |ticks|
  {
    if n == 0 then rows
    else
      var before := After(rows, nows, ticks, n - 1);
      if Due(nows, n - 1) then TierPasses(before, nows[n - 1], ticks[n - 1], |TIERS|) else before
  }

  /** Runs exactly one interval apart, the first of them after the counter's first hour. */
  ghost predicate Hourly(nows: seq<int>) {
    && (nows != [] ==> nows[0] >= HOUR)
    && forall i :: 0 <= i < |nows| ==> nows[i] == nows[0] + i * HOUR
  }

  lemma HourlyIsDue(nows: seq<int>, i: nat)
    requires Hourly(nows) && i < |nows|
    ensures Due(nows, i)
  {
    assert nows[i] == nows[0] + i * HOUR;
    if i > 0 {
      assert nows[i - 1] == nows[0] + (i - 1) * HOUR;
      NextBucket(nows[i - 1]);
    } else {
      BucketMonotone(HOUR, nows[0]);
    }
  }

  lemma NextBucket(now: int)
    requires now >= 0
    ensures Bucket(now + HOUR) == Bucket(now) + 1
  {
  }

  ghost predicate OnlyTouch(nows: seq<int>, i: nat, tier: nat, ts: int)
    requires i < |nows| && tier < |TIERS|
  {
    Touches(nows, i, tier, ts) && forall j: nat :: j < |nows| && Touches(nows, j, tier, ts) ==> j == i
  }

  /** Hourly slices tile: each instant between a tier's first and last slice falls in exactly one. */
  lemma EveryInstantOnce(nows: seq<int>, tier: nat, ts: int)
    requires Hourly(nows) && nows != [] && tier < |TIERS|
    requires SliceOf(nows[0], tier).from <= ts < SliceOf(nows[|nows| - 1], tier).to
    ensures exists i: nat :: i < |nows| && OnlyTouch(nows, i, tier, ts)
  {
    var i := (ts - SliceOf(nows[0], tier).from) / HOUR;
    assert nows[|nows| - 1] == nows[0] + (|nows| - 1) * HOUR;
    assert i < |nows| && nows[i] == nows[0] + i * HOUR;
    HourlyIsDue(nows, i);
    hide Due;
    forall j: nat | j < |nows| && Touches(nows, j, tier, ts) ensures j == i {
      assert nows[j] == nows[0] + j * HOUR;
    }
    assert OnlyTouch(nows, i, tier, ts);
  }

  /** What the pass of one tier does to the window that ends `m` hours after the first of `n` hourly runs. */
  function Factor(ticks: seq<Tick>, n: nat, m: int, tier: nat): (f: nat)
    requires n <= |ticks| && m > -7 * 24
    ensures f > 0
  {
    var i := m + 7 * 24 * (tier + 1);
    if i < n && tier !in ticks[i].failed then 4 else 1
  }

  /** How far `n` hourly runs have thinned it. */
  function Density(ticks: seq<Tick>, n: nat, m: int): (d: nat)
    requires n <= |ticks| && m > -7 * 24
    ensures d > 0
  {
    Factor(ticks, n, m, 0) * Factor(ticks, n, m, 1) * Factor(ticks, n, m, 2)
  }

  lemma ThinByOne<T>(s: seq<T>)
    ensures Thin(s, 1) == s
  {
  }

  /** No capture protects a row of the window from the pass of any tier. */
  ghost predicate Unprotected(t: Tick, from: int, to: int) {
    forall tier: nat, ts: int :: from <= ts < to ==> !t.captured(tier, ts)
  }

  const NONE: Captured := ts => false

  lemma PassOnUnprotected(rows: seq<Row>, s: Slice, t: Tick, tier: nat, session: int, from: int, to: int)
    requires s.keep > 0 && (Disjoint(s, from, to) || (s.from == from && s.to == to)) && Unprotected(t, from, to)
    ensures
      var before := Within(rows, session, from, to, NONE);
      Within(Downsample(rows, s, Sees(t, tier)), session, from, to, NONE)
      == if Disjoint(s, from, to) then before else Thin(before, s.keep)
  {
    hide Thin, Within, Downsample;
    PassThinsItsWindow(rows, s, Sees(t, tier), session, from, to);
    SameWithin(rows, session, from, to, Sees(t, tier), NONE);
    SameWithin(Downsample(rows, s, Sees(t, tier)), session, from, to, Sees(t, tier), NONE);
  }

  /** One of the first `n` tiers reaches back exactly `hours`, and its pass does not fail. */
  predicate Struck(t: Tick, hours: int, n: nat) {
    || (n > 0 && 0 !in t.failed && hours == 7 * 24)
    || (n > 1 && 1 !in t.failed && hours == 14 * 24)
    || (n > 2 && 2 !in t.failed && hours == 21 * 24)
  }

  /** The first `n` passes of a run at `now` against the window that ended `hours` before it. */
  lemma {:induction false} RunThinsWindow(rows: seq<Row>, now: int, t: Tick, session: int, hours: int, n: nat)
    requires n <= |TIERS|
    requires var to := now - hours * HOUR; Unprotected(t, to - HOUR, to)
    ensures
      var to := now - hours * HOUR;
      var before := Within(rows, session, to - HOUR, to, NONE);
      Within(TierPasses(rows, now, t, n), session, to - HOUR, to, NONE)
      == if Struck(t, hours, n) then Thin(before, 4) else before
  {
    hide Downsample, Thin, Within, Unprotected;
    if n > 0 {
      var to := now - hours * HOUR;
      RunThinsWindow(rows, now, t, session, hours, n - 1);
      PassOnUnprotected(TierPasses(rows, now, t, n - 1), SliceOf(now, n - 1), t, n - 1, session, to - HOUR, to);
    }
  }

  lemma DensityStep(ticks: seq<Tick>, n: nat, m: int)
    requires 0 < n <= |ticks| && m > -7 * 24
    ensures Density(ticks, n, m)
            == if Struck(ticks[n - 1], n - 1 - m, |TIERS|) then Density(ticks, n - 1, m) * 4 else Density(ticks, n - 1, m)
  {
  }

  /** Run hourly, the ladder keeps of every hour and session that no capture protects exactly every row, then
      every 4th, every 16th and every 64th of the original rows, as the hour passes a week, two and three: one
      factor of four for each tier's pass that does not fail. */
  lemma {:induction false} LadderThinsExactly(
      rows: seq<Row>, nows: seq<int>, ticks: seq<Tick>, n: nat, session: int, m: int)
    requires Hourly(nows) && 0 < |nows| == |ticks| && n <= |nows| && m > -7 * 24
    requires var to := nows[0] + m * HOUR; forall i :: 0 <= i < n ==> Unprotected(ticks[i], to - HOUR, to)
    ensures
      var to := nows[0] + m * HOUR;
      Within(After(rows, nows, ticks, n), session, to - HOUR, to, NONE)
      == Thin(Within(rows, session, to - HOUR, to, NONE), Density(ticks, n, m))
  {
    hide Within, Thin, TierPasses, Due, Unprotected, Struck, Density;
    var to := nows[0] + m * HOUR;
    var original := Within(rows, session, to - HOUR, to, NONE);
    if n == 0 {
      DensityAtFirst(ticks, m);
      ThinByOne(original);
    } else {
      LadderThinsExactly(rows, nows, ticks, n - 1, session, m);
      HourlyIsDue(nows, n - 1);
      assert nows[n - 1] - (n - 1 - m) * HOUR == to;
      RunThinsWindow(After(rows, nows, ticks, n - 1), nows[n - 1], ticks[n - 1], session, n - 1 - m, |TIERS|);
      ThinCompounds(original, Density(ticks, n - 1, m), 4);
      DensityStep(ticks, n, m);
    }
  }

  lemma DensityAtFirst(ticks: seq<Tick>, m: int)
    requires m > -7 * 24
    ensures Density(ticks, 0, m) == 1
  {
  }

  /** So an hour with fewer than 64 rows of a session ends with none at all: old positions are not only
      thinned, they can be lost altogether. Only a failed pass or a capture saves them. */
  lemma LadderLosesIffFewerThan64(
      rows: seq<Row>, nows: seq<int>, ticks: seq<Tick>, n: nat, session: int, m: int)
    requires Hourly(nows) && 0 < |nows| == |ticks| && n <= |nows| && m > -7 * 24 && n > m + 21 * 24
    requires var to := nows[0] + m * HOUR; forall i :: 0 <= i < n ==> Unprotected(ticks[i], to - HOUR, to)
    ensures
      var to := nows[0] + m * HOUR;
      var original := Within(rows, session, to - HOUR, to, NONE);
      && (Within(After(rows, nows, ticks, n), session, to - HOUR, to, NONE) == [] <==> |original| < Density(ticks, n, m))
      && ((forall i :: 0 <= i < n ==> ticks[i].failed == {}) ==> Density(ticks, n, m) == 64)
  {
    hide After, Within, Thin, Unprotected, Density;
    LadderThinsExactly(rows, nows, ticks, n, session, m);
    var to := nows[0] + m * HOUR;
    var original := Within(rows, session, to - HOUR, to, NONE);
    EmptyIffFewer(original, Density(ticks, n, m));
    FullDensity(ticks, n, m);
  }

  lemma EmptyIffFewer<T>(s: seq<T>, k: nat)
    requires k > 0
    ensures Thin(s, k) == [] <==> |s| < k
  {
    var q, r := |s| / k, |s| % k;
    assert |s| == q * k + r;
    assert q > 0 ==> q * k >= k;
  }

  lemma FullDensity(ticks: seq<Tick>, n: nat, m: int)
    requires n <= |ticks| && m > -7 * 24 && n > m + 21 * 24
    ensures (forall i :: 0 <= i < n ==> ticks[i].failed == {}) ==> Density(ticks, n, m) == 64
  {
  }

  /** A row in a capture whenever the passes look is never deleted. */
  lemma {:induction false} CapturedStays(rows: seq<Row>, nows: seq<int>, ticks: seq<Tick>, n: nat, row: Row)
    requires n <= |nows| == |ticks| && row in rows
    requires forall i, tier: nat :: 0 <= i < n && tier < |TIERS| ==> ticks[i].captured(tier, row.ts)
    ensures row in After(rows, nows, ticks, n)
  {
    hide TierPasses, Due;
    if n > 0 {
      CapturedStays(rows, nows, ticks, n - 1, row);
      PassesKeepCaptured(After(rows, nows, ticks, n - 1), nows[n - 1], ticks[n - 1], |TIERS|, row);
    }
  }

  lemma {:induction false} PassesKeepCaptured(rows: seq<Row>, now: int, t: Tick, n: nat, row: Row)
    requires n <= |TIERS| && row in rows && forall tier: nat :: tier < |TIERS| ==> t.captured(tier, row.ts)
    ensures row in TierPasses(rows, now, t, n)
  {
    hide Downsample;
    if n > 0 {
      PassesKeepCaptured(rows, now, t, n - 1, row);
      PassKeepsCaptured(TierPasses(rows, now, t, n - 1), SliceOf(now, n - 1), Sees(t, n - 1), row);
    }
  }

  // ---- A row that is lost ----------------------------------------------------------------------

  function Hours(n: nat): (nows: seq<int>)
    ensures |nows| == n && forall i :: 0 <= i < n ==> nows[i] == (200 + i) * HOUR
  {
    seq(n, i => (200 + i) * HOUR)
  }

  const QUIET := Tick((tier, ts) => false, {})

  function Quiet(n: nat): (ticks: seq<Tick>)
    ensures |ticks| == n && forall i :: 0 <= i < n ==> ticks[i] == QUIET
  {
    seq(n, i => QUIET)
  }

  /** One row and 338 hourly runs, a fortnight: it is an hour old by a week at the first of them, and by three
      weeks at the last, and then it is gone. */
  lemma SoleRowIsLost()
    ensures
      var row := Row(1, 32 * HOUR + 1);
      && Hourly(Hours(338)) && Within([row], 1, 32 * HOUR, 33 * HOUR, NONE) == [row]
      && Within(After([row], Hours(338), Quiet(338), 338), 1, 32 * HOUR, 33 * HOUR, NONE) == []
  {
    var row := Row(1, 32 * HOUR + 1);
    assert [row][..0] == [] && [row][0] == row;
    assert Within([row], 1, 32 * HOUR, 33 * HOUR, NONE) == [row];
    hide After, Within, Density;
    var (nows, ticks) := (Hours(338), Quiet(338));
    assert nows[0] == 200 * HOUR && nows[0] + -167 * HOUR == 33 * HOUR;
    LadderLosesIffFewerThan64([row], nows, ticks, 338, 1, -167);
  }
}
