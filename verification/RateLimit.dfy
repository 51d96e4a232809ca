/** The webhook failure rule (`webhook_block`, `charge_webhook_failure` and the webhook branch of `enforce`
    in `backend/src/rate_limit.rs`), over a limiter taken to be GCRA. Times are nanoseconds. */
module RateLimit {
  import opened Wrappers

  // ---- The limiter -----------------------------------------------------------------------------

  /** A burst of cells, replenished one per interval. */
  datatype Quota = Quota(burst: nat, interval: nat) {
    predicate Valid() {
      burst > 0 && interval > 0
    }
  }

  /** When the next cell fits, for a bucket whose cells are all replenished at `tat`. */
  function Earliest(q: Quota, tat: int): int {
    tat - (q.burst - 1) * q.interval
  }

  function Tat(tat: Option<int>, now: int): int {
    if tat.Some? && tat.value > now then tat.value else now
  }

  predicate Conforms(q: Quota, tat: Option<int>, now: int) {
    now >= Earliest(q, Tat(tat, now))
  }

  // ---- One sender ------------------------------------------------------------------------------

  /** What is held of one IP: when its bucket is full again, and until when it is refused. */
  datatype Gate = Gate(tat: Option<int>, until: Option<int>)

  const OPEN := Gate(None, None)

  /** Refused through the very instant of `until`. */
  predicate Refused(g: Gate, now: int) {
    g.until.Some? && now <= g.until.value
  }

  /** Charging one failed delivery. A denied one reads the clock twice more: `asked` later for the wait, and
      `stored` after that for when it starts. */
  function Charged(q: Quota, g: Gate, now: int, asked: nat, stored: nat): Gate {
    if Conforms(q, g.tat, now) then g.(tat := Some(Tat(g.tat, now) + q.interval))
    else g.(until := Some(now + asked + stored + Wait(Earliest(q, Tat(g.tat, now)), now + asked)))
  }

  function Wait(earliest: int, from: int): nat {
    if earliest > from then earliest - from else 0
  }

  function Cleaned(g: Gate, now: int): Gate {
    Gate(
      if g.tat.Some? && g.tat.value <= now then None else g.tat,
      if g.until.Some? && g.until.value <= now then None else g.until)
  }

  type Ip = int

  /** A delivery, and whether the handler answers it with a 4xx; or the minute's pruning. */
  datatype Event = Delivery(ip: Ip, now: int, fails: bool, asked: nat, stored: nat) | Cleanup(now: int)

  function Turn(q: Quota, g: Gate, e: Event, ip: Ip): Gate {
    match e
    case Cleanup(now) => Cleaned(g, now)
    case Delivery(from, now, fails, asked, stored) =>
      if from != ip || Refused(g, now) || !fails then g else Charged(q, g, now, asked, stored)
  }

  /** A denied charge refuses its sender until a cell fits, seen from the second reading and counted from the third. */
  lemma DeniedUntil(q: Quota, g: Gate, e: Event)
    requires q.Valid() && e.Delivery? && e.fails && !Refused(g, e.now) && !Conforms(q, g.tat, e.now)
    ensures g.tat.Some?
    ensures
      var fits, asking := g.tat.value - (q.burst - 1) * q.interval, e.now + e.asked;
      Turn(q, g, e, e.ip) == Gate(g.tat, Some(e.stored + if fits > asking then fits else asking))
  {
    assert (q.burst - 1) * q.interval >= 0;
  }

  /** What is held of `ip` before event `n`, having started with `g`. */
  function GateFrom(q: Quota, g: Gate, events: seq<Event>, n: nat, ip: Ip): Gate
    requires n <= |events|
  {
    if n == 0 then g else Turn(q, GateFrom(q, g, events, n - 1, ip), events[n - 1], ip)
  }

  function GateAt(q: Quota, events: seq<Event>, n: nat, ip: Ip): Gate
    requires n <= |events|
  {
    GateFrom(q, OPEN, events, n, ip)
  }

  ghost predicate InTime(events: seq<Event>) {
    forall i, j :: 0 <= i < j < |events| ==> events[i].now <= events[j].now
  }

  predicate IsRefused(q: Quota, events: seq<Event>, n: nat, ip: Ip)
    requires n < |events|
  {
    events[n].Delivery? && events[n].ip == ip && Refused(GateAt(q, events, n, ip), events[n].now)
  }

  /** Event `n` is a failing delivery that reached the handler, so it was charged. */
  predicate Charge(q: Quota, events: seq<Event>, n: nat, ip: Ip)
    requires n < |events|
  {
    events[n].Delivery? && events[n].ip == ip && events[n].fails && !IsRefused(q, events, n, ip)
  }

  predicate Granted(q: Quota, events: seq<Event>, n: nat, ip: Ip)
    requires n < |events|
  {
    Charge(q, events, n, ip) && Conforms(q, GateAt(q, events, n, ip).tat, events[n].now)
  }

  predicate Denied(q: Quota, events: seq<Event>, n: nat, ip: Ip)
    requires n < |events|
  {
    Charge(q, events, n, ip) && !Conforms(q, GateAt(q, events, n, ip).tat, events[n].now)
  }

  // ---- The middleware --------------------------------------------------------------------------

  class Webhooks {
    const quota: Quota
    var failures: map<Ip, int>
    var blocked: map<Ip, int>

    constructor (quota: Quota)
      ensures this.quota == quota
      ensures forall ip :: View(ip) == OPEN
    {
      this.quota := quota;
      failures, blocked := map[], map[];
    }

    ghost function View(ip: Ip): Gate
      reads this
    {
      Gate(Get(failures, ip), Get(blocked, ip))
    }

    method WebhookBlock(ip: Ip, now: int) returns (wait: Option<nat>)
      ensures wait.Some? <==> Refused(View(ip), now)
      ensures wait.Some? ==> wait.value == View(ip).until.value - now
    {
      if ip !in blocked || blocked[ip] < now {
        return None;
      }
      return Some(blocked[ip] - now);
    }

    method ChargeWebhookFailure(ip: Ip, now: int, asked: nat, stored: nat)
      modifies this
      ensures forall other :: View(other) == if other == ip then Charged(quota, old(View(ip)), now, asked,
              stored) else old(View(other))
    {
      var tat := if ip in failures && failures[ip] > now then failures[ip] else now;
      var earliest := tat - (quota.burst - 1) * quota.interval;
      if now >= earliest {
        failures := failures[ip := tat + quota.interval];
      } else {
        var wait := if earliest > now + asked then earliest - (now + asked) else 0;
        blocked := blocked[ip := now + asked + stored + wait];
      }
    }

    /** The webhook branch: refused with its wait, or handled and charged if the handler says 4xx. */
    method Enforce(ip: Ip, now: int, fails: bool, asked: nat, stored: nat) returns (wait: Option<nat>)
      modifies this
      ensures wait.Some? <==> old(Refused(View(ip), now))
      ensures forall other :: View(other) == Turn(quota, old(View(other)), Delivery(ip, now, fails, asked, stored), other)
    {
      wait := WebhookBlock(ip, now);
      if wait.None? && fails {
        ChargeWebhookFailure(ip, now, asked, stored);
      }
    }

    method RetainRecent(now: int)
      modifies this
      ensures forall ip :: View(ip) == Turn(quota, old(View(ip)), Cleanup(now), ip)
      ensures failures == map ip | ip in old(failures) && old(failures)[ip] > now :: old(failures)[ip]
      ensures blocked == map ip | ip in old(blocked) && old(blocked)[ip] > now :: old(blocked)[ip]
    {
      failures := map ip | ip in failures && failures[ip] > now :: failures[ip];
      blocked := map ip | ip in blocked && blocked[ip] > now :: blocked[ip];
    }
  }

  // ---- Other senders ---------------------------------------------------------------------------

  function ConcernsOnly(events: seq<Event>, ip: Ip): seq<Event> {
    if events == [] then []
    else
      var e := events[|events| - 1];
      ConcernsOnly(events[..|events| - 1], ip) + if e.Cleanup? || e.ip == ip then [e] else []
  }

  function GateAfter(q: Quota, events: seq<Event>, ip: Ip): Gate {
    GateAt(q, events, |events|, ip)
  }

  lemma {:induction false} GateOfPrefix(q: Quota, events: seq<Event>, more: seq<Event>, n: nat, ip: Ip)
    requires n <= |events|
    ensures GateAt(q, events + more, n, ip) == GateAt(q, events, n, ip)
  {
    if n > 0 {
      GateOfPrefix(q, events, more, n - 1, ip);
    }
  }

  /** What is held of one sender is exactly what it would be had no other sender ever called. */
  lemma {:induction false} OthersDoNotMatter(q: Quota, events: seq<Event>, ip: Ip)
    ensures GateAfter(q, events, ip) == GateAfter(q, ConcernsOnly(events, ip), ip)
  {
    if events != [] {
      var front, e := events[..|events| - 1], events[|events| - 1];
      var own := ConcernsOnly(front, ip);
      OthersDoNotMatter(q, front, ip);
      assert events == front + [e];
      GateOfPrefix(q, front, [e], |front|, ip);
      GateOfPrefix(q, own, [e], |own|, ip);
      assert (own + [e])[|own|] == e && own + [] == own;
    }
  }

  // ---- Never failing ---------------------------------------------------------------------------

  /** A sender none of whose deliveries was answered with a 4xx is never refused. */
  lemma {:induction false} NeverFailingNeverRefused(q: Quota, events: seq<Event>, n: nat, ip: Ip)
    requires n <= |events|
    requires forall i :: 0 <= i < n && events[i].Delivery? && events[i].ip == ip ==> !events[i].fails
    ensures GateAt(q, events, n, ip) == OPEN
    ensures n < |events| ==> !IsRefused(q, events, n, ip)
  {
    if n > 0 {
      NeverFailingNeverRefused(q, events, n - 1, ip);
    }
  }

  // ---- No two denials in a row -----------------------------------------------------------------

  /** A charge at `now` or later, if it is not refused, will conform. */
  predicate Recovers(q: Quota, g: Gate, now: int) {
    var earliest := if g.tat.Some? then Earliest(q, g.tat.value) else now;
    earliest <= now || (g.until.Some? && g.until.value >= earliest)
  }

  lemma RecoversConforms(q: Quota, g: Gate, now: int, later: int)
    requires q.Valid() && Recovers(q, g, now) && now <= later && !Refused(g, later)
    ensures Conforms(q, g.tat, later)
  {
    BurstFits(q);
  }

  lemma BurstFits(q: Quota)
    requires q.Valid()
    ensures (q.burst - 1) * q.interval >= 0
  {
  }

  lemma DeniedRecovers(q: Quota, g: Gate, now: int, asked: nat, stored: nat)
    requires q.Valid() && !Conforms(q, g.tat, now)
    ensures Recovers(q, Charged(q, g, now, asked, stored), now)
  {
    BurstFits(q);
  }

  lemma QuietTurnRecovers(q: Quota, g: Gate, e: Event, ip: Ip, now: int)
    requires q.Valid() && Recovers(q, g, now) && now <= e.now
    requires e.Delivery? && e.ip == ip ==> Refused(g, e.now) || !e.fails
    ensures Recovers(q, Turn(q, g, e, ip), e.now)
  {
    BurstFits(q);
  }

  ghost predicate NoChargeBetween(q: Quota, events: seq<Event>, i: nat, n: nat, ip: Ip)
    requires n <= |events|
  {
    forall k :: i < k < n ==> !Charge(q, events, k, ip)
  }

  lemma {:induction false} RecoveredUntilCharge(q: Quota, events: seq<Event>, i: nat, n: nat, ip: Ip)
    requires q.Valid() && InTime(events) && i < n <= |events| && Denied(q, events, i, ip)
    requires NoChargeBetween(q, events, i, n, ip)
    ensures Recovers(q, GateAt(q, events, n, ip), events[n - 1].now)
  {
    if n == i + 1 {
      DeniedRecovers(q, GateAt(q, events, i, ip), events[i].now, events[i].asked, events[i].stored);
    } else {
      RecoveredUntilCharge(q, events, i, n - 1, ip);
      assert !Charge(q, events, n - 1, ip);
      QuietTurnRecovers(q, GateAt(q, events, n - 1, ip), events[n - 1], ip, events[n - 2].now);
    }
  }

  /** After a denied charge, the sender's next charge is granted. */
  lemma NoTwoDenialsInARow(q: Quota, events: seq<Event>, i: nat, j: nat, ip: Ip)
    requires q.Valid() && InTime(events) && i < j < |events|
    requires Denied(q, events, i, ip) && Charge(q, events, j, ip) && NoChargeBetween(q, events, i, j, ip)
    ensures Granted(q, events, j, ip)
  {
    RecoveredUntilCharge(q, events, i, j, ip);
    RecoversConforms(q, GateAt(q, events, j, ip), events[j - 1].now, events[j].now);
  }

  // ---- How many failures get through -----------------------------------------------------------

  function Charges(q: Quota, events: seq<Event>, a: nat, z: nat, ip: Ip): nat
    requires a <= z <= |events|
  {
    if z == a then 0 else Charges(q, events, a, z - 1, ip) + if Charge(q, events, z - 1, ip) then 1 else 0
  }

  function Grants(q: Quota, events: seq<Event>, a: nat, z: nat, ip: Ip): nat
    requires a <= z <= |events|
  {
    if z == a then 0 else Grants(q, events, a, z - 1, ip) + if Granted(q, events, z - 1, ip) then 1 else 0
  }

  /** The last charge of the window was denied; it is event `DenialAt`. */
  predicate EndsDenied(q: Quota, events: seq<Event>, a: nat, z: nat, ip: Ip)
    requires a <= z <= |events|
  {
    a < z && if Charge(q, events, z - 1, ip) then Denied(q, events, z - 1, ip) else EndsDenied(q, events, a, z - 1, ip)
  }

  lemma {:induction false} DenialAt(q: Quota, events: seq<Event>, a: nat, z: nat, ip: Ip) returns (i: nat)
    requires a <= z <= |events| && EndsDenied(q, events, a, z, ip)
    ensures a <= i < z && Denied(q, events, i, ip) && NoChargeBetween(q, events, i, z, ip)
  {
    hide Charge, Denied;
    if Charge(q, events, z - 1, ip) {
      i := z - 1;
    } else {
      i := DenialAt(q, events, a, z - 1, ip);
    }
  }

  lemma {:induction false} HalfAreGranted(q: Quota, events: seq<Event>, a: nat, z: nat, ip: Ip)
    requires q.Valid() && InTime(events) && a <= z <= |events|
    ensures Charges(q, events, a, z, ip) <= 2 * Grants(q, events, a, z, ip) + if EndsDenied(q, events, a, z,
            ip) then 1 else 0
  {
    if a < z {
      var last := z - 1;
      HalfAreGranted(q, events, a, last, ip);
      ChargeIsGrantedOrDenied(q, events, last, ip);
      hide Charge, Granted, Denied, InTime;
      if Denied(q, events, last, ip) && EndsDenied(q, events, a, last, ip) {
        var i := DenialAt(q, events, a, last, ip);
        NoTwoDenialsInARow(q, events, i, last, ip);
      }
    }
  }

  lemma ChargeIsGrantedOrDenied(q: Quota, events: seq<Event>, n: nat, ip: Ip)
    requires n < |events|
    ensures Charge(q, events, n, ip) <==> Granted(q, events, n, ip) || Denied(q, events, n, ip)
    ensures !(Granted(q, events, n, ip) && Denied(q, events, n, ip))
  {
  }

  lemma TurnFills(q: Quota, g: Gate, e: Event, ip: Ip, before: int)
    requires before <= e.now
    ensures Tat(Turn(q, g, e, ip).tat, e.now) >= Tat(g.tat, before)
    ensures e.Delivery? && e.ip == ip && e.fails && !Refused(g, e.now) && Conforms(q, g.tat, e.now)
            ==> Tat(Turn(q, g, e, ip).tat, e.now) >= Tat(g.tat, before) + q.interval
  {
  }

  /** Every grant of the window has filled the bucket by one interval. */
  lemma {:induction false} GrantsFill(q: Quota, events: seq<Event>, a: nat, z: nat, ip: Ip)
    requires q.Valid() && InTime(events) && a < z <= |events|
    ensures Tat(GateAt(q, events, z, ip).tat, events[z - 1].now) >= events[a].now + Grants(q, events, a, z,
            ip) * q.interval
    decreases z
  {
    var e := events[z - 1];
    var before := if z == a + 1 then events[a].now else events[z - 2].now;
    var g := GateAt(q, events, z - 1, ip);
    if z == a + 1 {
      assert Grants(q, events, a, a, ip) == 0;
    } else {
      GrantsFill(q, events, a, z - 1, ip);
    }
    assert Tat(g.tat, before) >= events[a].now + Grants(q, events, a, z - 1, ip) * q.interval;
    hide InTime, Conforms, Refused, Tat;
    TurnFills(q, g, e, ip, before);
    OneMore(Grants(q, events, a, z - 1, ip), q.interval);
  }

  lemma OneMore(n: nat, interval: nat)
    ensures (n + 1) * interval == n * interval + interval
  {
  }

  lemma {:induction false} GrantsBound(q: Quota, events: seq<Event>, a: nat, z: nat, ip: Ip)
    requires q.Valid() && InTime(events) && a < z <= |events|
    ensures (Grants(q, events, a, z, ip) - q.burst) * q.interval <= events[z - 1].now - events[a].now
  {
    var last := z - 1;
    if !Granted(q, events, last, ip) {
      if last == a {
        assert Grants(q, events, a, a, ip) == 0;
        assert q.burst * q.interval >= 0;
      } else {
        GrantsBound(q, events, a, last, ip);
      }
    } else {
      var n := Grants(q, events, a, last, ip);
      if last == a {
        assert n == 0;
        BurstFits(q);
      } else {
        GrantsFill(q, events, a, last, ip);
        GrantFits(q, GateAt(q, events, last, ip).tat, events[a].now, events[last - 1].now, events[last].now, n);
      }
    }
  }

  lemma GrantFits(q: Quota, tat: Option<int>, start: int, before: int, now: int, n: nat)
    requires q.Valid() && before <= now && Conforms(q, tat, now) && Tat(tat, before) >= start + n * q.interval
    ensures (n + 1 - q.burst) * q.interval <= now - start
  {
  }

  lemma WholeIntervals(x: int, interval: nat, span: int)
    requires interval > 0 && span >= 0 && x * interval <= span
    ensures x <= span / interval
  {
    var r := span / interval;
    assert span < (r + 1) * interval;
    assert x > r ==> x * interval >= (r + 1) * interval;
  }

  /** In any stretch of time, at most `2 * (burst + span / interval) + 1` failing deliveries of one sender
      reach the handler. */
  lemma FailureBound(q: Quota, events: seq<Event>, a: nat, z: nat, ip: Ip)
    requires q.Valid() && InTime(events) && a < z <= |events|
    ensures Charges(q, events, a, z, ip) <= 2 * (q.burst + (events[z - 1].now - events[a].now) / q.interval) + 1
  {
    HalfAreGranted(q, events, a, z, ip);
    GrantsBound(q, events, a, z, ip);
    hide Charges, Grants, EndsDenied;
    WholeIntervals(Grants(q, events, a, z, ip) - q.burst, q.interval, events[z - 1].now - events[a].now);
  }

  // ---- Pruning ---------------------------------------------------------------------------------

  /** Indistinguishable from `from` on. */
  ghost predicate Alike(g: Gate, h: Gate, from: int) {
    forall t :: t >= from ==> Tat(g.tat, t) == Tat(h.tat, t) && (Refused(g, t) <==> Refused(h, t))
  }

  /** What of `g` can still show at `from` or later. */
  function Cut(g: Gate, from: int): Gate {
    Gate(if g.tat.Some? && g.tat.value <= from then None else g.tat,
         if g.until.Some? && g.until.value < from then None else g.until)
  }

  lemma AlikeIffCutAlike(g: Gate, h: Gate, from: int)
    ensures Alike(g, h, from) <==> Cut(g, from) == Cut(h, from)
  {
    if Alike(g, h, from) {
      var last := (if g.until.Some? then g.until.value else from, if h.until.Some? then h.until.value else from);
      assert Tat(g.tat, from) == Tat(h.tat, from);
      assert last.0 >= from ==> (Refused(g, last.0) <==> Refused(h, last.0));
      assert last.1 >= from ==> (Refused(g, last.1) <==> Refused(h, last.1));
      assert Refused(g, from) <==> Refused(h, from);
    }
  }

  /** Forgetting a full bucket and a spent refusal changes nothing from then on, except at the one instant
      through which the refusal still held. */
  lemma PruningShowsIffAtUntil(g: Gate, now: int)
    ensures Alike(Cleaned(g, now), g, now) <==> g.until != Some(now)
    ensures Alike(Cleaned(g, now), g, now + 1)
  {
    var c := Cleaned(g, now);
    if g.until == Some(now) {
      assert Refused(g, now) && !Refused(c, now);
    }
  }

  lemma TurnKeepsAlike(q: Quota, g: Gate, h: Gate, e: Event, ip: Ip, from: int)
    requires q.Valid() && Alike(g, h, from) && from <= e.now
    ensures Alike(Turn(q, g, e, ip), Turn(q, h, e, ip), e.now)
    ensures Refused(g, e.now) <==> Refused(h, e.now)
  {
    hide Alike;
    BurstFits(q);
    AlikeIffCutAlike(g, h, from);
    AlikeIffCutAlike(Turn(q, g, e, ip), Turn(q, h, e, ip), e.now);
  }

  /** So a pruning is never noticed by anything that happens after its instant. */
  lemma {:induction false} PruningIsInvisible(q: Quota, g: Gate, now: int, events: seq<Event>, n: nat, ip: Ip)
    requires q.Valid() && InTime(events) && n < |events| && forall i :: 0 <= i < |events| ==> now < events[i].now
    ensures Refused(GateFrom(q, Cleaned(g, now), events, n, ip), events[n].now)
            <==> Refused(GateFrom(q, g, events, n, ip), events[n].now)
  {
    StaysAlike(q, Cleaned(g, now), g, now, events, n, ip);
  }

  lemma {:induction false} StaysAlike(q: Quota, c: Gate, g: Gate, now: int, events: seq<Event>, n: nat, ip: Ip)
    requires q.Valid() && InTime(events) && n < |events| && c == Cleaned(g, now)
    requires forall i :: 0 <= i < |events| ==> now < events[i].now
    ensures Alike(GateFrom(q, c, events, n, ip), GateFrom(q, g, events, n, ip), events[n].now)
  {
    if n == 0 {
      PruningShowsIffAtUntil(g, now);
      AlikeLater(c, g, now + 1, events[0].now);
    } else {
      hide Turn, Alike, Cleaned;
      StaysAlike(q, c, g, now, events, n - 1, ip);
      var (a, b) := (GateFrom(q, c, events, n - 1, ip), GateFrom(q, g, events, n - 1, ip));
      TurnKeepsAlike(q, a, b, events[n - 1], ip, events[n - 1].now);
      AlikeLater(Turn(q, a, events[n - 1], ip), Turn(q, b, events[n - 1], ip), events[n - 1].now, events[n].now);
    }
  }

  lemma AlikeLater(g: Gate, h: Gate, from: int, later: int)
    requires Alike(g, h, from) && from <= later
    ensures Alike(g, h, later)
  {
  }

  // ---- What a refused caller is told -----------------------------------------------------------

  const SECOND := 1000000000

  /** Rounded up. */
  function WholeSeconds(duration: nat): (s: nat)
    ensures s * 1_000_000_000 >= duration
    ensures s > 0 ==> (s - 1) * 1_000_000_000 < duration
  {
    duration / SECOND + if duration % SECOND > 0 then 1 else 0
  }

  function RetryAfter(wait: nat): nat {
    if WholeSeconds(wait) > 1 then WholeSeconds(wait) else 1
  }

  /** A sender who comes back after exactly `Retry-After` seconds is let in, except when the wait was itself
      a whole number of seconds: the refusal still holds at its last instant. */
  lemma RetryAfterSufficesIff(g: Gate, now: int)
    requires Refused(g, now)
    ensures var wait := g.until.value - now;
      !Refused(g, now + RetryAfter(wait) * SECOND) <==> wait == 0 || wait % SECOND != 0
  {
  }

  function Failing(now: int): Event {
    Delivery(7, now, true, 0, 0)
  }

  lemma ThreeAtOnce(q: Quota, events: seq<Event>)
    requires q.burst == 1 && q.interval == 60 * SECOND && |events| == 4
    requires forall i :: 0 <= i < 3 ==> events[i] == Failing(0)
    ensures Granted(q, events, 0, 7) && Denied(q, events, 1, 7)
    ensures GateAt(q, events, 2, 7) == GateAt(q, events, 3, 7) == Gate(Some(60 * SECOND), Some(60 * SECOND))
    ensures IsRefused(q, events, 2, 7)
  {
    assert GateAt(q, events, 0, 7) == OPEN;
    assert GateAt(q, events, 1, 7) == Gate(Some(60 * SECOND), None);
    assert GateAt(q, events, 2, 7) == Gate(Some(60 * SECOND), Some(60 * SECOND));
  }

  /** What `Quota::per_minute` builds from a non-zero `u32`: whole nanoseconds between cells. */
  function PerMinute(n: nat): (q: Quota)
    requires 0 < n < 0x1_0000_0000
    ensures q.Valid()
  {
    DividesMinute(60 * SECOND, n);
    Quota(n, 60 * SECOND / n)
  }

  lemma DividesMinute(minute: nat, n: nat)
    requires 0 < n <= minute
    ensures minute / n > 0
  {
    assert minute == minute / n * n + minute % n;
  }

  /** One failure a minute, three deliveries at once: granted, denied, and refused for a whole minute; coming
      back after it, as told, is refused again. */
  lemma ReturnIsRefused()
    ensures
      var (q, events) := (PerMinute(1), [Failing(0), Failing(0), Failing(0), Failing(60 * SECOND)]);
      && InTime(events) && Granted(q, events, 0, 7) && Denied(q, events, 1, 7)
      && IsRefused(q, events, 2, 7) && GateAt(q, events, 2, 7).until == Some(60 * SECOND) && RetryAfter(60 * SECOND) == 60
      && IsRefused(q, events, 3, 7)
  {
    hide GateAt, Granted, Denied;
    ThreeAtOnce(PerMinute(1), [Failing(0), Failing(0), Failing(0), Failing(60 * SECOND)]);
  }

  function Cells(q: Quota, tat: Option<int>, now: int, n: nat): Option<int> {
    if n == 0 then tat else Some(Tat(Cells(q, tat, now, n - 1), now) + q.interval)
  }

  lemma {:induction false} CellsFill(q: Quota, tat: Option<int>, now: int, n: nat)
    requires q.Valid() && (tat.Some? ==> tat.value <= now)
    ensures Tat(Cells(q, tat, now, n), now) == now + n * q.interval
  {
    if n > 0 {
      CellsFill(q, tat, now, n - 1);
      OneMore(n - 1, q.interval);
      assert n * q.interval >= 0;
    }
  }

  /** A full bucket takes exactly one burst at once. */
  lemma FullBucketTakesOneBurst(q: Quota, tat: Option<int>, now: int, n: nat)
    requires q.Valid() && (tat.Some? ==> tat.value <= now)
    ensures Conforms(q, Cells(q, tat, now, n), now) <==> n < q.burst
  {
    CellsFill(q, tat, now, n);
    hide Cells;
    SpareCells(q.burst, q.interval, n);
  }

  lemma SpareCells(burst: nat, interval: nat, n: nat)
    requires interval > 0
    ensures (burst - 1) * interval >= n * interval <==> n < burst
  {
    var spare := burst - 1 - n;
    assert spare * interval == (burst - 1) * interval - n * interval;
    assert spare >= 0 ==> spare * interval >= 0;
    assert spare < 0 ==> spare * interval + interval <= 0;
  }

  /** `RateLimit-Reset` of a refused request: the wait, and the burst less the one cell waited for. */
  function DeniedRefill(q: Quota, tat: Option<int>, now: int): int {
    (Earliest(q, Tat(tat, now)) - now) + (q.burst - 1) * q.interval
  }

  /** It is exactly the time until the full allowance is back: no sooner, and then a whole burst fits. */
  lemma DeniedResetIsExact(q: Quota, tat: Option<int>, now: int, later: int)
    requires q.Valid() && !Conforms(q, tat, now) && later >= now
    ensures Conforms(q, Cells(q, tat, later, q.burst - 1), later) <==> later >= now + DeniedRefill(q, tat, now)
  {
    BurstFits(q);
    var n := q.burst - 1;
    if tat.value <= later {
      FullBucketTakesOneBurst(q, tat, later, n);
    } else {
      CellsStack(q, tat, later, n);
    }
  }

  lemma {:induction false} CellsStack(q: Quota, tat: Option<int>, now: int, n: nat)
    requires q.Valid() && tat.Some? && tat.value > now
    ensures Cells(q, tat, now, n) == Some(tat.value + n * q.interval)
  {
    if n > 0 {
      CellsStack(q, tat, now, n - 1);
      OneMore(n - 1, q.interval);
      assert (n - 1) * q.interval >= 0;
    }
  }
}
