/** Hot-swapping the navigation data (`apply_nav_refresh`, `should_swap_nav` and `nav_health` in
    `backend/src/jobs.rs`). A cycle is a `YYYY-MM-DD` string, so text order is date order. */
module NavRefresh {
  import opened Wrappers
  import opened Text

  /** A dataset: its cycle, its number of points, where it came from, and the rest of what it holds. */
  datatype Nav = Nav(cycle: string, points: nat, source: string, content: int)

  const FAA_SOURCE := "runtime fetch (faa)"

  datatype Outcome = Updated | AlreadyCurrent | Degraded | Empty

  /** `a` is not older than `b`. */
  predicate NotOlder(a: string, b: string) {
    !Before(a, b)
  }

  predicate ShouldSwap(offer: Nav, current: Nav) {
    (offer.cycle, offer.points) != (current.cycle, current.points) && NotOlder(offer.cycle, current.cycle)
  }

  /** `behind` is how many cycles the fetched one trails; none when it is not a date. */
  predicate Healthy(offer: Nav, behind: Option<nat>) {
    behind == Some(0) && offer.source == FAA_SOURCE
  }

  class NavCache {
    var nav: Nav
    var refreshed: int

    constructor (nav: Nav, refreshed: int)
      ensures this.nav == nav && this.refreshed == refreshed
    {
      this.nav, this.refreshed := nav, refreshed;
    }

    method ApplyNavRefresh(offer: Nav, behind: Option<nat>, now: int) returns (r: Outcome)
      modifies this
      ensures nav == Swapped(old(nav), offer)
      ensures refreshed ==
        if offer.points > 0 && behind == Some(0) && offer.source == "runtime fetch (faa)" then now else old(refreshed)
      ensures r.Empty? <==> offer.points == 0
      ensures r.Degraded? <==> offer.points > 0 && (behind != Some(0) || offer.source != "runtime fetch (faa)")
      ensures r.Updated? ==> nav == offer != old(nav)
      ensures r.AlreadyCurrent? ==> nav == old(nav)
    {
      if offer.points == 0 {
        return Empty;
      }
      var swap := ShouldSwap(offer, nav);
      if swap {
        nav := offer;
      }
      if Healthy(offer, behind) {
        refreshed := now;
        return if swap then Updated else AlreadyCurrent;
      }
      return Degraded;
    }
  }

  function Swapped(current: Nav, offer: Nav): Nav {
    if offer.points > 0 && ShouldSwap(offer, current) then offer else current
  }

  /** What is loaded after the first `n` fetches. */
  function Loaded(initial: Nav, fetched: seq<Nav>, n: nat): Nav
    requires n <= |fetched|
  {
    if n == 0 then initial else Swapped(Loaded(initial, fetched, n - 1), fetched[n - 1])
  }

  predicate SameVersion(a: Nav, b: Nav) {
    a.cycle == b.cycle && a.points == b.points
  }

  /** Of the first `n` fetches, `nav` is as the last one of the newest cycle, or as the initial data when
      every fetch with anything in it is older. */
  ghost predicate Newest(initial: Nav, fetched: seq<Nav>, n: nat, nav: Nav)
    requires n <= |fetched|
  {
    && (forall j :: 0 <= j < n && fetched[j].points > 0 ==> NotOlder(nav.cycle, fetched[j].cycle))
    && NotOlder(nav.cycle, initial.cycle)
    && (|| (SameVersion(nav, initial)
            && forall j :: 0 <= j < n && fetched[j].points > 0 ==> Before(fetched[j].cycle, initial.cycle))
        || exists k :: 0 <= k < n && LastNewest(fetched, n, nav, k))
  }

  ghost predicate LastNewest(fetched: seq<Nav>, n: nat, nav: Nav, k: nat)
    requires k < n <= |fetched|
  {
    && SameVersion(nav, fetched[k]) && fetched[k].points > 0
    && forall j :: k < j < n && fetched[j].points > 0 ==> Before(fetched[j].cycle, nav.cycle)
  }

  lemma NotOlderTransitive(a: string, b: string, c: string)
    requires NotOlder(a, b) && NotOlder(b, c)
    ensures NotOlder(a, c)
  {
    BeforeIsTotal(a, b);
    BeforeIsTotal(b, c);
    BeforeIsTotal(c, a);
    if a != b && b != c && Before(a, c) {
      BeforeIsTransitive(c, b, a);
      assert false;
    }
  }

  /** After any fetches, what is loaded is the newest data ever offered, however stale later fetches were,
      and never an empty dataset. */
  lemma {:induction false} NewestStays(initial: Nav, fetched: seq<Nav>, n: nat)
    requires n <= |fetched|
    ensures Newest(initial, fetched, n, Loaded(initial, fetched, n))
    ensures initial.points > 0 ==> Loaded(initial, fetched, n).points > 0
    ensures Loaded(initial, fetched, n) == initial || exists k :: 0 <= k < n && Loaded(initial, fetched, n) == fetched[k]
  {
    if n == 0 {
      BeforeIsTotal(initial.cycle, initial.cycle);
    } else {
      NewestStays(initial, fetched, n - 1);
      FetchKeepsNewest(initial, fetched, n, Loaded(initial, fetched, n - 1));
    }
  }

  lemma FetchKeepsNewest(initial: Nav, fetched: seq<Nav>, n: nat, before: Nav)
    requires 0 < n <= |fetched| && Newest(initial, fetched, n - 1, before)
    ensures Newest(initial, fetched, n, Swapped(before, fetched[n - 1]))
  {
    hide Before;
    var offer := fetched[n - 1];
    BeforeIsTotal(offer.cycle, before.cycle);
    BeforeIsTotal(offer.cycle, offer.cycle);
    if offer.points > 0 && NotOlder(offer.cycle, before.cycle) {
      forall j | 0 <= j < n - 1 && fetched[j].points > 0 ensures NotOlder(offer.cycle, fetched[j].cycle) {
        NotOlderTransitive(offer.cycle, before.cycle, fetched[j].cycle);
      }
      NotOlderTransitive(offer.cycle, before.cycle, initial.cycle);
      assert LastNewest(fetched, n, Swapped(before, offer), n - 1);
    } else {
      var m := n - 1;
      if k :| 0 <= k < m && LastNewest(fetched, m, before, k) {
        assert LastNewest(fetched, n, before, k);
      }
    }
  }
}
