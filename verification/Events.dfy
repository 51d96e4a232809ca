/** Paging backward through the events listing (`filter_page` and `sync_once` in
    `backend/src/feed/events.rs`). */
module Events {
  import opened Wrappers
  import opened Selections

  datatype Event = Event(id: int, start: int, end: int)

  function Kept(events: seq<Event>, cutoff: int): (r: seq<Event>)
    ensures r == [] <==> forall e :: e in events ==> e.end < cutoff
  {
    if events == [] then []
    else
      assert events == events[..|events| - 1] + [events[|events| - 1]];
      Kept(events[..|events| - 1], cutoff) + if events[|events| - 1].end >= cutoff then [events[|events| - 1]] else []
  }

  /** The events of a page that end at the cutoff or after it. */
  ghost function NotOver(events: seq<Event>, cutoff: int): set<nat> {
    set i | 0 <= i < |events| && events[i].end >= cutoff
  }

  /** What is kept of a page is exactly its events that are not over, in order, as often as it lists them. */
  lemma {:induction false} KeptInOrder(events: seq<Event>, cutoff: int) returns (ix: seq<nat>)
    ensures Lists(ix, NotOver(events, cutoff)) && |ix| == |Kept(events, cutoff)|
    ensures forall k :: 0 <= k < |ix| ==> ix[k] < |events| && Kept(events, cutoff)[k] == events[ix[k]]
  {
    if events == [] {
      ix := [];
    } else {
      var last := |events| - 1;
      ix := KeptInOrder(events[..last], cutoff);
      if events[last].end >= cutoff {
        assert NotOver(events, cutoff) == NotOver(events[..last], cutoff) + {last};
        ListsGrow(ix, NotOver(events[..last], cutoff), last);
        ix := ix + [last];
      } else {
        assert NotOver(events, cutoff) == NotOver(events[..last], cutoff);
      }
    }
  }

  /** What of one page is kept, and whether to go on to the page before it. */
  method FilterPage(events: seq<Event>, cutoff: int) returns (kept: seq<Event>, keepPaging: bool)
    ensures kept == Kept(events, cutoff) && keepPaging == (kept != [])
  {
    kept := [];
    for i := 0 to |events|
      invariant kept == Kept(events[..i], cutoff)
    {
      assert events[..i + 1][..i] == events[..i];
      if events[i].end >= cutoff {
        kept := kept + [events[i]];
      }
    }
    assert events[..|events|] == events;
    keepPaging := kept != [];
  }

  /** A page as fetched; none if the request fails. */
  type Page = Option<seq<Event>>

  /** Page `p` holds nothing to keep, or cannot be read: paging ends there. */
  predicate Ends(pages: seq<Page>, cutoff: int, p: nat)
    requires p < |pages|
  {
    pages[p].None? || Kept(pages[p].value, cutoff) == []
  }

  /** The pages read, newest first, are those from the last down to page `LastRead`. */
  function LastRead(pages: seq<Page>, cutoff: int, n: nat): (p: nat)
    requires n <= |pages|
    ensures p <= n && (p > 0 ==> p - 1 < |pages|)
  {
    if n == 0 || Ends(pages, cutoff, n - 1) then n else LastRead(pages, cutoff, n - 1)
  }

  /** All that is kept on pages `lo` to `hi`, newest page first. */
  function KeptOn(pages: seq<Page>, cutoff: int, lo: nat, hi: nat): seq<Event>
    requires lo <= hi <= |pages|
    decreases hi - lo
  {
    if lo == hi then []
    else
      KeptOn(pages, cutoff, lo + 1, hi) + if pages[lo].Some? then Kept(pages[lo].value, cutoff) else []
  }

  /** The collected events, or none if a page that was reached could not be read. */
  method SyncOnce(pages: seq<Page>, cutoff: int) returns (collected: Option<seq<Event>>)
    ensures
      var lo := LastRead(pages, cutoff, |pages|);
      collected == if lo > 0 && pages[lo - 1].None? then None else Some(KeptOn(pages, cutoff, lo, |pages|))
  {
    var all := [];
    var page := |pages|;
    while page >= 1
      invariant 0 <= page <= |pages|
      invariant all == KeptOn(pages, cutoff, page, |pages|)
      invariant LastRead(pages, cutoff, page) == LastRead(pages, cutoff, |pages|)
    {
      if pages[page - 1].None? {
        return None;
      }
      var kept, keepPaging := FilterPage(pages[page - 1].value, cutoff);
      if !keepPaging {
        break;
      }
      all := all + kept;
      page := page - 1;
    }
    return Some(all);
  }

  // ---- Against the full scan -------------------------------------------------------------------

  ghost predicate AllRead(pages: seq<Page>) {
    forall p :: 0 <= p < |pages| ==> pages[p].Some?
  }

  /** Nothing to keep lies behind a page with nothing to keep. */
  ghost predicate KeptTogether(pages: seq<Page>, cutoff: int)
    requires AllRead(pages)
  {
    forall p, q :: 0 <= p < q < |pages| && Kept(pages[q].value, cutoff) == [] ==> Kept(pages[p].value, cutoff) == []
  }

  lemma {:induction false} KeptOnSplits(pages: seq<Page>, cutoff: int, lo: nat, mid: nat, hi: nat)
    requires lo <= mid <= hi <= |pages|
    ensures KeptOn(pages, cutoff, lo, hi) == KeptOn(pages, cutoff, mid, hi) + KeptOn(pages, cutoff, lo, mid)
    decreases mid - lo
  {
    if lo < mid {
      KeptOnSplits(pages, cutoff, lo + 1, mid, hi);
    }
  }

  lemma KeptOnFirst(pages: seq<Page>, cutoff: int, lo: nat, hi: nat)
    requires AllRead(pages) && lo < hi <= |pages|
    ensures KeptOn(pages, cutoff, lo, hi) == KeptOn(pages, cutoff, lo + 1, hi) + Kept(pages[lo].value, cutoff)
  {
  }

  lemma {:induction false} NothingOnIff(pages: seq<Page>, cutoff: int, lo: nat, hi: nat)
    requires AllRead(pages) && lo <= hi <= |pages|
    ensures KeptOn(pages, cutoff, lo, hi) == [] <==> forall p :: lo <= p < hi ==> Kept(pages[p].value, cutoff) == []
    decreases hi - lo
  {
    hide Kept;
    if lo < hi {
      NothingOnIff(pages, cutoff, lo + 1, hi);
      hide KeptOn;
      KeptOnFirst(pages, cutoff, lo, hi);
      assert (forall p :: lo <= p < hi ==> Kept(pages[p].value, cutoff) == [])
             <==> Kept(pages[lo].value, cutoff) == [] && forall p :: lo + 1 <= p < hi ==> Kept(pages[p].value, cutoff) == [];
    }
  }

  lemma {:induction false} LastReadIs(pages: seq<Page>, cutoff: int, n: nat)
    requires n <= |pages|
    ensures var lo := LastRead(pages, cutoff, n);
      (lo > 0 ==> Ends(pages, cutoff, lo - 1)) && forall p :: lo <= p < n ==> !Ends(pages, cutoff, p)
  {
    if n > 0 && !Ends(pages, cutoff, n - 1) {
      LastReadIs(pages, cutoff, n - 1);
    }
  }

  /** Stopping at the first page with nothing to keep collects exactly what reading every page would, exactly
      when no page with something to keep lies behind one without. */
  lemma EarlyStopIffTogether(pages: seq<Page>, cutoff: int)
    requires AllRead(pages)
    ensures
      KeptOn(pages, cutoff, LastRead(pages, cutoff, |pages|), |pages|) == KeptOn(pages, cutoff, 0, |pages|)
      <==> KeptTogether(pages, cutoff)
  {
    hide Kept;
    var lo := LastRead(pages, cutoff, |pages|);
    LastReadIs(pages, cutoff, |pages|);
    KeptOnSplits(pages, cutoff, 0, lo, |pages|);
    NothingOnIff(pages, cutoff, 0, lo);
    var (read, rest) := (KeptOn(pages, cutoff, lo, |pages|), KeptOn(pages, cutoff, 0, lo));
    assert |read + rest| == |read| + |rest|;
    if KeptTogether(pages, cutoff) && lo > 0 {
      forall p | 0 <= p < lo ensures Kept(pages[p].value, cutoff) == [] {
        assert Kept(pages[lo - 1].value, cutoff) == [];
      }
    }
    assert rest == [] ==> read + rest == read;
    if rest == [] {
      forall p, q | 0 <= p < q < |pages| && Kept(pages[q].value, cutoff) == [] ensures Kept(pages[p].value, cutoff) == [] {
        assert Ends(pages, cutoff, q) && q < lo;
      }
    }
  }

  /** Ends do not decrease along the listing, within a page and from page to page. */
  ghost predicate EndsAscend(pages: seq<Page>)
    requires AllRead(pages)
  {
    forall p, q, e, f :: 0 <= p < q < |pages| && e in pages[p].value && f in pages[q].value ==> e.end <= f.end
  }

  /** So with no page empty and ends in order from page to page, the early stop loses nothing. */
  lemma EarlyStopIsComplete(pages: seq<Page>, cutoff: int)
    requires AllRead(pages) && EndsAscend(pages) && forall p :: 0 <= p < |pages| ==> pages[p].value != []
    ensures KeptOn(pages, cutoff, LastRead(pages, cutoff, |pages|), |pages|) == KeptOn(pages, cutoff, 0, |pages|)
  {
    hide KeptOn, LastRead;
    forall p, q | 0 <= p < q < |pages| && Kept(pages[q].value, cutoff) == [] ensures Kept(pages[p].value, cutoff) == [] {
      var f := pages[q].value[0];
      assert f in pages[q].value;
    }
    EarlyStopIffTogether(pages, cutoff);
  }

  /** But the listing is sorted by start: a long event behind a page of short ones is lost. */
  lemma SortedByStartIsNotEnough()
    ensures
      var pages := [Some([Event(1, 0, 100)]), Some([Event(2, 10, 20)])];
      LastRead(pages, 50, 2) == 2 && Event(1, 0, 100) in KeptOn(pages, 50, 0, 2) && KeptOn(pages, 50, 2, 2) == []
  {
    var pages := [Some([Event(1, 0, 100)]), Some([Event(2, 10, 20)])];
    assert Kept([Event(2, 10, 20)], 50) == [];
    assert Kept([], 50) == [];
    assert Kept([Event(1, 0, 100)], 50) == [Event(1, 0, 100)];
    assert KeptOn(pages, 50, 2, 2) == [] && KeptOn(pages, 50, 1, 2) == [];
    assert KeptOn(pages, 50, 0, 2) == [Event(1, 0, 100)];
  }
}
