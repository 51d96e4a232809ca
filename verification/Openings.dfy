/** Sessions over a numbered run of sightings: at most one is going on, a sighting may open one when none is, and
    may end the one that is. */
module Openings {
  import opened Wrappers

  /** The sighting from `a` on that opened the session going on before sighting `m`. */
  ghost function Opened(opens: nat -> bool, over: (nat, nat) -> bool, a: nat, m: nat): (o: Option<nat>)
    ensures o.Some? ==> a <= o.value < m && opens(o.value)
    decreases m
  {
    if m <= a then None
    else
      var o := Opened(opens, over, a, m - 1);
      if o.Some? then (if over(o.value, m - 1) then None else o)
      else if opens(m - 1) then Some(m - 1)
      else None
  }

  lemma Next(opens: nat -> bool, over: (nat, nat) -> bool, a: nat, m: nat)
    requires a <= m
    ensures var o := Opened(opens, over, a, m);
      Opened(opens, over, a, m + 1)
      == if o.Some? then (if over(o.value, m) then None else o) else if opens(m) then Some(m) else None
  {
  }

  /** The session going on at `k` is over there. */
  ghost predicate Ended(opens: nat -> bool, over: (nat, nat) -> bool, a: nat, k: nat) {
    var o := Opened(opens, over, a, k);
    o.Some? && over(o.value, k)
  }

  /** A session is open from the sighting that opened it until the one that ends it. */
  lemma {:induction false} Since(opens: nat -> bool, over: (nat, nat) -> bool, a: nat, m: nat, k: nat)
    requires Opened(opens, over, a, m).Some? && Opened(opens, over, a, m).value <= k <= m
    ensures var i := Opened(opens, over, a, m).value;
      && Opened(opens, over, a, k) == (if k == i then None else Some(i))
      && (i < k < m ==> !over(i, k))
    decreases m
  {
    var i := Opened(opens, over, a, m).value;
    if k < m && i < m - 1 {
      Since(opens, over, a, m - 1, k);
    }
  }

  lemma {:induction false} Stays(opens: nat -> bool, over: (nat, nat) -> bool, a: nat, i: nat, m: nat)
    requires a <= i < m && opens(i) && forall k: nat :: i <= k < m ==> !Ended(opens, over, a, k)
    ensures Opened(opens, over, a, m).Some?
    decreases m
  {
    assert !Ended(opens, over, a, m - 1);
    if i < m - 1 {
      Stays(opens, over, a, i, m - 1);
    }
  }

  /** A session is going on exactly when some sighting could open one and none has ended since. */
  lemma GoingOnIff(opens: nat -> bool, over: (nat, nat) -> bool, a: nat, m: nat)
    ensures Opened(opens, over, a, m).Some?
            <==> exists i: nat :: a <= i < m && opens(i) && forall k: nat :: i <= k < m ==> !Ended(opens, over, a, k)
  {
    var o := Opened(opens, over, a, m);
    if o.Some? {
      forall k: nat | o.value <= k < m ensures !Ended(opens, over, a, k) {
        Since(opens, over, a, m, k);
      }
    }
    forall i: nat | a <= i < m && opens(i) && forall k: nat :: i <= k < m ==> !Ended(opens, over, a, k) ensures o.Some? {
      Stays(opens, over, a, i, m);
    }
  }

  /** A session opened at `i`, with none going on, that ends at `x`. */
  ghost predicate Spans(opens: nat -> bool, over: (nat, nat) -> bool, a: nat, i: nat, x: nat) {
    && a <= i < x && opens(i) && Opened(opens, over, a, i).None?
    && over(i, x) && forall k: nat :: i < k < x ==> !over(i, k)
  }

  lemma {:induction false} SpanIsOpen(opens: nat -> bool, over: (nat, nat) -> bool, a: nat, i: nat, x: nat, m: nat)
    requires Spans(opens, over, a, i, x) && i < m <= x
    ensures Opened(opens, over, a, m) == Some(i)
    decreases m
  {
    Next(opens, over, a, m - 1);
    if m > i + 1 {
      SpanIsOpen(opens, over, a, i, x, m - 1);
    }
  }

  /** And that is every session that ends. */
  lemma EndedSpans(opens: nat -> bool, over: (nat, nat) -> bool, a: nat, x: nat)
    requires Ended(opens, over, a, x)
    ensures Spans(opens, over, a, Opened(opens, over, a, x).value, x)
  {
    var i := Opened(opens, over, a, x).value;
    Since(opens, over, a, x, i);
    forall k: nat | i < k < x ensures !over(i, k) {
      Since(opens, over, a, x, k);
    }
  }

  /** Two sessions never overlap: one ends before the other opens. */
  lemma SpansDisjoint(opens: nat -> bool, over: (nat, nat) -> bool, a: nat, i: nat, x: nat, j: nat, y: nat)
    requires Spans(opens, over, a, i, x) && Spans(opens, over, a, j, y) && x < y
    ensures x < j
  {
    hide Opened;
    if i < j <= x {
      SpanIsOpen(opens, over, a, i, x, j);
    } else if j < i {
      SpanIsOpen(opens, over, a, j, y, i);
    }
  }
}
