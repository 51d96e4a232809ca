/** Parity of marked edges along walks and rings, for any symmetric marking of vertex pairs. */
module Walks {

  ghost predicate Symmetric<V(!new)>(marked: (V, V) -> bool) {
    && (forall a, b :: marked(a, b) == marked(b, a))
    && (forall a :: !marked(a, a))
  }

  /** Parity of the number of marked edges on the way from `s[i]` to `s[j]`. */
  ghost predicate Odd<V(!new)>(s: seq<V>, i: nat, j: nat, marked: (V, V) -> bool)
    requires i <= j < |s|
  {
    i < j && Odd(s, i, j - 1, marked) != marked(s[j - 1], s[j])
  }

  /** Parity of the number of marked edges of the closed walk round `ring`. */
  ghost predicate OddRing<V(!new)>(ring: seq<V>, marked: (V, V) -> bool) {
    var last := |ring| - 1;
    ring != [] && Odd(ring, 0, last, marked) != marked(ring[last], ring[0])
  }

  lemma {:induction false} Split<V(!new)>(s: seq<V>, i: nat, k: nat, j: nat, marked: (V, V) -> bool)
    requires i <= k <= j < |s|
    ensures Odd(s, i, j, marked) <==> Odd(s, i, k, marked) != Odd(s, k, j, marked)
    decreases j
  {
    if k < j {
      Split(s, i, k, j - 1, marked);
    }
  }

  lemma SplitAtEdge<V(!new)>(s: seq<V>, i: nat, k: nat, j: nat, marked: (V, V) -> bool)
    requires i <= k < j < |s|
    ensures Odd(s, i, j, marked) <==> (Odd(s, i, k, marked) != marked(s[k], s[k + 1])) != Odd(s, k + 1, j, marked)
  {
    Split(s, i, k + 1, j, marked);
  }

  /** Walks over the same vertices have the same parity. */
  lemma {:induction false} Same<V(!new)>(s: seq<V>, i: nat, j: nat, t: seq<V>, k: nat, marked: (V, V) -> bool)
    requires i <= j < |s| && k + (j - i) < |t|
    requires forall m :: i <= m <= j ==> s[m] == t[k + (m - i)]
    ensures Odd(s, i, j, marked) <==> Odd(t, k, k + (j - i), marked)
    decreases j
  {
    if i < j {
      Same(s, i, j - 1, t, k, marked);
    }
  }

  function Reversed<V>(s: seq<V>): (r: seq<V>)
    ensures |r| == |s|
    ensures forall k :: 0 <= k < |s| ==> r[k] == s[|s| - 1 - k]
  {
    if s == [] then [] else Reversed(s[1..]) + [s[0]]
  }

  lemma {:induction false} Backwards<V(!new)>(s: seq<V>, j: nat, marked: (V, V) -> bool)
    requires Symmetric(marked) && j < |s|
    ensures Odd(Reversed(s), 0, j, marked) <==> Odd(s, |s| - 1 - j, |s| - 1, marked)
  {
    if j > 0 {
      var e := |s| - 1 - j;
      Backwards(s, j - 1, marked);
      Split(s, e, e + 1, |s| - 1, marked);
      assert Odd(s, e, e + 1, marked) == marked(s[e], s[e + 1]);
    }
  }

  /** Rings of one or two vertices are walks there and back: nothing is left of them. */
  lemma ShortRing<V(!new)>(ring: seq<V>, marked: (V, V) -> bool)
    requires Symmetric(marked) && |ring| < 3
    ensures !OddRing(ring, marked)
  {
    if |ring| == 2 {
      assert Odd(ring, 0, 1, marked) == marked(ring[0], ring[1]);
    }
  }

  lemma Reversal<V(!new)>(ring: seq<V>, marked: (V, V) -> bool)
    requires Symmetric(marked)
    ensures OddRing(Reversed(ring), marked) <==> OddRing(ring, marked)
  {
    if ring != [] {
      Backwards(ring, |ring| - 1, marked);
    }
  }

  lemma Rotation<V(!new)>(ring: seq<V>, k: nat, marked: (V, V) -> bool)
    requires k <= |ring|
    ensures OddRing(ring[k..] + ring[..k], marked) <==> OddRing(ring, marked)
  {
    var n, r := |ring|, ring[k..] + ring[..k];
    if k == 0 || k == n {
      assert r == ring;
    } else {
      SplitAtEdge(ring, 0, k - 1, n - 1, marked);
      SplitAtEdge(r, 0, n - k - 1, n - 1, marked);
      Same(ring, k, n - 1, r, 0, marked);
      Same(ring, 0, k - 1, r, n - k, marked);
    }
  }

  /** Repeating vertex `k` in place adds an edge from it to itself. */
  lemma Stutter<V(!new)>(ring: seq<V>, k: nat, marked: (V, V) -> bool)
    requires Symmetric(marked) && k < |ring|
    ensures OddRing(ring[..k + 1] + ring[k..], marked) <==> OddRing(ring, marked)
  {
    var n, t := |ring|, ring[..k + 1] + ring[k..];
    SplitAtEdge(t, 0, k, n, marked);
    Split(ring, 0, k, n - 1, marked);
    Same(ring, 0, k, t, 0, marked);
    Same(ring, k, n - 1, t, k + 1, marked);
  }

  lemma ChordNear<V(!new)>(ring: seq<V>, i: nat, j: nat, marked: (V, V) -> bool)
    requires i <= j < |ring|
    ensures OddRing(ring[i..j + 1], marked) <==> Odd(ring, i, j, marked) != marked(ring[j], ring[i])
  {
    Same(ring, i, j, ring[i..j + 1], 0, marked);
  }

  lemma ChordFar<V(!new)>(ring: seq<V>, i: nat, j: nat, marked: (V, V) -> bool)
    requires i <= j < |ring|
    ensures OddRing(ring[j..] + ring[..i + 1], marked)
            <==> ((Odd(ring, j, |ring| - 1, marked) != marked(ring[|ring| - 1], ring[0]))
                  != Odd(ring, 0, i, marked)) != marked(ring[i], ring[j])
  {
    var n, b := |ring|, ring[j..] + ring[..i + 1];
    SplitAtEdge(b, 0, n - 1 - j, n - j + i, marked);
    Same(ring, j, n - 1, b, 0, marked);
    Same(ring, 0, i, b, n - j, marked);
  }

  /** The chord between vertices `i` and `j` closes both pieces, and cancels. */
  lemma Chord<V(!new)>(ring: seq<V>, i: nat, j: nat, marked: (V, V) -> bool)
    requires Symmetric(marked) && i <= j < |ring|
    ensures OddRing(ring, marked)
            <==> OddRing(ring[i..j + 1], marked) != OddRing(ring[j..] + ring[..i + 1], marked)
  {
    Split(ring, 0, i, |ring| - 1, marked);
    Split(ring, i, j, |ring| - 1, marked);
    ChordNear(ring, i, j, marked);
    ChordFar(ring, i, j, marked);
  }
}
