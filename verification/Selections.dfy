/** Choosing some positions of a list and keeping their order. */
module Selections {
  /** `ix` lists the members of `hits` from the least to the greatest. */
  ghost predicate Lists(ix: seq<nat>, hits: set<nat>) {
    && (forall i, j :: 0 <= i < j < |ix| ==> ix[i] < ix[j])
    && forall i :: i in ix <==> i in hits
  }

  lemma ListsGrow(ix: seq<nat>, hits: set<nat>, n: nat)
    requires Lists(ix, hits) && forall i :: i in hits ==> i < n
    ensures Lists(ix + [n], hits + {n})
  {
    forall i | 0 <= i < |ix| ensures ix[i] < n {
      assert ix[i] in hits;
    }
  }

  lemma FirstIsLeast(ix: seq<nat>, hits: set<nat>)
    requires Lists(ix, hits)
    ensures ix == [] ==> hits == {}
    ensures ix != [] ==> ix[0] in hits && forall i :: i in hits ==> ix[0] <= i
  {
    if ix != [] {
      assert ix[0] in ix;
      forall i | i in hits ensures ix[0] <= i {
        var m :| 0 <= m < |ix| && ix[m] == i;
      }
    }
  }
}
