/** The legs of a group in sequence, traced back to the lines that file them. */
module CifpSequence {
  import opened Wrappers
  import opened Selections
  import opened Records
  import opened CifpRecords

  /** The leg of line `i` comes before that of line `j`: a lower number, or the same one filed earlier. */
  ghost predicate Precedes<K>(lines: seq<string>, entry: string -> Option<(K, Leg)>, i: nat, j: nat) {
    && i < |lines| && j < |lines| && entry(lines[i]).Some? && entry(lines[j]).Some?
    && var (m, n) := (entry(lines[i]).value.1.seqNo, entry(lines[j]).value.1.seqNo);
       m < n || (m == n && i < j)
  }

  /** `at` holds exactly the lines `hits`, by sequence number and then by place in the file. */
  ghost predicate Sequences<K>(lines: seq<string>, entry: string -> Option<(K, Leg)>, at: seq<nat>, hits: set<nat>) {
    && (forall i :: i in at <==> i in hits)
    && forall i, j :: 0 <= i < j < |at| ==> Precedes(lines, entry, at[i], at[j])
  }

  // ---- Sorting ---------------------------------------------------------------------------------

  lemma {:induction false} InsertSplits(s: seq<Leg>, l: Leg) returns (q: nat)
    requires InOrder(s)
    ensures q <= |s| && Insert(s, l) == s[..q] + [l] + s[q..]
    ensures forall i :: 0 <= i < q ==> s[i].seqNo <= l.seqNo
    ensures forall i :: q <= i < |s| ==> s[i].seqNo > l.seqNo
  {
    if s == [] || s[|s| - 1].seqNo <= l.seqNo {
      q := |s|;
    } else {
      var last := |s| - 1;
      q := InsertSplits(s[..last], l);
      assert s == s[..last] + [s[last]];
    }
  }

  /** `p[i]` is where the i-th leg of `r` stands in `s`. */
  ghost predicate Ranks(s: seq<Leg>, r: seq<Leg>, p: seq<nat>) {
    && |p| == |r|
    && (forall i :: 0 <= i < |p| ==> p[i] < |s| && r[i] == s[p[i]])
    && (forall i, j :: 0 <= i < j < |p| ==> r[i].seqNo < r[j].seqNo || (r[i].seqNo == r[j].seqNo && p[i] < p[j]))
    && forall i :: 0 <= i < |s| ==> i in p
  }

  lemma {:induction false} SortedRanks(s: seq<Leg>) returns (p: seq<nat>)
    ensures Ranks(s, Sorted(s), p)
  {
    if s == [] {
      p := [];
    } else {
      var last := |s| - 1;
      var front, l := s[..last], s[last];
      var before := SortedRanks(front);
      var q := InsertSplits(Sorted(front), l);
      p := before[..q] + [last] + before[q..];
      RanksGrow(front, Sorted(front), before, l, q);
      assert s == front + [l];
    }
  }

  lemma RanksGrow(s: seq<Leg>, r: seq<Leg>, p: seq<nat>, l: Leg, q: nat)
    requires Ranks(s, r, p) && q <= |r|
    requires forall i :: 0 <= i < q ==> r[i].seqNo <= l.seqNo
    requires forall i :: q <= i < |r| ==> r[i].seqNo > l.seqNo
    ensures Ranks(s + [l], r[..q] + [l] + r[q..], p[..q] + [|s|] + p[q..])
  {
    InsertedMembers(p, q, |s|);
  }

  lemma InsertedMembers(p: seq<nat>, q: nat, n: nat)
    requires q <= |p|
    ensures forall i :: i in p[..q] + [n] + p[q..] <==> i == n || i in p
  {
    assert p == p[..q] + p[q..];
  }

  /** The sorted legs of a group, by the lines that file them. */
  lemma SortedLines<K>(lines: seq<string>, entry: string -> Option<(K, Leg)>, k: K) returns (at: seq<nat>)
    ensures var legs := Sorted(Filed(lines, entry, k));
      && Sequences(lines, entry, at, Filing(lines, entry, k)) && |at| == |legs|
      && forall i :: 0 <= i < |at| ==> at[i] < |lines| && entry(lines[at[i]]) == Some((k, legs[i]))
  {
    var ix := FiledInOrder(lines, entry, k);
    var filed := Filed(lines, entry, k);
    var p := SortedRanks(filed);
    hide Filed, Sorted;
    at := seq(|p|, i requires 0 <= i < |p| => ix[p[i]]);
    forall i | i in Filing(lines, entry, k) ensures i in at {
      var m :| 0 <= m < |ix| && ix[m] == i;
      assert m in p;
      var n :| 0 <= n < |p| && p[n] == m;
      assert at[n] == i;
    }
    forall i | i in at ensures i in Filing(lines, entry, k) {
      var n :| 0 <= n < |at| && at[n] == i;
      assert ix[p[n]] in ix;
    }
    var legs := Sorted(filed);
    forall i, j | 0 <= i < j < |at| ensures Precedes(lines, entry, at[i], at[j]) {
      assert entry(lines[at[i]]) == Some((k, legs[i])) && entry(lines[at[j]]) == Some((k, legs[j]));
    }
  }

  /** Leaving out lines leaves the rest in sequence. */
  lemma SequenceOfSome<K>(
      lines: seq<string>, entry: string -> Option<(K, Leg)>, at: seq<nat>, all: set<nat>, ix: seq<nat>, hits: set<nat>)
    returns (some: seq<nat>)
    requires Sequences(lines, entry, at, all) && hits <= all
    requires Lists(ix, set i | 0 <= i < |at| && at[i] in hits)
    ensures Sequences(lines, entry, some, hits) && |some| == |ix|
    ensures forall i :: 0 <= i < |ix| ==> ix[i] < |at| && some[i] == at[ix[i]]
  {
    var kept := set i | 0 <= i < |at| && at[i] in hits;
    forall i | 0 <= i < |ix| ensures ix[i] in kept {
      assert ix[i] in ix;
    }
    some := seq(|ix|, i requires 0 <= i < |ix| => at[ix[i]]);
    forall i | i in hits ensures i in some {
      assert i in at;
      var m :| 0 <= m < |at| && at[m] == i;
      assert m in kept;
      var n :| 0 <= n < |ix| && ix[n] == m;
      assert some[n] == i;
    }
  }
}
