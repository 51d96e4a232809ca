/** Grouping the lines of a fixed-width file: every line is filed under at most one key, and a group is
    the values filed under its key, in file order. */
module Records {
  import opened Wrappers
  import opened Selections

  /** The values that `entry` files under `k`, in file order. */
  function Filed<K(==), V>(lines: seq<string>, entry: string -> Option<(K, V)>, k: K): seq<V> {
    if lines == [] then []
    else
      var last := |lines| - 1;
      var e := entry(lines[last]);
      Filed(lines[..last], entry, k) + if e.Some? && e.value.0 == k then [e.value.1] else []
  }

  lemma FiledLast<K, V>(lines: seq<string>, line: string, entry: string -> Option<(K, V)>, k: K)
    ensures var e := entry(line);
      Filed(lines + [line], entry, k)
      == if e.Some? && e.value.0 == k then Filed(lines, entry, k) + [e.value.1] else Filed(lines, entry, k)
  {
    assert (lines + [line])[..|lines|] == lines;
  }

  lemma {:induction false} FiledMembers<K, V(!new)>(lines: seq<string>, entry: string -> Option<(K, V)>, k: K, v: V)
    ensures v in Filed(lines, entry, k) <==> exists line :: line in lines && entry(line) == Some((k, v))
  {
    if lines != [] {
      var last := |lines| - 1;
      FiledMembers(lines[..last], entry, k, v);
      assert lines == lines[..last] + [lines[last]];
    }
  }

  /** A map of non-empty groups agreeing with what is filed. */
  ghost predicate Groups<K(!new), V>(m: map<K, seq<V>>, lines: seq<string>, entry: string -> Option<(K, V)>) {
    forall k :: if k in m then m[k] == Filed(lines, entry, k) && m[k] != [] else Filed(lines, entry, k) == []
  }

  method GroupBy<K(==,!new), V>(lines: seq<string>, entry: string -> Option<(K, V)>) returns (m: map<K, seq<V>>)
    ensures Groups(m, lines, entry)
  {
    m := map[];
    for i := 0 to |lines|
      invariant Groups(m, lines[..i], entry)
    {
      var e := entry(lines[i]);
      if e.Some? {
        var (k, v) := e.value;
        m := m[k := (if k in m then m[k] else []) + [v]];
      }
      forall k ensures Filed(lines[..i] + [lines[i]], entry, k)
                       == Filed(lines[..i], entry, k) + if e.Some? && e.value.0 == k then [e.value.1] else [] {
        FiledLast(lines[..i], lines[i], entry, k);
      }
      assert lines[..i + 1] == lines[..i] + [lines[i]];
    }
    assert lines[..|lines|] == lines;
  }

  /** The values of `s`, each at its first occurrence only. */
  function Distinct<V(==,!new)>(s: seq<V>): (r: seq<V>)
    ensures forall v :: v in r <==> v in s
    ensures s != [] ==> r != [] && r[0] == s[0]
    ensures forall i, j :: 0 <= i < j < |r| ==> r[i] != r[j]
  {
    if s == [] then []
    else
      var last := |s| - 1;
      var r := Distinct(s[..last]);
      assert s == s[..last] + [s[last]];
      if s[last] in r then r else r + [s[last]]
  }

  /** As `Groups`, without repeats. */
  ghost predicate DistinctGroups<K(!new), V(!new)>(m: map<K, seq<V>>, lines: seq<string>, entry: string -> Option<(K, V)>) {
    forall k :: if k in m then m[k] == Distinct(Filed(lines, entry, k)) && m[k] != [] else Filed(lines, entry, k) == []
  }

  method GroupDistinct<K(==,!new), V(==,!new)>(lines: seq<string>, entry: string -> Option<(K, V)>) returns (m: map<K, seq<V>>)
    ensures DistinctGroups(m, lines, entry)
  {
    hide Distinct, Filed, DistinctGroups;
    m := map[];
    NoGroups(entry);
    for i := 0 to |lines|
      invariant DistinctGroups(m, lines[..i], entry)
    {
      ghost var before := m;
      var e := entry(lines[i]);
      if e.Some? {
        var (k, v) := e.value;
        GroupOf(m, lines[..i], entry, k);
        var group := if k in m then m[k] else [];
        if v !in group {
          group := group + [v];
        }
        m := m[k := group];
        DistinctLast(Filed(lines[..i], entry, k), v);
      }
      DistinctStep(before, lines[..i], lines[i], entry, m);
      assert lines[..i + 1] == lines[..i] + [lines[i]];
    }
    assert lines[..|lines|] == lines;
  }

  lemma NoGroups<K(!new), V(!new)>(entry: string -> Option<(K, V)>)
    ensures DistinctGroups(map[], [], entry)
  {
  }

  lemma GroupOf<K(!new), V(!new)>(m: map<K, seq<V>>, lines: seq<string>, entry: string -> Option<(K, V)>, k: K)
    requires DistinctGroups(m, lines, entry)
    ensures (if k in m then m[k] else []) == Distinct(Filed(lines, entry, k))
  {
  }

  lemma DistinctStep<K(!new), V(!new)>(
      m: map<K, seq<V>>, lines: seq<string>, line: string, entry: string -> Option<(K, V)>, m': map<K, seq<V>>)
    requires DistinctGroups(m, lines, entry)
    requires var e := entry(line);
      if e.None? then m' == m
      else var k := e.value.0; m' == m[k := Distinct(Filed(lines, entry, k) + [e.value.1])]
    ensures DistinctGroups(m', lines + [line], entry)
  {
    forall k ensures if k in m' then m'[k] == Distinct(Filed(lines + [line], entry, k)) && m'[k] != []
                     else Filed(lines + [line], entry, k) == [] {
      FiledLast(lines, line, entry, k);
    }
  }

  lemma DistinctLast<V(!new)>(s: seq<V>, v: V)
    ensures Distinct(s + [v]) == if v in s then Distinct(s) else Distinct(s) + [v]
  {
    assert (s + [v])[..|s|] == s;
  }

  // ---- What is filed, by position --------------------------------------------------------------

  ghost predicate Files<K, V>(line: string, entry: string -> Option<(K, V)>, k: K) {
    entry(line).Some? && entry(line).value.0 == k
  }

  /** The lines that file something under `k`. */
  ghost function Filing<K, V>(lines: seq<string>, entry: string -> Option<(K, V)>, k: K): set<nat> {
    set i | 0 <= i < |lines| && Files(lines[i], entry, k)
  }

  /** The values filed under a key come one from each line that files there, in file order. */
  lemma {:induction false} FiledInOrder<K, V>(lines: seq<string>, entry: string -> Option<(K, V)>, k: K)
    returns (ix: seq<nat>)
    ensures Lists(ix, Filing(lines, entry, k)) && |ix| == |Filed(lines, entry, k)|
    ensures forall j :: 0 <= j < |ix| ==> ix[j] < |lines| && entry(lines[ix[j]]) == Some((k, Filed(lines, entry, k)[j]))
  {
    if lines == [] {
      ix := [];
    } else {
      var last := |lines| - 1;
      ix := FiledInOrder(lines[..last], entry, k);
      var e := entry(lines[last]);
      if e.Some? && e.value.0 == k {
        assert Filing(lines, entry, k) == Filing(lines[..last], entry, k) + {last};
        ListsGrow(ix, Filing(lines[..last], entry, k), last);
        ix := ix + [last];
      } else {
        assert Filing(lines, entry, k) == Filing(lines[..last], entry, k);
      }
    }
  }

  /** Some line files `v` under `k`, and no line before it files anything there. */
  ghost predicate FiledFirst<K, V>(lines: seq<string>, entry: string -> Option<(K, V)>, k: K, v: V) {
    exists i :: 0 <= i < |lines| && entry(lines[i]) == Some((k, v)) && forall j :: 0 <= j < i ==> !Files(lines[j], entry, k)
  }

  lemma FirstOfFiled<K, V(!new)>(lines: seq<string>, entry: string -> Option<(K, V)>, k: K)
    ensures var f := Filed(lines, entry, k);
      forall v :: FiledFirst(lines, entry, k, v) <==> f != [] && f[0] == v
  {
    var ix := FiledInOrder(lines, entry, k);
    FirstIsLeast(ix, Filing(lines, entry, k));
    hide Filed;
    if ix != [] {
      var i := ix[0];
      assert entry(lines[i]) == Some((k, Filed(lines, entry, k)[0]));
      assert forall j :: 0 <= j < i ==> Files(lines[j], entry, k) ==> j in Filing(lines, entry, k);
    }
    forall v | FiledFirst(lines, entry, k, v) ensures ix != [] && v == Filed(lines, entry, k)[0] {
      var i :| 0 <= i < |lines| && entry(lines[i]) == Some((k, v)) && forall j :: 0 <= j < i ==> !Files(lines[j], entry, k);
      assert i in Filing(lines, entry, k);
      assert Files(lines[ix[0]], entry, k);
    }
  }

  /** The positions at which a value stands for the first time. */
  ghost function Firsts<V>(s: seq<V>): set<nat> {
    set i | 0 <= i < |s| && s[i] !in s[..i]
  }

  /** Without repeats, the values come in the order of their first occurrences. */
  lemma {:induction false} DistinctInOrder<V(!new)>(s: seq<V>) returns (ix: seq<nat>)
    ensures Lists(ix, Firsts(s)) && |ix| == |Distinct(s)|
    ensures forall j :: 0 <= j < |ix| ==> ix[j] < |s| && s[ix[j]] == Distinct(s)[j]
  {
    if s == [] {
      ix := [];
    } else {
      var last := |s| - 1;
      var front := s[..last];
      ix := DistinctInOrder(front);
      forall i | 0 <= i < last ensures i in Firsts(s) <==> i in Firsts(front) {
        assert s[..i] == front[..i];
      }
      if s[last] in front {
        assert Firsts(s) == Firsts(front);
      } else {
        assert Firsts(s) == Firsts(front) + {last};
        ListsGrow(ix, Firsts(front), last);
        ix := ix + [last];
      }
    }
  }

  // ---- Iterating over a map of groups ----------------------------------------------------------

  /** `order` visits every group once. */
  ghost predicate VisitsEach<K(!new), V>(lines: seq<string>, entry: string -> Option<(K, V)>, order: seq<K>) {
    && (forall k :: k in order <==> Filed(lines, entry, k) != [])
    && forall i, j :: 0 <= i < j < |order| ==> order[i] != order[j]
  }

  lemma {:induction false} SomeOrder<K(!new), V>(lines: seq<string>, entry: string -> Option<(K, V)>)
    returns (order: seq<K>)
    ensures VisitsEach(lines, entry, order)
  {
    order := [];
    if lines != [] {
      var last := |lines| - 1;
      order := SomeOrder(lines[..last], entry);
      var e := entry(lines[last]);
      assert lines == lines[..last] + [lines[last]];
      forall k ensures Filed(lines, entry, k)
                       == if e.Some? && e.value.0 == k then Filed(lines[..last], entry, k) + [e.value.1]
                          else Filed(lines[..last], entry, k) {
        FiledLast(lines[..last], lines[last], entry, k);
      }
      if e.Some? && e.value.0 !in order {
        order := order + [e.value.0];
      }
    }
  }

  /** Any group may come first. */
  lemma OrderFrom<K(!new), V>(lines: seq<string>, entry: string -> Option<(K, V)>, k: K) returns (order: seq<K>)
    requires Filed(lines, entry, k) != []
    ensures VisitsEach(lines, entry, order) && order != [] && order[0] == k
  {
    hide Filed;
    var some := SomeOrder(lines, entry);
    var i :| 0 <= i < |some| && some[i] == k;
    order := [k] + some[..i] + some[i + 1..];
    assert some == some[..i] + [k] + some[i + 1..];
  }
}
