/** The marker manifest (`bin/lib/marker_manifest.py`): stamping writes a line and then moves the marker into
    place, and auditing deletes what no line vouches for, in one checkout. */
module MarkerManifest {
  import opened Wrappers

  const KINDS: seq<string> := ["tests", "review-shipping", "code-review"]

  predicate IsHex(c: char) {
    '0' <= c <= '9' || 'a' <= c <= 'f'
  }

  /** What `stamp` accepts. */
  predicate Stampable(kind: string, sha: string) {
    kind in KINDS && |sha| == 40 && forall i :: 0 <= i < 40 ==> IsHex(sha[i])
  }

  const HEX := "0123456789abcdef"

  /** One of the three kinds, and forty small hexadecimal digits. */
  lemma StampableIs(kind: string, sha: string)
    ensures Stampable(kind, sha) <==>
      && (kind == "tests" || kind == "review-shipping" || kind == "code-review")
      && |sha| == 40 && forall c :: c in sha ==> c in HEX
  {
    hide IsHex;
    forall c: char ensures IsHex(c) <==> c in HEX {
      HexDigits(c);
    }
    assert forall i :: 0 <= i < |sha| ==> sha[i] in sha;
  }

  lemma HexDigits(c: char)
    ensures IsHex(c) <==> c in HEX
  {
    if IsHex(c) {
      var d := if c <= '9' then c as int - '0' as int else 10 + (c as int - 'a' as int);
      assert HEX[d] == c;
    }
  }

  datatype Line = Line(kind: string, sha: string, digest: string)

  /** A directory entry: a regular file with its digest, or anything else. */
  datatype Entry = File(digest: string) | Other

  type Key = (string, string)

  predicate Vouched(lines: set<Line>, k: Key, e: Entry) {
    k.0 in KINDS && e.File? && Line(k.0, k.1, e.digest) in lines
  }

  /** An entry an audit leaves alone. */
  predicate Stays(lines: set<Line>, held: set<Key>, k: Key, e: Entry) {
    Vouched(lines, k, e) || (k in held && e.File?)
  }

  // ---- Step by step, alone ---------------------------------------------------------------------

  /** The manifest's path: a regular file or nothing yet, or something else, which vouches for nothing. */
  datatype Manifest = Lines(lines: set<Line>) | Irregular

  function LinesOf(m: Manifest): set<Line> {
    if m.Lines? then m.lines else {}
  }

  /** What an audit reports: the markers directory when it was reached through a link, a kind's directory when
      that was a link, or an entry. */
  datatype Removed = Directory | KindLink(kind: string) | Marker(key: Key)

  class Markers {
    var linked: bool
    var manifest: Manifest
    var kindLinks: set<string>
    var entries: map<Key, Entry>

    constructor ()
      ensures !linked && manifest == Lines({}) && kindLinks == {} && entries == map[]
    {
      linked, manifest, kindLinks, entries := false, Lines({}), {}, map[];
    }

    /** Refuses an unknown kind, a short SHA, and a manifest that is no regular file. */
    method Stamp(kind: string, sha: string, digest: string) returns (ok: bool)
      modifies this`manifest, this`entries
      ensures ok == (Stampable(kind, sha) && old(manifest).Lines?)
      ensures manifest == if ok then Lines(old(manifest).lines + {Line(kind, sha, digest)}) else old(manifest)
      ensures entries == if ok then old(entries)[(kind, sha) := File(digest)] else old(entries)
      ensures ok ==> Vouched(LinesOf(manifest), (kind, sha), entries[(kind, sha)])
    {
      if !Stampable(kind, sha) || manifest.Irregular? {
        return false;
      }
      manifest := Lines(manifest.lines + {Line(kind, sha, digest)});
      entries := entries[(kind, sha) := File(digest)];
      return true;
    }

    /** One kind's directory: unlinked when it is a link, and otherwise rid of what does not stay. */
    method AuditKind(kind: string, lines: set<Line>, held: set<Key>) returns (removed: seq<Removed>)
      modifies this`kindLinks, this`entries
      ensures kindLinks == old(kindLinks) - {kind}
      ensures Audited(old(entries), entries, {kind}, old(kindLinks), lines, held)
      ensures Reported(removed, {kind}, old(kindLinks), old(entries), entries)
    {
      if kind in kindLinks {
        kindLinks := kindLinks - {kind};
        entries := map k | k in entries && k.0 != kind :: entries[k];
        return [KindLink(kind)];
      }
      ghost var before := entries;
      removed := [];
      var rest := set k | k in entries && k.0 == kind;
      while rest != {}
        invariant rest <= before.Keys && kindLinks == old(kindLinks)
        invariant forall k :: Get(entries, k)
                              == if k in before && (k in rest || k.0 != kind || Stays(lines, held, k, before[k]))
                                 then Some(before[k]) else None
        invariant forall r :: r in removed <==> r.Marker? && r.key in before && r.key !in entries
        invariant Distinct(removed)
      {
        var k :| k in rest;
        rest := rest - {k};
        assert Get(entries, k) == Some(before[k]);
        if !Stays(lines, held, k, entries[k]) {
          entries := entries - {k};
          removed := removed + [Marker(k)];
        }
      }
    }

    /** Behind a link there is nothing to vouch for, so the link goes. Otherwise exactly the links in place of a
        kind's directory go, and the entries neither vouched for nor held; each is reported once. */
    method Audit(held: set<Key>) returns (removed: seq<Removed>)
      modifies this
      ensures !linked
      ensures old(linked) ==> entries == map[] && kindLinks == {} && LinesOf(manifest) == {} && removed == [Directory]
      ensures !old(linked) ==> manifest == old(manifest) && kindLinks == old(kindLinks) - KindSet(|KINDS|)
      ensures !old(linked) ==>
                && Audited(old(entries), entries, KindSet(|KINDS|), old(kindLinks), LinesOf(manifest), held)
                && Reported(removed, KindSet(|KINDS|), old(kindLinks), old(entries), entries)
    {
      if linked {
        linked, manifest, kindLinks, entries := false, Lines({}), {}, map[];
        return [Directory];
      }
      var lines := LinesOf(manifest);
      removed := [];
      for i := 0 to |KINDS|
        invariant !linked && manifest == old(manifest)
        invariant kindLinks == old(kindLinks) - KindSet(i)
        invariant Audited(old(entries), entries, KindSet(i), old(kindLinks), lines, held)
        invariant Reported(removed, KindSet(i), old(kindLinks), old(entries), entries)
      {
        ghost var mid, links := entries, kindLinks;
        var some := AuditKind(KINDS[i], lines, held);
        NextKind(i);
        OneMoreKind(old(entries), mid, entries, KindSet(i), KINDS[i], old(kindLinks), lines, held, removed, some);
        removed := removed + some;
      }
    }
  }

  predicate Distinct(removed: seq<Removed>) {
    forall i, j :: 0 <= i < j < |removed| ==> removed[i] != removed[j]
  }

  /** The first `n` kinds. */
  function KindSet(n: nat): set<string>
    requires n <= |KINDS|
  {
    set i | 0 <= i < n :: KINDS[i]
  }

  /** Of the given kinds, exactly the entries of real directories that stay are left; all others are left. */
  ghost predicate Audited(
      before: map<Key, Entry>, after: map<Key, Entry>, kinds: set<string>, links: set<string>, lines: set<Line>,
      held: set<Key>)
  {
    forall k ::
      Get(after, k)
      == if k in before && (k.0 in kinds ==> k.0 !in links && Stays(lines, held, k, before[k])) then Some(before[k]) else None
  }

  predicate Deleted(r: Removed, kinds: set<string>, links: set<string>, before: map<Key, Entry>, after: map<Key, Entry>) {
    match r
    case Directory => false
    case KindLink(kind) => kind in kinds && kind in links
    case Marker(k) => k in before && k !in after && k.0 !in links
  }

  /** What was deleted is reported once each, and nothing else. */
  ghost predicate Reported(
      removed: seq<Removed>, kinds: set<string>, links: set<string>, before: map<Key, Entry>, after: map<Key, Entry>)
  {
    Distinct(removed) && forall r :: r in removed <==> Deleted(r, kinds, links, before, after)
  }

  lemma OneMoreKind(
      before: map<Key, Entry>, mid: map<Key, Entry>, after: map<Key, Entry>, kinds: set<string>, kind: string,
      links: set<string>, lines: set<Line>, held: set<Key>, removed: seq<Removed>, some: seq<Removed>)
    requires kind !in kinds
    requires Audited(before, mid, kinds, links, lines, held) && Audited(mid, after, {kind}, links - kinds, lines, held)
    requires Reported(removed, kinds, links, before, mid) && Reported(some, {kind}, links - kinds, mid, after)
    ensures Audited(before, after, kinds + {kind}, links, lines, held)
    ensures Reported(removed + some, kinds + {kind}, links, before, after)
  {
    hide Stays, Distinct;
    forall k ensures Get(after, k) == if k in before && (k.0 in kinds + {kind} ==> k.0 !in links && Stays(lines, held, k, before[k]))
                                      then Some(before[k]) else None
    {
      assert Get(mid, k) == if k in before && (k.0 in kinds ==> k.0 !in links && Stays(lines, held, k, before[k]))
                            then Some(before[k]) else None;
    }
    forall r ensures Deleted(r, kinds + {kind}, links, before, after)
                     <==> Deleted(r, kinds, links, before, mid) || Deleted(r, {kind}, links - kinds, mid, after)
    {
      DeletedByEither(before, mid, after, kinds, kind, links, lines, held, r);
    }
    forall r | r in removed ensures r !in some {
      DeletedOnce(before, mid, after, kinds, kind, links, lines, held, r);
    }
    DistinctConcat(removed, some);
  }

  lemma DeletedByEither(
      before: map<Key, Entry>, mid: map<Key, Entry>, after: map<Key, Entry>, kinds: set<string>, kind: string,
      links: set<string>, lines: set<Line>, held: set<Key>, r: Removed)
    requires kind !in kinds
    requires Audited(before, mid, kinds, links, lines, held) && Audited(mid, after, {kind}, links - kinds, lines, held)
    ensures Deleted(r, kinds + {kind}, links, before, after)
            <==> Deleted(r, kinds, links, before, mid) || Deleted(r, {kind}, links - kinds, mid, after)
  {
    hide Stays;
    if r.Marker? {
      var k := r.key;
      assert Get(mid, k).Some? <==> k in mid;
      assert Get(after, k).Some? <==> k in after;
    }
  }

  lemma DeletedOnce(
      before: map<Key, Entry>, mid: map<Key, Entry>, after: map<Key, Entry>, kinds: set<string>, kind: string,
      links: set<string>, lines: set<Line>, held: set<Key>, r: Removed)
    requires kind !in kinds
    requires Audited(before, mid, kinds, links, lines, held) && Audited(mid, after, {kind}, links - kinds, lines, held)
    ensures !(Deleted(r, kinds, links, before, mid) && Deleted(r, {kind}, links - kinds, mid, after))
  {
  }

  lemma DistinctConcat(a: seq<Removed>, b: seq<Removed>)
    requires Distinct(a) && Distinct(b) && forall r :: r in a ==> r !in b
    ensures Distinct(a + b)
  {
    forall i, j | 0 <= i < |a| <= j < |a + b| ensures (a + b)[i] != (a + b)[j] {
      assert a[i] in a && b[j - |a|] in b;
    }
  }

  lemma NextKind(i: nat)
    requires i < |KINDS|
    ensures KindSet(i + 1) == KindSet(i) + {KINDS[i]} && KINDS[i] !in KindSet(i)
  {
    KindsDiffer();
  }

  lemma KindsDiffer()
    ensures forall i, j :: 0 <= i < j < |KINDS| ==> KINDS[i] != KINDS[j]
  {
    assert |KINDS[0]| == 5 && |KINDS[1]| == 15 && |KINDS[2]| == 11;
  }

  // ---- Every interleaving ----------------------------------------------------------------------

  /** A stamp under way: its temporary file is written, or its line is too. */
  datatype Stamp = Stamp(key: Key, digest: string, lined: bool)

  /** An audit under way: the lines it read, and an entry it is about to delete. */
  datatype Audit = NoAudit | Reading(lines: set<Line>, condemned: Option<Key>)

  /** `forged` holds the entries put in place by anything but a stamp. */
  datatype State = State(
    manifest: set<Line>, entries: map<Key, Entry>, stamps: map<nat, Stamp>, audit: Audit, held: set<Key>, forged: set<Key>)

  datatype Action =
    | Begin(id: nat, kind: string, sha: string, digest: string) | Append(id: nat) | Replace(id: nat) | Abandon(id: nat)
    | Forge(key: Key, entry: Entry) | ReadManifest(held: set<Key>) | Check(key: Key) | Unlink | EndAudit

  predicate Enabled(s: State, a: Action) {
    match a
    case Begin(id, kind, sha, _) => id !in s.stamps && Stampable(kind, sha)
    case Append(id) => id in s.stamps && !s.stamps[id].lined
    case Replace(id) => id in s.stamps && s.stamps[id].lined
    case Abandon(id) => id in s.stamps
    case Forge(_, _) => true
    case ReadManifest(_) => s.audit == NoAudit
    case Check(key) => s.audit.Reading? && s.audit.condemned.None? && key in s.entries && key.0 in KINDS
    case Unlink => s.audit.Reading? && s.audit.condemned.Some?
    case EndAudit => s.audit.Reading? && s.audit.condemned.None?
  }

  function LineOf(st: Stamp): Line {
    Line(st.key.0, st.key.1, st.digest)
  }

  function Next(s: State, a: Action): State
    requires Enabled(s, a)
  {
    match a
    case Begin(id, kind, sha, digest) => s.(stamps := s.stamps[id := Stamp((kind, sha), digest, false)])
    case Append(id) =>
      s.(manifest := s.manifest + {LineOf(s.stamps[id])}, stamps := s.stamps[id := s.stamps[id].(lined := true)])
    case Replace(id) =>
      var st := s.stamps[id];
      s.(entries := s.entries[st.key := File(st.digest)], stamps := s.stamps - {id}, forged := s.forged - {st.key})
    case Abandon(id) => s.(stamps := s.stamps - {id})
    case Forge(key, entry) => s.(entries := s.entries[key := entry], forged := s.forged + {key})
    case ReadManifest(held) => s.(audit := Reading(s.manifest, None), held := held)
    case Check(key) =>
      if Stays(s.audit.lines, s.held, key, s.entries[key]) then s else s.(audit := s.audit.(condemned := Some(key)))
    case Unlink =>
      s.(entries := s.entries - {s.audit.condemned.value}, audit := s.audit.(condemned := None))
    case EndAudit => s.(audit := NoAudit)
  }

  ghost predicate Initial(s: State) {
    s.entries == map[] && s.stamps == map[] && s.audit == NoAudit && s.forged == {}
  }

  function After(s: State, actions: seq<Action>): Option<State> {
    if actions == [] then Some(s)
    else
      var before := After(s, actions[..|actions| - 1]);
      var a := actions[|actions| - 1];
      if before.None? || !Enabled(before.value, a) then None else Some(Next(before.value, a))
  }

  // ---- The line comes first --------------------------------------------------------------------

  ghost predicate LinesFirst(s: State) {
    && (forall id :: id in s.stamps ==> s.stamps[id].key.0 in KINDS)
    && (forall id :: id in s.stamps && s.stamps[id].lined ==> LineOf(s.stamps[id]) in s.manifest)
    && (forall k :: k in s.entries && k !in s.forged ==> Vouched(s.manifest, k, s.entries[k]))
    && (s.audit.Reading? ==> s.audit.lines <= s.manifest)
  }

  lemma StepKeepsLinesFirst(s: State, a: Action)
    requires LinesFirst(s) && Enabled(s, a)
    ensures LinesFirst(Next(s, a))
  {
  }

  /** In every interleaving of stamps, the same SHA's included, with audits and forgeries, every marker that a
      stamp put in place has its exact line in the manifest. */
  lemma {:induction false} MarkerNeverBeforeLine(s: State, actions: seq<Action>)
    requires Initial(s) && After(s, actions).Some?
    ensures LinesFirst(After(s, actions).value)
  {
    if actions != [] {
      hide LinesFirst, Next, Enabled;
      MarkerNeverBeforeLine(s, actions[..|actions| - 1]);
      StepKeepsLinesFirst(After(s, actions[..|actions| - 1]).value, actions[|actions| - 1]);
    }
  }

  // ---- What an audit may delete ----------------------------------------------------------------

  /** The audit works from the whole manifest, and what it has condemned is no stamped marker. */
  ghost predicate Sound(s: State) {
    && s.audit.Reading? && s.audit.lines == s.manifest
    && (s.audit.condemned.Some? ==> s.audit.condemned.value !in s.entries || s.audit.condemned.value in s.forged)
  }

  /** A `Replace` strikes between a check and its unlink. */
  predicate Strikes(s: State, a: Action) {
    a.Replace? && s.audit.Reading? && s.audit.condemned.Some? && a.id in s.stamps
    && s.stamps[a.id].key == s.audit.condemned.value
  }

  lemma StepKeepsSound(s: State, a: Action)
    requires LinesFirst(s) && Sound(s) && Enabled(s, a) && !a.Append? && !a.EndAudit? && !Strikes(s, a)
    ensures Sound(Next(s, a))
  {
  }

  /** No append since the audit read the manifest, and no marker moved into place between its check and its
      unlink. */
  ghost predicate Quiet(s: State, actions: seq<Action>) {
    forall i :: 0 <= i < |actions| ==> !actions[i].Append? && !actions[i].EndAudit? && !StrikesAt(s, actions, i)
  }

  predicate StrikesAt(s: State, actions: seq<Action>, i: nat)
    requires i < |actions|
  {
    After(s, actions[..i]).Some? && Strikes(After(s, actions[..i]).value, actions[i])
  }

  lemma QuietFront(s: State, actions: seq<Action>)
    requires Quiet(s, actions) && actions != []
    ensures Quiet(s, actions[..|actions| - 1])
  {
    hide After;
    var front := actions[..|actions| - 1];
    forall i | 0 <= i < |front| ensures !front[i].Append? && !front[i].EndAudit? && !StrikesAt(s, front, i) {
      assert front[..i] == actions[..i] && front[i] == actions[i];
      assert !StrikesAt(s, actions, i);
    }
  }

  lemma {:induction false} StaysSound(s: State, actions: seq<Action>)
    requires LinesFirst(s) && Sound(s) && After(s, actions).Some? && Quiet(s, actions)
    ensures LinesFirst(After(s, actions).value) && Sound(After(s, actions).value)
  {
    if actions != [] {
      var last := |actions| - 1;
      QuietFront(s, actions);
      assert !StrikesAt(s, actions, last) && !actions[last].Append? && !actions[last].EndAudit?;
      hide LinesFirst, Next, Enabled, Sound, Quiet, Strikes;
      StaysSound(s, actions[..last]);
      var before := After(s, actions[..last]).value;
      StepKeepsLinesFirst(before, actions[last]);
      StepKeepsSound(before, actions[last]);
    }
  }

  /** Through such a stretch an audit deletes no stamped marker, whatever else happens. */
  lemma AuditDeletesNoStampedMarker(s: State, held: set<Key>, actions: seq<Action>, k: Key)
    requires LinesFirst(s) && Enabled(s, ReadManifest(held))
    requires var t := Next(s, ReadManifest(held));
      && Quiet(t, actions) && After(t, actions).Some? && Enabled(After(t, actions).value, Unlink)
    requires var u := After(Next(s, ReadManifest(held)), actions).value;
      k in u.entries && k !in u.forged
    ensures var u := After(Next(s, ReadManifest(held)), actions).value; k in Next(u, Unlink).entries
  {
    var t := Next(s, ReadManifest(held));
    StepKeepsLinesFirst(s, ReadManifest(held));
    assert Sound(t);
    StaysSound(t, actions);
  }

  // ---- Exactly when an audit deletes a stamped marker ------------------------------------------

  lemma {:induction false} PrefixRuns(t: State, actions: seq<Action>, m: nat)
    requires After(t, actions).Some? && m <= |actions|
    ensures After(t, actions[..m]).Some?
    ensures m < |actions| ==>
              && Enabled(After(t, actions[..m]).value, actions[m])
              && After(t, actions[..m + 1]) == Some(Next(After(t, actions[..m]).value, actions[m]))
    decreases |actions|
  {
    hide Next, Enabled;
    var last := |actions| - 1;
    if m == |actions| {
      assert actions[..m] == actions;
    } else if m == last {
      assert actions[..m + 1] == actions;
    } else {
      PrefixRuns(t, actions[..last], m);
      assert actions[..last][..m] == actions[..m] && actions[..last][..m + 1] == actions[..m + 1];
    }
  }

  /** The step changes what is at `k`. */
  predicate Writes(s: State, a: Action, k: Key) {
    || (a.Forge? && a.key == k)
    || (a.Replace? && a.id in s.stamps && s.stamps[a.id].key == k)
    || (a.Unlink? && s.audit.Reading? && s.audit.condemned == Some(k))
  }

  predicate WritesAt(t: State, actions: seq<Action>, m: nat, k: Key)
    requires m < |actions|
  {
    After(t, actions[..m]).Some? && Writes(After(t, actions[..m]).value, actions[m], k)
  }

  /** In place, and put there by a stamp. */
  predicate InPlace(s: State, k: Key) {
    k in s.entries && k !in s.forged
  }

  lemma StepAt(s: State, a: Action, k: Key)
    requires Enabled(s, a)
    ensures !Writes(s, a, k) ==> Get(Next(s, a).entries, k) == Get(s.entries, k) && (k in Next(s, a).forged <==> k in s.forged)
    ensures Writes(s, a, k) ==> (InPlace(Next(s, a), k) <==> a.Replace?)
    ensures Writes(s, a, k) && a.Replace? ==> Get(Next(s, a).entries, k) == Some(File(s.stamps[a.id].digest))
  {
  }

  /** The marker that stamp `actions[j]` moves to `k` is not touched again. */
  ghost predicate PutLast(t: State, actions: seq<Action>, j: nat, k: Key) {
    && j < |actions| && actions[j].Replace? && WritesAt(t, actions, j, k)
    && forall m :: j < m < |actions| ==> !WritesAt(t, actions, m, k)
  }

  /** The line of the marker that `actions[j]` moves into place. */
  function LineAt(t: State, actions: seq<Action>, j: nat, k: Key): Line
    requires j < |actions| && actions[j].Replace? && WritesAt(t, actions, j, k)
  {
    LineOf(After(t, actions[..j]).value.stamps[actions[j].id])
  }

  /** Untouched from `m` to `n`, what is at `k` stays. */
  lemma {:induction false} StaysUntouched(t: State, actions: seq<Action>, m: nat, n: nat, k: Key)
    requires After(t, actions).Some? && m <= n <= |actions|
    requires forall i :: m <= i < n ==> !WritesAt(t, actions, i, k)
    ensures After(t, actions[..m]).Some? && After(t, actions[..n]).Some?
    ensures var (a, b) := (After(t, actions[..m]).value, After(t, actions[..n]).value);
      Get(a.entries, k) == Get(b.entries, k) && (k in a.forged <==> k in b.forged)
    decreases n
  {
    hide After, Next, Enabled, Writes;
    PrefixRuns(t, actions, m);
    PrefixRuns(t, actions, n);
    if m < n {
      StaysUntouched(t, actions, m, n - 1, k);
      PrefixRuns(t, actions, n - 1);
      assert !WritesAt(t, actions, n - 1, k);
      StepAt(After(t, actions[..n - 1]).value, actions[n - 1], k);
    }
  }

  /** After the last move into place, what is at `k` is that marker. */
  lemma PutStays(t: State, actions: seq<Action>, j: nat, n: nat, k: Key)
    requires After(t, actions).Some? && j < n <= |actions| && PutLast(t, actions, j, k)
    ensures After(t, actions[..n]).Some?
    ensures var u := After(t, actions[..n]).value;
      InPlace(u, k) && u.entries[k] == File(LineAt(t, actions, j, k).digest)
    ensures LineAt(t, actions, j, k).kind == k.0 && LineAt(t, actions, j, k).sha == k.1
  {
    hide After, Next, Enabled;
    PrefixRuns(t, actions, j);
    StepAt(After(t, actions[..j]).value, actions[j], k);
    StaysUntouched(t, actions, j + 1, n, k);
    assert Get(After(t, actions[..n]).value.entries, k) == Some(File(LineAt(t, actions, j, k).digest));
  }

  ghost predicate Untouched(t: State, actions: seq<Action>, k: Key) {
    forall m :: 0 <= m < |actions| ==> !WritesAt(t, actions, m, k)
  }

  lemma UntouchedInPlace(t: State, actions: seq<Action>, k: Key)
    requires After(t, actions).Some? && Untouched(t, actions, k)
    ensures InPlace(After(t, actions).value, k) <==> InPlace(t, k)
    ensures !(exists j: nat :: PutLast(t, actions, j, k))
  {
    hide Next, Enabled, WritesAt;
    assert actions[..|actions|] == actions && actions[..0] == [];
    StaysUntouched(t, actions, 0, |actions|, k);
    var (a, b) := (After(t, []).value, After(t, actions).value);
    assert Get(a.entries, k) == Get(b.entries, k);
  }

  /** The last step to write `k` decides whether it is in place. */
  lemma WrittenInPlace(t: State, actions: seq<Action>, m: nat, k: Key)
    requires After(t, actions).Some? && m < |actions| && WritesAt(t, actions, m, k)
    requires forall i :: m < i < |actions| ==> !WritesAt(t, actions, i, k)
    ensures InPlace(After(t, actions).value, k) <==> actions[m].Replace?
  {
    hide After, Next, Enabled, Writes;
    assert actions[..|actions|] == actions;
    PrefixRuns(t, actions, m);
    StepAt(After(t, actions[..m]).value, actions[m], k);
    StaysUntouched(t, actions, m + 1, |actions|, k);
    var (a, b) := (After(t, actions[..m + 1]).value, After(t, actions).value);
    assert Get(a.entries, k) == Get(b.entries, k);
  }

  lemma OneLast(t: State, actions: seq<Action>, j: nat, m: nat, k: Key)
    requires PutLast(t, actions, j, k)
    requires m < |actions| && WritesAt(t, actions, m, k) && forall i :: m < i < |actions| ==> !WritesAt(t, actions, i, k)
    ensures j == m
  {
    hide WritesAt;
  }

  /** A stamped marker is in place exactly when some move into place was the last to touch it, or when it was
      there already and nothing has. */
  lemma InPlaceIff(t: State, actions: seq<Action>, k: Key)
    requires After(t, actions).Some?
    ensures InPlace(After(t, actions).value, k)
            <==> (exists j: nat :: PutLast(t, actions, j, k)) || (Untouched(t, actions, k) && InPlace(t, k))
  {
    hide After, Next, Enabled, WritesAt, InPlace;
    if Untouched(t, actions, k) {
      UntouchedInPlace(t, actions, k);
    } else {
      var m := LastWrite(t, actions, |actions|, k);
      WrittenInPlace(t, actions, m, k);
      if actions[m].Replace? {
        assert PutLast(t, actions, m, k);
      }
      forall j: nat | PutLast(t, actions, j, k) ensures j == m {
        OneLast(t, actions, j, m, k);
      }
    }
  }

  lemma {:induction false} LastWrite(t: State, actions: seq<Action>, n: nat, k: Key) returns (m: nat)
    requires n <= |actions| && exists i :: 0 <= i < n && WritesAt(t, actions, i, k)
    ensures m < n && WritesAt(t, actions, m, k) && forall i :: m < i < n ==> !WritesAt(t, actions, i, k)
  {
    hide WritesAt;
    if WritesAt(t, actions, n - 1, k) {
      m := n - 1;
    } else {
      m := LastWrite(t, actions, n - 1, k);
    }
  }

  /** An audit that is not over works from the lines it read and the held markers it was given. */
  lemma {:induction false} SameAudit(t: State, actions: seq<Action>)
    requires t.audit.Reading? && After(t, actions).Some? && EndAudit !in actions
    ensures var u := After(t, actions).value; u.audit.Reading? && u.audit.lines == t.audit.lines && u.held == t.held
  {
    if actions != [] {
      var last := |actions| - 1;
      assert actions[last] in actions;
      SameAudit(t, actions[..last]);
    }
  }

  predicate Condemned(s: State, k: Key) {
    s.audit.Reading? && s.audit.condemned == Some(k)
  }

  /** `actions[i]` is the check that condemned what is about to be unlinked. */
  ghost predicate CheckedAt(t: State, actions: seq<Action>, k: Key, i: nat) {
    && i < |actions| && actions[i] == Check(k) && After(t, actions[..i]).Some? && !Condemned(After(t, actions[..i]).value, k)
    && After(t, actions[..i + 1]).Some? && Condemned(After(t, actions[..i + 1]).value, k)
    && forall m :: i < m < |actions| ==> actions[m] != Unlink
  }

  /** Whatever is condemned was condemned by a check. */
  lemma {:induction false} SomeCheck(t: State, actions: seq<Action>, k: Key) returns (i: nat)
    requires After(t, actions).Some? && !Condemned(t, k) && Condemned(After(t, actions).value, k)
    ensures CheckedAt(t, actions, k, i)
  {
    hide Next, Enabled, Condemned;
    assert actions != [];
    var last := |actions| - 1;
    assert actions[..last + 1] == actions;
    var before := After(t, actions[..last]).value;
    if Condemned(before, k) {
      CondemnedStep(before, actions[last], k);
      hide After;
      i := SomeCheck(t, actions[..last], k);
      assert actions[..last][..i] == actions[..i] && actions[..last][..i + 1] == actions[..i + 1];
    } else {
      CondemnedStep(before, actions[last], k);
      i := last;
    }
  }

  lemma CondemnedStep(s: State, a: Action, k: Key)
    requires Enabled(s, a) && Condemned(Next(s, a), k)
    ensures if Condemned(s, k) then a != Unlink else a == Check(k)
  {
  }

  /** What a check condemns is there, and is neither vouched for by the lines read nor held. */
  lemma CheckCondemns(s: State, k: Key)
    requires Enabled(s, Check(k)) && Condemned(Next(s, Check(k)), k) && !Condemned(s, k)
    ensures k in s.entries && !Stays(s.audit.lines, s.held, k, s.entries[k])
  {
  }

  /** Since the audit read the manifest, a stamp put `k` in place, to stay: before its check `actions[i]`, with
      a line outside those read, or after it. */
  ghost predicate Overtaken(t: State, actions: seq<Action>, k: Key, i: nat)
    requires t.audit.Reading?
  {
    exists j: nat :: PutLast(t, actions, j, k) && (j < i ==> LineAt(t, actions, j, k) !in t.audit.lines)
  }

  /** In every interleaving, the unlink of a condemned entry deletes a stamped marker exactly when the audit was
      overtaken at that very entry. Every other append, move and forgery is harmless. */
  lemma DeletesStampedIffOvertaken(s: State, held: set<Key>, actions: seq<Action>, k: Key, i: nat)
    requires LinesFirst(s) && Enabled(s, ReadManifest(held)) && EndAudit !in actions
    requires var t := Next(s, ReadManifest(held));
      && After(t, actions).Some? && Condemned(After(t, actions).value, k) && CheckedAt(t, actions, k, i)
    ensures var t := Next(s, ReadManifest(held));
      var u := After(t, actions).value;
      && Enabled(u, Unlink) && k !in Next(u, Unlink).entries
      && (InPlace(u, k) <==> Overtaken(t, actions, k, i))
  {
    var t := Next(s, ReadManifest(held));
    StepKeepsLinesFirst(s, ReadManifest(held));
    PrefixRuns(t, actions, i);
    var b := After(t, actions[..i]).value;
    SameAudit(t, actions[..i]);
    CheckCondemns(b, k);
    InPlaceIff(t, actions, k);
    hide After, LinesFirst, PutLast, Stays, Untouched;
    if Untouched(t, actions, k) && InPlace(t, k) {
      UntouchedStays(t, actions, i, k);
      assert false;
    }
    forall j: nat | PutLast(t, actions, j, k) && j < i ensures LineAt(t, actions, j, k) !in t.audit.lines {
      PutStays(t, actions, j, i, k);
      NotVouched(t.audit.lines, held, k, b.entries[k], LineAt(t, actions, j, k));
    }
  }

  lemma UntouchedStays(t: State, actions: seq<Action>, i: nat, k: Key)
    requires LinesFirst(t) && t.audit.Reading? && t.audit.lines == t.manifest
    requires After(t, actions).Some? && i <= |actions| && Untouched(t, actions, k) && InPlace(t, k)
    ensures After(t, actions[..i]).Some? && k in After(t, actions[..i]).value.entries
    ensures Stays(t.audit.lines, t.held, k, After(t, actions[..i]).value.entries[k])
  {
    assert actions[..0] == [];
    StaysUntouched(t, actions, 0, i, k);
    assert After(t, []) == Some(t);
    assert Get(After(t, actions[..i]).value.entries, k) == Some(t.entries[k]);
  }

  lemma NotVouched(lines: set<Line>, held: set<Key>, k: Key, e: Entry, l: Line)
    requires !Stays(lines, held, k, e) && k.0 in KINDS && e == File(l.digest) && l.kind == k.0 && l.sha == k.1
    ensures l !in lines
  {
  }

  // ---- Both conditions are needed --------------------------------------------------------------

  const EMPTY := State({}, map[], map[], NoAudit, {}, {})

  lemma Extended(actions: seq<Action>, s: State, a: Action) returns (more: seq<Action>, t: State)
    requires After(EMPTY, actions) == Some(s) && Enabled(s, a)
    ensures more == actions + [a] && t == Next(s, a) && After(EMPTY, more) == Some(t)
  {
    more, t := actions + [a], Next(s, a);
    assert more[..|more| - 1] == actions;
  }

  lemma NothingDone()
    ensures After(EMPTY, []) == Some(EMPTY) && Initial(EMPTY)
  {
  }

  /** The marker of `key` is in place with its line, put there by a stamp. */
  predicate Stamped(s: State, key: Key) {
    key in s.entries && key !in s.forged && Vouched(s.manifest, key, s.entries[key])
  }

  /** A line appended after the audit has read the manifest does not save its marker. */
  lemma StaleManifestDeletes(sha: string, digest: string) returns (actions: seq<Action>, s: State)
    requires Stampable("tests", sha)
    ensures Initial(EMPTY) && After(EMPTY, actions) == Some(s) && Enabled(s, Unlink)
    ensures var key := ("tests", sha); Stamped(s, key) && key !in Next(s, Unlink).entries
  {
    hide After, Stampable;
    var key := ("tests", sha);
    NothingDone();
    assert "tests" == KINDS[0];
    actions, s := Extended([], EMPTY, Begin(0, "tests", sha, digest));
    actions, s := Extended(actions, s, ReadManifest({}));
    actions, s := Extended(actions, s, Append(0));
    actions, s := Extended(actions, s, Replace(0));
    actions, s := Extended(actions, s, Check(key));
  }

  /** Nor does a marker survive that is moved over a forged one between its check and its unlink. */
  lemma StrikeDeletes(sha: string, digest: string) returns (actions: seq<Action>, s: State)
    requires Stampable("tests", sha)
    ensures Initial(EMPTY) && After(EMPTY, actions) == Some(s) && Enabled(s, Unlink)
    ensures var key := ("tests", sha); Stamped(s, key) && key !in Next(s, Unlink).entries
  {
    hide After, Stampable;
    var key := ("tests", sha);
    NothingDone();
    assert "tests" == KINDS[0];
    actions, s := Extended([], EMPTY, Begin(0, "tests", sha, digest));
    actions, s := Extended(actions, s, Append(0));
    actions, s := Extended(actions, s, Forge(key, Other));
    actions, s := Extended(actions, s, ReadManifest({}));
    actions, s := Extended(actions, s, Check(key));
    actions, s := Extended(actions, s, Replace(0));
  }
}
