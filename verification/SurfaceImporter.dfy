/** The airport surface importer (`backend/src/bin/faa_surface_importer.rs`): paging through a layer, one
    canonical ICAO for each FAA id, and filing the polygons under it. */
module SurfaceImporter {
  import opened Wrappers
  import opened Text
  import opened Selections

  // ---- Fetching a whole layer ------------------------------------------------------------------

  datatype Result<+T> = Ok(value: T) | Err(error: string)

  const MAX_PAGES: nat := 50

  method FetchAllFeatures<T>(fetch: nat -> Result<seq<T>>) returns (r: Result<seq<T>>)
    ensures r == Fetched(fetch, [], MAX_PAGES)
  {
    var all := [];
    var offset := 0;
    for i := 0 to MAX_PAGES
      invariant offset == |all|
      invariant Fetched(fetch, [], MAX_PAGES) == Fetched(fetch, all, MAX_PAGES - i)
    {
      var page := fetch(offset);
      if page.Err? {
        return Err(page.error);
      }
      var n := |page.value|;
      if n == 0 {
        return Ok(all);
      }
      offset := offset + n;
      all := all + page.value;
    }
    return Err("exceeded the page limit without an empty page");
  }

  /** What fetching returns when `all` is in hand and `pages` requests are left. */
  function Fetched<T>(fetch: nat -> Result<seq<T>>, all: seq<T>, pages: nat): Result<seq<T>>
    decreases pages
  {
    if pages == 0 then Err("exceeded the page limit without an empty page")
    else
      match fetch(|all|)
      case Err(e) => Err(e)
      case Ok(page) => if page == [] then Ok(all) else Fetched(fetch, all + page, pages - 1)
  }

  /** The server pages through a fixed list: from any offset it returns an error, or the next features, some
      if there are any. */
  ghost predicate Serves<T(!new)>(fetch: nat -> Result<seq<T>>, layer: seq<T>) {
    forall offset: nat :: offset <= |layer| && fetch(offset).Ok? ==> IsChunk(fetch(offset).value, layer, offset)
  }

  predicate IsChunk<T(==)>(page: seq<T>, layer: seq<T>, offset: nat)
    requires offset <= |layer|
  {
    page <= layer[offset..] && (page == [] <==> offset == |layer|)
  }

  /** How many requests it takes to read from `offset` to the end, the empty page included; none if some
      request on the way fails. */
  ghost function Requests<T(!new)>(fetch: nat -> Result<seq<T>>, layer: seq<T>, offset: nat): Option<nat>
    requires Serves(fetch, layer) && offset <= |layer|
    decreases |layer| - offset
  {
    match fetch(offset)
    case Err(_) => None
    case Ok(page) =>
      assert IsChunk(page, layer, offset);
      if page == [] then Some(1)
      else
        var rest := Requests(fetch, layer, offset + |page|);
        if rest.None? then None else Some(rest.value + 1)
  }

  lemma {:induction false} FetchedIs<T(!new)>(fetch: nat -> Result<seq<T>>, layer: seq<T>, all: seq<T>, pages: nat)
    requires Serves(fetch, layer) && all <= layer
    ensures Fetched(fetch, all, pages).Ok? ==> Fetched(fetch, all, pages).value == layer
    ensures Fetched(fetch, all, pages).Ok?
            <==> Requests(fetch, layer, |all|).Some? && Requests(fetch, layer, |all|).value <= pages
    decreases pages
  {
    if pages > 0 && fetch(|all|).Ok? {
      var page := fetch(|all|).value;
      assert IsChunk(page, layer, |all|);
      if page != [] {
        assert all + page <= layer by { assert layer == all + layer[|all|..]; }
        FetchedIs(fetch, layer, all + page, pages - 1);
      }
    }
  }

  /** Whatever the page sizes: the whole layer in order, or an error, never a part of it; and it succeeds
      exactly when no request fails and the layer, with its closing empty page, takes at most 50. */
  lemma WholeLayerOrError<T(!new)>(fetch: nat -> Result<seq<T>>, layer: seq<T>)
    requires Serves(fetch, layer)
    ensures var r := Fetched(fetch, [], MAX_PAGES);
      && (r.Ok? ==> r.value == layer)
      && (r.Ok? <==> Requests(fetch, layer, 0).Some? && Requests(fetch, layer, 0).value <= 50)
  {
    FetchedIs(fetch, layer, [], MAX_PAGES);
  }

  // ---- One key for each airport ----------------------------------------------------------------

  /** A feature: its two identifiers, its name, its exterior ring if it is a polygon, and how many rings. */
  datatype Feature = Feature(
    icaoId: Option<string>, faaId: Option<string>, name: string, ring: Option<seq<(real, real)>>, rings: nat)

  function CleanId(s: Option<string>): Option<string> {
    if s.None? || Trim(s.value) == "" then None else Some(Upper(Trim(s.value)))
  }

  predicate IsAlphanumeric(c: char) {
    '0' <= c <= '9' || 'A' <= c <= 'Z' || 'a' <= c <= 'z'
  }

  predicate IsIcao(s: string) {
    |s| == 4 && forall i :: 0 <= i < 4 ==> IsAlphanumeric(s[i])
  }

  function OwnIcao(f: Feature): Option<string> {
    var icao := CleanId(f.icaoId);
    if icao.Some? && IsIcao(icao.value) then icao else None
  }

  /** The valid codes seen for one FAA id, each once and in order; none when the id was not seen. */
  function Candidates(features: seq<Feature>, faa: string): (r: Option<seq<string>>)
    ensures r.Some? <==> exists f :: f in features && CleanId(f.faaId) == Some(faa)
    ensures r.Some? ==> Ascending(r.value)
    ensures r.Some? ==> forall x ::
              x in r.value <==> exists f :: f in features && CleanId(f.faaId) == Some(faa) && OwnIcao(f) == Some(x)
  {
    if features == [] then None
    else
      var (front, f) := (features[..|features| - 1], features[|features| - 1]);
      assert features == front + [f];
      var before := Candidates(front, faa);
      if CleanId(f.faaId) != Some(faa) then before
      else
        var seen := if before.Some? then before.value else [];
        Some(if OwnIcao(f).Some? then Place(seen, OwnIcao(f).value) else seen)
  }

  /** The first of the candidates that is known. */
  function FirstKnown(candidates: seq<string>, known: set<string>): (r: Option<string>)
    ensures r.None? ==> forall x :: x in candidates ==> x !in known
    ensures r.Some? ==> r.value in candidates && r.value in known
  {
    if candidates == [] then None
    else if candidates[0] in known then Some(candidates[0]) else FirstKnown(candidates[1..], known)
  }

  function Pick(faa: string, candidates: seq<string>, known: set<string>): Option<string> {
    var k := FirstKnown(candidates, known);
    if k.Some? then k
    else if |candidates| == 1 then Some(candidates[0])
    else if |faa| == 3 && "K" + faa in known then Some("K" + faa)
    else None
  }

  /** The first of the ascending candidates that is known. */
  ghost predicate FirstOfKnown(candidates: seq<string>, known: set<string>, code: string) {
    && code in candidates && code in known
    && forall x :: x in candidates && x in known ==> x == code || Before(code, x)
  }

  lemma {:induction false} FirstKnownIs(candidates: seq<string>, known: set<string>, code: string)
    requires Ascending(candidates)
    ensures FirstKnown(candidates, known) == Some(code) <==> FirstOfKnown(candidates, known, code)
  {
    if candidates != [] {
      var (first, rest) := (candidates[0], candidates[1..]);
      assert candidates == [first] + rest;
      forall x | x in rest ensures Before(first, x) {
        var i :| 0 <= i < |rest| && rest[i] == x;
        assert candidates[i + 1] == x;
      }
      FirstKnownIs(rest, known, code);
      if FirstOfKnown(candidates, known, code) {
        BeforeIsTotal(first, code);
      }
    }
  }

  /** A code is picked exactly when it is the first known candidate; or, with none known, the sole candidate; or, with
      none known and not one alone, `K` and a three-letter id, if that is known. */
  lemma PickIs(faa: string, candidates: seq<string>, known: set<string>, code: string)
    requires Ascending(candidates)
    ensures
      var noneKnown := forall x :: x in candidates ==> x !in known;
      Pick(faa, candidates, known) == Some(code) <==>
        || FirstOfKnown(candidates, known, code)
        || (noneKnown && candidates == [code])
        || (noneKnown && |candidates| != 1 && |faa| == 3 && code == "K" + faa && code in known)
  {
    hide Ascending;
    FirstKnownIs(candidates, known, code);
  }

  /** A feature's own code: four letters or digits, in capitals. */
  lemma OwnIcaoIs(f: Feature, code: string)
    ensures OwnIcao(f) == Some(code) <==>
      && f.icaoId.Some? && code == Upper(Trim(f.icaoId.value))
      && |code| == 4 && forall i :: 0 <= i < 4 ==> '0' <= code[i] <= '9' || 'A' <= code[i] <= 'Z'
  {
    hide Trim;
  }

  /** The canonical ICAO of an FAA id. */
  function Canonical(features: seq<Feature>, known: set<string>, faa: string): Option<string> {
    var c := Candidates(features, faa);
    if c.None? then None else Pick(faa, c.value, known)
  }

  method CanonicalIcaos(features: seq<Feature>, known: set<string>) returns (m: map<string, string>)
    ensures forall faa :: Get(m, faa) == Canonical(features, known, faa)
  {
    hide CleanId, IsIcao, Candidates, Place, OwnIcao, Pick;
    NoCandidates();
    var candidates: map<string, seq<string>> := map[];
    for i := 0 to |features|
      invariant forall faa :: Get(candidates, faa) == Candidates(features[..i], faa)
    {
      var f := features[i];
      assert features[..i + 1] == features[..i] + [f];
      forall faa ensures Candidates(features[..i] + [f], faa) == OneMore(Candidates(features[..i], faa), f, faa) {
        CandidatesLast(features[..i], f, faa);
      }
      var id := CleanId(f.faaId);
      if id.Some? {
        var faa := id.value;
        assert Get(candidates, faa) == Candidates(features[..i], faa);
        var seen := if faa in candidates then candidates[faa] else [];
        var icao := OwnIcao(f);
        if icao.Some? {
          seen := Place(seen, icao.value);
        }
        candidates := candidates[faa := seen];
      }
    }
    assert features[..|features|] == features;
    m := map[];
    var rest := candidates.Keys;
    while rest != {}
      invariant rest <= candidates.Keys
      invariant forall faa :: Get(m, faa) == if faa in candidates.Keys - rest then Pick(faa, candidates[faa], known) else None
    {
      var faa :| faa in rest;
      ghost var (before, left) := (m, rest);
      rest := rest - {faa};
      var pick := Pick(faa, candidates[faa], known);
      if pick.Some? {
        m := m[faa := pick.value];
      }
      forall x ensures Get(m, x) == if x in candidates.Keys - rest then Pick(x, candidates[x], known) else None {
        assert Get(before, x) == if x in candidates.Keys - left then Pick(x, candidates[x], known) else None;
      }
    }
    forall faa ensures Get(m, faa) == Canonical(features, known, faa) {
      assert Get(candidates, faa) == Candidates(features, faa);
    }
  }

  /** The candidates once `f` has been seen too. */
  function OneMore(before: Option<seq<string>>, f: Feature, faa: string): Option<seq<string>>
    requires before.Some? ==> Ascending(before.value)
  {
    if CleanId(f.faaId) != Some(faa) then before
    else
      var seen := if before.Some? then before.value else [];
      Some(if OwnIcao(f).Some? then Place(seen, OwnIcao(f).value) else seen)
  }

  lemma NoCandidates()
    ensures forall faa :: Candidates([], faa) == None
  {
  }

  lemma CandidatesLast(features: seq<Feature>, f: Feature, faa: string)
    ensures Candidates(features + [f], faa) == OneMore(Candidates(features, faa), f, faa)
  {
    hide CleanId, OwnIcao, Place;
    assert (features + [f])[..|features|] == features;
  }

  /** The same features in any order, and with any repeats, give the same canonical codes. */
  lemma CanonicalIsOrderFree(a: seq<Feature>, b: seq<Feature>, known: set<string>, faa: string)
    requires forall f :: f in a <==> f in b
    ensures Canonical(a, known, faa) == Canonical(b, known, faa)
  {
    hide CleanId, OwnIcao, Ascending;
    var (c, d) := (Candidates(a, faa), Candidates(b, faa));
    if c.Some? && d.Some? {
      AscendingUnique(c.value, d.value);
    }
  }

  /** A canonical code is known; or it is the only valid code seen for its FAA id. */
  lemma CanonicalIsKnownOrSole(features: seq<Feature>, known: set<string>, faa: string)
    requires Canonical(features, known, faa).Some?
    ensures var icao := Canonical(features, known, faa).value;
      || icao in known
      || (Candidates(features, faa) == Some([icao]) && IsIcao(icao))
  {
    hide CleanId;
    var c := Candidates(features, faa).value;
    if FirstKnown(c, known).None? && |c| == 1 {
      assert c == [c[0]] && c[0] in c;
    }
  }

  // ---- Filing ----------------------------------------------------------------------------------

  datatype Row = Row(name: string, ring: seq<(real, real)>)

  /** The key a feature is filed under. */
  function ResolveIcao(f: Feature, canonical: map<string, string>): Option<string> {
    var faa := CleanId(f.faaId);
    if faa.Some? && faa.value in canonical then Some(canonical[faa.value]) else OwnIcao(f)
  }

  /** All features of an FAA id that has an entry share one key. */
  lemma OneKeyEach(f: Feature, g: Feature, canonical: map<string, string>)
    requires CleanId(f.faaId) == CleanId(g.faaId) && CleanId(f.faaId).Some? && CleanId(f.faaId).value in canonical
    ensures ResolveIcao(f, canonical) == ResolveIcao(g, canonical) == Some(canonical[CleanId(f.faaId).value])
  {
  }

  /** A feature whose FAA id is blank, or has no entry, is filed under its own code. */
  lemma OwnKeyOtherwise(f: Feature, canonical: map<string, string>)
    requires f.faaId.None? || Trim(f.faaId.value) == "" || Upper(Trim(f.faaId.value)) !in canonical
    ensures ResolveIcao(f, canonical) == OwnIcao(f)
  {
    hide Trim, Upper;
  }

  predicate IsFiled(f: Feature, canonical: map<string, string>) {
    ResolveIcao(f, canonical).Some? && f.ring.Some?
  }

  /** The rows filed under `icao`, in feature order. */
  function RowsFor(features: seq<Feature>, canonical: map<string, string>, icao: string): seq<Row> {
    if features == [] then []
    else
      var f := features[|features| - 1];
      RowsFor(features[..|features| - 1], canonical, icao)
      + if IsFiled(f, canonical) && ResolveIcao(f, canonical).value == icao then [Row(f.name, f.ring.value)] else []
  }

  lemma RowsForLast(features: seq<Feature>, f: Feature, canonical: map<string, string>, icao: string)
    ensures RowsFor(features + [f], canonical, icao)
            == if IsFiled(f, canonical) && ResolveIcao(f, canonical).value == icao
               then RowsFor(features, canonical, icao) + [Row(f.name, f.ring.value)] else RowsFor(features, canonical, icao)
  {
    assert (features + [f])[..|features|] == features;
  }

  /** The features with a ring that are filed under `icao`. */
  ghost function FiledUnder(features: seq<Feature>, canonical: map<string, string>, icao: string): set<nat> {
    set i | 0 <= i < |features| && ResolveIcao(features[i], canonical) == Some(icao) && features[i].ring.Some?
  }

  /** The rows of an airport are its features with a ring, in feature order, each by its name and its ring. */
  lemma {:induction false} RowsInOrder(features: seq<Feature>, canonical: map<string, string>, icao: string)
    returns (ix: seq<nat>)
    ensures Lists(ix, FiledUnder(features, canonical, icao)) && |ix| == |RowsFor(features, canonical, icao)|
    ensures forall k :: 0 <= k < |ix| ==>
      && ix[k] < |features| && features[ix[k]].ring.Some?
      && RowsFor(features, canonical, icao)[k] == Row(features[ix[k]].name, features[ix[k]].ring.value)
  {
    hide ResolveIcao;
    if features == [] {
      ix := [];
    } else {
      var last := |features| - 1;
      ix := RowsInOrder(features[..last], canonical, icao);
      if IsFiled(features[last], canonical) && ResolveIcao(features[last], canonical).value == icao {
        assert FiledUnder(features, canonical, icao) == FiledUnder(features[..last], canonical, icao) + {last};
        ListsGrow(ix, FiledUnder(features[..last], canonical, icao), last);
        ix := ix + [last];
      } else {
        assert FiledUnder(features, canonical, icao) == FiledUnder(features[..last], canonical, icao);
      }
    }
  }

  /** How many rows a map holds altogether. */
  ghost function Total(m: map<string, seq<Row>>): nat {
    if m.Keys == {} then 0
    else
      var k :| k in m.Keys;
      |m[k]| + Total(m - {k})
  }

  lemma SomeKey(m: map<string, seq<Row>>) returns (p: string)
    requires m.Keys != {}
    ensures p in m && Total(m) == |m[p]| + Total(m - {p})
  {
    p :| p in m.Keys && Total(m) == |m[p]| + Total(m - {p});
  }

  lemma {:induction false} TotalWithout(m: map<string, seq<Row>>, k: string)
    requires k in m
    ensures Total(m) == |m[k]| + Total(m - {k})
    decreases |m|
  {
    hide Total;
    var p := SomeKey(m);
    if p != k {
      TotalWithout(m - {p}, k);
      TotalWithout(m - {k}, p);
      assert m - {p} - {k} == m - {k} - {p};
      assert (m - {p})[k] == m[k] && (m - {k})[p] == m[p];
    }
  }

  lemma TotalWith(m: map<string, seq<Row>>, k: string, rows: seq<Row>)
    ensures Total(m[k := rows]) == Total(m - {k}) + |rows|
    ensures k !in m ==> m - {k} == m
  {
    TotalWithout(m[k := rows], k);
    assert m[k := rows] - {k} == m - {k};
  }

  datatype Stats = Stats(skippedNoIcao: nat, multiRingSeen: nat, skippedNoGeometry: nat)

  /** What is counted of the features, one by one. */
  function Tally(features: seq<Feature>, canonical: map<string, string>): Stats {
    if features == [] then Stats(0, 0, 0)
    else
      var (s, f) := (Tally(features[..|features| - 1], canonical), features[|features| - 1]);
      if ResolveIcao(f, canonical).None? then s.(skippedNoIcao := s.skippedNoIcao + 1)
      else
        Stats(s.skippedNoIcao, s.multiRingSeen + if f.rings > 1 then 1 else 0,
              s.skippedNoGeometry + if f.ring.None? then 1 else 0)
  }

  lemma TallyLast(features: seq<Feature>, f: Feature, canonical: map<string, string>)
    ensures
      var s := Tally(features, canonical);
      Tally(features + [f], canonical) ==
        if ResolveIcao(f, canonical).None? then s.(skippedNoIcao := s.skippedNoIcao + 1)
        else
          Stats(s.skippedNoIcao, s.multiRingSeen + if f.rings > 1 then 1 else 0,
                s.skippedNoGeometry + if f.ring.None? then 1 else 0)
  {
    hide ResolveIcao;
    assert (features + [f])[..|features|] == features;
  }

  ghost function Unkeyed(features: seq<Feature>, canonical: map<string, string>): set<nat> {
    set i | 0 <= i < |features| && ResolveIcao(features[i], canonical).None?
  }

  ghost function Holed(features: seq<Feature>, canonical: map<string, string>): set<nat> {
    set i | 0 <= i < |features| && ResolveIcao(features[i], canonical).Some? && features[i].rings > 1
  }

  ghost function Ringless(features: seq<Feature>, canonical: map<string, string>): set<nat> {
    set i | 0 <= i < |features| && ResolveIcao(features[i], canonical).Some? && features[i].ring.None?
  }

  /** The tallies number the features without a key, and of the others those of several rings and those of none. */
  lemma {:induction false} TallyCounts(features: seq<Feature>, canonical: map<string, string>)
    ensures Tally(features, canonical)
            == Stats(|Unkeyed(features, canonical)|, |Holed(features, canonical)|, |Ringless(features, canonical)|)
  {
    if features == [] {
      assert Unkeyed([], canonical) == {} && Holed([], canonical) == {} && Ringless([], canonical) == {};
    } else {
      hide ResolveIcao, Unkeyed, Holed, Ringless, Tally;
      var (front, f) := (features[..|features| - 1], features[|features| - 1]);
      assert features == front + [f];
      TallyCounts(front, canonical);
      TallyLast(front, f, canonical);
      UnkeyedLast(front, f, canonical);
      HoledLast(front, f, canonical);
      RinglessLast(front, f, canonical);
    }
  }

  lemma UnkeyedLast(features: seq<Feature>, f: Feature, canonical: map<string, string>)
    ensures var before := Unkeyed(features, canonical);
      |Unkeyed(features + [f], canonical)| == |before| + if ResolveIcao(f, canonical).None? then 1 else 0
  {
    hide ResolveIcao;
    assert Unkeyed(features + [f], canonical)
        == Unkeyed(features, canonical) + if ResolveIcao(f, canonical).None? then {|features|} else {};
  }

  lemma HoledLast(features: seq<Feature>, f: Feature, canonical: map<string, string>)
    ensures var before := Holed(features, canonical);
      |Holed(features + [f], canonical)| == |before| + if ResolveIcao(f, canonical).Some? && f.rings > 1 then 1 else 0
  {
    hide ResolveIcao;
    assert Holed(features + [f], canonical)
        == Holed(features, canonical) + if ResolveIcao(f, canonical).Some? && f.rings > 1 then {|features|} else {};
  }

  lemma RinglessLast(features: seq<Feature>, f: Feature, canonical: map<string, string>)
    ensures var before := Ringless(features, canonical);
      |Ringless(features + [f], canonical)| == |before| + if ResolveIcao(f, canonical).Some? && f.ring.None? then 1 else 0
  {
    hide ResolveIcao;
    assert Ringless(features + [f], canonical)
        == Ringless(features, canonical) + if ResolveIcao(f, canonical).Some? && f.ring.None? then {|features|} else {};
  }

  /** Every feature becomes a row under its key or is counted as skipped, exactly once. */
  method MapPolygons(features: seq<Feature>, canonical: map<string, string>)
    returns (byIcao: map<string, seq<Row>>, stats: Stats)
    ensures forall icao :: (if icao in byIcao then byIcao[icao] else []) == RowsFor(features, canonical, icao)
    ensures Total(byIcao) + stats.skippedNoIcao + stats.skippedNoGeometry == |features|
    ensures stats == Tally(features, canonical)
  {
    hide ResolveIcao, Total, RowsFor, Tally;
    NothingYet(canonical);
    byIcao := map[];
    var noIcao, multi, noGeometry := 0, 0, 0;
    for i := 0 to |features|
      invariant forall icao :: (if icao in byIcao then byIcao[icao] else []) == RowsFor(features[..i], canonical, icao)
      invariant Total(byIcao) + noIcao + noGeometry == i
      invariant Stats(noIcao, multi, noGeometry) == Tally(features[..i], canonical)
    {
      var f := features[i];
      assert features[..i + 1] == features[..i] + [f];
      forall icao {
        RowsForLast(features[..i], f, canonical, icao);
      }
      TallyLast(features[..i], f, canonical);
      var icao := ResolveIcao(f, canonical);
      if icao.None? {
        noIcao := noIcao + 1;
      } else {
        if f.rings > 1 {
          multi := multi + 1;
        }
        if f.ring.None? {
          noGeometry := noGeometry + 1;
        } else {
          var rows := if icao.value in byIcao then byIcao[icao.value] else [];
          TotalWith(byIcao, icao.value, rows + [Row(f.name, f.ring.value)]);
          if icao.value in byIcao {
            TotalWithout(byIcao, icao.value);
          }
          byIcao := byIcao[icao.value := rows + [Row(f.name, f.ring.value)]];
        }
      }
    }
    assert features[..|features|] == features;
    stats := Stats(noIcao, multi, noGeometry);
  }

  lemma NothingYet(canonical: map<string, string>)
    ensures Total(map[]) == 0 && Tally([], canonical) == Stats(0, 0, 0) && forall icao :: RowsFor([], canonical, icao) == []
  {
  }

  // ---- Merging into the existing extract -------------------------------------------------------

  /** An airport of the extract: its runways, and everything else it holds; or some value that is no object. */
  datatype Airport = Airport(runways: Option<seq<Row>>, other: map<string, string>) | NotAnObject

  /** What an airport becomes: its previous runways dropped, and the new ones put in if there are any. */
  function Merged(before: Option<Airport>, rows: Option<seq<Row>>): Option<Airport> {
    if before == Some(NotAnObject) then before
    else if before.None? && rows.None? then None
    else Some(Airport(rows, if before.Some? then before.value.other else map[]))
  }

  /** Refuses an empty set of runways, and an airport to be given some that is no object. */
  method MergeRunways(existing: map<string, Airport>, runways: map<string, seq<Row>>) returns (r: Result<map<string, Airport>>)
    ensures r.Ok? <==> runways != map[] && forall icao :: icao in runways && icao in existing ==> existing[icao].Airport?
    ensures r.Ok? ==> forall icao :: Get(r.value, icao) == Merged(Get(existing, icao), Get(runways, icao))
    ensures r.Ok? ==> r.value.Keys == existing.Keys + runways.Keys
    ensures r.Ok? ==> forall icao :: icao in r.value ==>
      if icao in existing && existing[icao].NotAnObject? then r.value[icao] == NotAnObject
      else r.value[icao] == Airport(Get(runways, icao), if icao in existing then existing[icao].other else map[])
  {
    if runways == map[] {
      return Err("refusing to strip runways from the extract");
    }
    var extract := map icao | icao in existing ::
      if existing[icao].Airport? then existing[icao].(runways := None) else existing[icao];
    var rest := runways.Keys;
    while rest != {}
      invariant rest <= runways.Keys
      invariant forall icao :: icao in runways.Keys - rest && icao in existing ==> existing[icao].Airport?
      invariant forall icao :: Get(extract, icao)
                               == Merged(Get(existing, icao), if icao in rest then None else Get(runways, icao))
    {
      var icao :| icao in rest;
      assert Get(extract, icao) == Merged(Get(existing, icao), None);
      if icao in extract && extract[icao].NotAnObject? {
        return Err("extract airports are objects");
      }
      var airport := if icao in extract then extract[icao] else Airport(None, map[]);
      extract := extract[icao := airport.(runways := Some(runways[icao]))];
      rest := rest - {icao};
    }
    forall icao ensures icao in extract <==> icao in existing || icao in runways {
      assert Get(extract, icao) == Merged(Get(existing, icao), Get(runways, icao));
    }
    return Ok(extract);
  }
}
