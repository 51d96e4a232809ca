/** Exactly when a line has another reading once the fix and the kind may be several words. */
module TmiSpacing {
  import opened Wrappers
  import opened Text
  import opened Decimals
  import opened Tmi
  import opened TmiTheorems
  import opened TmiGrammar
  import opened TmiReadings
  import opened TmiAmbiguity

  // ---- Which tokens read as the fields after the kind ------------------------------------------

  /** A condition's token: two parts at a colon, the first not named like a prefix unless `names`. */
  predicate ConditionReads(token: string, g: Grammar) {
    && CapsWord(token) && (g.names || Lead(token) !in RESERVED)
    && if g.colons then exists k :: 0 < k < |token| - 1 && token[k] == ':' else Lead(token) != "" && Rest(token) != ""
  }

  /** The token reads as the field of the given place: type, speed, altitude, condition, exclusion. */
  predicate PlaceReads(token: string, place: nat, g: Grammar) {
    var (name, rest) := (Lead(token), Rest(token));
    match place
    case 0 => name == "TYPE" && CapsWord(rest)
    case 1 => name == "SPD" && rest != "" && NoSpaces(rest) && ReadsAsBound(rest, 0, g.signs)
    case 2 => name == "ALT" && CapsWord(rest) && ReadsAsBound(rest, 3, g.signs)
    case 3 => ConditionReads(token, g)
    case _ => name == "EXCL" && CapsWord(rest) && ReadsAsList(rest, g.commas)
  }

  /** The tokens fill places from `place` on, in order. */
  predicate TailReads(tokens: seq<string>, place: nat, g: Grammar)
    decreases 5 - place, |tokens|
  {
    || tokens == []
    || (place < 5 && (TailReads(tokens, place + 1, g)
                      || (PlaceReads(tokens[0], place, g) && TailReads(tokens[1..], place + 1, g))))
  }

  /** The tokens of the fields from `place` on. */
  function From(e: Ending, place: nat): seq<string> {
    match place
    case 0 => Tokens(e)
    case 1 => AfterType(e)
    case 2 => AfterSpeed(e)
    case 3 => AfterAltitude(e)
    case 4 => ExcludePart(e.exclude)
    case _ => []
  }

  function FieldAt(e: Ending, place: nat): seq<string> {
    match place
    case 0 => Part(e.aircraft, "TYPE:")
    case 1 => Part(BoundText(e.speed, 0), "SPD:")
    case 2 => Part(BoundText(e.altitude, 3), "ALT:")
    case 3 => ConditionTokens(e.condition)
    case _ => ExcludePart(e.exclude)
  }

  lemma FromIs(e: Ending, place: nat)
    requires place < 5
    ensures From(e, place) == FieldAt(e, place) + From(e, place + 1)
    ensures |FieldAt(e, place)| <= 1
  {
    hide Signed, Join, ConditionToken;
  }

  lemma NamedToken(name: string, v: string)
    requires name in {"TYPE", "SPD", "ALT", "EXCL"}
    ensures Lead(name + ":" + v) == name && Rest(name + ":" + v) == v
  {
    Reserved(name);
    TokenNamed((name, v), name, v);
  }

  lemma TokenIsNamed(token: string)
    requires Rest(token) != ""
    ensures token == Lead(token) + ":" + Rest(token)
  {
    var n := RunLength(token, ':');
    assert token == token[..n] + ":" + token[n + 1..];
  }

  /** A field that is there reads at its place. */
  lemma FieldReads(e: Ending, place: nat, g: Grammar)
    requires Admissible(e, g) && place < 5 && FieldAt(e, place) != []
    ensures PlaceReads(FieldAt(e, place)[0], place, g)
  {
    hide CapsWord, NoSpaces, Lead, Rest, ReadsAsBound, ReadsAsList, Signed, Join, ConditionReads,
      AdmissibleCondition, PlainOp, I32;
    match place
    case 0 =>
      assert "TYPE:" + e.aircraft.value == "TYPE" + ":" + e.aircraft.value;
      NamedToken("TYPE", e.aircraft.value);
    case 1 =>
      var v := TextOf(e.speed.value, 0);
      assert "SPD:" + v == "SPD" + ":" + v;
      NamedToken("SPD", v);
      BoundReads(e.speed.value, 0, g);
      BoundIsNoSpaces(e.speed.value.op, e.speed.value.value, 0);
      SignedIsCaps(e.speed.value.value, 0);
    case 2 =>
      var v := TextOf(e.altitude.value, 3);
      assert "ALT:" + v == "ALT" + ":" + v;
      NamedToken("ALT", v);
      BoundReads(e.altitude.value, 3, g);
      TextIsCaps(e.altitude.value, 3);
    case 3 => ConditionIsRead(e.condition.value, g);
    case _ =>
      var v := Join(e.exclude, ",");
      assert "EXCL:" + v == "EXCL" + ":" + v;
      NamedToken("EXCL", v);
      ListReads(e.exclude, g);
      ExcludeIsCaps(e.exclude, g);
  }

  lemma ConditionIsRead(c: (string, string), g: Grammar)
    requires AdmissibleCondition(c, g)
    ensures ConditionReads(ConditionToken(c), g)
  {
    var token := ConditionToken(c);
    TokenIsCaps(c);
    LeadOfToken(c);
    if g.colons {
      assert token[|c.0|] == ':';
    } else {
      LeadOfFree(c.0);
      TokenNamed(c, c.0, c.1);
    }
  }

  lemma ConditionRead(token: string, g: Grammar) returns (c: (string, string))
    requires ConditionReads(token, g)
    ensures AdmissibleCondition(c, g) && ConditionToken(c) == token
  {
    var k: nat;
    if g.colons {
      k :| 0 < k < |token| - 1 && token[k] == ':';
    } else {
      k := RunLength(token, ':');
    }
    c := (token[..k], token[k + 1..]);
    assert token == token[..k] + ":" + token[k + 1..] && token[0..k] == token[..k];
    LeadOfToken(c);
    hide CapsWord, Lead;
    CapsSlices(token, 0, k);
    CapsEnd(token, k + 1);
  }

  /** Tokens that read fill the fields of some ending. */
  lemma {:induction false} TailRead(tokens: seq<string>, place: nat, g: Grammar) returns (e: Ending)
    requires TailReads(tokens, place, g) && place <= 5
    ensures Admissible(e, g) && From(e, place) == tokens && forall p: nat :: p < place ==> FieldAt(e, p) == []
    decreases 5 - place
  {
    hide PlaceReads, Admissible;
    if tokens == [] {
      e := NONE;
      NothingIsAdmissible(place, g);
    } else if TailReads(tokens, place + 1, g) {
      e := TailRead(tokens, place + 1, g);
      FromIs(e, place);
      assert [] + From(e, place + 1) == From(e, place + 1);
    } else {
      var f := TailRead(tokens[1..], place + 1, g);
      e := PlaceRead(f, tokens[0], place, g);
      FromIs(e, place);
      assert [tokens[0]] + tokens[1..] == tokens;
    }
  }

  lemma NothingIsAdmissible(place: nat, g: Grammar)
    ensures Admissible(NONE, g) && From(NONE, place) == [] && forall p: nat :: FieldAt(NONE, p) == []
  {
  }

  /** One more field in front. */
  lemma PlaceRead(f: Ending, token: string, place: nat, g: Grammar) returns (e: Ending)
    requires Admissible(f, g) && place < 5 && PlaceReads(token, place, g)
    requires forall p: nat :: p <= place ==> FieldAt(f, p) == []
    ensures Admissible(e, g) && FieldAt(e, place) == [token] && From(e, place + 1) == From(f, place + 1)
    ensures forall p: nat :: p < place ==> FieldAt(e, p) == []
  {
    hide CapsWord, NoSpaces, Lead, Rest, ReadsAsBound, ReadsAsList, Signed, Join, ConditionReads,
      AdmissibleCondition, PlainOp, I32,
      ConditionToken;
    var (name, rest) := (Lead(token), Rest(token));
    CapsIsNotEmpty(rest);
    if place != 3 {
      TokenIsNamed(token);
    }
    match place {
      case 0 =>
        e := f.(aircraft := Some(rest));
        assert "TYPE" + ":" + rest == "TYPE:" + rest;
      case 1 =>
        var b := BoundRead(rest, 0, g);
        e := f.(speed := Some(b));
        assert "SPD" + ":" + rest == "SPD:" + rest;
      case 2 =>
        WordHasNoSpaces(rest);
        var b := BoundRead(rest, 3, g);
        CapsPrefix(b.op, rest);
        e := f.(altitude := Some(b));
        assert "ALT" + ":" + rest == "ALT:" + rest;
      case 3 =>
        var c := ConditionRead(token, g);
        e := f.(condition := Some(c));
      case _ =>
        var excluded := ListRead(rest, g);
        e := f.(exclude := excluded);
        assert "EXCL" + ":" + rest == "EXCL:" + rest;
    }
    forall p: nat | p < place ensures FieldAt(e, p) == [] {
      assert FieldAt(f, p) == [];
    }
  }

  lemma CapsIsNotEmpty(s: string)
    ensures CapsWord(s) ==> s != ""
  {
  }

  /** And the fields of any ending read. */
  lemma {:induction false} TailIsRead(e: Ending, place: nat, g: Grammar)
    requires Admissible(e, g) && place <= 5
    ensures TailReads(From(e, place), place, g)
    decreases 5 - place
  {
    hide Admissible, PlaceReads, FieldAt;
    if place < 5 {
      var (field, more) := (FieldAt(e, place), From(e, place + 1));
      TailIsRead(e, place + 1, g);
      FromIs(e, place);
      if field == [] {
        assert field + more == more;
      } else {
        FieldReads(e, place, g);
        assert (field + more)[0] == field[0] && (field + more)[1..] == more;
      }
    }
  }

  // ---- Several words before the rest -----------------------------------------------------------

  /** A kind of any number of words. */
  predicate SpacedKind(k: Kind, g: Grammar) {
    && k.name != "" && k.name != "TXT" && (g.kinds || !IsSignOrDigit(k.name[0]))
    && (k.count.Some? <==> Counts(k.name)) && (k.count.Some? ==> I32(k.count.value))
  }

  /** `Loose`, but for the number of words in the fix and in the kind. */
  predicate Spaced(r: Restriction, g: Grammar) {
    && IsWord(Clean(r.element)) && OptClean(r.qualifier).None?
    && SpacedKind(KindOf(r), g) && Admissible(EndingOf(r), g)
    && (OptClean(r.condition).Some? ==> OptClean(r.conditionDetail).Some?)
  }

  lemma LooseIsSpaced(r: Restriction, g: Grammar)
    requires Loose(r, g)
    ensures Spaced(r, g)
  {
    hide Clean, OptClean, KindOf, EndingOf, Admissible;
  }

  function ViaWords(r: Restriction): seq<string> {
    if OptClean(r.via).Some? then Words(OptClean(r.via).value) else []
  }

  function KindWords(k: Kind): seq<string> {
    if k.count.Some? then [KindText(k)] else Words(k.name)
  }

  /** The words after the direction, but for the `via` that introduces a fix. */
  function Body(r: Restriction): seq<string> {
    ViaWords(r) + (KindWords(KindOf(r)) + Tokens(EndingOf(r)))
  }

  function Marker(r: Restriction): seq<string> {
    if OptClean(r.via).Some? then ["via"] else []
  }

  /** One word that is a kind. */
  predicate KindWordReads(w: string, g: Grammar) {
    || (w != "TXT" && !Counts(w) && w != "" && (g.kinds || !IsSignOrDigit(w[0])))
    || CountOf(w, "MIT") || CountOf(w, "MINIT")
  }

  /** Words that are a kind. */
  predicate KindWordsRead(ws: seq<string>, g: Grammar)
    requires ws != []
  {
    if |ws| == 1 then KindWordReads(ws[0], g) else ws[0] != "" && (g.kinds || !IsSignOrDigit(ws[0][0]))
  }

  /** The words part into a fix up to `p`, a kind up to `q` and fields that read. */
  predicate PartsAt(body: seq<string>, fix: bool, p: nat, q: nat, g: Grammar) {
    && p < q <= |body| && (fix <==> p > 0)
    && (forall i :: 0 <= i < q ==> CapsWord(body[i]))
    && KindWordsRead(body[p..q], g) && TailReads(body[q..], 0, g)
  }

  /** They part so, and elsewhere than the restriction has it. */
  predicate Elsewhere(r: Restriction, p: nat, q: nat, g: Grammar) {
    && PartsAt(Body(r), OptClean(r.via).Some?, p, q, g)
    && (p != |ViaWords(r)| || q != |ViaWords(r)| + |KindWords(KindOf(r))|)
  }

  predicate PartsAgain(r: Restriction, g: Grammar) {
    exists p, q :: 0 <= p < q <= |Body(r)| && Elsewhere(r, p, q, g)
  }

  // ---- Words in capitals -----------------------------------------------------------------------

  predicate AllCaps(ws: seq<string>) {
    forall i :: 0 <= i < |ws| ==> CapsWord(ws[i])
  }

  lemma WordsOfClean(s: string)
    ensures AllCaps(Words(Clean(s))) && Join(Words(Clean(s)), " ") == Clean(s)
    ensures Words(Clean(s)) == [] <==> Clean(s) == ""
  {
    CleanIsCollapsed(s);
    var ws := Words(s);
    hide Words, Clean, Collapse;
    forall i | 0 <= i < |ws| ensures CapsWord(UpperAll(ws)[i]) {
      UpperIsWord(ws[i]);
      UpperIdempotent(ws[i]);
      CapsIff(Upper(ws[i]));
    }
    CollapseIs(Clean(s));
    NoWords();
  }

  lemma CollapseIs(s: string)
    ensures Collapse(s) == Join(Words(s), " ")
    ensures Words(s) == [] ==> Collapse(s) == ""
  {
  }

  lemma {:induction false} JoinedCaps(ws: seq<string>)
    requires AllCaps(ws)
    ensures Caps(Join(ws, " ")) && Words(Join(ws, " ")) == ws && Collapse(Join(ws, " ")) == Join(ws, " ")
    ensures Clean(Join(ws, " ")) == Join(ws, " ")
  {
    hide CapsWord, Words;
    assert AllWords(ws) by { CapsAreWords(ws); }
    WordsOfJoin(ws);
    JoinHasCaps(ws);
    CapsIff(Join(ws, " "));
  }

  lemma CapsAreWords(ws: seq<string>)
    requires AllCaps(ws)
    ensures AllWords(ws)
  {
  }

  lemma {:induction false} JoinHasCaps(ws: seq<string>)
    requires AllCaps(ws)
    ensures Caps(Join(ws, " "))
  {
    hide NoSpaces;
    if |ws| > 1 {
      JoinHasCaps(ws[1..]);
      TwoCaps(ws[0], " ");
      TwoCaps(ws[0] + " ", Join(ws[1..], " "));
    }
  }

  lemma TwoCaps(a: string, b: string)
    requires Caps(a) && (Caps(b) || b == " ")
    ensures Caps(a + b)
  {
  }

  // ---- The words of a line ---------------------------------------------------------------------

  /** A part that collapsing leaves alone, and that is not blank. */
  predicate Solid(part: string) {
    part != "" && Collapse(part) == part
  }

  predicate AllSolid(parts: seq<string>) {
    forall i :: 0 <= i < |parts| ==> Solid(parts[i])
  }

  lemma SolidWords(part: string)
    requires Solid(part)
    ensures Words(part) != [] && Join(Words(part), " ") == part
  {
    hide Words;
    CollapseIs(part);
  }

  /** Parts that are solid print as their words do. */
  lemma {:induction false} FlatJoins(parts: seq<string>)
    requires AllSolid(parts)
    ensures Join(Flat(parts), " ") == Join(parts, " ")
    ensures parts != [] ==> Flat(parts) != []
  {
    hide Words, Solid, Join;
    if parts == [] {
      FlatNone();
    } else {
      SolidWords(parts[0]);
      FlatFirst(parts[0], parts[1..]);
      assert parts == [parts[0]] + parts[1..];
      FlatJoins(parts[1..]);
      if parts[1..] == [] {
        FlatNone();
        assert Words(parts[0]) + [] == Words(parts[0]) && parts == [parts[0]];
        JoinOne(parts[0]);
      } else {
        JoinWords(Words(parts[0]), Flat(parts[1..]));
        JoinMore(parts[0], parts[1..]);
      }
    }
  }

  lemma WordIsSolid(w: string)
    requires IsWord(w)
    ensures Solid(w)
  {
    WordIsItself(w);
    hide Collapse;
  }

  lemma {:induction false} WordsAreSolid(ws: seq<string>)
    requires AllWords(ws)
    ensures AllSolid(ws)
  {
    hide Solid, IsWord;
    forall i | 0 <= i < |ws| ensures Solid(ws[i]) {
      assert IsWord(ws[i]);
      WordIsSolid(ws[i]);
    }
  }

  lemma CleanIsSolid(s: string)
    ensures Clean(s) != "" ==> Solid(Clean(s))
  {
    CleanIsCollapsed(s);
    hide Clean, Collapse;
  }

  /** What `via` and the fix print as. */
  lemma ViaIsSolid(r: Restriction)
    ensures AllSolid(Part(OptClean(r.via), "via ")) && Flat(Part(OptClean(r.via), "via ")) == Marker(r) + ViaWords(r)
  {
    hide Words, Flat, Clean, Collapse, Solid;
    FlatNone();
    if OptClean(r.via).Some? {
      var v := OptClean(r.via).value;
      ViaIsClean(r);
      WordsAcrossSpace("via", v);
      WordIsItself("via");
      assert "via" + " " + v == "via " + v;
      FlatFirst("via " + v, []);
      assert ["via " + v] + [] == ["via " + v];
      assert ["via"] + Words(v) + [] == ["via"] + Words(v);
      ViaCollapses(v);
    }
  }

  lemma ViaIsClean(r: Restriction)
    requires OptClean(r.via).Some?
    ensures var v := OptClean(r.via).value; Solid(v) && AllCaps(Words(v)) && Words(v) != [] && Join(Words(v), " ") == v
  {
    var u := r.via.value;
    CleanIsCollapsed(u);
    CleanIsSolid(u);
    WordsOfClean(u);
    hide Clean, Collapse, Words, Solid;
    assert OptClean(r.via).value == Clean(u) && Clean(u) != "";
  }

  lemma ViaCollapses(v: string)
    requires Solid(v)
    ensures Solid("via " + v)
  {
    hide Words, Collapse, Join;
    WordIsItself("via");
    SolidWords(v);
    CollapseIs("via " + v);
    WordsAcrossSpace("via", v);
    assert "via" + " " + v == "via " + v;
    JoinWords(["via"], Words(v));
    JoinOne("via");
  }

  /** A kind prints as its words. */
  lemma KindIsSolid(r: Restriction, g: Grammar)
    requires SpacedKind(KindOf(r), g)
    ensures KindPart(r) == [KindText(KindOf(r))] && Solid(KindText(KindOf(r)))
    ensures Words(KindText(KindOf(r))) == KindWords(KindOf(r)) && AllCaps(KindWords(KindOf(r))) && KindWords(KindOf(r)) != []
    ensures Join(KindWords(KindOf(r)), " ") == KindText(KindOf(r))
  {
    var k := KindOf(r);
    CleanIsSolid(r.kind);
    WordsOfClean(r.kind);
    NameIs(r);
    hide Clean, Signed, Words, Solid, CapsWord, Collapse;
    if k.count.Some? {
      CountIsCaps(k.count.value, k.name);
      CapsWordIsWord(KindText(k));
      WordIsSolid(KindText(k));
      WordIsItself(KindText(k));
      JoinOne(KindText(k));
    }
  }

  lemma NameIs(r: Restriction)
    ensures KindOf(r).name == Clean(r.kind)
  {
    hide Clean;
  }

  lemma CapsWordIsWord(w: string)
    requires CapsWord(w)
    ensures IsWord(w)
  {
  }

  lemma DirectionIsSolid(direction: string)
    ensures AllSolid(DirectionPart(direction))
  {
    hide Lower, Collapse, Solid, IsWord;
    DirectionsAreWords();
    WordIsSolid("arrivals");
    WordIsSolid("departures");
  }

  lemma AllSolidConcat(a: seq<string>, b: seq<string>)
    requires AllSolid(a) && AllSolid(b)
    ensures AllSolid(a + b)
  {
    hide Solid;
  }

  lemma {:induction false} FlatIsWords(ws: seq<string>)
    requires Flat(ws) == ws
    ensures AllWords(ws)
  {
    FlatAllWords(ws);
  }

  lemma {:induction false} FlatAllWords(parts: seq<string>)
    ensures AllWords(Flat(parts))
  {
    hide Words;
    if parts != [] {
      FlatAllWords(parts[1..]);
    }
  }

  /** The words of a line, and that it is their join. */
  lemma SpacedLine(r: Restriction, g: Grammar)
    requires Spaced(r, g)
    ensures Words(Encoded(r)) == [Clean(r.element)] + (DirectionPart(r.direction) + (Marker(r) + Body(r)))
    ensures Encoded(r) == Join(Words(Encoded(r)), " ")
  {
    hide Words, Flat, Join, Clean, OptClean, Tokens, DirectionPart, KindPart, Part, KindOf, EndingOf, Admissible,
      SpacedKind,
      KindText, ViaWords, KindWords, Marker, Solid, AllSolid, AllWords, IsWord, Tail;
    var (el, d, v, k) := ([Clean(r.element)], DirectionPart(r.direction), Part(OptClean(r.via), "via "), KindPart(r));
    var t := Tokens(EndingOf(r));
    NoQualifier(r);
    TailIsTokens(r);
    TokensAreWords(EndingOf(r), g);
    FlatIsWords(t);
    WordsAreSolid(t);
    DirectionIsSolid(r.direction);
    FlatDirection(r.direction);
    ViaIsSolid(r);
    KindIsSolid(r, g);
    OnePart(KindText(KindOf(r)));
    ElementIsSolid(r);
    assert [] + t == t;
    assert Parts(r) == el + (d + (v + (k + t)));
    AllSolidConcat(k, t);
    AllSolidConcat(v, k + t);
    AllSolidConcat(d, v + (k + t));
    AllSolidConcat(el, d + (v + (k + t)));
    FlatConcat(k, t);
    FlatConcat(v, k + t);
    FlatConcat(d, v + (k + t));
    FlatConcat(el, d + (v + (k + t)));
    WordsOfParts(Parts(r));
    FlatJoins(Parts(r));
    Regroup(Marker(r), ViaWords(r), KindWords(KindOf(r)) + t);
  }

  lemma Regroup(a: seq<string>, b: seq<string>, c: seq<string>)
    ensures a + b + c == a + (b + c)
  {
  }

  lemma OnePart(part: string)
    ensures Solid(part) ==> AllSolid([part])
    ensures Flat([part]) == Words(part)
  {
    hide Words, Solid, Flat;
    FlatNone();
    FlatFirst(part, []);
    assert [part] + [] == [part] && Words(part) + [] == Words(part);
  }

  lemma ElementIsSolid(r: Restriction)
    requires IsWord(Clean(r.element))
    ensures AllSolid([Clean(r.element)]) && Flat([Clean(r.element)]) == [Clean(r.element)]
  {
    hide Clean, Solid, Flat, Words;
    WordIsSolid(Clean(r.element));
    WordIsItself(Clean(r.element));
    OnePart(Clean(r.element));
  }

  // ---- What a line determines ------------------------------------------------------------------

  lemma BodyStarts(r: Restriction, g: Grammar)
    requires Spaced(r, g)
    ensures Body(r) != [] && NotLower(Body(r)[0])
    ensures forall i :: 0 <= i < |ViaWords(r)| + |KindWords(KindOf(r))| ==> CapsWord(Body(r)[i])
    ensures OptClean(r.via).Some? <==> |ViaWords(r)| > 0
    ensures |KindWords(KindOf(r))| > 0
  {
    hide Words, Clean, OptClean, Tokens, KindOf, EndingOf, Admissible, SpacedKind, KindText, KindWords, Solid, CapsWord;
    KindIsSolid(r, g);
    if OptClean(r.via).Some? {
      ViaIsClean(r);
    }
    assert CapsWord(Body(r)[0]);
    CapsNotLower(Body(r)[0]);
  }

  lemma CapsNotLower(w: string)
    requires CapsWord(w)
    ensures NotLower(w)
  {
    assert UpperChar(w[0]) == w[0];
  }

  /** Equal lines have equal elements, directions and words after them, and both a fix or neither. */
  lemma SpacedEqual(r: Restriction, s: Restriction, g: Grammar)
    requires Spaced(r, g) && Spaced(s, g) && Encoded(r) == Encoded(s)
    ensures Normal(r).element == Normal(s).element && Normal(r).direction == Normal(s).direction
    ensures Body(r) == Body(s) && (OptClean(r.via).Some? <==> OptClean(s.via).Some?)
  {
    hide Words, Clean, OptClean, Body, DirectionPart, Encoded, Spaced, Join, NotLower;
    SpacedLine(r, g);
    SpacedLine(s, g);
    BodyStarts(r, g);
    BodyStarts(s, g);
    var (x, y) := (DirectionPart(r.direction) + (Marker(r) + Body(r)), DirectionPart(s.direction) + (Marker(s) + Body(s)));
    FirstOfTwo(Clean(r.element), x, Clean(s.element), y);
    MarkersAre(r);
    MarkersAre(s);
    DirectionsAre(r, s);
    BeforeBody(DirectionPart(r.direction), Marker(r), Body(r), DirectionPart(s.direction), Marker(s), Body(s));
  }

  lemma MarkersAre(r: Restriction)
    ensures Marker(r) == if OptClean(r.via).Some? then ["via"] else []
    ensures DirectionPart(r.direction) == [] || DirectionPart(r.direction) == ["arrivals"]
            || DirectionPart(r.direction) == ["departures"]
    ensures Normal(r).element == Clean(r.element)
  {
    hide Clean, Lower, Collapse, OptClean;
  }

  lemma DirectionsAre(r: Restriction, s: Restriction)
    ensures DirectionPart(r.direction) == DirectionPart(s.direction) ==> Normal(r).direction == Normal(s).direction
  {
    hide Clean, Lower, Collapse, OptClean;
    assert "arrivals"[0] != "departures"[0];
  }

  lemma BeforeBody(d: seq<string>, m: seq<string>, b: seq<string>, d': seq<string>, m': seq<string>, b': seq<string>)
    requires d + (m + b) == d' + (m' + b')
    requires d == [] || d == ["arrivals"] || d == ["departures"]
    requires d' == [] || d' == ["arrivals"] || d' == ["departures"]
    requires (m == [] || m == ["via"]) && (m' == [] || m' == ["via"])
    requires b != [] && NotLower(b[0]) && b' != [] && NotLower(b'[0])
    ensures d == d' && m == m' && b == b'
  {
    assert "arrivals"[0] == 'a' && "departures"[0] == 'd' && "via"[0] == 'v';
    var (x, y) := (m + b, m' + b');
    assert x != [] && y != [] && (NotLower(x[0]) || x[0] == "via") && (NotLower(y[0]) || y[0] == "via");
    SamePart(d, x, d', y);
    SamePart(m, b, m', b');
  }

  lemma SamePart(d: seq<string>, x: seq<string>, e: seq<string>, y: seq<string>)
    requires d + x == e + y && |d| <= 1 && |e| <= 1 && x != [] && y != []
    requires d != [] ==> d[0] != y[0]
    requires e != [] ==> e[0] != x[0]
    ensures d == e && x == y
  {
    StartIs(d, x);
    StartIs(e, y);
  }

  lemma StartIs(d: seq<string>, x: seq<string>)
    requires |d| <= 1 && x != []
    ensures (d + x)[0] == if d == [] then x[0] else d[0]
    ensures (d + x)[|d|..] == x
  {
  }

  // ---- The theorem -----------------------------------------------------------------------------

  lemma KindWordsAreRead(r: Restriction, g: Grammar)
    requires Spaced(r, g)
    ensures KindWords(KindOf(r)) != [] && KindWordsRead(KindWords(KindOf(r)), g)
  {
    var k := KindOf(r);
    hide Words, Clean, OptClean, Tokens, EndingOf, Admissible, CapsWord, CountOf, Signed, Solid, Join, KindOf;
    KindIsSolid(r, g);
    if k.count.Some? {
      CountIsText(k.count.value, k.name);
    } else {
      KindStarts(k.name, KindWords(k));
    }
  }

  /** A text of words starts with its first, and is it when that is all. */
  lemma KindStarts(name: string, ws: seq<string>)
    requires ws != [] && AllCaps(ws) && Join(ws, " ") == name
    ensures ws[0] != "" && name != "" && name[0] == ws[0][0] && (|ws| == 1 ==> name == ws[0])
    ensures |ws| > 1 ==> name != "TXT" && !Counts(name)
  {
    assert CapsWord(ws[0]);
    if |ws| > 1 {
      assert name[|ws[0]|] == ' ';
    }
  }

  /** The restriction's own parts are at its own places. */
  lemma OwnParts(r: Restriction, g: Grammar)
    requires Spaced(r, g)
    ensures var (p, q) := (|ViaWords(r)|, |ViaWords(r)| + |KindWords(KindOf(r))|);
      && PartsAt(Body(r), OptClean(r.via).Some?, p, q, g) && Body(r)[..p] == ViaWords(r)
      && Body(r)[p..q] == KindWords(KindOf(r)) && Body(r)[q..] == Tokens(EndingOf(r))
  {
    hide Words, OptClean, Tokens, KindOf, EndingOf, KindWords, ViaWords, KindWordsRead, TailReads, CapsWord;
    BodyStarts(r, g);
    KindWordsAreRead(r, g);
    TailIsRead(EndingOf(r), 0, g);
    var (v, k, t) := (ViaWords(r), KindWords(KindOf(r)), Tokens(EndingOf(r)));
    var (p, q) := (|v|, |v| + |k|);
    assert Body(r) == v + (k + t);
    assert (v + (k + t))[..p] == v && (v + (k + t))[p..q] == k && (v + (k + t))[q..] == t;
  }

  /** Words that read as a kind are those of one. */
  lemma KindRead(ws: seq<string>, g: Grammar) returns (k: Kind)
    requires ws != [] && AllCaps(ws) && KindWordsRead(ws, g)
    ensures SpacedKind(k, g) && KindWords(k) == ws && Clean(k.name) == k.name
  {
    hide Words, Clean, CountOf, Signed, Join, CapsWord, Collapse, IsNumeral, ParseSigned;
    JoinedCaps(ws);
    var name := Join(ws, " ");
    KindStarts(name, ws);
    if |ws| == 1 && (CountOf(ws[0], "MIT") || CountOf(ws[0], "MINIT")) {
      var unit := if CountOf(ws[0], "MIT") then "MIT" else "MINIT";
      k := Counted(ws[0], unit);
      UnitStarts(unit);
      UnitIsCaps(unit);
      UnitIsClean(unit);
      assert ws == [ws[0]];
    } else {
      k := Kind(name, None);
    }
  }

  lemma Counted(w: string, unit: string) returns (k: Kind)
    requires CountOf(w, unit)
    ensures k.name == unit && k.count.Some? && I32(k.count.value) && KindText(k) == w
  {
    var digits := w[..|w| - |unit|];
    hide IsNumeral, ParseSigned, Signed;
    var n := NumeralIsSigned(digits, 0);
    ParsedIs(n);
    k := Kind(unit, Some(n));
    assert w == digits + unit;
  }

  lemma UnitIsClean(unit: string)
    requires Counts(unit)
    ensures Clean(unit) == unit
  {
    UnitIsCaps(unit);
    hide Clean;
    CapsWordIsClean(unit);
  }

  /** Every other parting of the words is that of a restriction printing the same line. */
  lemma Reparted(r: Restriction, p: nat, q: nat, g: Grammar) returns (s: Restriction)
    requires Spaced(r, g) && PartsAt(Body(r), OptClean(r.via).Some?, p, q, g)
    ensures Spaced(s, g) && Encoded(s) == Encoded(r)
    ensures |ViaWords(s)| == p && |KindWords(KindOf(s))| == q - p
  {
    hide Words, Clean, OptClean, Tokens, KindOf, EndingOf, Admissible, SpacedKind, KindWords, KindWordsRead,
      TailReads, CapsWord,
      Encoded, DirectionPart, Join, ViaWords, Marker;
    var body := Body(r);
    SlicesAreCaps(body, p, q);
    var k := KindRead(body[p..q], g);
    var e := TailRead(body[q..], 0, g);
    var via := if p > 0 then Some(Join(body[..p], " ")) else r.via;
    s := With(r, k, e).(via := via);
    RepartedFields(r, k, e, via, g);
    RepartedVia(r, s, body[..p]);
    Rejoin(body, p, q);
    SpacedLine(r, g);
    SpacedLine(s, g);
  }

  lemma SlicesAreCaps(body: seq<string>, p: nat, q: nat)
    requires p <= q <= |body| && forall i :: 0 <= i < q ==> CapsWord(body[i])
    ensures AllCaps(body[..p]) && AllCaps(body[p..q])
  {
    hide CapsWord;
  }

  lemma Rejoin(body: seq<string>, p: nat, q: nat)
    requires p <= q <= |body|
    ensures body[..p] + (body[p..q] + body[q..]) == body
  {
  }

  lemma RepartedFields(r: Restriction, k: Kind, e: Ending, via: Option<string>, g: Grammar)
    requires Spaced(r, g) && SpacedKind(k, g) && Clean(k.name) == k.name && Admissible(e, g)
    ensures var s := With(r, k, e).(via := via);
      && Spaced(s, g) && KindOf(s) == k && EndingOf(s) == e && s.element == r.element && s.direction == r.direction
  {
    EndingOfWith(r, k, e, g);
    hide Clean, OptClean, Collapse, Excluded, Lower, Admissible;
    var s := With(r, k, e).(via := via);
    assert EndingOf(s) == EndingOf(With(r, k, e));
  }

  lemma RepartedVia(r: Restriction, s: Restriction, ws: seq<string>)
    requires AllCaps(ws) && (OptClean(r.via).Some? <==> ws != [])
    requires s.via == if ws != [] then Some(Join(ws, " ")) else r.via
    ensures ViaWords(s) == ws && Marker(s) == Marker(r)
  {
    JoinedCaps(ws);
    NoWords();
    hide Words, Join, Clean, Collapse;
    if ws != [] {
      assert Join(ws, " ") != "";
      assert OptClean(s.via) == Some(Join(ws, " "));
    }
  }

  lemma SameCounts(r: Restriction, s: Restriction)
    requires Normal(r) == Normal(s)
    ensures |ViaWords(r)| == |ViaWords(s)| && KindOf(r) == KindOf(s)
  {
    hide Words, Clean, OptClean, Lower, Collapse, Excluded;
  }

  /** The same line stands for something else as well. */
  ghost predicate SpacedAlsoReads(r: Restriction, s: Restriction, g: Grammar) {
    Spaced(s, g) && Encoded(s) == Encoded(r) && Normal(s) != Normal(r)
  }

  /** Parted alike, two readings of a line differ in a token of one word. */
  lemma PartedAlike(r: Restriction, s: Restriction, g: Grammar)
    requires Spaced(r, g) && SpacedAlsoReads(r, s, g)
    requires |ViaWords(r)| == |ViaWords(s)| && |KindWords(KindOf(r))| == |KindWords(KindOf(s))|
    ensures ReadsTwice(r, g)
  {
    hide Words, Clean, OptClean, Tokens, KindOf, EndingOf, Admissible, KindWords, CapsWord, Encoded, Join, ViaWords,
      Marker, Normal,
      Spaced, PartsAt, Ambiguous, KindReadsAgain, Body;
    SpacedEqual(r, s, g);
    OwnParts(r, g);
    OwnParts(s, g);
    SameVia(r, s);
    EqualFields(r, s);
    if KindOf(r) != KindOf(s) {
      SameKindWords(r, s, g);
    } else {
      SpacedEnding(r, g);
      SpacedEnding(s, g);
      OtherEnding(EndingOf(r), EndingOf(s), g);
    }
  }

  lemma SpacedEnding(r: Restriction, g: Grammar)
    requires Spaced(r, g)
    ensures Admissible(EndingOf(r), g)
  {
  }

  lemma SameVia(r: Restriction, s: Restriction)
    requires ViaWords(r) == ViaWords(s) && (OptClean(r.via).Some? <==> OptClean(s.via).Some?)
    ensures Normal(r).via == Normal(s).via
  {
    if OptClean(r.via).Some? {
      ViaIsClean(r);
      ViaIsClean(s);
    }
    hide Clean, OptClean, Words, Lower, Collapse, Excluded;
  }

  /** Kinds with the same words that differ are kinds of one word. */
  lemma SameKindWords(r: Restriction, s: Restriction, g: Grammar)
    requires Spaced(r, g) && Spaced(s, g) && KindWords(KindOf(r)) == KindWords(KindOf(s)) && KindOf(r) != KindOf(s)
    ensures g.kinds && KindReadsAgain(KindOf(r))
  {
    hide Words, Clean, OptClean, EndingOf, Admissible, CapsWord, Signed, Join, KindOf, CountOf;
    KindIsSolid(r, g);
    KindIsSolid(s, g);
    var (k, l, ws) := (KindOf(r), KindOf(s), KindWords(KindOf(r)));
    if |ws| > 1 {
      assert false;
    }
    OneWordKind(k, ws, g);
    OneWordKind(l, ws, g);
    OtherKind(k, l, g);
  }

  lemma OneWordKind(k: Kind, ws: seq<string>, g: Grammar)
    requires SpacedKind(k, g) && |ws| == 1 && AllCaps(ws) && Join(ws, " ") == KindText(k)
    ensures AdmissibleKind(k, g)
  {
    if k.count.Some? {
      UnitIsCaps(k.name);
    }
  }

  lemma KindReadsAgainIsOne(r: Restriction, g: Grammar)
    requires Spaced(r, g) && KindReadsAgain(KindOf(r))
    ensures AdmissibleKind(KindOf(r), g)
  {
    var k := KindOf(r);
    KindIsSolid(r, g);
    hide Clean, Words, OptClean, EndingOf, Admissible, Signed, Join, KindOf, Solid;
    if k.count.Some? {
      UnitIsCaps(k.name);
    } else {
      var unit := if CountOf(k.name, "MIT") then "MIT" else "MINIT";
      var l := Counted(k.name, unit);
      CountIsCaps(l.count.value, unit);
    }
  }

  /** A restriction that reads twice as to its words reads twice. */
  lemma SpacedReadAgain(r: Restriction, g: Grammar) returns (s: Restriction)
    requires Spaced(r, g) && ReadsTwice(r, g)
    ensures SpacedAlsoReads(r, s, g)
  {
    hide Clean, OptClean, KindOf, EndingOf, Admissible, KindReadsAgain, Ambiguous, Encoded, Normal, Tokens, KindText,
      SpacedKind,
      Words, KindWords;
    var (k, e) := (KindOf(r), EndingOf(r));
    NameIs(r);
    CleanTwice(r.kind);
    var (l, f) := (k, e);
    if g.kinds && KindReadsAgain(k) {
      KindReadsAgainIsOne(r, g);
      l := KindAgain(k, g);
      KindIsSpaced(l, g);
    } else {
      f := ReadAgain(e, g);
    }
    s := With(r, l, f);
    RepartedFields(r, l, f, r.via, g);
    assert With(r, l, f).(via := r.via) == s;
    SameText(r, s, g);
    SameBeforeKind(r, l, f);
    EqualFields(r, s);
  }

  lemma CleanTwice(s: string)
    ensures Clean(Clean(s)) == Clean(s)
  {
    CleanIsCollapsed(s);
  }

  lemma KindIsSpaced(k: Kind, g: Grammar)
    requires AdmissibleKind(k, g)
    ensures SpacedKind(k, g) && Clean(k.name) == k.name
  {
    CapsWordIsClean(k.name);
  }

  lemma SameText(r: Restriction, s: Restriction, g: Grammar)
    requires Spaced(r, g) && Spaced(s, g) && s == With(r, KindOf(s), EndingOf(s))
    requires KindText(KindOf(s)) == KindText(KindOf(r)) && Tokens(EndingOf(s)) == Tokens(EndingOf(r))
    ensures Encoded(s) == Encoded(r)
  {
    hide Clean, OptClean, KindOf, EndingOf, Admissible, Tokens, KindText, SpacedKind, Words, Join, KindPart,
      DirectionPart, Tail,
      Part, KindWords, Solid;
    KindIsSolid(r, g);
    KindIsSolid(s, g);
    TailIsTokens(r);
    TailIsTokens(s);
  }

  /** Whatever other hypotheses are dropped, with the fix and the kind of any number of words a line has another
      reading exactly when its words part elsewhere, or a token reads twice. */
  lemma SpacedReadingIff(r: Restriction, g: Grammar)
    requires Spaced(r, g)
    ensures (exists s :: SpacedAlsoReads(r, s, g)) <==> ReadsTwice(r, g) || PartsAgain(r, g)
  {
    hide Clean, OptClean, KindOf, EndingOf, Encoded, Normal, Words, KindWords, ViaWords, Body, PartsAt, Spaced,
      ReadsTwice;
    if ReadsTwice(r, g) {
      var s := SpacedReadAgain(r, g);
      assert SpacedAlsoReads(r, s, g);
    }
    if p, q :| 0 <= p < q <= |Body(r)| && Elsewhere(r, p, q, g) {
      var s := Reparted(r, p, q, g);
      if Normal(s) == Normal(r) {
        SameCounts(r, s);
        assert false;
      }
      assert SpacedAlsoReads(r, s, g);
    }
    forall s | SpacedAlsoReads(r, s, g) ensures ReadsTwice(r, g) || PartsAgain(r, g) {
      SpacedEqual(r, s, g);
      OwnParts(s, g);
      var (p, q) := (|ViaWords(s)|, |ViaWords(s)| + |KindWords(KindOf(s))|);
      if p == |ViaWords(r)| && q == p + |KindWords(KindOf(r))| {
        PartedAlike(r, s, g);
      } else {
        PartsInBody(Body(r), OptClean(r.via).Some?, p, q, g);
        assert Elsewhere(r, p, q, g);
      }
    }
  }

  lemma PartsInBody(body: seq<string>, fix: bool, p: nat, q: nat, g: Grammar)
    requires PartsAt(body, fix, p, q, g)
    ensures p < q <= |body|
  {
  }

  /** So a fix of several words never tells where it ends, unless a number follows its first word. */
  lemma FixWordsMove(r: Restriction, g: Grammar)
    requires Spaced(r, g) && |ViaWords(r)| > 1 && ViaWords(r)[1] != "" && !IsSignOrDigit(ViaWords(r)[1][0])
    ensures PartsAgain(r, g)
  {
    hide Words, OptClean, KindOf, EndingOf, KindWords, ViaWords, TailReads, CapsWord, Spaced;
    OwnParts(r, g);
    BodyStarts(r, g);
    var q := |ViaWords(r)| + |KindWords(KindOf(r))|;
    var ws := Body(r)[1..q];
    assert ws[0] == Body(r)[..|ViaWords(r)|][1];
    assert PartsAt(Body(r), OptClean(r.via).Some?, 1, q, g);
    assert Elsewhere(r, 1, q, g);
  }

  // ---- Two literal pairs -----------------------------------------------------------------------

  /** Two restrictions of one grammar that print as the given line and differ. */
  ghost predicate SpacedCollide(r: Restriction, s: Restriction, g: Grammar, line: string) {
    Spaced(r, g) && SpacedAlsoReads(r, s, g) && Encoded(r) == line
  }

  lemma TwoWords(a: string, b: string)
    requires CapsWord(a) && CapsWord(b)
    ensures Clean(a + " " + b) == a + " " + b && Words(a + " " + b) == [a, b]
  {
    hide CapsWord, Words, Clean, Join, Collapse;
    JoinedCaps([a, b]);
    JoinMore(a, [b]);
    JoinOne(b);
    assert [a] + [b] == [a, b];
  }

  /** A bare restriction with a fix and a kind. */
  function Fixed(fix: string, kind: string): Restriction {
    BARE.(via := Some(fix), kind := kind)
  }

  /** What a restriction with no direction and nothing after the kind prints. */
  lemma ShortLine(r: Restriction, g: Grammar)
    requires Spaced(r, g) && DirectionPart(r.direction) == [] && Tokens(EndingOf(r)) == []
    ensures Encoded(r) == Join([Clean(r.element)] + (Part(OptClean(r.via), "via ") + [KindText(KindOf(r))]), " ")
  {
    hide Clean, Join, DirectionPart, OptClean, Part, KindOf, EndingOf, Tokens, SpacedKind, Admissible, KindText,
      Tail, KindPart,
      Solid, Words, KindWords;
    NoQualifier(r);
    TailIsTokens(r);
    KindIsSolid(r, g);
    var (el, v, k) := ([Clean(r.element)], Part(OptClean(r.via), "via "), [KindText(KindOf(r))]);
    assert Parts(r) == el + ([] + (v + (k + ([] + []))));
    assert el + ([] + (v + (k + ([] + [])))) == el + (v + k);
  }

  lemma BareFields(via: Option<string>, kind: string)
    requires Clean(kind) == kind && !Counts(kind)
    ensures var r := BARE.(via := via, kind := kind);
      && KindOf(r) == Kind(kind, None) && EndingOf(r) == NONE && OptClean(r.condition).None? && OptClean(r.qualifier).None?
      && Normal(r).via == OptClean(via) && Normal(r).kind == kind
  {
    NoOpt();
    hide Clean, OptClean, Lower, Collapse;
  }

  lemma FixedParts(fix: string, kind: string, g: Grammar)
    requires Clean(fix) == fix != "" && Clean(kind) == kind && SpacedKind(Kind(kind, None), g)
    ensures Spaced(Fixed(fix, kind), g) && Encoded(Fixed(fix, kind)) == Join(["JFK"] + (["via " + fix] + [kind]), " ")
    ensures Normal(Fixed(fix, kind)).via == Some(fix) && Normal(Fixed(fix, kind)).kind == kind
  {
    BareIsPlain();
    OptOfClean(fix);
    BareFields(Some(fix), kind);
    OnlyKind(g);
    hide Clean, Join, OptClean, KindOf, EndingOf, Encoded, Normal, DirectionPart, Tokens;
    ShortLine(Fixed(fix, kind), g);
  }

  lemma OptOfClean(s: string)
    requires Clean(s) == s != ""
    ensures OptClean(Some(s)) == Some(s)
  {
    CleanIsCollapsed(s);
    hide Clean, Collapse;
  }

  lemma FixMoves(a: string, b: string, c: string)
    requires CapsWord(a) && CapsWord(b) && !IsSignOrDigit(b[0]) && CapsWord(c) && c == "STOP"
    ensures SpacedCollide(
      Fixed(a + " " + b, c), Fixed(a, b + " " + c), STRICT, Join(["JFK"] + (["via " + (a + " " + b)] + [c]), " "))
  {
    StopIsKind(STRICT);
    hide CapsWord, Clean, Words, Join, Encoded, Normal, Spaced, Fixed, SpacedKind, IsSignOrDigit;
    KindIsSpaced(Kind(c, None), STRICT);
    TwoWords(a, b);
    TwoWords(b, c);
    CapsWordIsCleaned(a);
    LongKind(b, c);
    FixedParts(a + " " + b, c, STRICT);
    FixedParts(a, b + " " + c, STRICT);
    FixLines(a, b, c);
  }

  lemma CapsWordIsCleaned(a: string)
    requires CapsWord(a)
    ensures Clean(a) == a != ""
  {
    CapsWordIsClean(a);
  }

  lemma FixLines(a: string, b: string, c: string)
    ensures Join(["JFK"] + (["via " + (a + " " + b)] + [c]), " ") == Join(["JFK"] + (["via " + a] + [b + " " + c]), " ")
    ensures a + " " + b != a
  {
    hide Join;
    var v := "via " + a;
    JoinFuses(["JFK"], v, b, [c]);
    JoinFuses(["JFK"] + [v], b, c, []);
    assert v + " " + b == "via " + (a + " " + b);
    assert ["JFK"] + ([v] + ([b] + [c])) == ["JFK"] + [v] + ([b] + ([c] + []));
    assert ["JFK"] + [v] + ([b + " " + c] + []) == ["JFK"] + ([v] + [b + " " + c]);
    assert |a + " " + b| != |a|;
  }

  lemma LongKind(b: string, c: string)
    requires CapsWord(b) && CapsWord(c) && !IsSignOrDigit(b[0])
    ensures SpacedKind(Kind(b + " " + c, None), STRICT)
  {
    var name := b + " " + c;
    assert name[|b|] == ' ' && name[0] == b[0];
  }

  lemma FixCollides()
    ensures SpacedCollide(
      BARE.(via := Some("CAMRN DEER")), BARE.(via := Some("CAMRN"), kind := "DEER STOP"), STRICT, "JFK via CAMRN DEER STOP")
  {
    hide SpacedCollide, BARE, CapsWord, Fixed, Join;
    FixWords();
    StopIsCaps();
    FixMoves("CAMRN", "DEER", "STOP");
    FixedIs("CAMRN DEER", "CAMRN", "DEER STOP");
    assert "CAMRN" + " " + "DEER" == "CAMRN DEER" && "DEER" + " " + "STOP" == "DEER STOP";
    assert "via " + "CAMRN DEER" == "via CAMRN DEER";
    FixLine("via CAMRN DEER", "STOP");
    assert "JFK" + " " + "via CAMRN DEER" + " " + "STOP" == "JFK via CAMRN DEER STOP";
  }

  lemma FixWords()
    ensures CapsWord("CAMRN") && CapsWord("DEER") && !IsSignOrDigit("DEER"[0])
  {
  }

  lemma FixedIs(fix: string, other: string, kind: string)
    ensures Fixed(fix, "STOP") == BARE.(via := Some(fix)) && Fixed(other, kind) == BARE.(via := Some(other), kind := kind)
  {
  }

  lemma FixLine(fix: string, kind: string)
    ensures Join(["JFK"] + ([fix] + [kind]), " ") == "JFK" + " " + fix + " " + kind
  {
    hide Join;
    JoinMore("JFK", [fix] + [kind]);
    JoinMore(fix, [kind]);
    JoinOne(kind);
    assert "JFK" + " " + (fix + " " + kind) == "JFK" + " " + fix + " " + kind;
  }

  /** A kind can end in what reads as the condition. */
  lemma KindEndMoves(c: string, d: string)
    requires CapsWord(c) && CapsWord(d) && Free(c, ':') && c !in RESERVED
    ensures SpacedCollide(
      Bare(Condition(c, d)), BARE.(kind := "STOP" + " " + (c + ":" + d)), STRICT, "JFK STOP " + (c + ":" + d))
  {
    var token := c + ":" + d;
    hide Collide, Tokens, Lead, Bare, Spaced, Normal, Encoded, Clean, Words;
    TokenIsCaps((c, d));
    LeadOfFree(c);
    OnlyToken(d, Bound("", 0), c, []);
    StopIsKind(STRICT);
    StopIsCaps();
    TwoWords("STOP", token);
    LongKind("STOP", token);
    hide CapsWord, IsSignOrDigit;
    OnlyKind(STRICT);
    BareEnds(Condition(c, d), token);
    BareKind("STOP" + " " + token);
    StopJoins(token);
  }

  lemma StopIsCaps()
    ensures CapsWord("STOP") && !IsSignOrDigit("STOP"[0])
  {
  }

  lemma BareEnds(e: Ending, token: string)
    requires Admissible(e, STRICT) && Tokens(e) == [token]
    ensures Spaced(Bare(e), STRICT) && Encoded(Bare(e)) == "JFK STOP " + token && Normal(Bare(e)).kind == "STOP"
  {
    var k := Kind("STOP", None);
    StopIsKind(STRICT);
    hide Loose, Spaced, Encoded, Join, Tokens, Admissible, AdmissibleKind, With, KindText, EndingOf, KindOf, Normal;
    BareParts(k, e, STRICT);
    LooseIsSpaced(Bare(e), STRICT);
    BareLine("STOP", token);
    KindNames(Bare(e));
    assert "JFK " + "STOP" + " " + token == "JFK STOP " + token;
  }

  lemma KindNames(r: Restriction)
    ensures KindOf(r).name == Normal(r).kind
  {
    hide Normal;
  }

  lemma BareKind(kind: string)
    requires Clean(kind) == kind && SpacedKind(Kind(kind, None), STRICT)
    ensures var s := BARE.(kind := kind);
      Spaced(s, STRICT) && Encoded(s) == Join(["JFK", kind], " ") && Normal(s).kind == kind
  {
    hide Clean, Join, OptClean, KindOf, EndingOf, Encoded, Normal, DirectionPart, Tokens, PlainHead;
    var s := BARE.(via := None, kind := kind);
    assert s == BARE.(kind := kind);
    BareIsPlain();
    NoOpt();
    BareFields(None, kind);
    OnlyKind(STRICT);
    hide BARE;
    KindOnly(s, kind);
  }

  lemma KindOnly(s: Restriction, kind: string)
    requires Spaced(s, STRICT) && DirectionPart(s.direction) == [] && EndingOf(s) == NONE && OptClean(s.via).None?
    requires Clean(s.element) == "JFK" && KindOf(s) == Kind(kind, None)
    ensures Encoded(s) == Join(["JFK", kind], " ")
  {
    OnlyKind(STRICT);
    hide Clean, Join, OptClean, KindOf, EndingOf, Encoded, DirectionPart, Tokens, Spaced;
    ShortLine(s, STRICT);
    assert ["JFK"] + ([] + [kind]) == ["JFK", kind];
  }

  lemma StopJoins(token: string)
    ensures Join(["JFK", "STOP" + " " + token], " ") == "JFK STOP " + token
    ensures "STOP" + " " + token != "STOP"
  {
    hide Join;
    var kind := "STOP" + " " + token;
    JoinMore("JFK", [kind]);
    JoinOne(kind);
    assert ["JFK"] + [kind] == ["JFK", kind];
    assert "JFK" + " " + ("STOP" + " " + token) == "JFK STOP " + token;
    assert |kind| != |"STOP"|;
  }

  lemma KindEndCollides()
    ensures SpacedCollide(
      BARE.(condition := Some("A"), conditionDetail := Some("B")), BARE.(kind := "STOP A:B"), STRICT, "JFK STOP A:B")
  {
    hide SpacedCollide, BARE, CapsWord, Bare, Free;
    Literals();
    NotReservedName("A");
    KindEndMoves("A", "B");
    BareWith("B", Bound("", 0), "A", []);
    assert "STOP" + " " + ("A" + ":" + "B") == "STOP A:B" && "JFK STOP " + ("A" + ":" + "B") == "JFK STOP A:B";
  }
}
