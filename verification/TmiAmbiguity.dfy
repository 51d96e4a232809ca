/** Exactly when a line of the NTML grammar's prefixed half has another reading, hypothesis by hypothesis. */
module TmiAmbiguity {
  import opened Wrappers
  import opened Text
  import opened Decimals
  import opened Tmi
  import opened TmiTheorems
  import opened TmiGrammar
  import opened TmiReadings

  // ---- The guard -------------------------------------------------------------------------------

  /** What comes after the first colon. */
  function Rest(s: string): string {
    var n := RunLength(s, ':');
    if n == |s| then "" else s[n + 1..]
  }

  /** The condition's token, up to its first colon, names a field whose place is free, and reads on as that
      field. */
  predicate NameReads(e: Ending, g: Grammar)
    requires e.condition.Some?
  {
    var token := ConditionToken(e.condition.value);
    var (name, rest) := (Lead(token), Rest(token));
    || (name == "TYPE" && e.aircraft.None? && e.speed.None? && e.altitude.None?)
    || (name == "SPD" && e.speed.None? && e.altitude.None? && ReadsAsBound(rest, 0, g.signs))
    || (name == "ALT" && e.altitude.None? && ReadsAsBound(rest, 3, g.signs))
    || (name == "EXCL" && e.exclude == [] && ReadsAsList(rest, g.commas))
  }

  /** Without a condition: the last of the fields before its place reads as one, or the list after it. */
  predicate PrefixReads(e: Ending) {
    || e.exclude != []
    || e.altitude.Some?
    || (e.speed.Some? && Caps(e.speed.value.op))
    || (e.aircraft.Some? && e.speed.None?)
  }

  predicate Ambiguous(e: Ending, g: Grammar) {
    || (g.signs && e.speed.Some? && SpeedReadsAgain(e.speed.value))
    || (g.signs && e.altitude.Some? && AltitudeReadsAgain(e.altitude.value))
    || (g.colons && e.condition.Some? && ColonInside(e.condition.value))
    || (g.commas && CommaInside(e.exclude))
    || (g.names && if e.condition.Some? then NameReads(e, g) else PrefixReads(e))
  }

  /** The whole guard: the kind reads again, or what follows it does. */
  predicate ReadsTwice(r: Restriction, g: Grammar) {
    (g.kinds && KindReadsAgain(KindOf(r))) || Ambiguous(EndingOf(r), g)
  }

  // ---- Another reading from the guard ----------------------------------------------------------

  lemma TokenParts(c: (string, string))
    requires CapsWord(c.0) && CapsWord(c.1)
    ensures ConditionToken(c) == Lead(ConditionToken(c)) + ":" + Rest(ConditionToken(c))
    ensures CapsWord(Rest(ConditionToken(c)))
  {
    var token := ConditionToken(c);
    LeadOfToken(c);
    TokenIsCaps(c);
    var n := |Lead(token)|;
    assert n <= |c.0| && Lead(token) == token[..n] && RunLength(token, ':') == n;
    hide CapsWord;
    CapsEnd(token, n + 1);
    assert token == token[..n] + ":" + token[n + 1..];
  }

  lemma TokenNamed(c: (string, string), name: string, v: string)
    requires ConditionToken(c) == name + ":" + v && Free(name, ':')
    ensures Lead(ConditionToken(c)) == name && Rest(ConditionToken(c)) == v && Lead(c.0) == name
  {
    LeadOfToken(c);
    var token := name + ":" + v;
    assert token == name + (":" + v);
    RunThen(name, ":" + v, ':');
    assert token[..|name|] == name && token[|name| + 1..] == v;
  }

  lemma Reserved(name: string)
    requires name in {"TYPE", "SPD", "ALT", "EXCL"}
    ensures CapsWord(name) && Free(name, ':') && name in RESERVED && Lead(name) == name
  {
    PrefixesAre();
    assert RESERVED[3] == "EXCL";
    assert CapsWord("TYPE") && CapsWord("SPD") && CapsWord("ALT") && CapsWord("EXCL") by { NamesAreCaps(); }
    assert Free("EXCL", ':');
    hide CapsWord, Lead, Free;
    LeadOfFree(name);
  }

  lemma NamesAreCaps()
    ensures CapsWord("TYPE") && CapsWord("SPD") && CapsWord("ALT") && CapsWord("EXCL")
  {
  }

  lemma NamedCondition(name: string, v: string, g: Grammar) returns (c: (string, string))
    requires name in {"TYPE", "SPD", "ALT", "EXCL"} && CapsWord(v) && g.names
    ensures c == (name, v) && AdmissibleCondition(c, g)
  {
    c := (name, v);
    Reserved(name);
  }

  /** A condition that a prefix names is that field instead. */
  lemma NameReadAgain(e: Ending, g: Grammar) returns (f: Ending)
    requires Admissible(e, g) && e.condition.Some? && NameReads(e, g)
    ensures Admissible(f, g) && Tokens(f) == Tokens(e) && f != e
  {
    hide CapsWord, IsWord, Lead, Rest, ReadsAsBound, ReadsAsList, Signed, AdmissibleOp, ConditionToken, AdmissibleList;
    var c := e.condition.value;
    var token := ConditionToken(c);
    var (name, rest) := (Lead(token), Rest(token));
    TokenParts(c);
    if name == "TYPE" && e.aircraft.None? && e.speed.None? && e.altitude.None? {
      f := e.(aircraft := Some(rest), condition := None);
      MovesToType(e, rest);
    } else if name == "SPD" && e.speed.None? && e.altitude.None? && ReadsAsBound(rest, 0, g.signs) {
      WordHasNoSpaces(rest);
      var b := BoundRead(rest, 0, g);
      f := e.(speed := Some(b), condition := None);
      MovesToSpeed(e, b);
    } else if name == "ALT" && e.altitude.None? && ReadsAsBound(rest, 3, g.signs) {
      WordHasNoSpaces(rest);
      var b := BoundRead(rest, 3, g);
      CapsPrefix(b.op, rest);
      f := e.(altitude := Some(b), condition := None);
      MovesToAltitude(e, b);
    } else {
      var excluded := ListRead(rest, g);
      f := e.(exclude := excluded, condition := None);
      MovesToExclude(e, excluded);
    }
  }

  lemma WordHasNoSpaces(w: string)
    requires CapsWord(w)
    ensures NoSpaces(w) && Caps(w)
  {
  }

  lemma CapsPrefix(a: string, s: string)
    requires a <= s && Caps(s)
    ensures Caps(a)
  {
  }

  /** A field in the last place before the condition's prints like a condition in that place. */
  lemma MovesToType(e: Ending, v: string)
    requires e.aircraft.None? && e.speed.None? && e.altitude.None?
    requires e.condition.Some? && ConditionToken(e.condition.value) == "TYPE" + ":" + v
    ensures Tokens(e.(aircraft := Some(v), condition := None)) == Tokens(e)
  {
    hide ExcludePart, ConditionToken;
    assert "TYPE" + ":" + v == "TYPE:" + v;
  }

  lemma MovesToSpeed(e: Ending, b: Bound)
    requires e.speed.None? && e.altitude.None?
    requires e.condition.Some? && ConditionToken(e.condition.value) == "SPD" + ":" + TextOf(b, 0)
    ensures Tokens(e.(speed := Some(b), condition := None)) == Tokens(e)
  {
    hide ExcludePart, ConditionToken, Signed;
    assert "SPD" + ":" + TextOf(b, 0) == "SPD:" + TextOf(b, 0);
  }

  lemma MovesToAltitude(e: Ending, b: Bound)
    requires e.altitude.None?
    requires e.condition.Some? && ConditionToken(e.condition.value) == "ALT" + ":" + TextOf(b, 3)
    ensures Tokens(e.(altitude := Some(b), condition := None)) == Tokens(e)
  {
    hide ExcludePart, ConditionToken, Signed;
    assert "ALT" + ":" + TextOf(b, 3) == "ALT:" + TextOf(b, 3);
  }

  lemma MovesToExclude(e: Ending, excluded: seq<string>)
    requires e.exclude == [] && excluded != []
    requires e.condition.Some? && ConditionToken(e.condition.value) == "EXCL" + ":" + Join(excluded, ",")
    ensures Tokens(e.(exclude := excluded, condition := None)) == Tokens(e)
  {
    hide ConditionToken, Signed, Join;
    assert "EXCL" + ":" + Join(excluded, ",") == "EXCL:" + Join(excluded, ",");
  }

  lemma TextIsCaps(b: Bound, width: nat)
    requires NoSpaces(b.op) && Caps(b.op)
    ensures CapsWord(TextOf(b, width))
  {
    SignedIsCaps(b.value, width);
    hide Signed;
    CapsConcat(b.op, Signed(b.value, width));
  }

  /** And a field that is not a condition is one with its prefix for a name. */
  lemma PrefixReadAgain(e: Ending, g: Grammar) returns (f: Ending)
    requires Admissible(e, g) && e.condition.None? && PrefixReads(e) && g.names
    ensures Admissible(f, g) && Tokens(f) == Tokens(e) && f != e
  {
    hide CapsWord, IsWord, Signed, NoSpaces, PlainOp, Caps, AdmissibleCondition, Join;
    var c;
    if e.exclude != [] {
      ExcludeIsCaps(e.exclude, g);
      c := NamedCondition("EXCL", Join(e.exclude, ","), g);
      f := e.(exclude := [], condition := Some(c));
      MovesToExclude(f, e.exclude);
      assert f.(exclude := e.exclude, condition := None) == e;
    } else if e.altitude.Some? {
      TextIsCaps(e.altitude.value, 3);
      c := NamedCondition("ALT", TextOf(e.altitude.value, 3), g);
      f := e.(altitude := None, condition := Some(c));
      MovesToAltitude(f, e.altitude.value);
      assert f.(altitude := e.altitude, condition := None) == e;
    } else if e.speed.Some? {
      TextIsCaps(e.speed.value, 0);
      c := NamedCondition("SPD", TextOf(e.speed.value, 0), g);
      f := e.(speed := None, condition := Some(c));
      MovesToSpeed(f, e.speed.value);
      assert f.(speed := e.speed, condition := None) == e;
    } else {
      c := NamedCondition("TYPE", e.aircraft.value, g);
      f := e.(aircraft := None, condition := Some(c));
      MovesToType(f, e.aircraft.value);
      assert f.(aircraft := e.aircraft, condition := None) == e;
    }
  }

  lemma ExcludeIsCaps(exclude: seq<string>, g: Grammar)
    requires exclude != [] && AdmissibleList(exclude, g)
    ensures CapsWord(Join(exclude, ","))
  {
    hide Join, Caps, NoSpaces;
    JoinIsCaps(exclude);
  }

  lemma SpeedReadAgain(e: Ending, g: Grammar) returns (f: Ending)
    requires Admissible(e, g) && g.signs && e.speed.Some? && SpeedReadsAgain(e.speed.value)
    ensures Admissible(f, g) && Tokens(f) == Tokens(e) && f != e
  {
    hide CapsWord, Signed, PlainOp, AdmissibleCondition, AdmissibleList, SpeedReadsAgain, ReadsFrom, AfterSpeed;
    var b := e.speed.value;
    SpeedReadsAgainIff(b);
    var k: nat :| ReadsFrom(b, 0, k);
    var c := BoundFrom(b, 0, k);
    BoundIsNoSpaces(b.op, b.value, 0);
    f := e.(speed := Some(c));
    SameAfterSpeed(e, f);
  }

  lemma SameAfterSpeed(e: Ending, f: Ending)
    requires e == f.(speed := e.speed)
    ensures AfterSpeed(e) == AfterSpeed(f)
  {
  }

  lemma AltitudeReadAgain(e: Ending, g: Grammar) returns (f: Ending)
    requires Admissible(e, g) && g.signs && e.altitude.Some? && AltitudeReadsAgain(e.altitude.value)
    ensures Admissible(f, g) && Tokens(f) == Tokens(e) && f != e
  {
    hide CapsWord, Signed, PlainOp, AdmissibleCondition, AdmissibleList, AltitudeReadsAgain, ReadsFrom, ConditionTokens;
    var b := e.altitude.value;
    AltitudeReadsAgainIff(b);
    var k: nat :| ReadsFrom(b, 3, k);
    var c := BoundFrom(b, 3, k);
    TextIsCaps(b, 3);
    WordHasNoSpaces(TextOf(b, 3));
    CapsPrefix(c.op, TextOf(b, 3));
    f := e.(altitude := Some(c));
  }

  lemma ReadAgain(e: Ending, g: Grammar) returns (f: Ending)
    requires Admissible(e, g) && Ambiguous(e, g)
    ensures Admissible(f, g) && Tokens(f) == Tokens(e) && f != e
  {
    hide SpeedReadsAgain, AltitudeReadsAgain, ColonInside, CommaInside, NameReads, PrefixReads, AdmissibleCondition,
      AdmissibleList, AdmissibleOp, CapsWord, Caps, Join, Part, BoundText, ConditionToken;
    if g.signs && e.speed.Some? && SpeedReadsAgain(e.speed.value) {
      f := SpeedReadAgain(e, g);
    } else if g.signs && e.altitude.Some? && AltitudeReadsAgain(e.altitude.value) {
      f := AltitudeReadAgain(e, g);
    } else if g.colons && e.condition.Some? && ColonInside(e.condition.value) {
      var d := ConditionAgain(e.condition.value, g);
      f := e.(condition := Some(d));
    } else if g.commas && CommaInside(e.exclude) {
      var excluded := ListAgain(e.exclude, g);
      assert e.exclude != [] by { SomeComma(e.exclude); }
      f := e.(exclude := excluded);
    } else if e.condition.Some? {
      f := NameReadAgain(e, g);
    } else {
      f := PrefixReadAgain(e, g);
    }
  }

  lemma SomeComma(exclude: seq<string>)
    requires CommaInside(exclude)
    ensures exclude != []
  {
  }

  // ---- The guard from another reading ----------------------------------------------------------

  /** Two optional fields in front of equal tokens: the same, or one is there alone. */
  lemma Compare(v: Option<string>, w: Option<string>, prefix: string, a: seq<string>, b: seq<string>)
    requires Part(v, prefix) + a == Part(w, prefix) + b
    ensures v.Some? && w.Some? ==> v == w && a == b
    ensures v.None? && w.None? ==> a == b
    ensures v.Some? && w.None? ==> b == [prefix + v.value] + a
    ensures v.None? && w.Some? ==> a == [prefix + w.value] + b
  {
    var (s, t) := (Part(v, prefix) + a, Part(w, prefix) + b);
    if v.Some? && w.Some? {
      assert s[0] == t[0] && s[1..] == t[1..];
      assert a == s[1..] && b == t[1..];
      assert s[0][|prefix|..] == v.value && t[0][|prefix|..] == w.value;
    } else {
      assert v.None? ==> s == a;
      assert w.None? ==> t == b;
    }
  }

  /** Tokens that start with a condition of the given prefix, all other places before it being free. */
  ghost predicate StartsAt(c: Option<(string, string)>, token: string, a: seq<string>, exclude: seq<string>) {
    c.Some? && ConditionToken(c.value) == token && a == ExcludePart(exclude)
  }

  lemma FirstIs(token: string, a: seq<string>, first: seq<string>, more: seq<string>)
    requires [token] + a == first + more
    ensures first == [] ==> more == [token] + a
    ensures |first| == 1 ==> first[0] == token && a == more
  {
    if first == [] {
      assert first + more == more;
    } else {
      assert ([token] + a)[0] == token && ([token] + a)[1..] == a;
      assert |first| == 1 ==> (first + more)[1..] == more;
    }
  }

  lemma ListStarts(exclude: seq<string>, token: string, a: seq<string>)
    ensures ExcludePart(exclude) == [token] + a ==> token != "" && token[0] == 'E'
  {
    hide Join;
    if ExcludePart(exclude) == [token] + a {
      assert ExcludePart(exclude)[0] == token;
    }
  }

  /** Where the altitude or a later place should be, a token that no altitude nor list starts is a condition. */
  lemma StartOfAltitude(f: Ending, token: string, a: seq<string>)
    requires AfterAltitude(f) == [token] + a && token != "" && token[0] != 'E'
    ensures StartsAt(f.condition, token, a, f.exclude)
  {
    hide Join, ConditionToken;
    FirstIs(token, a, ConditionTokens(f.condition), ExcludePart(f.exclude));
    ListStarts(f.exclude, token, a);
  }

  lemma StartOfSpeed(f: Ending, token: string, a: seq<string>)
    requires AfterSpeed(f) == [token] + a && token != "" && token[0] !in {'A', 'E'}
    ensures f.altitude.None? && StartsAt(f.condition, token, a, f.exclude)
  {
    hide AfterAltitude, Signed, StartsAt;
    FirstIs(token, a, Part(BoundText(f.altitude, 3), "ALT:"), AfterAltitude(f));
    StartOfAltitudeIf(f, token, a);
  }

  lemma StartOfAltitudeIf(f: Ending, token: string, a: seq<string>)
    requires token != "" && token[0] != 'E'
    ensures AfterAltitude(f) == [token] + a ==> StartsAt(f.condition, token, a, f.exclude)
  {
    if AfterAltitude(f) == [token] + a {
      StartOfAltitude(f, token, a);
    }
  }

  lemma StartOfType(f: Ending, token: string, a: seq<string>)
    requires AfterType(f) == [token] + a && token != "" && token[0] !in {'S', 'A', 'E'}
    ensures f.speed.None? && f.altitude.None? && StartsAt(f.condition, token, a, f.exclude)
  {
    hide AfterSpeed, Signed, StartsAt;
    FirstIs(token, a, Part(BoundText(f.speed, 0), "SPD:"), AfterSpeed(f));
    if f.speed.None? {
      StartOfSpeed(f, token, a);
    }
  }

  /** A condition that prints like a prefixed field is named by its prefix. */
  lemma NamedBy(c: (string, string), name: string, v: string, g: Grammar)
    requires name in {"TYPE", "SPD", "ALT", "EXCL"} && AdmissibleCondition(c, g) && ConditionToken(c) == name + ":" + v
    ensures g.names && Lead(ConditionToken(c)) == name && Rest(ConditionToken(c)) == v && CapsWord(v)
  {
    hide CapsWord, Lead, Rest, Free, ConditionToken;
    Reserved(name);
    TokenNamed(c, name, v);
    TokenParts(c);
  }

  /** With the list of another reading in its place, all that is left before it may be a condition for it. */
  lemma ListLeft(e: Ending, f: Ending, g: Grammar)
    requires Admissible(e, g) && Admissible(f, g) && AfterAltitude(e) == ExcludePart(f.exclude) && g.names
    ensures e.condition.Some? ==> Ambiguous(e, g)
  {
    if e.condition.Some? {
      hide Join, ConditionToken, Ambiguous, AdmissibleCondition;
      var token := ConditionToken(e.condition.value);
      assert AfterAltitude(e)[0] == token && f.exclude != [] && e.exclude == [];
      ListNamed(e, f.exclude, g);
    }
  }

  lemma ListNamed(e: Ending, exclude: seq<string>, g: Grammar)
    requires e.condition.Some? && AdmissibleCondition(e.condition.value, g) && e.exclude == []
    requires exclude != [] && AdmissibleList(exclude, g)
    requires ConditionToken(e.condition.value) == "EXCL:" + Join(exclude, ",")
    ensures Ambiguous(e, g)
  {
    hide Join, ConditionToken, Lead, Rest, ReadsAsList, AdmissibleCondition, AdmissibleList, CapsWord;
    assert "EXCL:" + Join(exclude, ",") == "EXCL" + ":" + Join(exclude, ",");
    NamedBy(e.condition.value, "EXCL", Join(exclude, ","), g);
    ListReads(exclude, g);
  }

  /** Where only the list is left, no other prefix is. */
  lemma OnlyListLeft(v: Option<string>, prefix: string, more: seq<string>, exclude: seq<string>)
    requires Part(v, prefix) + more == ExcludePart(exclude) && prefix != "" && prefix[0] != 'E'
    ensures v.None? && more == ExcludePart(exclude)
  {
    hide ExcludePart;
    if v.Some? {
      ListStarts(exclude, prefix + v.value, more);
    } else {
      assert [] + more == more;
    }
  }

  lemma OneAircraft(e: Ending, f: Ending, g: Grammar)
    requires Admissible(e, g) && Admissible(f, g) && Tokens(e) == Tokens(f)
    ensures (e.aircraft == f.aircraft && AfterType(e) == AfterType(f)) || Ambiguous(e, g)
  {
    hide AfterAltitude, Ambiguous, AdmissibleOp, AdmissibleList, AdmissibleCondition, CapsWord, Caps, Lead, Signed,
      Rest, ConditionToken, ExcludePart;
    Compare(e.aircraft, f.aircraft, "TYPE:", AfterType(e), AfterType(f));
    if e.aircraft.Some? && f.aircraft.None? {
      StartOfType(f, "TYPE:" + e.aircraft.value, AfterType(e));
      assert "TYPE:" + e.aircraft.value == "TYPE" + ":" + e.aircraft.value;
      NamedBy(f.condition.value, "TYPE", e.aircraft.value, g);
      OnlyListLeft(BoundText(e.speed, 0), "SPD:", AfterSpeed(e), f.exclude);
      OnlyListLeft(BoundText(e.altitude, 3), "ALT:", AfterAltitude(e), f.exclude);
      ListLeft(e, f, g);
      PrefixIsAmbiguous(e, g);
    } else if e.aircraft.None? && f.aircraft.Some? {
      StartOfType(e, "TYPE:" + f.aircraft.value, AfterType(f));
      assert "TYPE:" + f.aircraft.value == "TYPE" + ":" + f.aircraft.value;
      NamedBy(e.condition.value, "TYPE", f.aircraft.value, g);
      NameIsAmbiguous(e, g);
    }
  }

  lemma PrefixIsAmbiguous(e: Ending, g: Grammar)
    ensures g.names && e.condition.None? && PrefixReads(e) ==> Ambiguous(e, g)
  {
  }

  lemma NameIsAmbiguous(e: Ending, g: Grammar)
    ensures g.names && e.condition.Some? && NameReads(e, g) ==> Ambiguous(e, g)
  {
  }

  lemma OneSpeed(e: Ending, f: Ending, g: Grammar)
    requires Admissible(e, g) && Admissible(f, g) && AfterType(e) == AfterType(f)
    ensures (e.speed == f.speed && AfterSpeed(e) == AfterSpeed(f)) || Ambiguous(e, g)
  {
    hide AfterAltitude, Ambiguous, AdmissibleOp, AdmissibleList, AdmissibleCondition, CapsWord, Caps, Lead, Signed,
      Rest, ConditionToken, ExcludePart, ReadsAsBound;
    Compare(BoundText(e.speed, 0), BoundText(f.speed, 0), "SPD:", AfterSpeed(e), AfterSpeed(f));
    if e.speed.Some? && f.speed.None? {
      var v := TextOf(e.speed.value, 0);
      StartOfSpeed(f, "SPD:" + v, AfterSpeed(e));
      assert "SPD:" + v == "SPD" + ":" + v;
      NamedBy(f.condition.value, "SPD", v, g);
      OnlyListLeft(BoundText(e.altitude, 3), "ALT:", AfterAltitude(e), f.exclude);
      ListLeft(e, f, g);
      WordHasNoSpaces(v);
      CapsPrefix(e.speed.value.op, v);
      PrefixIsAmbiguous(e, g);
    } else if e.speed.None? && f.speed.Some? {
      var v := TextOf(f.speed.value, 0);
      StartOfSpeed(e, "SPD:" + v, AfterSpeed(f));
      assert "SPD:" + v == "SPD" + ":" + v;
      NamedBy(e.condition.value, "SPD", v, g);
      BoundReads(f.speed.value, 0, g);
      NameIsAmbiguous(e, g);
    } else if e.speed != f.speed {
      SpeedDiffers(e, f, g);
    }
  }

  lemma SameBound(b: Bound, c: Bound, width: nat, g: Grammar)
    requires AdmissibleOp(b.op, g) && AdmissibleOp(c.op, g) && TextOf(b, width) == TextOf(c, width) && !g.signs
    ensures b == c
  {
    hide PlainOp, NoSpaces, Signed, ParseBound;
    BoundReadsBack(b.op, b.value, width);
    BoundReadsBack(c.op, c.value, width);
  }

  lemma SpeedDiffers(e: Ending, f: Ending, g: Grammar)
    requires Admissible(e, g) && Admissible(f, g) && e.speed.Some? && f.speed.Some? && e.speed != f.speed
    requires TextOf(e.speed.value, 0) == TextOf(f.speed.value, 0)
    ensures Ambiguous(e, g)
  {
    hide AdmissibleOp, AdmissibleList, AdmissibleCondition, CapsWord, TextOf, ReadsFrom, SpeedReadsAgain, I32;
    if !g.signs {
      SameBound(e.speed.value, f.speed.value, 0, g);
      assert false;
    }
    OtherBound(e.speed.value, f.speed.value, 0);
    SpeedReadsAgainIff(e.speed.value);
  }

  lemma AltitudeDiffers(e: Ending, f: Ending, g: Grammar)
    requires Admissible(e, g) && Admissible(f, g) && e.altitude.Some? && f.altitude.Some? && e.altitude != f.altitude
    requires TextOf(e.altitude.value, 3) == TextOf(f.altitude.value, 3)
    ensures Ambiguous(e, g)
  {
    hide AdmissibleOp, AdmissibleList, AdmissibleCondition, CapsWord, TextOf, ReadsFrom, AltitudeReadsAgain, I32;
    if !g.signs {
      SameBound(e.altitude.value, f.altitude.value, 3, g);
      assert false;
    }
    OtherBound(e.altitude.value, f.altitude.value, 3);
    AltitudeReadsAgainIff(e.altitude.value);
  }

  lemma OneAltitude(e: Ending, f: Ending, g: Grammar)
    requires Admissible(e, g) && Admissible(f, g) && AfterSpeed(e) == AfterSpeed(f)
    ensures (e.altitude == f.altitude && AfterAltitude(e) == AfterAltitude(f)) || Ambiguous(e, g)
  {
    hide AfterAltitude, Ambiguous, AdmissibleOp, AdmissibleList, AdmissibleCondition, CapsWord, Caps, Lead, Signed,
      Rest, ConditionToken, ExcludePart, ReadsAsBound;
    Compare(BoundText(e.altitude, 3), BoundText(f.altitude, 3), "ALT:", AfterAltitude(e), AfterAltitude(f));
    if e.altitude.Some? && f.altitude.None? {
      var v := TextOf(e.altitude.value, 3);
      StartOfAltitude(f, "ALT:" + v, AfterAltitude(e));
      assert "ALT:" + v == "ALT" + ":" + v;
      NamedBy(f.condition.value, "ALT", v, g);
      ListLeft(e, f, g);
      PrefixIsAmbiguous(e, g);
    } else if e.altitude.None? && f.altitude.Some? {
      var v := TextOf(f.altitude.value, 3);
      StartOfAltitude(e, "ALT:" + v, AfterAltitude(f));
      assert "ALT:" + v == "ALT" + ":" + v;
      NamedBy(e.condition.value, "ALT", v, g);
      BoundReads(f.altitude.value, 3, g);
      NameIsAmbiguous(e, g);
    } else if e.altitude != f.altitude {
      AltitudeDiffers(e, f, g);
    }
  }

  lemma OneCondition(e: Ending, f: Ending, g: Grammar)
    requires Admissible(e, g) && Admissible(f, g) && AfterAltitude(e) == AfterAltitude(f)
    ensures (e.condition == f.condition && e.exclude == f.exclude) || Ambiguous(e, g)
  {
    hide AdmissibleOp, AdmissibleCondition, CapsWord, Caps, Lead, Signed, Rest, ConditionToken, Ambiguous, Join,
      AdmissibleList;
    if e.condition.Some? && f.condition.Some? {
      TwoConditions(e, f, g);
    } else if e.condition.Some? {
      OnlyFirst(e, f, g);
    } else if f.condition.Some? {
      OnlySecond(e, f, g);
    } else {
      var (a, b) := (ExcludePart(e.exclude), ExcludePart(f.exclude));
      assert [] + a == a && [] + b == b;
      OneExclude(e, f, g);
    }
  }

  lemma TwoConditions(e: Ending, f: Ending, g: Grammar)
    requires Admissible(e, g) && Admissible(f, g) && AfterAltitude(e) == AfterAltitude(f)
    requires e.condition.Some? && f.condition.Some?
    ensures (e.condition == f.condition && e.exclude == f.exclude) || Ambiguous(e, g)
  {
    hide AdmissibleOp, AdmissibleCondition, CapsWord, Caps, Lead, Signed, Rest, ConditionToken, Ambiguous, Join,
      AdmissibleList;
    var (a, b) := (ExcludePart(e.exclude), ExcludePart(f.exclude));
    var (c, d) := (e.condition.value, f.condition.value);
    FirstIs(ConditionToken(c), a, [ConditionToken(d)], b);
    if c != d {
      OtherCondition(c, d, g);
      ColonIsAmbiguous(e, g);
    }
    OneExclude(e, f, g);
  }

  lemma OnlyFirst(e: Ending, f: Ending, g: Grammar)
    requires Admissible(e, g) && Admissible(f, g) && AfterAltitude(e) == AfterAltitude(f)
    requires e.condition.Some? && f.condition.None?
    ensures Ambiguous(e, g)
  {
    hide AdmissibleOp, AdmissibleCondition, CapsWord, Caps, Lead, Signed, Rest, ConditionToken, Ambiguous, Join,
      AdmissibleList;
    var b := ExcludePart(f.exclude);
    assert [] + b == b;
    assert e.exclude == [] && f.exclude != [] && b[0] == ConditionToken(e.condition.value);
    ListNamed(e, f.exclude, g);
  }

  lemma OnlySecond(e: Ending, f: Ending, g: Grammar)
    requires Admissible(e, g) && Admissible(f, g) && AfterAltitude(e) == AfterAltitude(f)
    requires e.condition.None? && f.condition.Some?
    ensures Ambiguous(e, g)
  {
    hide AdmissibleOp, AdmissibleCondition, CapsWord, Caps, Lead, Signed, Rest, ConditionToken, Ambiguous, Join,
      AdmissibleList;
    var a := ExcludePart(e.exclude);
    assert [] + a == a;
    assert f.exclude == [] && e.exclude != [] && a[0] == ConditionToken(f.condition.value);
    var v := Join(e.exclude, ",");
    assert "EXCL:" + v == "EXCL" + ":" + v;
    NamedBy(f.condition.value, "EXCL", v, g);
    PrefixIsAmbiguous(e, g);
  }

  lemma ColonIsAmbiguous(e: Ending, g: Grammar)
    ensures g.colons && e.condition.Some? && ColonInside(e.condition.value) ==> Ambiguous(e, g)
  {
  }

  lemma OneExclude(e: Ending, f: Ending, g: Grammar)
    requires AdmissibleList(e.exclude, g) && AdmissibleList(f.exclude, g) && ExcludePart(e.exclude) == ExcludePart(f.exclude)
    ensures e.exclude == f.exclude || Ambiguous(e, g)
  {
    hide AdmissibleList, Join;
    var (a, b) := (ExcludePart(e.exclude), ExcludePart(f.exclude));
    if e.exclude != [] && f.exclude != [] {
      assert a[0][5..] == Join(e.exclude, ",") && b[0][5..] == Join(f.exclude, ",");
      if e.exclude != f.exclude {
        OtherList(e.exclude, f.exclude, g);
      }
    }
  }

  lemma OtherEnding(e: Ending, f: Ending, g: Grammar)
    requires Admissible(e, g) && Admissible(f, g) && Tokens(e) == Tokens(f) && e != f
    ensures Ambiguous(e, g)
  {
    hide *;
    if !Ambiguous(e, g) {
      OneAircraft(e, f, g);
      OneSpeed(e, f, g);
      OneAltitude(e, f, g);
      OneCondition(e, f, g);
      assert false;
    }
  }

  // ---- The theorem -----------------------------------------------------------------------------

  /** The same line stands for something else as well. */
  ghost predicate AlsoReads(r: Restriction, s: Restriction, g: Grammar) {
    Loose(s, g) && Encoded(s) == Encoded(r) && Normal(s) != Normal(r)
  }

  /** Whichever of the five hypotheses are dropped, a restriction's line has another reading under the others
      exactly when the guard holds. */
  lemma AnotherReadingIff(r: Restriction, g: Grammar)
    requires Loose(r, g)
    ensures (exists s :: AlsoReads(r, s, g)) <==> ReadsTwice(r, g)
  {
    hide Ambiguous, Encoded, Normal, Admissible, AdmissibleKind, KindOf, EndingOf, KindText, PlainHead, Tokens, With,
      OptClean,
      KindReadsAgain;
    var (k, e) := (KindOf(r), EndingOf(r));
    assert AdmissibleKind(k, g) && Admissible(e, g) && PlainHead(r);
    if ReadsTwice(r, g) {
      var (l, f) := (k, e);
      if g.kinds && KindReadsAgain(k) {
        l := KindAgain(k, g);
      } else {
        f := ReadAgain(e, g);
      }
      ReadingOfWith(r, l, f, g);
      EqualReadings(r, l, f, g);
      assert AlsoReads(r, With(r, l, f), g);
    }
    forall s | AlsoReads(r, s, g) ensures ReadsTwice(r, g) {
      EqualLines(r, s, g);
      if KindOf(s) != k {
        OtherKind(k, KindOf(s), g);
      } else {
        OtherEnding(e, EndingOf(s), g);
      }
    }
  }

  /** With no hypothesis dropped the guard is false. */
  lemma StrictIsUnambiguous(r: Restriction)
    ensures !ReadsTwice(r, STRICT)
  {
    hide EndingOf, KindOf;
  }

  // ---- Each hypothesis is needed ---------------------------------------------------------------

  const BARE := Restriction("JFK", "", None, "STOP", None, None, None, None, None, None, None, None, [])

  const NONE := Ending(None, None, None, None, [])

  const ANY_NAME := STRICT.(names := true)

  const ANY_SIGN := STRICT.(signs := true)

  /** Two restrictions of one grammar that print as the given line and differ. */
  ghost predicate Collide(r: Restriction, s: Restriction, g: Grammar, line: string) {
    Loose(r, g) && AlsoReads(r, s, g) && Encoded(r) == line
  }

  lemma BareIsPlain()
    ensures PlainHead(BARE) && Clean("JFK") == "JFK" && Clean("STOP") == "STOP"
    ensures DirectionPart("") == []
  {
    CapsWordIsClean("JFK");
    CapsWordIsClean("STOP");
    NoWords();
    NoOpt();
    hide Clean, OptClean, Words;
  }

  /** The bare restriction with an ending. */
  function Bare(e: Ending): Restriction {
    With(BARE, Kind("STOP", None), e)
  }

  lemma BareParts(k: Kind, e: Ending, g: Grammar)
    requires AdmissibleKind(k, g) && Admissible(e, g)
    ensures Loose(With(BARE, k, e), g) && KindOf(With(BARE, k, e)) == k && EndingOf(With(BARE, k, e)) == e
    ensures Encoded(With(BARE, k, e)) == Join(["JFK"] + ([KindText(k)] + Tokens(e)), " ")
  {
    hide Tokens, EndingOf, KindOf, Clean, Join, Tail, OptClean, Lower, DirectionPart, PlainHead, AdmissibleKind,
      Admissible,
      KindToken, KindPart, KindText;
    var r := With(BARE, k, e);
    BareIsPlain();
    ReadingOfWith(BARE, k, e, g);
    NoOpt();
    TailIsTokens(r);
    LooseKind(r, g);
    KindIsToken(r);
    KindIsText(r);
    assert Parts(r) == ["JFK"] + ([] + ([] + ([KindText(k)] + ([] + Tokens(e)))));
    assert Parts(r) == ["JFK"] + ([KindText(k)] + Tokens(e));
  }

  lemma BareLine(name: string, token: string)
    ensures Join(["JFK"] + ([name] + [token]), " ") == "JFK " + name + " " + token
    ensures Join(["JFK"] + ([name] + []), " ") == "JFK " + name
  {
    hide Join;
    JoinMore("JFK", [name] + [token]);
    JoinMore(name, [token]);
    JoinOne(token);
    assert "JFK" + " " + (name + " " + token) == "JFK " + name + " " + token;
    assert [name] + [] == [name];
    JoinMore("JFK", [name]);
    JoinOne(name);
    assert "JFK" + " " + name == "JFK " + name;
  }

  lemma StopIsKind(g: Grammar)
    ensures AdmissibleKind(Kind("STOP", None), g) && KindText(Kind("STOP", None)) == "STOP"
  {
  }

  lemma BareCollide(e: Ending, f: Ending, g: Grammar, token: string)
    requires Admissible(e, g) && Admissible(f, g) && Tokens(e) == [token] == Tokens(f) && e != f
    ensures Collide(Bare(e), Bare(f), g, "JFK STOP " + token)
  {
    hide Tokens, EndingOf, KindOf, Clean, Join, OptClean, PlainHead, Encoded, Admissible, AdmissibleKind, With,
      Normal, KindText,
      Loose;
    var k := Kind("STOP", None);
    StopIsKind(g);
    BareParts(k, e, g);
    BareParts(k, f, g);
    BareLine("STOP", token);
    EqualReadings(With(BARE, k, e), k, f, g);
    WithTwice(BARE, k, e, k, f);
    assert "JFK " + "STOP" + " " + token == "JFK STOP " + token;
  }

  lemma WithTwice(r: Restriction, k: Kind, e: Ending, l: Kind, f: Ending)
    ensures With(With(r, k, e), l, f) == With(r, l, f)
  {
  }

  function Aircraft(v: string): Ending {
    NONE.(aircraft := Some(v))
  }

  function Speed(b: Bound): Ending {
    NONE.(speed := Some(b))
  }

  function Altitude(b: Bound): Ending {
    NONE.(altitude := Some(b))
  }

  function Condition(c: string, d: string): Ending {
    NONE.(condition := Some((c, d)))
  }

  function Exclude(exclude: seq<string>): Ending {
    NONE.(exclude := exclude)
  }

  lemma OnlyToken(v: string, b: Bound, c: string, exclude: seq<string>)
    ensures Tokens(Aircraft(v)) == ["TYPE:" + v] && Tokens(Speed(b)) == ["SPD:" + TextOf(b, 0)]
    ensures Tokens(Altitude(b)) == ["ALT:" + TextOf(b, 3)] && Tokens(Condition(c, v)) == [c + ":" + v]
    ensures exclude != [] ==> Tokens(Exclude(exclude)) == ["EXCL:" + Join(exclude, ",")]
  {
    hide Signed, Join;
  }

  /** A condition of the given name and detail prints as the given field does. */
  lemma NameCollides(name: string, v: string, f: Ending)
    requires name in {"TYPE", "SPD", "ALT", "EXCL"} && CapsWord(v) && Admissible(f, ANY_NAME)
    requires Tokens(f) == [name + ":" + v] && f.condition.None?
    ensures Collide(Bare(Condition(name, v)), Bare(f), ANY_NAME, "JFK STOP " + (name + ":" + v))
  {
    hide Collide, Bare, Tokens, CapsWord, Lead;
    OnlyToken(v, Bound("", 0), name, []);
    var c := NamedCondition(name, v, ANY_NAME);
    BareCollide(Condition(name, v), f, ANY_NAME, name + ":" + v);
  }

  lemma ColonMoves(a: string, b: string, c: string)
    requires CapsWord(a) && CapsWord(b) && CapsWord(c) && Free(a, ':') && a !in RESERVED
    ensures Collide(
      Bare(Condition(a + ":" + b, c)), Bare(Condition(a, b + ":" + c)), STRICT.(colons := true),
      "JFK STOP " + (a + ":" + b + ":" + c))
  {
    hide Collide, Bare, Tokens, CapsWord, Lead;
    OnlyToken(c, Bound("", 0), a + ":" + b, []);
    OnlyToken(b + ":" + c, Bound("", 0), a, []);
    LeadOfToken((a, b));
    LeadOfFree(a);
    TokenIsCaps((a, b));
    TokenIsCaps((b, c));
    assert a + ":" + b + ":" + c == a + ":" + (b + ":" + c) && |a + ":" + b| != |a|;
    BareCollide(Condition(a + ":" + b, c), Condition(a, b + ":" + c), STRICT.(colons := true), a + ":" + b + ":" + c);
  }

  lemma CommaMoves(a: string, b: string)
    requires CapsWord(a) && CapsWord(b)
    ensures Collide(
      Bare(Exclude([a + "," + b])), Bare(Exclude([a, b])), STRICT.(commas := true),
      "JFK STOP " + ("EXCL:" + (a + "," + b)))
  {
    hide Collide, Bare, Tokens, CapsWord, Join;
    OnlyToken("", Bound("", 0), "", [a + "," + b]);
    OnlyToken("", Bound("", 0), "", [a, b]);
    JoinSingle(a + "," + b, ",");
    JoinFirst([a, b], ",");
    assert [a, b][1..] == [b] && |[a, b]| != |[a + "," + b]|;
    JoinSingle(b, ",");
    ExcludeIsCaps([a, b], STRICT.(commas := true));
    BareCollide(Exclude([a + "," + b]), Exclude([a, b]), STRICT.(commas := true), "EXCL:" + (a + "," + b));
  }

  lemma DigitMoves(b: Bound, c: Bound)
    requires I32(b.value) && I32(c.value) && NoSpaces(b.op) && NoSpaces(c.op) && TextOf(b, 0) == TextOf(c, 0) && b != c
    ensures Collide(Bare(Speed(b)), Bare(Speed(c)), ANY_SIGN, "JFK STOP " + ("SPD:" + TextOf(b, 0)))
  {
    hide Collide, Bare, Tokens, TextOf, NoSpaces;
    OnlyToken("", b, "", []);
    OnlyToken("", c, "", []);
    BareCollide(Speed(b), Speed(c), ANY_SIGN, "SPD:" + TextOf(b, 0));
  }

  lemma SignMoves(b: Bound, c: Bound)
    requires I32(b.value) && I32(c.value) && NoSpaces(b.op) && NoSpaces(c.op) && Caps(b.op) && Caps(c.op) && TextOf(b, 3) == TextOf(c, 3) && b != c
    ensures Collide(Bare(Altitude(b)), Bare(Altitude(c)), ANY_SIGN, "JFK STOP " + ("ALT:" + TextOf(b, 3)))
  {
    hide Collide, Bare, Tokens, TextOf, NoSpaces, Caps;
    OnlyToken("", b, "", []);
    OnlyToken("", c, "", []);
    BareCollide(Altitude(b), Altitude(c), ANY_SIGN, "ALT:" + TextOf(b, 3));
  }

  function DigitAt(s: string, i: nat): int
    requires i < |s|
  {
    s[i] as int - '0' as int
  }

  lemma TwoDigits(s: string)
    requires |s| == 2 && AllDigits(s) && s[0] != '0'
    ensures Signed(10 * DigitAt(s, 0) + DigitAt(s, 1), 0) == s
  {
    assert IsDigit(s[0]) && IsDigit(s[1]) && s[..1][..0] == "";
    assert Value(s[..1]) == DigitAt(s, 0);
    hide Padded;
    UnsignedIsPadded(s, 0);
  }

  lemma ThreeDigits(s: string, width: nat)
    requires |s| == 3 && AllDigits(s) && s[0] != '0' && width <= 3
    ensures Padded(100 * DigitAt(s, 0) + 10 * DigitAt(s, 1) + DigitAt(s, 2), width) == s
  {
    assert IsDigit(s[0]) && IsDigit(s[1]) && IsDigit(s[2]) && s[..2][..1] == s[..1] && s[..1][..0] == "";
    assert Value(s[..1]) == DigitAt(s, 0);
    assert Value(s[..2]) == 10 * DigitAt(s, 0) + DigitAt(s, 1);
    hide Padded;
    UnsignedIsPadded(s, width);
  }

  lemma Numbers()
    ensures Signed(20, 0) == "20" && Signed(10, 0) == "10" && Signed(210, 0) == "210" && Signed(180, 3) == "180"
    ensures Signed(100, 3) == "100" && Signed(-100, 3) == "-100"
  {
    hide Padded, Value, Show, PadLeft;
    TwoDigits("10");
    TwoDigits("20");
    ThreeDigits("210", 0);
    ThreeDigits("180", 3);
    ThreeDigits("100", 3);
    ThreeDigits("100", 2);
    assert "-" + "100" == "-100";
  }

  lemma Literals()
    ensures CapsWord("B738") && CapsWord("<210") && CapsWord(">180") && CapsWord("ZNY")
    ensures CapsWord("A") && CapsWord("B") && CapsWord("C") && Free("A", ':')
    ensures AdmissibleOp("<", STRICT) && NoSpaces("<2") && AdmissibleOp(">", STRICT) && NoSpaces("-") && NoSpaces("")
    ensures Caps(">") && Caps("-") && Caps("")
  {
  }

  lemma NotReservedName(name: string)
    requires |name| == 1
    ensures name !in RESERVED
  {
  }

  lemma BareWith(v: string, b: Bound, c: string, exclude: seq<string>)
    ensures Bare(Aircraft(v)) == BARE.(aircraft := Some(v)) && Bare(Speed(b)) == BARE.(speed := Some(b))
    ensures Bare(Altitude(b)) == BARE.(altitude := Some(b)) && Bare(Exclude(exclude)) == BARE.(exclude := exclude)
    ensures Bare(Condition(c, v)) == BARE.(condition := Some(c), conditionDetail := Some(v))
  {
  }

  lemma TypeNameCollides()
    ensures Collide(
      BARE.(condition := Some("TYPE"), conditionDetail := Some("B738")), BARE.(aircraft := Some("B738")), ANY_NAME,
      "JFK STOP TYPE:B738")
  {
    hide Collide, BARE, CapsWord, Tokens, Bare;
    Literals();
    OnlyToken("B738", Bound("", 0), "", []);
    BareWith("B738", Bound("", 0), "TYPE", []);
    assert "TYPE" + ":" + "B738" == "TYPE:" + "B738" && "JFK STOP " + ("TYPE" + ":" + "B738") == "JFK STOP TYPE:B738";
    NameCollides("TYPE", "B738", Aircraft("B738"));
  }

  lemma SpeedNameCollides()
    ensures Collide(
      BARE.(condition := Some("SPD"), conditionDetail := Some("<210")), BARE.(speed := Some(Bound("<", 210))), ANY_NAME,
      "JFK STOP SPD:<210")
  {
    hide Collide, BARE, CapsWord, Tokens, Bare, Signed, NoSpaces, PlainOp;
    var b := Bound("<", 210);
    Numbers();
    Literals();
    OnlyToken("<210", b, "", []);
    BareWith("<210", b, "SPD", []);
    assert "<" + "210" == "<210" && "SPD" + ":" + "<210" == "SPD:" + "<210";
    assert "JFK STOP " + ("SPD" + ":" + "<210") == "JFK STOP SPD:<210";
    NameCollides("SPD", "<210", Speed(b));
  }

  lemma AltitudeNameCollides()
    ensures Collide(
      BARE.(condition := Some("ALT"), conditionDetail := Some(">180")), BARE.(altitude := Some(Bound(">", 180))), ANY_NAME,
      "JFK STOP ALT:>180")
  {
    hide Collide, BARE, CapsWord, Tokens, Bare, Signed, NoSpaces, PlainOp, Caps;
    var b := Bound(">", 180);
    Numbers();
    Literals();
    OnlyToken(">180", b, "", []);
    BareWith(">180", b, "ALT", []);
    assert ">" + "180" == ">180" && "ALT" + ":" + ">180" == "ALT:" + ">180";
    assert "JFK STOP " + ("ALT" + ":" + ">180") == "JFK STOP ALT:>180";
    NameCollides("ALT", ">180", Altitude(b));
  }

  lemma ListNameCollides()
    ensures Collide(
      BARE.(condition := Some("EXCL"), conditionDetail := Some("ZNY")), BARE.(exclude := ["ZNY"]), ANY_NAME,
      "JFK STOP EXCL:ZNY")
  {
    hide Collide, BARE, CapsWord, Tokens, Bare, Join;
    Literals();
    OnlyToken("ZNY", Bound("", 0), "", ["ZNY"]);
    JoinSingle("ZNY", ",");
    BareWith("ZNY", Bound("", 0), "EXCL", ["ZNY"]);
    assert "EXCL" + ":" + "ZNY" == "EXCL:" + "ZNY" && "JFK STOP " + ("EXCL" + ":" + "ZNY") == "JFK STOP EXCL:ZNY";
    NameCollides("EXCL", "ZNY", Exclude(["ZNY"]));
  }

  lemma ColonCollides()
    ensures Collide(
      BARE.(condition := Some("A:B"), conditionDetail := Some("C")),
      BARE.(condition := Some("A"), conditionDetail := Some("B:C")), STRICT.(colons := true), "JFK STOP A:B:C")
  {
    hide Collide, BARE, CapsWord, Bare, Free;
    Literals();
    NotReservedName("A");
    ColonMoves("A", "B", "C");
    BareWith("C", Bound("", 0), "A:B", []);
    BareWith("B:C", Bound("", 0), "A", []);
    assert "A" + ":" + "B" == "A:B" && "B" + ":" + "C" == "B:C" && "JFK STOP " + ("A:B" + ":" + "C") == "JFK STOP A:B:C";
  }

  lemma CommaCollides()
    ensures Collide(
      BARE.(exclude := ["A,B"]), BARE.(exclude := ["A", "B"]), STRICT.(commas := true), "JFK STOP EXCL:A,B")
  {
    hide Collide, BARE, CapsWord, Bare, Free;
    Literals();
    CommaMoves("A", "B");
    BareWith("", Bound("", 0), "", ["A,B"]);
    BareWith("", Bound("", 0), "", ["A", "B"]);
    assert "A" + "," + "B" == "A,B" && "JFK STOP " + ("EXCL:" + "A,B") == "JFK STOP EXCL:A,B";
  }

  lemma DigitCollides()
    ensures Collide(
      BARE.(speed := Some(Bound("<2", 10))), BARE.(speed := Some(Bound("<", 210))), ANY_SIGN, "JFK STOP SPD:<210")
  {
    hide Collide, BARE, Bare, Signed, NoSpaces, PlainOp;
    Numbers();
    Literals();
    assert "<2" + "10" == "<210" == "<" + "210" && "JFK STOP " + ("SPD:" + "<210") == "JFK STOP SPD:<210";
    DigitMoves(Bound("<2", 10), Bound("<", 210));
    BareWith("", Bound("<2", 10), "", []);
    BareWith("", Bound("<", 210), "", []);
  }

  lemma SignCollides()
    ensures Collide(
      BARE.(altitude := Some(Bound("-", 100))), BARE.(altitude := Some(Bound("", -100))), ANY_SIGN, "JFK STOP ALT:-100")
  {
    hide Collide, BARE, Bare, Signed, NoSpaces, PlainOp, Caps;
    Numbers();
    Literals();
    assert "-" + "100" == "-100" == "" + "-100" && "JFK STOP " + ("ALT:" + "-100") == "JFK STOP ALT:-100";
    SignMoves(Bound("-", 100), Bound("", -100));
    BareWith("", Bound("-", 100), "", []);
    BareWith("", Bound("", -100), "", []);
  }

  /** A kind that counts prints as the kind named by its whole token. */
  lemma CountMoves(n: int, unit: string)
    requires Counts(unit) && I32(n)
    ensures Collide(
      With(BARE, Kind(Signed(n, 0) + unit, None), NONE), With(BARE, Kind(unit, Some(n)), NONE), STRICT.(kinds := true),
      "JFK " + (Signed(n, 0) + unit))
  {
    hide KindOf, EndingOf, Encoded, Normal, Join, Loose, With, CapsWord, Signed, CountOf;
    var g := STRICT.(kinds := true);
    var (k, l) := (Kind(Signed(n, 0) + unit, None), Kind(unit, Some(n)));
    CountParts(n, unit);
    CountIsCaps(n, unit);
    UnitIsCaps(unit);
    assert k.name[0] != 'M' && k.name[0] != 'T';
    OnlyKind(g);
    hide AdmissibleKind, Admissible, KindText;
    BareParts(k, NONE, g);
    BareParts(l, NONE, g);
    BareLine(k.name, "");
    KindTexts(n, unit);
    EqualReadings(With(BARE, k, NONE), l, NONE, g);
    WithTwice(BARE, k, NONE, l, NONE);
  }

  lemma OnlyKind(g: Grammar)
    ensures Admissible(NONE, g) && Tokens(NONE) == []
  {
  }

  lemma KindTexts(n: int, unit: string)
    ensures KindText(Kind(Signed(n, 0) + unit, None)) == Signed(n, 0) + unit == KindText(Kind(unit, Some(n)))
  {
  }

  lemma BareKinds(name: string, unit: string, n: int)
    ensures With(BARE, Kind(name, None), NONE) == BARE.(kind := name)
    ensures With(BARE, Kind(unit, Some(n)), NONE) == BARE.(kind := unit, value := Some(n))
  {
  }

  lemma KindCollides()
    ensures Collide(BARE.(kind := "20MIT"), BARE.(kind := "MIT", value := Some(20)), STRICT.(kinds := true), "JFK 20MIT")
  {
    hide Collide, BARE, With, Signed;
    Numbers();
    assert "20" + "MIT" == "20MIT" && "JFK " + "20MIT" == "JFK 20MIT";
    CountMoves(20, "MIT");
    BareKinds("20MIT", "MIT", 20);
  }
}
