/** The prefixed half of the NTML grammar with some of its hypotheses dropped, and the tokens it prints. */
module TmiGrammar {
  import opened Wrappers
  import opened Text
  import opened Decimals
  import opened Tmi
  import opened TmiTheorems

  // ---- The kind and the fields after it --------------------------------------------------------

  /** A kind, with its count when it is one that counts miles or minutes. */
  datatype Kind = Kind(name: string, count: Option<int>)

  predicate Counts(name: string) {
    name == "MIT" || name == "MINIT"
  }

  function KindOf(r: Restriction): Kind {
    Kind(Normal(r).kind, Normal(r).value)
  }

  function KindText(k: Kind): string {
    if k.count.Some? then Signed(k.count.value, 0) + k.name else k.name
  }

  datatype Ending = Ending(
    aircraft: Option<string>, speed: Option<Bound>, altitude: Option<Bound>, condition: Option<(string, string)>,
    exclude: seq<string>)

  function EndingOf(r: Restriction): Ending {
    Ending(OptClean(r.aircraft), SpeedOf(r), AltitudeOf(r), ConditionOf(r), Excluded(r.exclude))
  }

  function ConditionToken(c: (string, string)): string {
    c.0 + ":" + c.1
  }

  function ConditionTokens(c: Option<(string, string)>): seq<string> {
    if c.Some? then [ConditionToken(c.value)] else []
  }

  function AfterAltitude(e: Ending): seq<string> {
    ConditionTokens(e.condition) + ExcludePart(e.exclude)
  }

  function AfterSpeed(e: Ending): seq<string> {
    Part(BoundText(e.altitude, 3), "ALT:") + AfterAltitude(e)
  }

  function AfterType(e: Ending): seq<string> {
    Part(BoundText(e.speed, 0), "SPD:") + AfterSpeed(e)
  }

  function Tokens(e: Ending): seq<string> {
    Part(e.aircraft, "TYPE:") + AfterType(e)
  }

  /** Which of the five hypotheses of the prefixed half are dropped: a kind does not start with a sign or digit, a
      condition is not named like a prefix, its name holds no colon, an excluded facility no comma, and an operator
      no sign or digit. */
  datatype Grammar = Grammar(kinds: bool, names: bool, colons: bool, commas: bool, signs: bool)

  const STRICT := Grammar(false, false, false, false, false)

  predicate Caps(s: string) {
    forall i :: 0 <= i < |s| ==> UpperChar(s[i]) == s[i]
  }

  predicate CapsWord(s: string) {
    IsWord(s) && Caps(s)
  }

  /** What comes before the first colon. */
  function Lead(s: string): string {
    s[..RunLength(s, ':')]
  }

  predicate AdmissibleKind(k: Kind, g: Grammar) {
    && CapsWord(k.name) && k.name != "TXT" && (g.kinds || !IsSignOrDigit(k.name[0]))
    && (k.count.Some? <==> Counts(k.name)) && (k.count.Some? ==> I32(k.count.value))
  }

  predicate AdmissibleOp(op: string, g: Grammar) {
    NoSpaces(op) && (g.signs || PlainOp(op))
  }

  predicate AdmissibleCondition(c: (string, string), g: Grammar) {
    CapsWord(c.0) && CapsWord(c.1) && (g.colons || Free(c.0, ':')) && (g.names || Lead(c.0) !in RESERVED)
  }

  predicate AdmissibleList(exclude: seq<string>, g: Grammar) {
    forall i :: 0 <= i < |exclude| ==> CapsWord(exclude[i]) && (g.commas || Free(exclude[i], ','))
  }

  predicate Admissible(e: Ending, g: Grammar) {
    && (e.aircraft.Some? ==> CapsWord(e.aircraft.value))
    && (e.speed.Some? ==> AdmissibleOp(e.speed.value.op, g) && I32(e.speed.value.value))
    && (e.altitude.Some? ==> AdmissibleOp(e.altitude.value.op, g) && Caps(e.altitude.value.op) && I32(e.altitude.value.value))
    && (e.condition.Some? ==> AdmissibleCondition(e.condition.value, g))
    && AdmissibleList(e.exclude, g)
  }

  /** The prefixed half without the hypotheses that `g` drops. */
  predicate Loose(r: Restriction, g: Grammar) {
    && PlainHead(r) && AdmissibleKind(KindOf(r), g) && Admissible(EndingOf(r), g)
    && (OptClean(r.condition).Some? ==> OptClean(r.conditionDetail).Some?)
  }

  // ---- Capitals --------------------------------------------------------------------------------

  lemma CapsIff(s: string)
    ensures Caps(s) <==> Upper(s) == s
  {
    if Caps(s) {
      assert Upper(s) == s;
    } else {
      var i :| 0 <= i < |s| && UpperChar(s[i]) != s[i];
      assert Upper(s)[i] != s[i];
    }
  }

  lemma CleanIsCaps(s: string)
    ensures Caps(Clean(s))
  {
    hide Collapse;
    UpperIdempotent(Collapse(s));
    CapsIff(Clean(s));
  }

  lemma CapsWordIsClean(w: string)
    requires NoSpaces(w) && Caps(w)
    ensures Collapse(w) == w && Clean(w) == w
  {
    if w != "" {
      WordIsItself(w);
    } else {
      NoWords();
    }
    hide Words, Collapse;
    CapsIff(w);
  }

  lemma CollapsedOp(op: string)
    requires NoSpaces(op)
    ensures Collapse(op) == op
  {
    if op != "" {
      WordIsItself(op);
    } else {
      NoWords();
    }
  }

  lemma OptIsCaps(s: Option<string>)
    ensures OptClean(s).Some? ==> Caps(OptClean(s).value)
  {
    hide Clean, Collapse;
    if s.Some? {
      CleanIsCaps(s.value);
    }
  }

  lemma {:induction false} ExcludedAreCaps(exclude: seq<string>)
    ensures forall i :: 0 <= i < |Excluded(exclude)| ==> Caps(Excluded(exclude)[i])
  {
    hide Clean;
    if exclude != [] {
      CleanIsCaps(exclude[0]);
      ExcludedAreCaps(exclude[1..]);
    }
  }

  /** The values that print are those an `i32` can hold. */
  predicate ValuesFit(r: Restriction) {
    && (KindOf(r).count.Some? ==> I32(KindOf(r).count.value))
    && (r.speed.Some? ==> I32(r.speed.value.value))
    && (r.altitude.Some? ==> I32(r.altitude.value.value))
  }

  /** With nothing dropped, this is the prefixed half. */
  lemma StrictIsPlain(r: Restriction)
    ensures Loose(r, STRICT) <==> Plain(r) && ValuesFit(r)
  {
    hide Clean, Collapse, OptClean, Excluded, PlainHead, IsWord, Caps, PlainOp, NoSpaces;
    CleanIsCaps(r.kind);
    OptIsCaps(r.aircraft);
    OptIsCaps(r.condition);
    OptIsCaps(r.conditionDetail);
    ExcludedAreCaps(r.exclude);
    if r.speed.Some? {
      PlainOpHasNoSpaces(Collapse(r.speed.value.op));
    }
    if r.altitude.Some? {
      PlainOpHasNoSpaces(Clean(r.altitude.value.op));
      CleanIsCaps(r.altitude.value.op);
    }
    if OptClean(r.condition).Some? {
      LeadOfFree(OptClean(r.condition).value);
    }
  }

  lemma PlainOpHasNoSpaces(op: string)
    ensures PlainOp(op) ==> NoSpaces(op)
  {
  }

  lemma LeadOfFree(c: string)
    ensures Free(c, ':') ==> Lead(c) == c
  {
    if Free(c, ':') {
      RunThen(c, "", ':');
      assert c + "" == c && c[..|c|] == c;
    }
  }

  // ---- From readings to restrictions and back --------------------------------------------------

  /** The restriction with another kind and ending. */
  function With(r: Restriction, k: Kind, e: Ending): Restriction {
    r.(kind := k.name, value := k.count, aircraft := e.aircraft, speed := e.speed, altitude := e.altitude,
       condition := if e.condition.Some? then Some(e.condition.value.0) else None,
       conditionDetail := if e.condition.Some? then Some(e.condition.value.1) else None,
       exclude := e.exclude)
  }

  lemma OptOfCaps(w: string)
    requires CapsWord(w)
    ensures OptClean(Some(w)) == Some(w)
  {
    CapsWordIsClean(w);
    hide Collapse, Clean;
  }

  lemma {:induction false} ExcludedOfCaps(exclude: seq<string>)
    requires forall i :: 0 <= i < |exclude| ==> CapsWord(exclude[i])
    ensures Excluded(exclude) == exclude
  {
    hide Clean, Caps, NoSpaces;
    if exclude != [] {
      CapsWordIsClean(exclude[0]);
      ExcludedOfCaps(exclude[1..]);
      assert exclude == [exclude[0]] + exclude[1..];
    }
  }

  lemma EndingOfWith(r: Restriction, k: Kind, e: Ending, g: Grammar)
    requires Admissible(e, g)
    ensures var s := With(r, k, e);
      EndingOf(s) == e && (OptClean(s.condition).Some? ==> OptClean(s.conditionDetail).Some?)
  {
    hide Clean, Collapse, OptClean, Excluded, NoSpaces, Caps, IsWord, PlainOp, Lead;
    if e.aircraft.Some? {
      OptOfCaps(e.aircraft.value);
    } else {
      NoOpt();
    }
    if e.speed.Some? {
      CollapsedOp(e.speed.value.op);
    }
    if e.altitude.Some? {
      CapsWordIsClean(e.altitude.value.op);
    }
    if e.condition.Some? {
      OptOfCaps(e.condition.value.0);
      OptOfCaps(e.condition.value.1);
    } else {
      NoOpt();
    }
    ExcludedOfCaps(e.exclude);
  }

  lemma KindOfWith(r: Restriction, k: Kind, e: Ending, g: Grammar)
    requires AdmissibleKind(k, g)
    ensures KindOf(With(r, k, e)) == k
  {
    CapsWordIsClean(k.name);
    hide Clean, Collapse, OptClean, Excluded, Lower;
  }

  /** Every admissible reading is that of some restriction with the same head. */
  lemma ReadingOfWith(r: Restriction, k: Kind, e: Ending, g: Grammar)
    requires AdmissibleKind(k, g) && Admissible(e, g)
    ensures KindOf(With(r, k, e)) == k && EndingOf(With(r, k, e)) == e
    ensures PlainHead(r) ==> Loose(With(r, k, e), g)
  {
    hide AdmissibleKind, Admissible, KindOf, EndingOf, PlainHead, OptClean;
    KindOfWith(r, k, e, g);
    EndingOfWith(r, k, e, g);
    SameHead(r, k, e);
  }

  lemma NoOpt()
    ensures OptClean(None) == None
  {
  }

  lemma SameHead(r: Restriction, k: Kind, e: Ending)
    ensures PlainHead(r) ==> PlainHead(With(r, k, e))
  {
    hide Clean, OptClean;
  }

  lemma TailIsTokens(r: Restriction)
    requires OptClean(r.condition).Some? ==> OptClean(r.conditionDetail).Some?
    ensures Tail(r) == Tokens(EndingOf(r))
  {
    hide Clean, Collapse, OptClean, Excluded, ExcludePart, Signed;
    assert SpeedPart(r.speed) == Part(BoundText(SpeedOf(r), 0), "SPD:");
    assert AltitudePart(r.altitude) == Part(BoundText(AltitudeOf(r), 3), "ALT:");
    assert ConditionPart(r) == ConditionTokens(ConditionOf(r));
  }

  lemma BoundIsNoSpaces(op: string, value: int, width: nat)
    requires NoSpaces(op)
    ensures NoSpaces(op + Signed(value, width))
  {
    NoSpacesSigned(value, width);
    NoSpacesConcat(op, Signed(value, width));
  }

  lemma PartIsWords(v: Option<string>, prefix: string)
    requires IsWord(prefix) && (v.Some? ==> NoSpaces(v.value))
    ensures AllWords(Part(v, prefix))
  {
    if v.Some? {
      Prefixed(prefix, v.value);
    }
  }

  lemma ExcludeIsWords(exclude: seq<string>)
    requires forall i :: 0 <= i < |exclude| ==> NoSpaces(exclude[i])
    ensures AllWords(ExcludePart(exclude))
  {
    if exclude != [] {
      NoSpacesJoin(exclude);
      Prefixed("EXCL:", Join(exclude, ","));
    }
  }

  lemma ConditionIsWords(c: Option<(string, string)>)
    requires c.Some? ==> IsWord(c.value.0) && IsWord(c.value.1)
    ensures AllWords(ConditionTokens(c))
  {
    if c.Some? {
      NoSpacesConcat(c.value.0, ":");
      NoSpacesConcat(c.value.0 + ":", c.value.1);
    }
  }

  lemma TokensAreWords(e: Ending, g: Grammar)
    requires Admissible(e, g)
    ensures Flat(Tokens(e)) == Tokens(e)
  {
    hide Part, ExcludePart, AllWords, NoSpaces, Caps, PlainOp, Signed, Lead, ConditionTokens, Flat;
    assert IsWord("TYPE:") && IsWord("SPD:") && IsWord("ALT:") by { PrefixesAreWords(); }
    PartIsWords(e.aircraft, "TYPE:");
    if e.speed.Some? {
      BoundIsNoSpaces(e.speed.value.op, e.speed.value.value, 0);
    }
    PartIsWords(BoundText(e.speed, 0), "SPD:");
    if e.altitude.Some? {
      BoundIsNoSpaces(e.altitude.value.op, e.altitude.value.value, 3);
    }
    PartIsWords(BoundText(e.altitude, 3), "ALT:");
    ConditionIsWords(e.condition);
    ExcludeIsWords(e.exclude);
    ConcatWords(ConditionTokens(e.condition), ExcludePart(e.exclude));
    ConcatWords(Part(BoundText(e.altitude, 3), "ALT:"), AfterAltitude(e));
    ConcatWords(Part(BoundText(e.speed, 0), "SPD:"), AfterSpeed(e));
    ConcatWords(Part(e.aircraft, "TYPE:"), AfterType(e));
    FlatWords(Tokens(e));
  }

  lemma PrefixesAreWords()
    ensures IsWord("TYPE:") && IsWord("SPD:") && IsWord("ALT:") && IsWord("EXCL:")
  {
  }

  lemma KindIsText(r: Restriction)
    ensures KindToken(r) == KindText(KindOf(r))
  {
    hide Clean, Signed;
  }

  lemma LooseKind(r: Restriction, g: Grammar)
    requires AdmissibleKind(KindOf(r), g)
    ensures WordKind(Clean(r.kind))
  {
    hide Collapse;
  }

  lemma EqualFields(r: Restriction, s: Restriction)
    requires Normal(r).element == Normal(s).element && Normal(r).direction == Normal(s).direction && Normal(r).via == Normal(s).via
    ensures Normal(r) == Normal(s) <==> KindOf(r) == KindOf(s) && EndingOf(r) == EndingOf(s)
  {
    hide Clean, Collapse, OptClean, Excluded, Lower;
  }

  /** Equal lines have equal fields up to the kind, and equal tokens from there on. */
  lemma EqualLines(r: Restriction, s: Restriction, g: Grammar)
    requires Loose(r, g) && Loose(s, g) && Encoded(r) == Encoded(s)
    ensures KindText(KindOf(r)) == KindText(KindOf(s)) && Tokens(EndingOf(r)) == Tokens(EndingOf(s))
    ensures Normal(r) == Normal(s) <==> KindOf(r) == KindOf(s) && EndingOf(r) == EndingOf(s)
  {
    hide Encoded, Tail, ReadHead, Clean, OptClean, Admissible, AdmissibleKind, PlainHead, Tokens, Flat, Normal,
      KindOf, EndingOf,
      KindText, KindToken;
    TailIsTokens(r);
    TailIsTokens(s);
    TokensAreWords(EndingOf(r), g);
    TokensAreWords(EndingOf(s), g);
    LooseKind(r, g);
    LooseKind(s, g);
    HeadOfLine(r);
    HeadOfLine(s);
    KindIsText(r);
    KindIsText(s);
    FirstOfTwo(KindToken(r), Tail(r), KindToken(s), Tail(s));
    EqualFields(r, s);
  }

  lemma FirstOfTwo(a: string, x: seq<string>, b: string, y: seq<string>)
    requires [a] + x == [b] + y
    ensures a == b && x == y
  {
    assert ([a] + x)[0] == a && ([b] + y)[0] == b && ([a] + x)[1..] == x && ([b] + y)[1..] == y;
  }

  /** Restrictions that differ in their kind and ending alone print alike when these do. */
  lemma EqualReadings(r: Restriction, k: Kind, e: Ending, g: Grammar)
    requires Loose(r, g) && AdmissibleKind(k, g) && Admissible(e, g)
    requires KindText(k) == KindText(KindOf(r)) && Tokens(e) == Tokens(EndingOf(r))
    ensures Encoded(With(r, k, e)) == Encoded(r)
    ensures Normal(With(r, k, e)) == Normal(r) <==> k == KindOf(r) && e == EndingOf(r)
  {
    hide Tail, Clean, OptClean, Admissible, AdmissibleKind, PlainHead, Tokens, KindPart, KindOf, EndingOf, KindText,
      DirectionPart,
      Part, Join, Normal, KindToken;
    var s := With(r, k, e);
    ReadingOfWith(r, k, e, g);
    TailIsTokens(r);
    TailIsTokens(s);
    LooseKind(r, g);
    LooseKind(s, g);
    KindIsToken(r);
    KindIsToken(s);
    KindIsText(r);
    KindIsText(s);
    SameBeforeKind(r, k, e);
    EqualFields(r, s);
  }

  lemma SameBeforeKind(r: Restriction, k: Kind, e: Ending)
    ensures var s := With(r, k, e);
      Normal(s).element == Normal(r).element && Normal(s).direction == Normal(r).direction && Normal(s).via == Normal(r).via
  {
    hide Clean, Collapse, OptClean, Excluded, Lower;
  }
}
