/** Reading an advisory back by its labels: what each labelled line of a document says. */
module AdvisoryLabels {
  import opened Wrappers
  import opened Text
  import opened Decimals
  import opened Selections
  import opened Advisory
  import opened AdvisoryDocuments

  // ---- A reader --------------------------------------------------------------------------------

  /** The text before the first colon is the label. */
  predicate Carries(line: string, name: string) {
    SplitOnce(line, ':').Some? && SplitOnce(line, ':').value.0 == name
  }

  /** What stands after the colon and a space; nothing when the label stands bare. */
  function Value(line: string): Option<string>
    requires SplitOnce(line, ':').Some?
  {
    var after := SplitOnce(line, ':').value.1;
    if after == "" then None else Some(after[1..])
  }

  /** The value on the first line that carries the label, if any line does. */
  function Read(lines: seq<string>, name: string): Option<Option<string>> {
    if lines == [] then None
    else if Carries(lines[0], name) then Some(Value(lines[0]))
    else Read(lines[1..], name)
  }

  /** The values on the first lines in a row that carry the label. */
  function ReadRun(lines: seq<string>, name: string): seq<Option<string>> {
    if lines == [] then []
    else if !Carries(lines[0], name) then ReadRun(lines[1..], name)
    else [Value(lines[0])] + if |lines| > 1 && Carries(lines[1], name) then ReadRun(lines[1..], name) else []
  }

  /** A name that can be read back: no colon in it, and not the start of a header. */
  predicate IsLabel(name: string) {
    name != "" && name[0] != 'v' && Free(name, ':')
  }

  lemma LabelReadsBack(name: string, value: Option<string>)
    requires IsLabel(name)
    ensures Carries(Label(name, value), name) && Value(Label(name, value)) == value
    ensures forall other :: Carries(Label(name, value), other) ==> other == name
  {
    hide Free;
    var line := Label(name, value);
    if value.Some? {
      SplitAtFirst(name, ':', " " + value.value);
      assert line == name + [':'] + (" " + value.value);
    } else {
      SplitAtFirst(name, ':', "");
      assert line == name + [':'] + "";
    }
  }

  lemma {:induction false} ReadsAt(lines: seq<string>, k: nat, name: string)
    requires k < |lines| && Carries(lines[k], name) && forall j :: 0 <= j < k ==> !Carries(lines[j], name)
    ensures Read(lines, name) == Some(Value(lines[k]))
  {
    hide Carries, Value;
    if k > 0 {
      ReadsAt(lines[1..], k - 1, name);
    }
  }

  /** Labels under a header: each is read back, when no label before it has the same name. */
  lemma ReadsField(header: string, fields: seq<Field>, rest: seq<string>, k: nat)
    requires header != "" && header[0] == 'v' && k < |fields|
    requires forall j :: 0 <= j <= k ==> IsLabel(fields[j].0)
    requires forall j :: 0 <= j < k ==> fields[j].0 != fields[k].0
    ensures Read([header] + Labels(fields) + rest, fields[k].0) == Some(fields[k].1)
  {
    var lines, name := [header] + Labels(fields) + rest, fields[k].0;
    HeaderCarriesNone(header, name);
    LabelReadsBack(name, fields[k].1);
    forall j | 0 <= j < k + 1 ensures !Carries(lines[j], name) {
      if j > 0 {
        assert lines[j] == Labels(fields)[j - 1];
        LabelReadsBack(fields[j - 1].0, fields[j - 1].1);
      }
    }
    assert lines[k + 1] == Labels(fields)[k];
    hide Carries, Value, Label, IsLabel;
    ReadsAt(lines, k + 1, name);
  }

  lemma HeaderCarriesNone(header: string, name: string)
    requires header != "" && header[0] == 'v' && IsLabel(name)
    ensures !Carries(header, name)
  {
    hide Free;
  }

  lemma HeaderStart(number: int, element: string, day: string, header: string)
    ensures var h := Header(number, element, day, header); h != "" && h[0] == 'v'
  {
    hide Clean, Number;
  }

  lemma {:induction false} LabelsConcat(f: seq<Field>, g: seq<Field>)
    ensures Labels(f + g) == Labels(f) + Labels(g)
  {
    hide Label;
  }

  // ---- Flight entries --------------------------------------------------------------------------

  /** The positions of the entries that are not blank. */
  ghost function Written(entries: seq<string>): set<nat> {
    set i | 0 <= i < |entries| && Collapse(entries[i]) != ""
  }

  /** The entries printed are those that are not blank, each collapsed, in order. */
  lemma {:induction false} PrintedInOrder(entries: seq<string>) returns (ix: seq<nat>)
    ensures Lists(ix, Written(entries)) && |ix| == |Printed(entries)|
    ensures forall k :: 0 <= k < |ix| ==> ix[k] < |entries| && Printed(entries)[k] == Collapse(entries[ix[k]])
  {
    hide Collapse;
    if entries == [] {
      ix := [];
    } else {
      var last := |entries| - 1;
      ix := PrintedInOrder(entries[..last]);
      if Collapse(entries[last]) != "" {
        assert Written(entries) == Written(entries[..last]) + {last};
        ListsGrow(ix, Written(entries[..last]), last);
        ix := ix + [last];
      } else {
        assert Written(entries) == Written(entries[..last]);
      }
    }
  }

  function Flights(entries: seq<string>): (fields: seq<Field>)
    ensures fields != [] && forall i :: 0 <= i < |fields| ==> fields[i].0 == "FLT INCL"
  {
    if Printed(entries) == [] then [("FLT INCL", None)] else Included(Printed(entries))
  }

  lemma FlightsArePrinted(entries: seq<string>)
    ensures FltIncl(entries) == Labels(Flights(entries))
  {
    assert "FLT INCL" + ":" == "FLT INCL:";
    hide Printed;
  }

  lemma {:induction false} RunAfter(before: seq<string>, rest: seq<string>, name: string)
    requires forall j :: 0 <= j < |before| ==> !Carries(before[j], name)
    ensures ReadRun(before + rest, name) == ReadRun(rest, name)
  {
    hide Carries;
    if before == [] {
      assert before + rest == rest;
    } else {
      RunAfter(before[1..], rest, name);
      assert (before + rest)[1..] == before[1..] + rest;
    }
  }

  function Values(fields: seq<Field>): (vs: seq<Option<string>>)
    ensures |vs| == |fields| && forall i :: 0 <= i < |fields| ==> vs[i] == fields[i].1
  {
    if fields == [] then [] else [fields[0].1] + Values(fields[1..])
  }

  lemma {:induction false} RunReads(fields: seq<Field>, after: seq<string>, name: string)
    requires IsLabel(name) && fields != [] && forall i :: 0 <= i < |fields| ==> fields[i].0 == name
    requires after != [] ==> !Carries(after[0], name)
    ensures ReadRun(Labels(fields) + after, name) == Values(fields)
  {
    hide Carries, Value, Label, IsLabel, ReadRun, Labels, Values;
    LabelReadsBack(name, fields[0].1);
    LabelsStep(fields);
    var lines, rest := Labels(fields) + after, fields[1..];
    assert lines[1..] == Labels(rest) + after;
    RunStep(lines, name);
    if rest != [] {
      RunReads(rest, after, name);
      LabelReadsBack(name, rest[0].1);
      LabelsStep(rest);
    }
  }

  lemma LabelsStep(fields: seq<Field>)
    requires fields != []
    ensures Labels(fields) == [Label(fields[0].0, fields[0].1)] + Labels(fields[1..])
    ensures Values(fields) == [fields[0].1] + Values(fields[1..])
    ensures |fields| == 1 ==> Labels(fields[1..]) == [] && Values(fields[1..]) == []
  {
    hide Label;
  }

  lemma RunStep(lines: seq<string>, name: string)
    requires lines != [] && Carries(lines[0], name)
    ensures ReadRun(lines, name) ==
      [Value(lines[0])] + if |lines| > 1 && Carries(lines[1], name) then ReadRun(lines[1..], name) else []
  {
  }

  /** One name's labels in a row, among others under a header. */
  lemma RunWithin(header: string, o: seq<Field>, f: seq<Field>, s: seq<Field>, footer: seq<string>, name: string)
    requires header != "" && header[0] == 'v' && IsLabel(name)
    requires forall i :: 0 <= i < |o| ==> IsLabel(o[i].0) && o[i].0 != name
    requires f != [] && forall i :: 0 <= i < |f| ==> f[i].0 == name
    requires s != [] && IsLabel(s[0].0) && s[0].0 != name
    ensures ReadRun([header] + Labels(o + f + s) + footer, name) == Values(f)
  {
    hide Carries, Value, Label, IsLabel, ReadRun, Labels;
    var before, after := [header] + Labels(o), Labels(s) + footer;
    NoneCarry(header, o, name);
    NextCarriesNone(s, footer, name);
    LabelsConcat(o + f, s);
    LabelsConcat(o, f);
    assert [header] + Labels(o + f + s) + footer == before + (Labels(f) + after);
    RunAfter(before, Labels(f) + after, name);
    RunReads(f, after, name);
  }

  lemma NoneCarry(header: string, o: seq<Field>, name: string)
    requires header != "" && header[0] == 'v' && IsLabel(name)
    requires forall i :: 0 <= i < |o| ==> IsLabel(o[i].0) && o[i].0 != name
    ensures forall j :: 0 <= j <= |o| ==> !Carries(([header] + Labels(o))[j], name)
  {
    hide Carries, Label, IsLabel;
    HeaderCarriesNone(header, name);
    forall i | 0 <= i < |o| ensures !Carries(Labels(o)[i], name) {
      LabelReadsBack(o[i].0, o[i].1);
    }
  }

  lemma NextCarriesNone(s: seq<Field>, footer: seq<string>, name: string)
    requires s != [] && IsLabel(s[0].0) && s[0].0 != name
    ensures Labels(s) != [] && !Carries((Labels(s) + footer)[0], name)
  {
    hide Carries, Label, IsLabel;
    LabelReadsBack(s[0].0, s[0].1);
    assert (Labels(s) + footer)[0] == Labels(s)[0];
  }

  /** `shown` is what is printed of flight entries: those that are not blank, each collapsed, in order, or one bare
      label when all are blank. */
  ghost predicate ShowsFlights(entries: seq<string>, shown: seq<Option<string>>) {
    exists ix ::
      && Lists(ix, Written(entries)) && |shown| == AtLeastOne(|ix|) && (ix == [] ==> shown[0] == None)
      && forall k :: 0 <= k < |ix| ==> ix[k] < |entries| && shown[k] == Some(Collapse(entries[ix[k]]))
  }

  lemma FlightsShow(entries: seq<string>)
    ensures var f := Flights(entries); ShowsFlights(entries, Values(f))
  {
    var ix := PrintedInOrder(entries);
    hide Printed, Collapse, Written, Lists;
  }

  // ---- A delay program -------------------------------------------------------------------------

  /** Which of a delay program's labels a name is, told by its length and its first letter. */
  function GdpPlace(name: string): int
    requires name != ""
  {
    match (|name|, name[0])
    case (11, 'C') => 0
    case (12, 'E') => 1
    case (8, 'A') => 2
    case (21, 'D') => 3
    case (22, 'A') => 4
    case (25, 'C') => 5
    case (12, 'P') => 6
    case (13, 'P') => 7
    case (8, 'F') => 8
    case (15, 'D') => 9
    case (34, 'A') => 10
    case (21, 'E') => 11
    case (23, 'C') => 12
    case (33, 'D') => 13
    case (11, 'D') => 14
    case (13, 'M') => 15
    case (13, 'A') => 16
    case (19, 'I') => 17
    case (8, 'C') => 18
    case _ => -1
  }

  predicate GdpLabel(name: string, place: int) {
    IsLabel(name) && GdpPlace(name) == place
  }

  lemma GdpOpeningLabels()
    ensures GdpLabel("CTL ELEMENT", 0) && GdpLabel("ELEMENT TYPE", 1) && GdpLabel("ADL TIME", 2)
    ensures GdpLabel("DELAY ASSIGNMENT MODE", 3) && GdpLabel("ARRIVALS ESTIMATED FOR", 4)
  {
  }

  lemma GdpRateLabels()
    ensures GdpLabel("CUMULATIVE PROGRAM PERIOD", 5) && GdpLabel("PROGRAM RATE", 6) && GdpLabel("POP-UP FACTOR", 7)
    ensures GdpLabel("FLT INCL", 8)
  {
  }

  lemma GdpScopeLabels()
    ensures GdpLabel("DEPARTURE SCOPE", 9) && GdpLabel("ADDITIONAL DEP FACILITIES INCLUDED", 10)
    ensures GdpLabel("EXEMPT DEP FACILITIES", 11) && GdpLabel("CANADIAN ARPTS INCLUDED", 12)
    ensures GdpLabel("DELAY ASSIGNMENT TABLE APPLIES TO", 13)
  {
  }

  lemma GdpDelayLabels()
    ensures GdpLabel("DELAY LIMIT", 14) && GdpLabel("MAXIMUM DELAY", 15) && GdpLabel("AVERAGE DELAY", 16)
    ensures GdpLabel("IMPACTING CONDITION", 17) && GdpLabel("COMMENTS", 18)
  {
  }

  lemma GdpOpeningPlaces(a: Gdp)
    ensures var f := GdpOpening(a); |f| == 8 && forall i :: 0 <= i < 8 ==> GdpLabel(f[i].0, i)
  {
    hide GdpLabel, Clean, Opt;
    GdpOpeningLabels();
    GdpRateLabels();
  }

  lemma GdpScopePlaces(a: Gdp)
    ensures var f := GdpScope(a); |f| == 10 && forall i :: 0 <= i < 10 ==> GdpLabel(f[i].0, 9 + i)
  {
    hide GdpLabel, Opt;
    GdpScopeLabels();
    GdpDelayLabels();
  }

  lemma GdpFieldsLength(a: Gdp)
    ensures |GdpFields(a)| >= 8
  {
    GdpOpeningPlaces(a);
    hide GdpOpening;
  }

  function GdpFields(a: Gdp): seq<Field> {
    GdpOpening(a) + Flights(a.flightsIncluded) + GdpScope(a)
  }

  lemma GdpLinesAreLabels(a: Gdp, id: Ident)
    ensures GdpLines(a, id) == [Header(id.number, a.element, id.issuedDay, a.header)] + Labels(GdpFields(a))
                               + ["", Collapse(a.period), id.signedAt]
  {
    hide Header, Labels, GdpOpening, GdpScope, FltIncl, Collapse, Flights;
    FlightsArePrinted(a.flightsIncluded);
    LabelsConcat(GdpOpening(a) + Flights(a.flightsIncluded), GdpScope(a));
    LabelsConcat(GdpOpening(a), Flights(a.flightsIncluded));
  }

  /** The place of each label of a delay program. */
  lemma GdpFieldPlace(a: Gdp, k: nat)
    requires k < |GdpFields(a)|
    ensures var n := |Flights(a.flightsIncluded)|;
      GdpLabel(GdpFields(a)[k].0, if k < 8 then k else if k < 8 + n then 8 else k + 1 - n)
  {
    hide GdpLabel, GdpOpening, GdpScope;
    GdpOpeningPlaces(a);
    GdpScopePlaces(a);
    GdpRateLabels();
    if |Flights(a.flightsIncluded)| <= k - 8 {
      assert GdpFields(a)[k] == GdpScope(a)[k - 8 - |Flights(a.flightsIncluded)|];
    }
  }

  lemma GdpNamesDiffer(a: Gdp, k: nat)
    requires k < 8 || 8 + |Flights(a.flightsIncluded)| <= k < |GdpFields(a)|
    ensures k < |GdpFields(a)| && IsLabel(GdpFields(a)[k].0)
    ensures forall j :: 0 <= j < k ==> IsLabel(GdpFields(a)[j].0) && GdpFields(a)[j].0 != GdpFields(a)[k].0
  {
    hide GdpPlace, GdpOpening, GdpFields, IsLabel, Flights;
    GdpFieldsLength(a);
    GdpFieldPlace(a, k);
    forall j | 0 <= j < k ensures IsLabel(GdpFields(a)[j].0) && GdpFields(a)[j].0 != GdpFields(a)[k].0 {
      GdpFieldPlace(a, j);
    }
  }

  lemma GdpReadsField(a: Gdp, id: Ident, k: nat)
    requires k < 8 || 8 + |Flights(a.flightsIncluded)| <= k < |GdpFields(a)|
    ensures k < |GdpFields(a)|
    ensures Read(GdpLines(a, id), GdpFields(a)[k].0) == Some(GdpFields(a)[k].1)
  {
    hide GdpPlace, GdpOpening, Flights, Collapse, GdpFields, IsLabel, GdpLines, Header, Read, Labels, Label;
    GdpNamesDiffer(a, k);
    GdpLinesAreLabels(a, id);
    var header := Header(id.number, a.element, id.issuedDay, a.header);
    HeaderStart(id.number, a.element, id.issuedDay, a.header);
    ReadsField(header, GdpFields(a), ["", Collapse(a.period), id.signedAt], k);
  }

  lemma GdpReadsOpening(a: Gdp, id: Ident, k: nat)
    requires k < 8
    ensures |GdpOpening(a)| == 8 && Read(GdpLines(a, id), GdpOpening(a)[k].0) == Some(GdpOpening(a)[k].1)
  {
    hide GdpOpening, GdpScope, Flights, Read, GdpLines;
    GdpOpeningPlaces(a);
    GdpReadsField(a, id, k);
    assert GdpFields(a)[k] == GdpOpening(a)[k];
  }

  lemma GdpReadsScope(a: Gdp, id: Ident, k: nat)
    requires k < 10
    ensures |GdpScope(a)| == 10 && Read(GdpLines(a, id), GdpScope(a)[k].0) == Some(GdpScope(a)[k].1)
  {
    hide GdpOpening, GdpScope, Flights, Read, GdpLines;
    GdpOpeningPlaces(a);
    GdpScopePlaces(a);
    var at := 8 + |Flights(a.flightsIncluded)| + k;
    GdpReadsField(a, id, at);
    assert GdpFields(a)[at] == GdpScope(a)[k];
  }

  /** Under each label before its flights, a delay program's document says that field of it: in capitals, or as typed
      when it may be blank. */
  lemma GdpOpeningReads(a: Gdp, id: Ident)
    requires id.Valid()
    ensures
      var lines := Lines(Join(GdpLines(a, id), "\n"));
      && Read(lines, "CTL ELEMENT") == Some(Some(Clean(a.controlElement)))
      && Read(lines, "ELEMENT TYPE") == Some(Some(Clean(a.elementType)))
      && Read(lines, "ADL TIME") == Some(Some(Clean(a.adlTime)))
      && Read(lines, "DELAY ASSIGNMENT MODE") == Some(Some(Clean(a.delayAssignmentMode)))
      && Read(lines, "ARRIVALS ESTIMATED FOR") == Some(Some(Clean(a.arrivalsEstimatedFor)))
      && Read(lines, "CUMULATIVE PROGRAM PERIOD") == Some(Some(Clean(a.cumulativeProgramPeriod)))
      && Read(lines, "PROGRAM RATE") == Some(Some(Clean(a.programRate)))
      && Read(lines, "POP-UP FACTOR") == Some(Opt(a.popUpFactor))
  {
    hide Read, Lines, Join, Clean, Opt, GdpLines;
    GdpShape(a, id);
    GdpReadsOpening(a, id, 0);
    GdpReadsOpening(a, id, 1);
    GdpReadsOpening(a, id, 2);
    GdpReadsOpening(a, id, 3);
    GdpReadsOpening(a, id, 4);
    GdpReadsOpening(a, id, 5);
    GdpReadsOpening(a, id, 6);
    GdpReadsOpening(a, id, 7);
  }

  /** And under each label after them. */
  lemma GdpScopeReads(a: Gdp, id: Ident)
    requires id.Valid()
    ensures
      var lines := Lines(Join(GdpLines(a, id), "\n"));
      && Read(lines, "DEPARTURE SCOPE") == Some(Opt(a.departureScope))
      && Read(lines, "ADDITIONAL DEP FACILITIES INCLUDED") == Some(Opt(a.additionalDepFacilities))
      && Read(lines, "EXEMPT DEP FACILITIES") == Some(Opt(a.exemptDepFacilities))
      && Read(lines, "CANADIAN ARPTS INCLUDED") == Some(Opt(a.canadianArpts))
      && Read(lines, "DELAY ASSIGNMENT TABLE APPLIES TO") == Some(Opt(a.tableAppliesTo))
      && Read(lines, "DELAY LIMIT") == Some(Opt(a.delayLimit))
      && Read(lines, "MAXIMUM DELAY") == Some(Opt(a.maximumDelay))
      && Read(lines, "AVERAGE DELAY") == Some(Opt(a.averageDelay))
      && Read(lines, "IMPACTING CONDITION") == Some(Opt(a.impactingCondition))
      && Read(lines, "COMMENTS") == Some(Opt(a.comments))
  {
    hide Read, Lines, Join, Opt, GdpLines;
    GdpShape(a, id);
    GdpReadsScope(a, id, 0);
    GdpReadsScope(a, id, 1);
    GdpReadsScope(a, id, 2);
    GdpReadsScope(a, id, 3);
    GdpReadsScope(a, id, 4);
    GdpReadsScope(a, id, 5);
    GdpReadsScope(a, id, 6);
    GdpReadsScope(a, id, 7);
    GdpReadsScope(a, id, 8);
    GdpReadsScope(a, id, 9);
  }

  /** Its flight entries read back, each on a line of its own. */
  lemma GdpFlightsRead(a: Gdp, id: Ident)
    requires id.Valid()
    ensures ShowsFlights(a.flightsIncluded, ReadRun(Lines(Join(GdpLines(a, id), "\n")), "FLT INCL"))
  {
    hide ShowsFlights, ReadRun, Lines, Join, GdpLines, Header, Collapse, Carries, Value, Label, Flights, GdpPlace,
      IsLabel,
      GdpOpening, GdpScope, Labels;
    GdpShape(a, id);
    GdpLinesAreLabels(a, id);
    GdpOpeningPlaces(a);
    GdpScopePlaces(a);
    GdpRateLabels();
    FlightsShow(a.flightsIncluded);
    HeaderStart(id.number, a.element, id.issuedDay, a.header);
    RunWithin(Header(id.number, a.element, id.issuedDay, a.header), GdpOpening(a), Flights(a.flightsIncluded),
              GdpScope(a),
              ["", Collapse(a.period), id.signedAt], "FLT INCL");
  }

  /** Its first line is its header, and its last three are a blank, its period and the instant it was signed. */
  lemma GdpEndsRead(a: Gdp, id: Ident)
    requires id.Valid()
    ensures
      var lines := Lines(Join(GdpLines(a, id), "\n"));
      && |lines| > 3 && lines[|lines| - 3..] == ["", Collapse(a.period), id.signedAt]
      && lines[0] == "vATCSCC ADVZY " + Signed(id.number, 3) + " " + Clean(a.element) + " " + id.issuedDay + " "
                     + Clean(a.header)
  {
    hide Lines, Join, Collapse, Clean, Labels, FltIncl, GdpOpening, GdpScope, Signed;
    GdpShape(a, id);
  }

  // ---- A ground stop ---------------------------------------------------------------------------

  /** Which of a ground stop's labels a name is, told by its length and its first letter. */
  function GroundStopPlace(name: string): int
    requires name != ""
  {
    match (|name|, name[0])
    case (11, 'C') => 0
    case (12, 'E') => 1
    case (8, 'A') => 2
    case (18, 'G') => 3
    case (25, 'C') => 4
    case (8, 'F') => 5
    case (34, 'A') => 6
    case (38, 'C') => 7
    case (39, 'P') => 8
    case (34, 'N') => 9
    case (24, 'P') => 10
    case (19, 'I') => 11
    case (8, 'C') => 12
    case _ => -1
  }

  predicate GroundStopLabel(name: string, place: int) {
    IsLabel(name) && GroundStopPlace(name) == place
  }

  lemma GroundStopOpeningLabels()
    ensures GroundStopLabel("CTL ELEMENT", 0) && GroundStopLabel("ELEMENT TYPE", 1) && GroundStopLabel("ADL TIME", 2)
    ensures GroundStopLabel("GROUND STOP PERIOD", 3) && GroundStopLabel("CUMULATIVE PROGRAM PERIOD", 4)
            && GroundStopLabel("FLT INCL", 5)
  {
  }

  lemma GroundStopDelaysLabels()
    ensures GroundStopLabel("ADDITIONAL DEP FACILITIES INCLUDED", 6)
            && GroundStopLabel("CURRENT TOTAL, MAXIMUM, AVERAGE DELAYS", 7)
    ensures GroundStopLabel("PREVIOUS TOTAL, MAXIMUM, AVERAGE DELAYS", 8)
  {
  }

  lemma GroundStopLastLabels()
    ensures GroundStopLabel("NEW TOTAL, MAXIMUM, AVERAGE DELAYS", 9) && GroundStopLabel("PROBABILITY OF EXTENSION", 10)
    ensures GroundStopLabel("IMPACTING CONDITION", 11) && GroundStopLabel("COMMENTS", 12)
  {
  }

  lemma GroundStopOpeningPlaces(a: GroundStop)
    ensures var f := GroundStopOpening(a); |f| == 5 && forall i :: 0 <= i < 5 ==> GroundStopLabel(f[i].0, i)
  {
    hide GroundStopLabel, Clean, Opt;
    GroundStopOpeningLabels();
  }

  lemma GroundStopDelaysPlaces(a: GroundStop)
    ensures var f := GroundStopDelays(a); |f| == 7 && forall i :: 0 <= i < 7 ==> GroundStopLabel(f[i].0, 6 + i)
  {
    hide GroundStopLabel, Opt;
    GroundStopDelaysLabels();
    GroundStopLastLabels();
  }

  lemma GroundStopFieldsLength(a: GroundStop)
    ensures |GroundStopFields(a)| >= 5
  {
    GroundStopOpeningPlaces(a);
    hide GroundStopOpening;
  }

  function GroundStopFields(a: GroundStop): seq<Field> {
    GroundStopOpening(a) + Flights(a.flightsIncluded) + GroundStopDelays(a)
  }

  lemma GroundStopLinesAreLabels(a: GroundStop, id: Ident)
    ensures GroundStopLines(a, id) == [Header(id.number, a.element, id.issuedDay, a.header)] + Labels(GroundStopFields(a))
                               + ["", Collapse(a.period), id.signedAt]
  {
    hide Header, Labels, GroundStopOpening, GroundStopDelays, FltIncl, Collapse, Flights;
    FlightsArePrinted(a.flightsIncluded);
    LabelsConcat(GroundStopOpening(a) + Flights(a.flightsIncluded), GroundStopDelays(a));
    LabelsConcat(GroundStopOpening(a), Flights(a.flightsIncluded));
  }

  /** The place of each label of a ground stop. */
  lemma GroundStopFieldPlace(a: GroundStop, k: nat)
    requires k < |GroundStopFields(a)|
    ensures var n := |Flights(a.flightsIncluded)|;
      GroundStopLabel(GroundStopFields(a)[k].0, if k < 5 then k else if k < 5 + n then 5 else k + 1 - n)
  {
    hide GroundStopLabel, GroundStopOpening, GroundStopDelays;
    GroundStopOpeningPlaces(a);
    GroundStopDelaysPlaces(a);
    GroundStopOpeningLabels();
    if |Flights(a.flightsIncluded)| <= k - 5 {
      assert GroundStopFields(a)[k] == GroundStopDelays(a)[k - 5 - |Flights(a.flightsIncluded)|];
    }
  }

  lemma GroundStopNamesDiffer(a: GroundStop, k: nat)
    requires k < 5 || 5 + |Flights(a.flightsIncluded)| <= k < |GroundStopFields(a)|
    ensures k < |GroundStopFields(a)| && IsLabel(GroundStopFields(a)[k].0)
    ensures forall j :: 0 <= j < k ==> IsLabel(GroundStopFields(a)[j].0) && GroundStopFields(a)[j].0 != GroundStopFields(a)[k].0
  {
    hide GroundStopPlace, GroundStopOpening, GroundStopFields, IsLabel, Flights;
    GroundStopFieldsLength(a);
    GroundStopFieldPlace(a, k);
    forall j | 0 <= j < k ensures IsLabel(GroundStopFields(a)[j].0) && GroundStopFields(a)[j].0 != GroundStopFields(a)[k].0 {
      GroundStopFieldPlace(a, j);
    }
  }

  lemma GroundStopReadsField(a: GroundStop, id: Ident, k: nat)
    requires k < 5 || 5 + |Flights(a.flightsIncluded)| <= k < |GroundStopFields(a)|
    ensures k < |GroundStopFields(a)|
    ensures Read(GroundStopLines(a, id), GroundStopFields(a)[k].0) == Some(GroundStopFields(a)[k].1)
  {
    hide GroundStopPlace, GroundStopOpening, Flights, Collapse, GroundStopFields, IsLabel, GroundStopLines, Header, Read, Labels, Label;
    GroundStopNamesDiffer(a, k);
    GroundStopLinesAreLabels(a, id);
    var header := Header(id.number, a.element, id.issuedDay, a.header);
    HeaderStart(id.number, a.element, id.issuedDay, a.header);
    ReadsField(header, GroundStopFields(a), ["", Collapse(a.period), id.signedAt], k);
  }

  lemma GroundStopReadsOpening(a: GroundStop, id: Ident, k: nat)
    requires k < 5
    ensures |GroundStopOpening(a)| == 5
            && Read(GroundStopLines(a, id), GroundStopOpening(a)[k].0) == Some(GroundStopOpening(a)[k].1)
  {
    hide GroundStopOpening, GroundStopDelays, Flights, Read, GroundStopLines;
    GroundStopOpeningPlaces(a);
    GroundStopReadsField(a, id, k);
    assert GroundStopFields(a)[k] == GroundStopOpening(a)[k];
  }

  lemma GroundStopReadsDelays(a: GroundStop, id: Ident, k: nat)
    requires k < 7
    ensures |GroundStopDelays(a)| == 7
            && Read(GroundStopLines(a, id), GroundStopDelays(a)[k].0) == Some(GroundStopDelays(a)[k].1)
  {
    hide GroundStopOpening, GroundStopDelays, Flights, Read, GroundStopLines;
    GroundStopOpeningPlaces(a);
    GroundStopDelaysPlaces(a);
    var at := 5 + |Flights(a.flightsIncluded)| + k;
    GroundStopReadsField(a, id, at);
    assert GroundStopFields(a)[at] == GroundStopDelays(a)[k];
  }

  /** Under each label before its flights, a ground stop's document says that field of it, in capitals. */
  lemma GroundStopOpeningReads(a: GroundStop, id: Ident)
    requires id.Valid()
    ensures
      var lines := Lines(Join(GroundStopLines(a, id), "\n"));
      && Read(lines, "CTL ELEMENT") == Some(Some(Clean(a.controlElement)))
      && Read(lines, "ELEMENT TYPE") == Some(Some(Clean(a.elementType)))
      && Read(lines, "ADL TIME") == Some(Some(Clean(a.adlTime)))
      && Read(lines, "GROUND STOP PERIOD") == Some(Some(Clean(a.groundStopPeriod)))
      && Read(lines, "CUMULATIVE PROGRAM PERIOD") == Some(Some(Clean(a.cumulativeProgramPeriod)))
  {
    hide Read, Lines, Join, Clean, GroundStopLines;
    GroundStopShape(a, id);
    GroundStopReadsOpening(a, id, 0);
    GroundStopReadsOpening(a, id, 1);
    GroundStopReadsOpening(a, id, 2);
    GroundStopReadsOpening(a, id, 3);
    GroundStopReadsOpening(a, id, 4);
  }

  /** And under each label after them, as typed. */
  lemma GroundStopDelaysReads(a: GroundStop, id: Ident)
    requires id.Valid()
    ensures
      var lines := Lines(Join(GroundStopLines(a, id), "\n"));
      && Read(lines, "ADDITIONAL DEP FACILITIES INCLUDED") == Some(Opt(a.additionalDepFacilities))
      && Read(lines, "CURRENT TOTAL, MAXIMUM, AVERAGE DELAYS") == Some(Opt(a.currentDelays))
      && Read(lines, "PREVIOUS TOTAL, MAXIMUM, AVERAGE DELAYS") == Some(Opt(a.previousDelays))
      && Read(lines, "NEW TOTAL, MAXIMUM, AVERAGE DELAYS") == Some(Opt(a.newDelays))
      && Read(lines, "PROBABILITY OF EXTENSION") == Some(Opt(a.probabilityOfExtension))
      && Read(lines, "IMPACTING CONDITION") == Some(Opt(a.impactingCondition))
      && Read(lines, "COMMENTS") == Some(Opt(a.comments))
  {
    hide Read, Lines, Join, Opt, GroundStopLines;
    GroundStopShape(a, id);
    GroundStopReadsDelays(a, id, 0);
    GroundStopReadsDelays(a, id, 1);
    GroundStopReadsDelays(a, id, 2);
    GroundStopReadsDelays(a, id, 3);
    GroundStopReadsDelays(a, id, 4);
    GroundStopReadsDelays(a, id, 5);
    GroundStopReadsDelays(a, id, 6);
  }

  /** Its flight entries read back, each on a line of its own. */
  lemma GroundStopFlightsRead(a: GroundStop, id: Ident)
    requires id.Valid()
    ensures ShowsFlights(a.flightsIncluded, ReadRun(Lines(Join(GroundStopLines(a, id), "\n")), "FLT INCL"))
  {
    hide ShowsFlights, ReadRun, Lines, Join, GroundStopLines, Header, Collapse, Carries, Value, Label, Flights,
      GroundStopPlace, IsLabel,
      GroundStopOpening, GroundStopDelays, Labels;
    GroundStopShape(a, id);
    GroundStopLinesAreLabels(a, id);
    GroundStopOpeningPlaces(a);
    GroundStopDelaysPlaces(a);
    GroundStopOpeningLabels();
    FlightsShow(a.flightsIncluded);
    HeaderStart(id.number, a.element, id.issuedDay, a.header);
    RunWithin(Header(id.number, a.element, id.issuedDay, a.header), GroundStopOpening(a), Flights(a.flightsIncluded),
              GroundStopDelays(a),
              ["", Collapse(a.period), id.signedAt], "FLT INCL");
  }

  /** Its first line is its header, and its last three are a blank, its period and the instant it was signed. */
  lemma GroundStopEndsRead(a: GroundStop, id: Ident)
    requires id.Valid()
    ensures
      var lines := Lines(Join(GroundStopLines(a, id), "\n"));
      && |lines| > 3 && lines[|lines| - 3..] == ["", Collapse(a.period), id.signedAt]
      && lines[0] == "vATCSCC ADVZY " + Signed(id.number, 3) + " " + Clean(a.element) + " " + id.issuedDay + " "
                     + Clean(a.header)
  {
    hide Lines, Join, Collapse, Clean, Labels, FltIncl, GroundStopOpening, GroundStopDelays, Signed;
    GroundStopShape(a, id);
  }

  // ---- A reroute -------------------------------------------------------------------------------

  /** Which of a reroute's labels a name is, told by its length and its first letter. */
  function ReroutePlace(name: string): int
    requires name != ""
  {
    match (|name|, name[0])
    case (4, 'N') => 0
    case (13, 'I') => 1
    case (6, 'R') => 2
    case (15, 'I') => 3
    case (5, 'V') => 4
    case (19, 'F') => 5
    case (24, 'P') => 6
    case (7, 'R') => 7
    case (23, 'A') => 8
    case (13, 'M') => 9
    case _ => -1
  }

  predicate RerouteLabel(name: string, place: int) {
    IsLabel(name) && ReroutePlace(name) == place
  }

  lemma RerouteFirstLabels()
    ensures RerouteLabel("NAME", 0) && RerouteLabel("IMPACTED AREA", 1) && RerouteLabel("REASON", 2)
    ensures RerouteLabel("INCLUDE TRAFFIC", 3) && RerouteLabel("VALID", 4)
  {
  }

  lemma RerouteLastLabels()
    ensures RerouteLabel("FACILITIES INCLUDED", 5) && RerouteLabel("PROBABILITY OF EXTENSION", 6)
    ensures RerouteLabel("REMARKS", 7) && RerouteLabel("ASSOCIATED RESTRICTIONS", 8) && RerouteLabel("MODIFICATIONS", 9)
  {
  }

  lemma ReroutePlaces(a: Reroute)
    ensures var f := RerouteFields(a); |f| == 10 && forall i :: 0 <= i < 10 ==> RerouteLabel(f[i].0, i)
  {
    hide RerouteLabel, Clean, Opt, ValidText;
    RerouteFirstLabels();
    RerouteLastLabels();
  }

  lemma RerouteReadsField(a: Reroute, id: Ident, k: nat)
    requires k < 10
    ensures |RerouteFields(a)| == 10 && Read(RerouteLines(a, id), RerouteFields(a)[k].0) == Some(RerouteFields(a)[k].1)
  {
    ReroutePlaces(a);
    hide ReroutePlace, RerouteFields, RouteSection, RerouteSignature, IsLabel, Header, Read, Labels;
    HeaderStart(id.number, id.facility, id.issuedDay, a.header);
    var rest := RouteSection(a.routes) + RerouteSignature(a, id);
    ReadsField(Header(id.number, id.facility, id.issuedDay, a.header), RerouteFields(a), rest, k);
    assert RerouteLines(a, id)
        == [Header(id.number, id.facility, id.issuedDay, a.header)] + Labels(RerouteFields(a)) + rest;
  }

  /** Under each label a reroute's document says that field of it: in capitals, or as typed when it may be blank. */
  lemma RerouteReads(a: Reroute, id: Ident)
    requires id.Valid()
    ensures
      var lines := Lines(Join(RerouteLines(a, id), "\n"));
      && Read(lines, "NAME") == Some(Some(Clean(a.name)))
      && Read(lines, "IMPACTED AREA") == Some(Some(Clean(a.impactedArea)))
      && Read(lines, "REASON") == Some(Opt(a.reason))
      && Read(lines, "INCLUDE TRAFFIC") == Some(Opt(a.includeTraffic))
      && Read(lines, "FACILITIES INCLUDED") == Some(Opt(a.facilitiesIncluded))
      && Read(lines, "PROBABILITY OF EXTENSION") == Some(Opt(a.probabilityOfExtension))
      && Read(lines, "REMARKS") == Some(Opt(a.remarks))
      && Read(lines, "ASSOCIATED RESTRICTIONS") == Some(Opt(a.associatedRestrictions))
      && Read(lines, "MODIFICATIONS") == Some(Opt(a.modifications))
  {
    hide Read, Lines, Join, Clean, Opt, RerouteLines, ValidText;
    RerouteShape(a, id);
    RerouteReadsField(a, id, 0);
    RerouteReadsField(a, id, 1);
    RerouteReadsField(a, id, 2);
    RerouteReadsField(a, id, 3);
    RerouteReadsField(a, id, 5);
    RerouteReadsField(a, id, 6);
    RerouteReadsField(a, id, 7);
    RerouteReadsField(a, id, 8);
    RerouteReadsField(a, id, 9);
  }

  /** The period it is valid for, by departure time or by entry into the constrained area. */
  lemma RerouteValidReads(a: Reroute, id: Ident)
    requires id.Valid()
    ensures
      var (from, to) := (Collapse(a.valid.from), Collapse(a.valid.to));
      Read(Lines(Join(RerouteLines(a, id), "\n")), "VALID")
      == Some(Some(if a.valid.byFcaEntry then "FCA ENTRY TIME FROM " + from + " TO " + to
                   else "ETD " + from + " TO " + to))
  {
    hide Read, Lines, Join, Clean, Opt, RerouteLines, Collapse;
    RerouteShape(a, id);
    RerouteReadsField(a, id, 4);
  }

  /** Its first line is its header, and its last four are a blank, its identifier, its period and the instant it was
      signed. */
  lemma RerouteEndsRead(a: Reroute, id: Ident)
    requires id.Valid()
    ensures
      var lines := Lines(Join(RerouteLines(a, id), "\n"));
      && |lines| > 4
      && lines[|lines| - 4..] == ["", "TMI ID: RR" + Clean(id.facility) + Signed(id.number, 3),
                                  Collapse(a.valid.from) + "-" + Collapse(a.valid.to), id.signedAt]
      && lines[0] == "vATCSCC ADVZY " + Signed(id.number, 3) + " " + Clean(id.facility) + " " + id.issuedDay + " "
                     + Clean(a.header)
  {
    hide Lines, Join, Collapse, Clean, Labels, RouteSection, RerouteFields, Signed;
    RerouteShape(a, id);
  }

  /** A table set out from line `at`: its headings, a rule, and a line for each row. */
  ghost predicate TableAt(lines: seq<string>, at: nat, headings: seq<string>, widths: seq<nat>, rows: seq<seq<string>>)
    requires |headings| == |widths| + 1 && Fits(rows, widths)
  {
    && at + 2 + |rows| <= |lines|
    && lines[at] == TableLine(headings, widths) && lines[at + 1] == TableLine(Rule(headings), widths)
    && forall k :: 0 <= k < |rows| ==> lines[at + 2 + k] == TableLine(rows[k], widths)
  }

  lemma TableIsAt(before: seq<string>, headings: seq<string>, widths: seq<nat>, rows: seq<seq<string>>,
    after: seq<string>)
    requires |headings| == |widths| + 1 && Fits(rows, widths)
    ensures TableAt(before + Table(headings, widths, rows) + after, |before|, headings, widths, rows)
  {
    hide TableLine, Rule;
    var all := [headings, Rule(headings)] + rows;
    assert all[0] == headings && all[1] == Rule(headings);
    forall k | 0 <= k < |rows|
      ensures (before + Table(headings, widths, rows) + after)[|before| + 2 + k] == TableLine(rows[k], widths)
    {
      assert all[2 + k] == rows[k];
    }
  }

  function RouteRows(rows: seq<Row>): (cells: seq<seq<string>>)
    ensures Fits(cells, [9, 10])
  {
    seq(|rows|, k requires 0 <= k < |rows| => [Clean(rows[k].orig), Clean(rows[k].dest), Collapse(rows[k].route)])
  }

  /** The routes of a reroute, in a table of origins, destinations and routes. */
  lemma RerouteRowsRead(a: Reroute, id: Ident, rows: seq<Row>)
    requires id.Valid() && a.routes == Single(rows)
    ensures
      var lines := Lines(Join(RerouteLines(a, id), "\n"));
      |lines| > 11 && lines[11] == "ROUTE:" && TableAt(lines, 12, ["ORIG", "DEST", "ROUTE"], [9, 10], RouteRows(rows))
  {
    hide Lines, Join, Labels, RerouteFields, RerouteSignature, Header, Clean, Collapse, TableAt, Table;
    RerouteShape(a, id);
    ReroutePlaces(a);
    var cells := RouteRows(rows);
    assert cells == RowCells(rows);
    var before := [Header(id.number, id.facility, id.issuedDay, a.header)] + Labels(RerouteFields(a)) + ["ROUTE:"];
    TableIsAt(before, ["ORIG", "DEST", "ROUTE"], [9, 10], cells, RerouteSignature(a, id));
    assert RerouteLines(a, id)
        == before + Table(["ORIG", "DEST", "ROUTE"], [9, 10], cells) + RerouteSignature(a, id);
  }

  function Segments(rows: seq<Segment>): (cells: seq<seq<string>>)
    ensures Fits(cells, [12])
  {
    seq(|rows|, k requires 0 <= k < |rows| => [Clean(rows[k].orig), Collapse(rows[k].route)])
  }

  /** Or in two tables, of segments from the origins and of segments to the destinations, with a blank line between. */
  lemma RerouteSegmentsRead(a: Reroute, id: Ident, origin: seq<Segment>, destination: seq<Segment>)
    requires id.Valid() && a.routes == Segmented(origin, destination)
    ensures
      var lines, n := Lines(Join(RerouteLines(a, id), "\n")), 14 + |origin|;
      && |lines| > n && lines[11] == "ROUTE:" && lines[n] == ""
      && TableAt(lines, 12, ["ORIG", "ROUTE - ORIGIN SEGMENTS"], [12], Segments(origin))
      && TableAt(lines, n + 1, ["ORIG", "ROUTE - DESTINATION SEGMENTS"], [12], Segments(destination))
  {
    hide Lines, Join, Labels, RerouteFields, RerouteSignature, Header, Clean, Collapse, TableAt, Table;
    RerouteShape(a, id);
    ReroutePlaces(a);
    assert Segments(origin) == SegmentCells(origin) && Segments(destination) == SegmentCells(destination);
    var before := [Header(id.number, id.facility, id.issuedDay, a.header)] + Labels(RerouteFields(a)) + ["ROUTE:"];
    var one := Table(["ORIG", "ROUTE - ORIGIN SEGMENTS"], [12], SegmentCells(origin));
    var two := Table(["ORIG", "ROUTE - DESTINATION SEGMENTS"], [12], SegmentCells(destination));
    TableIsAt(before, ["ORIG", "ROUTE - ORIGIN SEGMENTS"], [12], SegmentCells(origin),
              [""] + two + RerouteSignature(a, id));
    TableIsAt(before + one + [""], ["ORIG", "ROUTE - DESTINATION SEGMENTS"], [12], SegmentCells(destination),
              RerouteSignature(a, id));
    assert RerouteLines(a, id) == before + one + ([""] + two + RerouteSignature(a, id));
    assert RerouteLines(a, id) == before + one + [""] + two + RerouteSignature(a, id);
  }
}
