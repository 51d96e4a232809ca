/** Whole advisory documents: reroute, ground delay program and ground stop (`render_reroute`, `render_gdp`
    and `render_ground_stop` in `backend/src/advisory.rs`). */
module AdvisoryDocuments {
  import opened Wrappers
  import opened Text
  import opened Decimals
  import opened Advisory

  /** Who issued the advisory and when; the two dates are already formatted. */
  datatype Ident = Ident(facility: string, number: int, issuedDay: string, signedAt: string) {
    predicate Valid() {
      OneLine(issuedDay) && OneLine(signedAt)
    }
  }

  function Number(n: int): string {
    Signed(n, 3)
  }

  function Label(name: string, value: Option<string>): string {
    if value.Some? then name + ": " + value.value else name + ":"
  }

  /** A label and its value, for each of a run of lines. */
  type Field = (string, Option<string>)

  function Labels(fields: seq<Field>): (lines: seq<string>)
    ensures |lines| == |fields|
    ensures forall i :: 0 <= i < |fields| ==> lines[i] == Label(fields[i].0, fields[i].1)
  {
    if fields == [] then [] else [Label(fields[0].0, fields[0].1)] + Labels(fields[1..])
  }

  function Header(number: int, element: string, day: string, header: string): string {
    "vATCSCC ADVZY " + Number(number) + " " + Clean(element) + " " + day + " " + Clean(header)
  }

  // ---- Reroute ---------------------------------------------------------------------------------

  datatype Row = Row(orig: string, dest: string, route: string)

  datatype Segment = Segment(orig: string, route: string)

  datatype Routes = Single(rows: seq<Row>) | Segmented(origin: seq<Segment>, destination: seq<Segment>)

  datatype Period = Period(byFcaEntry: bool, from: string, to: string)

  datatype Reroute = Reroute(
    header: string, name: string, impactedArea: string, reason: Option<string>, includeTraffic: Option<string>,
    valid: Period, facilitiesIncluded: Option<string>, probabilityOfExtension: Option<string>,
    remarks: Option<string>, associatedRestrictions: Option<string>, modifications: Option<string>, routes: Routes)

  function RowCells(rows: seq<Row>): (cells: seq<seq<string>>)
    ensures |cells| == |rows| && Fits(cells, [9, 10])
    ensures forall i :: 0 <= i < |rows| ==> cells[i] == [Clean(rows[i].orig), Clean(rows[i].dest), Collapse(rows[i].route)]
  {
    if rows == [] then []
    else [[Clean(rows[0].orig), Clean(rows[0].dest), Collapse(rows[0].route)]] + RowCells(rows[1..])
  }

  function SegmentCells(rows: seq<Segment>): (cells: seq<seq<string>>)
    ensures |cells| == |rows| && Fits(cells, [12])
    ensures forall i :: 0 <= i < |rows| ==> cells[i] == [Clean(rows[i].orig), Collapse(rows[i].route)]
  {
    if rows == [] then [] else [[Clean(rows[0].orig), Collapse(rows[0].route)]] + SegmentCells(rows[1..])
  }

  function RouteSection(routes: Routes): seq<string> {
    match routes
    case Single(rows) => ["ROUTE:"] + Table(["ORIG", "DEST", "ROUTE"], [9, 10], RowCells(rows))
    case Segmented(origin, destination) =>
      ["ROUTE:"] + Table(["ORIG", "ROUTE - ORIGIN SEGMENTS"], [12], SegmentCells(origin))
      + [""] + Table(["ORIG", "ROUTE - DESTINATION SEGMENTS"], [12], SegmentCells(destination))
  }

  function ValidText(v: Period): string {
    if v.byFcaEntry then "FCA ENTRY TIME FROM " + Collapse(v.from) + " TO " + Collapse(v.to)
    else "ETD " + Collapse(v.from) + " TO " + Collapse(v.to)
  }

  function RerouteFields(a: Reroute): seq<Field> {
    [("NAME", Some(Clean(a.name))), ("IMPACTED AREA", Some(Clean(a.impactedArea))), ("REASON", Opt(a.reason)),
     ("INCLUDE TRAFFIC", Opt(a.includeTraffic)), ("VALID", Some(ValidText(a.valid))),
     ("FACILITIES INCLUDED", Opt(a.facilitiesIncluded)), ("PROBABILITY OF EXTENSION", Opt(a.probabilityOfExtension)),
     ("REMARKS", Opt(a.remarks)), ("ASSOCIATED RESTRICTIONS", Opt(a.associatedRestrictions)),
     ("MODIFICATIONS", Opt(a.modifications))]
  }

  function RerouteSignature(a: Reroute, id: Ident): seq<string> {
    ["", "TMI ID: RR" + Clean(id.facility) + Number(id.number),
     Collapse(a.valid.from) + "-" + Collapse(a.valid.to), id.signedAt]
  }

  function RerouteLines(a: Reroute, id: Ident): seq<string> {
    [Header(id.number, id.facility, id.issuedDay, a.header)] + Labels(RerouteFields(a)) + RouteSection(a.routes)
    + RerouteSignature(a, id)
  }

  // ---- Ground delay program and ground stop ----------------------------------------------------

  datatype Gdp = Gdp(
    header: string, element: string, controlElement: string, elementType: string, adlTime: string,
    delayAssignmentMode: string, arrivalsEstimatedFor: string, cumulativeProgramPeriod: string, programRate: string,
    popUpFactor: Option<string>, flightsIncluded: seq<string>, departureScope: Option<string>,
    additionalDepFacilities: Option<string>, exemptDepFacilities: Option<string>, canadianArpts: Option<string>,
    tableAppliesTo: Option<string>, delayLimit: Option<string>, maximumDelay: Option<string>,
    averageDelay: Option<string>, impactingCondition: Option<string>, comments: Option<string>, period: string)

  datatype GroundStop = GroundStop(
    header: string, element: string, controlElement: string, elementType: string, adlTime: string,
    groundStopPeriod: string, cumulativeProgramPeriod: string, flightsIncluded: seq<string>,
    additionalDepFacilities: Option<string>, currentDelays: Option<string>, previousDelays: Option<string>,
    newDelays: Option<string>, probabilityOfExtension: Option<string>, impactingCondition: Option<string>,
    comments: Option<string>, period: string)

  /** The entries that are not blank, collapsed. */
  function Printed(entries: seq<string>): (r: seq<string>)
    ensures forall i :: 0 <= i < |r| ==> r[i] != ""
  {
    if entries == [] then []
    else
      Printed(entries[..|entries| - 1])
      + if Collapse(entries[|entries| - 1]) != "" then [Collapse(entries[|entries| - 1])] else []
  }

  function FltIncl(entries: seq<string>): (lines: seq<string>)
    ensures |lines| == if |Printed(entries)| > 1 then |Printed(entries)| else 1
  {
    if Printed(entries) == [] then ["FLT INCL:"] else Labels(Included(Printed(entries)))
  }

  function Included(printed: seq<string>): (fields: seq<Field>)
    ensures |fields| == |printed| && forall i :: 0 <= i < |printed| ==> fields[i] == ("FLT INCL", Some(printed[i]))
  {
    if printed == [] then [] else [("FLT INCL", Some(printed[0]))] + Included(printed[1..])
  }

  function GdpOpening(a: Gdp): seq<Field> {
    [("CTL ELEMENT", Some(Clean(a.controlElement))), ("ELEMENT TYPE", Some(Clean(a.elementType))),
     ("ADL TIME", Some(Clean(a.adlTime))), ("DELAY ASSIGNMENT MODE", Some(Clean(a.delayAssignmentMode))),
     ("ARRIVALS ESTIMATED FOR", Some(Clean(a.arrivalsEstimatedFor))),
     ("CUMULATIVE PROGRAM PERIOD", Some(Clean(a.cumulativeProgramPeriod))),
     ("PROGRAM RATE", Some(Clean(a.programRate))), ("POP-UP FACTOR", Opt(a.popUpFactor))]
  }

  function GdpScope(a: Gdp): seq<Field> {
    [("DEPARTURE SCOPE", Opt(a.departureScope)), ("ADDITIONAL DEP FACILITIES INCLUDED", Opt(a.additionalDepFacilities)),
     ("EXEMPT DEP FACILITIES", Opt(a.exemptDepFacilities)), ("CANADIAN ARPTS INCLUDED", Opt(a.canadianArpts)),
     ("DELAY ASSIGNMENT TABLE APPLIES TO", Opt(a.tableAppliesTo)), ("DELAY LIMIT", Opt(a.delayLimit)),
     ("MAXIMUM DELAY", Opt(a.maximumDelay)), ("AVERAGE DELAY", Opt(a.averageDelay)),
     ("IMPACTING CONDITION", Opt(a.impactingCondition)), ("COMMENTS", Opt(a.comments))]
  }

  function GdpLines(a: Gdp, id: Ident): seq<string> {
    [Header(id.number, a.element, id.issuedDay, a.header)] + Labels(GdpOpening(a)) + FltIncl(a.flightsIncluded)
    + Labels(GdpScope(a)) + ["", Collapse(a.period), id.signedAt]
  }

  function GroundStopOpening(a: GroundStop): seq<Field> {
    [("CTL ELEMENT", Some(Clean(a.controlElement))), ("ELEMENT TYPE", Some(Clean(a.elementType))),
     ("ADL TIME", Some(Clean(a.adlTime))), ("GROUND STOP PERIOD", Some(Clean(a.groundStopPeriod))),
     ("CUMULATIVE PROGRAM PERIOD", Some(Clean(a.cumulativeProgramPeriod)))]
  }

  function GroundStopDelays(a: GroundStop): seq<Field> {
    [("ADDITIONAL DEP FACILITIES INCLUDED", Opt(a.additionalDepFacilities)),
     ("CURRENT TOTAL, MAXIMUM, AVERAGE DELAYS", Opt(a.currentDelays)),
     ("PREVIOUS TOTAL, MAXIMUM, AVERAGE DELAYS", Opt(a.previousDelays)),
     ("NEW TOTAL, MAXIMUM, AVERAGE DELAYS", Opt(a.newDelays)),
     ("PROBABILITY OF EXTENSION", Opt(a.probabilityOfExtension)),
     ("IMPACTING CONDITION", Opt(a.impactingCondition)), ("COMMENTS", Opt(a.comments))]
  }

  function GroundStopLines(a: GroundStop, id: Ident): seq<string> {
    [Header(id.number, a.element, id.issuedDay, a.header)] + Labels(GroundStopOpening(a)) + FltIncl(a.flightsIncluded)
    + Labels(GroundStopDelays(a)) + ["", Collapse(a.period), id.signedAt]
  }

  // ---- The renderers ---------------------------------------------------------------------------

  method PrintRows(rows: seq<Row>) returns (cells: seq<seq<string>>)
    ensures cells == RowCells(rows)
  {
    cells := [];
    for i := 0 to |rows|
      invariant |cells| == i
      invariant forall k :: 0 <= k < i ==> cells[k] == [Clean(rows[k].orig), Clean(rows[k].dest), Collapse(rows[k].route)]
    {
      cells := cells + [[Clean(rows[i].orig), Clean(rows[i].dest), Collapse(rows[i].route)]];
    }
  }

  method PrintSegments(rows: seq<Segment>) returns (cells: seq<seq<string>>)
    ensures cells == SegmentCells(rows)
  {
    cells := [];
    for i := 0 to |rows|
      invariant |cells| == i
      invariant forall k :: 0 <= k < i ==> cells[k] == [Clean(rows[k].orig), Collapse(rows[k].route)]
    {
      cells := cells + [[Clean(rows[i].orig), Collapse(rows[i].route)]];
    }
  }

  method PrintRouteSection(routes: Routes) returns (out: seq<string>)
    ensures out == RouteSection(routes)
  {
    out := ["ROUTE:"];
    match routes {
      case Single(rows) =>
        var cells := PrintRows(rows);
        var table := PrintTable(["ORIG", "DEST", "ROUTE"], [9, 10], cells);
        out := out + table;
      case Segmented(origin, destination) =>
        var cells := PrintSegments(origin);
        var table := PrintTable(["ORIG", "ROUTE - ORIGIN SEGMENTS"], [12], cells);
        out := out + table;
        out := out + [""];
        cells := PrintSegments(destination);
        table := PrintTable(["ORIG", "ROUTE - DESTINATION SEGMENTS"], [12], cells);
        out := out + table;
    }
  }

  method PrintLabels(fields: seq<Field>) returns (out: seq<string>)
    ensures out == Labels(fields)
  {
    out := [];
    for i := 0 to |fields|
      invariant |out| == i
      invariant forall k :: 0 <= k < i ==> out[k] == Label(fields[k].0, fields[k].1)
    {
      out := out + [Label(fields[i].0, fields[i].1)];
    }
  }

  method PrintFltIncl(entries: seq<string>) returns (out: seq<string>)
    ensures out == FltIncl(entries)
  {
    out := [];
    for i := 0 to |entries|
      invariant |out| == |Printed(entries[..i])|
      invariant forall k :: 0 <= k < |out| ==> out[k] == Label("FLT INCL", Some(Printed(entries[..i])[k]))
    {
      var e := Collapse(entries[i]);
      assert entries[..i + 1][..i] == entries[..i];
      assert "FLT INCL" + ": " == "FLT INCL: ";
      if e != "" {
        out := out + ["FLT INCL: " + e];
      }
    }
    assert entries[..|entries|] == entries;
    if out == [] {
      out := ["FLT INCL:"];
    }
  }

  method RenderReroute(a: Reroute, id: Ident) returns (document: string)
    ensures document == Join(RerouteLines(a, id), "\n")
  {
    var lines := [Header(id.number, id.facility, id.issuedDay, a.header)];
    var labels := PrintLabels(RerouteFields(a));
    lines := lines + labels;
    var section := PrintRouteSection(a.routes);
    lines := lines + section;
    lines := lines + RerouteSignature(a, id);
    document := Join(lines, "\n");
  }

  method RenderGdp(a: Gdp, id: Ident) returns (document: string)
    ensures document == Join(GdpLines(a, id), "\n")
  {
    var lines := [Header(id.number, a.element, id.issuedDay, a.header)];
    var labels := PrintLabels(GdpOpening(a));
    lines := lines + labels;
    var flights := PrintFltIncl(a.flightsIncluded);
    lines := lines + flights;
    labels := PrintLabels(GdpScope(a));
    lines := lines + labels;
    lines := lines + ["", Collapse(a.period), id.signedAt];
    document := Join(lines, "\n");
  }

  method RenderGroundStop(a: GroundStop, id: Ident) returns (document: string)
    ensures document == Join(GroundStopLines(a, id), "\n")
  {
    var lines := [Header(id.number, a.element, id.issuedDay, a.header)];
    var labels := PrintLabels(GroundStopOpening(a));
    lines := lines + labels;
    var flights := PrintFltIncl(a.flightsIncluded);
    lines := lines + flights;
    labels := PrintLabels(GroundStopDelays(a));
    lines := lines + labels;
    lines := lines + ["", Collapse(a.period), id.signedAt];
    document := Join(lines, "\n");
  }

  // ---- One line each ---------------------------------------------------------------------------

  ghost predicate OneLineField(f: Field) {
    OneLine(f.0) && (f.1.Some? ==> OneLine(f.1.value))
  }

  lemma LabelsAreOneLine(fields: seq<Field>)
    requires forall i :: 0 <= i < |fields| ==> OneLineField(fields[i])
    ensures AllOneLine(Labels(fields))
  {
    hide OneLine;
    forall i | 0 <= i < |fields| ensures OneLine(Label(fields[i].0, fields[i].1)) {
      assert OneLineField(fields[i]);
      LabelIsOneLine(fields[i].0, fields[i].1);
    }
  }

  lemma LabelIsOneLine(name: string, value: Option<string>)
    requires OneLine(name) && (value.Some? ==> OneLine(value.value))
    ensures OneLine(Label(name, value))
  {
    assert OneLine(": ") && OneLine(":");
    hide OneLine;
    ConcatIsOneLine(name, ": ");
    ConcatIsOneLine(name, ":");
    if value.Some? {
      ConcatIsOneLine(name + ": ", value.value);
    }
  }

  lemma RerouteNames()
    ensures OneLine("NAME") && OneLine("IMPACTED AREA") && OneLine("REASON") && OneLine("INCLUDE TRAFFIC")
    ensures OneLine("VALID") && OneLine("REMARKS") && OneLine("MODIFICATIONS")
  {
  }

  lemma LongRerouteNames()
    ensures OneLine("FACILITIES INCLUDED") && OneLine("PROBABILITY OF EXTENSION") && OneLine("ASSOCIATED RESTRICTIONS")
  {
  }

  lemma OpeningNames()
    ensures OneLine("CTL ELEMENT") && OneLine("ELEMENT TYPE") && OneLine("ADL TIME") && OneLine("GROUND STOP PERIOD")
    ensures OneLine("CUMULATIVE PROGRAM PERIOD")
  {
  }

  lemma GdpOpeningNames()
    ensures OneLine("DELAY ASSIGNMENT MODE") && OneLine("ARRIVALS ESTIMATED FOR") && OneLine("PROGRAM RATE")
    ensures OneLine("POP-UP FACTOR")
  {
  }

  lemma GdpScopeNames()
    ensures OneLine("DEPARTURE SCOPE") && OneLine("EXEMPT DEP FACILITIES") && OneLine("CANADIAN ARPTS INCLUDED")
    ensures OneLine("DELAY LIMIT") && OneLine("MAXIMUM DELAY")
  {
  }

  lemma LongScopeNames()
    ensures OneLine("DELAY ASSIGNMENT TABLE APPLIES TO") && OneLine("ADDITIONAL DEP FACILITIES INCLUDED")
    ensures OneLine("AVERAGE DELAY") && OneLine("IMPACTING CONDITION") && OneLine("COMMENTS")
  {
  }

  lemma DelayNames()
    ensures OneLine("CURRENT TOTAL, MAXIMUM, AVERAGE DELAYS")
    ensures OneLine("PREVIOUS TOTAL, MAXIMUM, AVERAGE DELAYS")
    ensures OneLine("NEW TOTAL, MAXIMUM, AVERAGE DELAYS")
  {
  }

  lemma Texts()
    ensures OneLine("") && OneLine("ROUTE:") && OneLine("TMI ID: RR") && OneLine("-") && OneLine(" ")
    ensures OneLine("vATCSCC ADVZY ") && OneLine("FCA ENTRY TIME FROM ") && OneLine(" TO ") && OneLine("ETD ")
    ensures OneLine("FLT INCL") && OneLine("FLT INCL:")
  {
  }

  lemma Values(s: string)
    ensures OneLine(Clean(s)) && OneLine(Collapse(s))
  {
    CleanIsOneLine(s);
    CollapsedIsOneLine(s);
  }

  lemma OptValue(s: Option<string>)
    ensures Opt(s).Some? ==> OneLine(Opt(s).value)
  {
    OptOfCollapsed(s);
  }

  lemma ValidTextIsOneLine(v: Period)
    ensures OneLine(ValidText(v))
  {
    Values(v.from);
    Values(v.to);
    Texts();
    hide OneLine, Collapse;
    var lead := if v.byFcaEntry then "FCA ENTRY TIME FROM " else "ETD ";
    ConcatIsOneLine(lead, Collapse(v.from));
    ConcatIsOneLine(lead + Collapse(v.from), " TO ");
    ConcatIsOneLine(lead + Collapse(v.from) + " TO ", Collapse(v.to));
  }

  lemma RerouteFieldsAreOneLine(a: Reroute)
    ensures AllOneLine(Labels(RerouteFields(a)))
  {
    hide OneLine, Clean, Opt, Collapse, ValidText, Labels;
    RerouteNames();
    LongRerouteNames();
    Values(a.name);
    Values(a.impactedArea);
    OptValue(a.reason);
    OptValue(a.includeTraffic);
    ValidTextIsOneLine(a.valid);
    OptValue(a.facilitiesIncluded);
    OptValue(a.probabilityOfExtension);
    OptValue(a.remarks);
    OptValue(a.associatedRestrictions);
    OptValue(a.modifications);
    LabelsAreOneLine(RerouteFields(a));
  }

  lemma GdpOpeningIsOneLine(a: Gdp)
    ensures AllOneLine(Labels(GdpOpening(a)))
  {
    hide OneLine, Clean, Opt, Collapse, Labels;
    OpeningNames();
    GdpOpeningNames();
    Values(a.controlElement);
    Values(a.elementType);
    Values(a.adlTime);
    Values(a.delayAssignmentMode);
    Values(a.arrivalsEstimatedFor);
    Values(a.cumulativeProgramPeriod);
    Values(a.programRate);
    OptValue(a.popUpFactor);
    LabelsAreOneLine(GdpOpening(a));
  }

  lemma GdpScopeIsOneLine(a: Gdp)
    ensures AllOneLine(Labels(GdpScope(a)))
  {
    hide OneLine, Clean, Opt, Collapse, Labels;
    GdpScopeNames();
    LongScopeNames();
    OptValue(a.departureScope);
    OptValue(a.additionalDepFacilities);
    OptValue(a.exemptDepFacilities);
    OptValue(a.canadianArpts);
    OptValue(a.tableAppliesTo);
    OptValue(a.delayLimit);
    OptValue(a.maximumDelay);
    OptValue(a.averageDelay);
    OptValue(a.impactingCondition);
    OptValue(a.comments);
    LabelsAreOneLine(GdpScope(a));
  }

  lemma GroundStopOpeningIsOneLine(a: GroundStop)
    ensures AllOneLine(Labels(GroundStopOpening(a)))
  {
    hide OneLine, Clean, Opt, Collapse, Labels;
    OpeningNames();
    Values(a.controlElement);
    Values(a.elementType);
    Values(a.adlTime);
    Values(a.groundStopPeriod);
    Values(a.cumulativeProgramPeriod);
    LabelsAreOneLine(GroundStopOpening(a));
  }

  lemma GroundStopDelaysAreOneLine(a: GroundStop)
    ensures AllOneLine(Labels(GroundStopDelays(a)))
  {
    hide OneLine, Clean, Opt, Collapse, Labels;
    LongScopeNames();
    LongRerouteNames();
    DelayNames();
    OptValue(a.additionalDepFacilities);
    OptValue(a.currentDelays);
    OptValue(a.previousDelays);
    OptValue(a.newDelays);
    OptValue(a.probabilityOfExtension);
    OptValue(a.impactingCondition);
    OptValue(a.comments);
    LabelsAreOneLine(GroundStopDelays(a));
  }

  lemma NumberIsOneLine(n: int)
    ensures OneLine(Number(n))
  {
    var digits := if n >= 0 then Padded(n, 3) else Padded(-n, 2);
    assert AllDigits(digits) && OneLine(digits);
  }

  lemma HeaderIsOneLine(number: int, element: string, day: string, header: string)
    requires OneLine(day)
    ensures OneLine(Header(number, element, day, header))
  {
    hide OneLine, Clean, Collapse, Number;
    Texts();
    NumberIsOneLine(number);
    Values(element);
    Values(header);
    var s := "vATCSCC ADVZY ";
    ConcatIsOneLine(s, Number(number));
    s := s + Number(number);
    ConcatIsOneLine(s, " ");
    s := s + " ";
    ConcatIsOneLine(s, Clean(element));
    s := s + Clean(element);
    ConcatIsOneLine(s, " ");
    s := s + " ";
    ConcatIsOneLine(s, day);
    s := s + day;
    ConcatIsOneLine(s, " ");
    s := s + " ";
    ConcatIsOneLine(s, Clean(header));
  }

  lemma {:induction false} TableLineIsOneLine(cells: seq<string>, widths: seq<nat>)
    requires |cells| == |widths| + 1
    ensures OneLine(TableLine(cells, widths))
  {
    hide OneLine, Collapse;
    Values(cells[0]);
    if widths != [] {
      TableLineIsOneLine(cells[1..], widths[1..]);
      ConcatIsOneLine(Collapse(cells[0]), Spaces(Wider(widths[0], Collapse(cells[0])) - |Collapse(cells[0])|));
      ConcatIsOneLine(Pad(Collapse(cells[0]), widths[0]), TableLine(cells[1..], widths[1..]));
    }
  }

  lemma TableIsOneLine(headings: seq<string>, widths: seq<nat>, rows: seq<seq<string>>)
    requires |headings| == |widths| + 1 && Fits(rows, widths)
    ensures AllOneLine(Table(headings, widths, rows))
  {
    hide OneLine;
    var all := [headings, Rule(headings)] + rows;
    forall i | 0 <= i < |all| ensures OneLine(TableLine(all[i], widths)) {
      TableLineIsOneLine(all[i], widths);
    }
  }

  lemma RouteSectionIsOneLine(routes: Routes)
    ensures AllOneLine(RouteSection(routes))
  {
    hide OneLine, Table;
    Texts();
    match routes
    case Single(rows) => TableIsOneLine(["ORIG", "DEST", "ROUTE"], [9, 10], RowCells(rows));
    case Segmented(origin, destination) =>
      TableIsOneLine(["ORIG", "ROUTE - ORIGIN SEGMENTS"], [12], SegmentCells(origin));
      TableIsOneLine(["ORIG", "ROUTE - DESTINATION SEGMENTS"], [12], SegmentCells(destination));
  }

  lemma {:induction false} PrintedAreOneLine(entries: seq<string>)
    ensures AllOneLine(Printed(entries))
  {
    hide OneLine, Collapse;
    if entries != [] {
      PrintedAreOneLine(entries[..|entries| - 1]);
      Values(entries[|entries| - 1]);
    }
  }

  lemma FltInclIsOneLine(entries: seq<string>)
    ensures AllOneLine(FltIncl(entries))
  {
    hide OneLine, Labels;
    Texts();
    PrintedAreOneLine(entries);
    LabelsAreOneLine(Included(Printed(entries)));
  }

  lemma RerouteSignatureIsOneLine(a: Reroute, id: Ident)
    requires id.Valid()
    ensures AllOneLine(RerouteSignature(a, id))
  {
    hide OneLine, Collapse, Clean, Number;
    Texts();
    Values(id.facility);
    Values(a.valid.from);
    Values(a.valid.to);
    NumberIsOneLine(id.number);
    ConcatIsOneLine("TMI ID: RR", Clean(id.facility));
    ConcatIsOneLine("TMI ID: RR" + Clean(id.facility), Number(id.number));
    ConcatIsOneLine(Collapse(a.valid.from), "-");
    ConcatIsOneLine(Collapse(a.valid.from) + "-", Collapse(a.valid.to));
  }

  // ---- The shape of a document -----------------------------------------------------------------

  /** However many line breaks its fields hold, a reroute splits into exactly the lines printed: 18 and one
      for each row, or 21 and one for each segment; the signature is the last. */
  lemma RerouteShape(a: Reroute, id: Ident)
    requires id.Valid()
    ensures
      var lines := Lines(Join(RerouteLines(a, id), "\n"));
      && lines == RerouteLines(a, id)
      && |lines| == (match a.routes
                     case Single(rows) => 18 + |rows|
                     case Segmented(origin, destination) => 21 + |origin| + |destination|)
      && lines[|lines| - 1] == id.signedAt
  {
    hide OneLine, Lines, Join, Labels, Table, RowCells, SegmentCells, Header, Collapse, Clean, Opt;
    HeaderIsOneLine(id.number, id.facility, id.issuedDay, a.header);
    RerouteFieldsAreOneLine(a);
    RouteSectionIsOneLine(a.routes);
    RerouteSignatureIsOneLine(a, id);
    LinesOfJoin(RerouteLines(a, id));
  }

  function AtLeastOne(n: nat): nat {
    if n > 1 then n else 1
  }

  /** A ground delay program has 22 lines and one for each flight entry that is not blank, or one bare. */
  lemma GdpShape(a: Gdp, id: Ident)
    requires id.Valid()
    ensures
      var lines := Lines(Join(GdpLines(a, id), "\n"));
      && lines == GdpLines(a, id) && |lines| == 22 + AtLeastOne(|Printed(a.flightsIncluded)|)
      && lines[|lines| - 1] == id.signedAt
  {
    hide OneLine, Lines, Join, Labels, FltIncl, Header, Collapse, Clean, Opt;
    HeaderIsOneLine(id.number, a.element, id.issuedDay, a.header);
    GdpOpeningIsOneLine(a);
    FltInclIsOneLine(a.flightsIncluded);
    GdpScopeIsOneLine(a);
    Values(a.period);
    Texts();
    LinesOfJoin(GdpLines(a, id));
  }

  /** A ground stop has 16, and the same for its flights. */
  lemma GroundStopShape(a: GroundStop, id: Ident)
    requires id.Valid()
    ensures
      var lines := Lines(Join(GroundStopLines(a, id), "\n"));
      && lines == GroundStopLines(a, id) && |lines| == 16 + AtLeastOne(|Printed(a.flightsIncluded)|)
      && lines[|lines| - 1] == id.signedAt
  {
    hide OneLine, Lines, Join, Labels, FltIncl, Header, Collapse, Clean, Opt;
    HeaderIsOneLine(id.number, a.element, id.issuedDay, a.header);
    GroundStopOpeningIsOneLine(a);
    FltInclIsOneLine(a.flightsIncluded);
    GroundStopDelaysAreOneLine(a);
    Values(a.period);
    Texts();
    LinesOfJoin(GroundStopLines(a, id));
  }
}
