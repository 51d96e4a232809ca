/** An advisory and its fully collapsed copy print the same document, and tables stay aligned exactly as
    long as their cells fit. */
module AdvisoryTheorems {
  import opened Wrappers
  import opened Text
  import opened Advisory
  import opened AdvisoryDocuments

  // ---- The collapsed copy ----------------------------------------------------------------------

  function CollapsedOpt(s: Option<string>): Option<string> {
    if s.None? then None else Some(Collapse(s.value))
  }

  function CollapsedIdent(id: Ident): Ident {
    id.(facility := Collapse(id.facility))
  }

  function CollapsedAll(ss: seq<string>): (r: seq<string>)
    ensures |r| == |ss| && forall i :: 0 <= i < |ss| ==> r[i] == Collapse(ss[i])
  {
    seq(|ss|, i requires 0 <= i < |ss| => Collapse(ss[i]))
  }

  function CollapsedRow(r: Row): Row {
    Row(Collapse(r.orig), Collapse(r.dest), Collapse(r.route))
  }

  function CollapsedSegment(s: Segment): Segment {
    Segment(Collapse(s.orig), Collapse(s.route))
  }

  function CollapsedSegments(rows: seq<Segment>): (r: seq<Segment>)
    ensures |r| == |rows| && forall i :: 0 <= i < |rows| ==> r[i] == CollapsedSegment(rows[i])
  {
    seq(|rows|, i requires 0 <= i < |rows| => CollapsedSegment(rows[i]))
  }

  function CollapsedRoutes(routes: Routes): Routes {
    match routes
    case Single(rows) => Single(seq(|rows|, i requires 0 <= i < |rows| => CollapsedRow(rows[i])))
    case Segmented(origin, destination) => Segmented(CollapsedSegments(origin), CollapsedSegments(destination))
  }

  function CollapsedReroute(a: Reroute): Reroute {
    Reroute(
      Collapse(a.header), Collapse(a.name), Collapse(a.impactedArea), CollapsedOpt(a.reason), CollapsedOpt(a.includeTraffic),
      a.valid.(from := Collapse(a.valid.from), to := Collapse(a.valid.to)), CollapsedOpt(a.facilitiesIncluded),
      CollapsedOpt(a.probabilityOfExtension), CollapsedOpt(a.remarks), CollapsedOpt(a.associatedRestrictions),
      CollapsedOpt(a.modifications), CollapsedRoutes(a.routes))
  }

  function CollapsedGdp(a: Gdp): Gdp {
    Gdp(
      Collapse(a.header), Collapse(a.element), Collapse(a.controlElement), Collapse(a.elementType), Collapse(a.adlTime),
      Collapse(a.delayAssignmentMode), Collapse(a.arrivalsEstimatedFor), Collapse(a.cumulativeProgramPeriod),
      Collapse(a.programRate), CollapsedOpt(a.popUpFactor), CollapsedAll(a.flightsIncluded),
      CollapsedOpt(a.departureScope), CollapsedOpt(a.additionalDepFacilities), CollapsedOpt(a.exemptDepFacilities),
      CollapsedOpt(a.canadianArpts), CollapsedOpt(a.tableAppliesTo), CollapsedOpt(a.delayLimit),
      CollapsedOpt(a.maximumDelay), CollapsedOpt(a.averageDelay), CollapsedOpt(a.impactingCondition),
      CollapsedOpt(a.comments), Collapse(a.period))
  }

  function CollapsedGroundStop(a: GroundStop): GroundStop {
    GroundStop(
      Collapse(a.header), Collapse(a.element), Collapse(a.controlElement), Collapse(a.elementType), Collapse(a.adlTime),
      Collapse(a.groundStopPeriod), Collapse(a.cumulativeProgramPeriod), CollapsedAll(a.flightsIncluded),
      CollapsedOpt(a.additionalDepFacilities), CollapsedOpt(a.currentDelays), CollapsedOpt(a.previousDelays),
      CollapsedOpt(a.newDelays), CollapsedOpt(a.probabilityOfExtension), CollapsedOpt(a.impactingCondition),
      CollapsedOpt(a.comments), Collapse(a.period))
  }

  // ---- Nothing printed changes -----------------------------------------------------------------

  lemma SameValue(s: string)
    ensures Clean(Collapse(s)) == Clean(s) && Collapse(Collapse(s)) == Collapse(s)
  {
    CleanIsCollapsed(s);
    CollapseIdempotent(s);
  }

  lemma SameOpt(s: Option<string>)
    ensures Opt(CollapsedOpt(s)) == Opt(s)
  {
    OptOfCollapsed(s);
  }

  lemma SameRows(rows: seq<Row>, copy: seq<Row>)
    requires |copy| == |rows| && forall i :: 0 <= i < |rows| ==> copy[i] == CollapsedRow(rows[i])
    ensures RowCells(copy) == RowCells(rows)
  {
    hide Clean, Collapse;
    forall i | 0 <= i < |rows| ensures RowCells(copy)[i] == RowCells(rows)[i] {
      SameValue(rows[i].orig);
      SameValue(rows[i].dest);
      SameValue(rows[i].route);
    }
  }

  lemma SameSegments(rows: seq<Segment>)
    ensures SegmentCells(CollapsedSegments(rows)) == SegmentCells(rows)
  {
    hide Clean, Collapse;
    forall i | 0 <= i < |rows| ensures SegmentCells(CollapsedSegments(rows))[i] == SegmentCells(rows)[i] {
      SameValue(rows[i].orig);
      SameValue(rows[i].route);
    }
  }

  lemma SameRoutes(routes: Routes)
    ensures RouteSection(CollapsedRoutes(routes)) == RouteSection(routes)
  {
    hide Table, CollapsedRow;
    match routes
    case Single(rows) => SameRows(rows, seq(|rows|, i requires 0 <= i < |rows| => CollapsedRow(rows[i])));
    case Segmented(origin, destination) =>
      SameSegments(origin);
      SameSegments(destination);
  }

  lemma {:induction false} SamePrinted(entries: seq<string>)
    ensures Printed(CollapsedAll(entries)) == Printed(entries)
  {
    hide Collapse;
    if entries != [] {
      var last := |entries| - 1;
      SamePrinted(entries[..last]);
      SameValue(entries[last]);
      assert CollapsedAll(entries)[..last] == CollapsedAll(entries[..last]);
    }
  }

  lemma SameRerouteFields(a: Reroute)
    ensures RerouteFields(CollapsedReroute(a)) == RerouteFields(a)
  {
    hide Clean, Collapse, Opt, CollapsedOpt;
    SameValue(a.name);
    SameValue(a.impactedArea);
    SameOpt(a.reason);
    SameOpt(a.includeTraffic);
    SameValue(a.valid.from);
    SameValue(a.valid.to);
    SameOpt(a.facilitiesIncluded);
    SameOpt(a.probabilityOfExtension);
    SameOpt(a.remarks);
    SameOpt(a.associatedRestrictions);
    SameOpt(a.modifications);
  }

  /** A reroute and its fully collapsed copy print the same document. */
  lemma RerouteTransparent(a: Reroute, id: Ident)
    ensures RerouteLines(CollapsedReroute(a), CollapsedIdent(id)) == RerouteLines(a, id)
  {
    hide Clean, Collapse, Opt, CollapsedOpt, RouteSection, Labels, RerouteFields, CollapsedRoutes, Number;
    SameRerouteFields(a);
    SameRoutes(a.routes);
    SameValue(a.header);
    SameValue(id.facility);
    SameValue(a.valid.from);
    SameValue(a.valid.to);
  }

  lemma SameGdpFields(a: Gdp)
    ensures GdpOpening(CollapsedGdp(a)) == GdpOpening(a)
    ensures GdpScope(CollapsedGdp(a)) == GdpScope(a)
  {
    hide Clean, Collapse, Opt, CollapsedOpt;
    SameValue(a.controlElement);
    SameValue(a.elementType);
    SameValue(a.adlTime);
    SameValue(a.delayAssignmentMode);
    SameValue(a.arrivalsEstimatedFor);
    SameValue(a.cumulativeProgramPeriod);
    SameValue(a.programRate);
    SameOpt(a.popUpFactor);
    SameOpt(a.departureScope);
    SameOpt(a.additionalDepFacilities);
    SameOpt(a.exemptDepFacilities);
    SameOpt(a.canadianArpts);
    SameOpt(a.tableAppliesTo);
    SameOpt(a.delayLimit);
    SameOpt(a.maximumDelay);
    SameOpt(a.averageDelay);
    SameOpt(a.impactingCondition);
    SameOpt(a.comments);
  }

  /** So do a ground delay program and its copy. */
  lemma GdpTransparent(a: Gdp, id: Ident)
    ensures GdpLines(CollapsedGdp(a), CollapsedIdent(id)) == GdpLines(a, id)
  {
    hide Clean, Collapse, Opt, CollapsedOpt, Labels, GdpOpening, GdpScope, Number;
    SameGdpFields(a);
    SamePrinted(a.flightsIncluded);
    SameValue(a.header);
    SameValue(a.element);
    SameValue(a.period);
  }

  lemma SameGroundStopFields(a: GroundStop)
    ensures GroundStopOpening(CollapsedGroundStop(a)) == GroundStopOpening(a)
    ensures GroundStopDelays(CollapsedGroundStop(a)) == GroundStopDelays(a)
  {
    hide Clean, Collapse, Opt, CollapsedOpt;
    SameValue(a.controlElement);
    SameValue(a.elementType);
    SameValue(a.adlTime);
    SameValue(a.groundStopPeriod);
    SameValue(a.cumulativeProgramPeriod);
    SameOpt(a.additionalDepFacilities);
    SameOpt(a.currentDelays);
    SameOpt(a.previousDelays);
    SameOpt(a.newDelays);
    SameOpt(a.probabilityOfExtension);
    SameOpt(a.impactingCondition);
    SameOpt(a.comments);
  }

  /** And a ground stop and its copy. */
  lemma GroundStopTransparent(a: GroundStop, id: Ident)
    ensures GroundStopLines(CollapsedGroundStop(a), CollapsedIdent(id)) == GroundStopLines(a, id)
  {
    hide Clean, Collapse, Opt, CollapsedOpt, Labels, GroundStopOpening, GroundStopDelays, Number;
    SameGroundStopFields(a);
    SamePrinted(a.flightsIncluded);
    SameValue(a.header);
    SameValue(a.element);
    SameValue(a.period);
  }

  // ---- What a document determines --------------------------------------------------------------

  lemma LabelInjective(name: string, v: Option<string>, w: Option<string>)
    requires Label(name, v) == Label(name, w)
    ensures v == w
  {
    var whole := Label(name, v);
    if v.Some? && w.Some? {
      assert v.value == whole[|name| + 2..] == w.value;
    }
  }

  /** The same names with equal lines have equal values. */
  lemma LabelsInjective(f: seq<Field>, g: seq<Field>)
    requires |f| == |g| && (forall i :: 0 <= i < |f| ==> f[i].0 == g[i].0) && Labels(f) == Labels(g)
    ensures f == g
  {
    hide Label;
    forall i | 0 <= i < |f| ensures f[i] == g[i] {
      LabelInjective(f[i].0, f[i].1, g[i].1);
    }
  }

  lemma FirstFltIncl(entries: seq<string>)
    ensures Printed(entries) == [] <==> |FltIncl(entries)[0]| == 9
  {
    hide Printed;
    var p := Printed(entries);
    if p != [] {
      assert FltIncl(entries)[0] == Label(Included(p)[0].0, Included(p)[0].1);
    }
  }

  lemma FltInclInjective(a: seq<string>, b: seq<string>)
    requires FltIncl(a) == FltIncl(b)
    ensures Printed(a) == Printed(b)
  {
    hide Printed, Label, Labels;
    var (p, q) := (Printed(a), Printed(b));
    FirstFltIncl(a);
    FirstFltIncl(b);
    if p != [] && q != [] {
      LabelsInjective(Included(p), Included(q));
      forall i | 0 <= i < |p| ensures p[i] == q[i] {
        assert Included(p)[i] == Included(q)[i];
      }
    }
  }

  /** Four runs of lines, of which the second and the last two have the same length in both. */
  lemma SplitRuns<T>(h: T, a: seq<T>, f: seq<T>, b: seq<T>, e: seq<T>, h': T, a': seq<T>, f': seq<T>, b': seq<T>, e': seq<T>)
    requires [h] + a + f + b + e == [h'] + a' + f' + b' + e' && |a| == |a'| && |b| == |b'| && |e| == |e'|
    ensures h == h' && a == a' && f == f' && b == b' && e == e'
  {
    var s, t := [h] + a + f + b + e, [h'] + a' + f' + b' + e';
    assert |f| == |f'|;
    var (i, j, k) := (1 + |a|, 1 + |a| + |f|, 1 + |a| + |f| + |b|);
    assert h == s[0] && h' == t[0];
    assert a == s[1..i] && a' == t[1..i];
    assert f == s[i..j] && f' == t[i..j];
    assert b == s[j..k] && b' == t[j..k];
    assert e == s[k..] && e' == t[k..];
  }

  lemma SameRerouteNames(a: Reroute, b: Reroute)
    ensures |RerouteFields(a)| == |RerouteFields(b)| == 10
    ensures forall i :: 0 <= i < 10 ==> RerouteFields(a)[i].0 == RerouteFields(b)[i].0
  {
    hide Clean, Opt, ValidText;
  }

  lemma RerouteRuns(a: Reroute, id: Ident)
    ensures RerouteLines(a, id) == [Header(id.number, id.facility, id.issuedDay, a.header)] + Labels(RerouteFields(a))
                                   + RouteSection(a.routes) + [] + RerouteSignature(a, id)
    ensures |RerouteSignature(a, id)| == 4
  {
    hide Header, Labels, RerouteFields, RouteSection, Clean, Collapse, Number;
  }

  /** A reroute's document determines every labelled field, as it is printed, its tables and its signature. */
  lemma RerouteDetermined(a: Reroute, id: Ident, b: Reroute, jd: Ident)
    requires id.Valid() && jd.Valid() && Join(RerouteLines(a, id), "\n") == Join(RerouteLines(b, jd), "\n")
    ensures RerouteFields(a) == RerouteFields(b) && RouteSection(a.routes) == RouteSection(b.routes)
    ensures RerouteSignature(a, id) == RerouteSignature(b, jd)
  {
    hide *;
    RerouteShape(a, id);
    RerouteShape(b, jd);
    var (f, g) := (RerouteFields(a), RerouteFields(b));
    SameRerouteNames(a, b);
    RerouteRuns(a, id);
    RerouteRuns(b, jd);
    SplitRuns(Header(id.number, id.facility, id.issuedDay, a.header), Labels(f), RouteSection(a.routes), [],
              RerouteSignature(a, id), Header(jd.number, jd.facility, jd.issuedDay, b.header), Labels(g),
              RouteSection(b.routes), [], RerouteSignature(b, jd));
    LabelsInjective(f, g);
  }

  function Footer(period: string, id: Ident): seq<string> {
    ["", Collapse(period), id.signedAt]
  }

  lemma SameFooter(period: string, id: Ident, period': string, jd: Ident)
    requires Footer(period, id) == Footer(period', jd)
    ensures Collapse(period) == Collapse(period') && id.signedAt == jd.signedAt
  {
    hide Collapse;
    assert Footer(period, id)[1] == Footer(period', jd)[1] && Footer(period, id)[2] == Footer(period', jd)[2];
  }

  lemma SameGdpNames(a: Gdp, b: Gdp)
    ensures |GdpOpening(a)| == |GdpOpening(b)| && |GdpScope(a)| == |GdpScope(b)|
    ensures forall i :: 0 <= i < |GdpOpening(a)| ==> GdpOpening(a)[i].0 == GdpOpening(b)[i].0
    ensures forall i :: 0 <= i < |GdpScope(a)| ==> GdpScope(a)[i].0 == GdpScope(b)[i].0
  {
    hide Clean, Opt;
  }

  lemma GdpRuns(a: Gdp, id: Ident)
    ensures GdpLines(a, id) == [Header(id.number, a.element, id.issuedDay, a.header)] + Labels(GdpOpening(a))
                               + FltIncl(a.flightsIncluded) + Labels(GdpScope(a)) + Footer(a.period, id)
    ensures |Footer(a.period, id)| == 3
  {
    hide Header, Labels, GdpOpening, GdpScope, FltIncl, Collapse;
  }

  /** A delay program's determines every field, the flight entries that are not blank, and the footer. */
  lemma GdpDetermined(a: Gdp, id: Ident, b: Gdp, jd: Ident)
    requires id.Valid() && jd.Valid() && Join(GdpLines(a, id), "\n") == Join(GdpLines(b, jd), "\n")
    ensures GdpOpening(a) == GdpOpening(b) && GdpScope(a) == GdpScope(b)
    ensures Printed(a.flightsIncluded) == Printed(b.flightsIncluded)
    ensures Collapse(a.period) == Collapse(b.period) && id.signedAt == jd.signedAt
  {
    hide *;
    GdpShape(a, id);
    GdpShape(b, jd);
    SameGdpNames(a, b);
    GdpRuns(a, id);
    GdpRuns(b, jd);
    var (s, t) := (Labels(GdpScope(a)), Labels(GdpScope(b)));
    SplitRuns(Header(id.number, a.element, id.issuedDay, a.header), Labels(GdpOpening(a)), FltIncl(a.flightsIncluded), s,
              Footer(a.period, id), Header(jd.number, b.element, jd.issuedDay, b.header), Labels(GdpOpening(b)),
              FltIncl(b.flightsIncluded), t, Footer(b.period, jd));
    LabelsInjective(GdpOpening(a), GdpOpening(b));
    LabelsInjective(GdpScope(a), GdpScope(b));
    FltInclInjective(a.flightsIncluded, b.flightsIncluded);
    SameFooter(a.period, id, b.period, jd);
  }

  lemma SameGroundStopNames(a: GroundStop, b: GroundStop)
    ensures |GroundStopOpening(a)| == |GroundStopOpening(b)| && |GroundStopDelays(a)| == |GroundStopDelays(b)|
    ensures forall i :: 0 <= i < |GroundStopOpening(a)| ==> GroundStopOpening(a)[i].0 == GroundStopOpening(b)[i].0
    ensures forall i :: 0 <= i < |GroundStopDelays(a)| ==> GroundStopDelays(a)[i].0 == GroundStopDelays(b)[i].0
  {
    hide Clean, Opt;
  }

  lemma GroundStopRuns(a: GroundStop, id: Ident)
    ensures GroundStopLines(a, id) == [Header(id.number, a.element, id.issuedDay, a.header)] + Labels(GroundStopOpening(a))
                                      + FltIncl(a.flightsIncluded) + Labels(GroundStopDelays(a)) + Footer(a.period, id)
    ensures |Footer(a.period, id)| == 3
  {
    hide Header, Labels, GroundStopOpening, GroundStopDelays, FltIncl, Collapse;
  }

  /** And so does a ground stop's. */
  lemma GroundStopDetermined(a: GroundStop, id: Ident, b: GroundStop, jd: Ident)
    requires id.Valid() && jd.Valid() && Join(GroundStopLines(a, id), "\n") == Join(GroundStopLines(b, jd), "\n")
    ensures GroundStopOpening(a) == GroundStopOpening(b) && GroundStopDelays(a) == GroundStopDelays(b)
    ensures Printed(a.flightsIncluded) == Printed(b.flightsIncluded)
    ensures Collapse(a.period) == Collapse(b.period) && id.signedAt == jd.signedAt
  {
    hide *;
    GroundStopShape(a, id);
    GroundStopShape(b, jd);
    SameGroundStopNames(a, b);
    GroundStopRuns(a, id);
    GroundStopRuns(b, jd);
    var (s, t) := (Labels(GroundStopDelays(a)), Labels(GroundStopDelays(b)));
    SplitRuns(Header(id.number, a.element, id.issuedDay, a.header), Labels(GroundStopOpening(a)),
              FltIncl(a.flightsIncluded), s, Footer(a.period, id), Header(jd.number, b.element, jd.issuedDay, b.header),
              Labels(GroundStopOpening(b)), FltIncl(b.flightsIncluded), t, Footer(b.period, jd));
    LabelsInjective(GroundStopOpening(a), GroundStopOpening(b));
    LabelsInjective(GroundStopDelays(a), GroundStopDelays(b));
    FltInclInjective(a.flightsIncluded, b.flightsIncluded);
    SameFooter(a.period, id, b.period, jd);
  }

  // ---- Aligned columns -------------------------------------------------------------------------

  /** A whole table is aligned: on every line, heading, rule and rows alike, every column starts where it
      should. */
  ghost predicate Aligned(rows: seq<seq<string>>, widths: seq<nat>)
    requires Fits(rows, widths)
  {
    forall i, k: nat :: 0 <= i < |rows| && k <= |widths| ==> StartsRight(rows[i], widths, k)
  }

  predicate StartsRight(cells: seq<string>, widths: seq<nat>, k: nat)
    requires |cells| == |widths| + 1 && k <= |widths|
  {
    Start(cells, widths, k) == Offset(widths, k)
  }

  ghost predicate EveryCellFits(rows: seq<seq<string>>, widths: seq<nat>)
    requires Fits(rows, widths)
  {
    forall i :: 0 <= i < |rows| ==> FitsBefore(rows[i], widths, |widths|)
  }

  lemma TableAlignedIffFits(rows: seq<seq<string>>, widths: seq<nat>)
    requires Fits(rows, widths)
    ensures Aligned(rows, widths) <==> EveryCellFits(rows, widths)
  {
    hide Collapse, Start, Offset;
    forall i, k: nat | 0 <= i < |rows| && k <= |widths|
      ensures StartsRight(rows[i], widths, k) <==> FitsBefore(rows[i], widths, k)
    {
      AlignedIffFits(rows[i], widths, k);
    }
    if Aligned(rows, widths) {
      forall i | 0 <= i < |rows| ensures FitsBefore(rows[i], widths, |widths|) {
        assert StartsRight(rows[i], widths, |widths|);
      }
    }
  }

  lemma DashesAreOneWord(n: nat)
    ensures NoSpaces(Dashes(n))
  {
  }

  lemma TwoFit(a: string, b: string, c: string)
    ensures FitsBefore([a, b, c], [9, 10], 2) <==> |Collapse(a)| <= 9 && |Collapse(b)| <= 10
  {
    hide Collapse;
    var (cells, widths) := ([a, b, c], [9, 10]);
    assert cells[0] == a && cells[1] == b && widths[0] == 9 && widths[1] == 10;
  }

  lemma HeadingsFit()
    ensures FitsBefore(["ORIG", "DEST", "ROUTE"], [9, 10], 2)
    ensures FitsBefore([Dashes(4), Dashes(4), Dashes(5)], [9, 10], 2)
  {
    hide Collapse, Dashes, FitsBefore;
    WordIsItself("ORIG");
    WordIsItself("DEST");
    DashesAreOneWord(4);
    WordIsItself(Dashes(4));
    TwoFit("ORIG", "DEST", "ROUTE");
    TwoFit(Dashes(4), Dashes(4), Dashes(5));
  }

  function RouteTable(rows: seq<Row>): (all: seq<seq<string>>)
    ensures Fits(all, [9, 10])
  {
    [["ORIG", "DEST", "ROUTE"], [Dashes(4), Dashes(4), Dashes(5)]] + RowCells(rows)
  }

  lemma RouteTableIsPrinted(rows: seq<Row>)
    ensures RouteSection(Single(rows)) == ["ROUTE:"] + TableRows(RouteTable(rows), [9, 10])
  {
    assert Rule(["ORIG", "DEST", "ROUTE"]) == [Dashes(4), Dashes(4), Dashes(5)];
  }

  /** A single route table has its columns at 0, 9 and 19 on every line exactly when no origin is longer
      than 9 characters and no destination than 10. */
  lemma RouteTableAlignedIff(rows: seq<Row>)
    ensures Offset([9, 10], 1) == 9 && Offset([9, 10], 2) == 19
    ensures Aligned(RouteTable(rows), [9, 10])
            <==> forall i :: 0 <= i < |rows| ==> |Clean(rows[i].orig)| <= 9 && |Clean(rows[i].dest)| <= 10
  {
    hide Dashes, Clean, Collapse, FitsBefore, Aligned;
    HeadingsFit();
    var all := RouteTable(rows);
    TableAlignedIffFits(all, [9, 10]);
    var cells := RowCells(rows);
    HeadedFitsIff(all[0], all[1], cells, [9, 10]);
    forall i | 0 <= i < |rows|
      ensures FitsBefore(cells[i], [9, 10], 2) <==> |Clean(rows[i].orig)| <= 9 && |Clean(rows[i].dest)| <= 10
    {
      CleanIsCollapsed(rows[i].orig);
      CleanIsCollapsed(rows[i].dest);
      TwoFit(Clean(rows[i].orig), Clean(rows[i].dest), Collapse(rows[i].route));
    }
  }

  lemma HeadedFitsIff(heading: seq<string>, rule: seq<string>, cells: seq<seq<string>>, widths: seq<nat>)
    requires |heading| == |rule| == |widths| + 1 && Fits(cells, widths)
    requires FitsBefore(heading, widths, |widths|) && FitsBefore(rule, widths, |widths|)
    ensures EveryCellFits([heading, rule] + cells, widths) <==> EveryCellFits(cells, widths)
  {
    hide FitsBefore;
    var all := [heading, rule] + cells;
    if EveryCellFits(all, widths) {
      forall i | 0 <= i < |cells| ensures FitsBefore(cells[i], widths, |widths|) {
        assert cells[i] == all[2 + i];
      }
    }
  }
}
