/** The CHIP report page: one HTML block per saved plan section, in list
    order, with a chart div and embed script only for sections that carry
    trend data. The chart's Vega-Lite JSON is a parameter and the template's
    indentation is not reproduced. */
module ChipReport {
  import opened Wrappers
  import opened Strings
  import opened Tables
  import opened Html
  import opened ChipWizard
  import opened ListOps

  /** The page builds a report only from a present, non-empty section list. */
  predicate ReportAvailable(sections: Option<seq<PlanSection>>) {
    sections.Some? && sections.value != []
  }

  /** The listed objectives, each paired with its number: the position in
      the full list counted from `first`. */
  function ObjectiveEntries(objs: seq<string>, first: nat): seq<(nat, string)>
    decreases |objs|
  {
    if objs == [] then []
    else (if objs[0] != "" then [(first, objs[0])] else []) + ObjectiveEntries(objs[1..], first + 1)
  }

  /** Every listed entry is an objective with text, under its position in
      the full list. */
  predicate EntriesSound(r: seq<(nat, string)>, objs: seq<string>, first: nat) {
    forall k :: 0 <= k < |r| ==>
      first <= r[k].0 < first + |objs| && r[k].1 == objs[r[k].0 - first] && r[k].1 != ""
  }

  lemma {:induction false} ObjectiveEntriesSound(objs: seq<string>, first: nat)
    ensures EntriesSound(ObjectiveEntries(objs, first), objs, first)
    decreases |objs|
  {
    if objs != [] {
      var rest := ObjectiveEntries(objs[1..], first + 1);
      ObjectiveEntriesSound(objs[1..], first + 1);
      assert EntriesSound(rest, objs[1..], first + 1);
      var head: seq<(nat, string)> := if objs[0] != "" then [(first, objs[0])] else [];
      var r := head + rest;
      assert r == ObjectiveEntries(objs, first);
      forall k | 0 <= k < |r|
        ensures first <= r[k].0 < first + |objs| && r[k].1 == objs[r[k].0 - first] && r[k].1 != ""
      {
        if k >= |head| {
          var e := rest[k - |head|];
          assert r[k] == e;
          assert objs[1..][e.0 - (first + 1)] == objs[e.0 - first];
        }
      }
    }
  }

  /** Every objective with text is listed, under its position. */
  lemma {:induction false} ObjectiveEntriesComplete(objs: seq<string>, first: nat)
    ensures forall j :: 0 <= j < |objs| && objs[j] != "" ==> (first + j, objs[j]) in ObjectiveEntries(objs, first)
    decreases |objs|
  {
    if objs != [] {
      var rest := ObjectiveEntries(objs[1..], first + 1);
      ObjectiveEntriesComplete(objs[1..], first + 1);
      var head: seq<(nat, string)> := if objs[0] != "" then [(first, objs[0])] else [];
      assert head + rest == ObjectiveEntries(objs, first);
      forall j | 0 <= j < |objs| && objs[j] != "" ensures (first + j, objs[j]) in head + rest {
        if j > 0 {
          assert objs[1..][j - 1] == objs[j];
          assert (first + 1 + (j - 1), objs[1..][j - 1]) in rest;
        }
      }
    }
  }

  /** Entries appear in increasing number, i.e. in the objectives' order. */
  predicate EntriesOrdered(r: seq<(nat, string)>) {
    forall k, l :: 0 <= k < l < |r| ==> r[k].0 < r[l].0
  }

  lemma {:induction false} ObjectiveEntriesOrdered(objs: seq<string>, first: nat)
    ensures EntriesOrdered(ObjectiveEntries(objs, first))
    decreases |objs|
  {
    if objs != [] {
      var rest := ObjectiveEntries(objs[1..], first + 1);
      ObjectiveEntriesOrdered(objs[1..], first + 1);
      ObjectiveEntriesSound(objs[1..], first + 1);
      assert EntriesOrdered(rest) && EntriesSound(rest, objs[1..], first + 1);
      var head: seq<(nat, string)> := if objs[0] != "" then [(first, objs[0])] else [];
      var r := head + rest;
      assert r == ObjectiveEntries(objs, first);
      forall k, l | 0 <= k < l < |r| ensures r[k].0 < r[l].0 {
        assert r[l] == rest[l - |head|];
        if k >= |head| {
          assert r[k] == rest[k - |head|];
        }
      }
    }
  }

  function ObjectiveItem(e: (nat, string)): string {
    "<li><strong>OBJECTIVE #" + NatToString(e.0) + ":</strong> " + Escape(e.1) + "</li>"
  }

  /** The `<li>` items of the objectives that have text, numbered from 1. */
  function ObjectivesHtml(objs: seq<string>): string {
    var es := ObjectiveEntries(objs, 1);
    Join(seq(|es|, k requires 0 <= k < |es| => ObjectiveItem(es[k])), "")
  }

  /** `any(strat.values())`: some field of the strategy is non-empty. */
  predicate HasText(s: Strategy) {
    s.activity != "" || s.partners != "" || s.timeframe != "" || s.evaluation != "" || s.outcome != ""
  }

  /** The strategies that get a table row, in their order. */
  function EmittedStrategies(strats: seq<Strategy>): (r: seq<Strategy>)
    ensures forall s :: s in r <==> s in strats && HasText(s)
  {
    Filter(strats, HasText)
  }

  /** A form left blank lists no objective and no strategy row. */
  lemma BlankPlanEmitsNothing()
    ensures ObjectiveEntries([""], 1) == []
    ensures EmittedStrategies([EmptyStrategy]) == []
  {
    assert !HasText(EmptyStrategy);
  }

  /** A table row: activity and partners keep their line breaks as `<br>`. */
  function StrategyRow(s: Strategy): string {
    "<tr><td>" + MultilineCell(s.activity) + "</td><td>" + MultilineCell(s.partners)
    + "</td><td>" + Escape(s.timeframe) + "</td><td>" + Escape(s.evaluation)
    + "</td><td>" + Escape(s.outcome) + "</td></tr>"
  }

  function StrategyRowsHtml(strats: seq<Strategy>): string {
    var es := EmittedStrategies(strats);
    Join(seq(|es|, k requires 0 <= k < |es| => StrategyRow(es[k])), "")
  }

  function ChartDivId(i: nat): string {
    "vis_chip_" + NatToString(i)
  }

  function ChartVar(i: nat): string {
    "spec_chip_" + NatToString(i)
  }

  /** Different sections never share a chart div or a script variable. */
  lemma ChartNamesDistinct(i: nat, j: nat)
    ensures i != j ==> ChartDivId(i) != ChartDivId(j) && ChartVar(i) != ChartVar(j)
  {
    PrefixedIndexInjective("vis_chip_", i, j);
    PrefixedIndexInjective("spec_chip_", i, j);
  }

  /** The script that embeds section i's chart. */
  function ChipEmbedScript(i: nat, chart: string): string {
    "const " + ChartVar(i) + " = " + chart + ";"
    + ChartVar(i) + ".width = 'container';"
    + ChartVar(i) + ".height = 300;"
    + "vegaEmbed('#" + ChartDivId(i) + "', " + ChartVar(i) + ", {\"actions\": false});"
  }

  /** `html.escape` of a stored selectbox value; only strings can be escaped. */
  predicate Escapable(p: PlanSection) {
    p.county.Text? && p.priority.Text? && p.focus.Text?
  }

  function EscapeValue(v: Value): string {
    if v.Text? then Escape(v.s) else ""
  }

  /** Section i's block; the chart div is present only with trend data. */
  function SectionHtml(i: nat, p: PlanSection): string {
    var chartPart := if p.trend != [] then "<div id=\"" + ChartDivId(i) + "\" class=\"chart-container\"></div>" else "";
    "<div style=\"page-break-after: always;\"><h2>SECTION " + NatToString(i + 1) + ": " + EscapeValue(p.priority)
    + "</h2><h3>Focus Area: " + EscapeValue(p.focus)
    + "</h3><h4>Overarching Goal: " + Escape(p.goal)
    + "</h4><ul>" + ObjectivesHtml(p.objectives)
    + "</ul><p><strong>Context - Official 2024 Objective:</strong> " + Escape(p.officialObjective)
    + "</p><p><strong>Context - " + EscapeValue(p.county) + " County's Most Recent Data:</strong> " + Escape(p.latestData)
    + "</p><p><strong>Disparities Addressed:</strong> " + Escape(p.disparities)
    + "</p><hr>" + chartPart
    + "<h3>STRATEGIES</h3><table border=\"1\"><thead><tr><th>Strategy Activities</th><th>Partners</th><th>Timeframe</th><th>Evaluation</th><th>Outcome</th></tr></thead><tbody>"
    + StrategyRowsHtml(p.strategies) + "</tbody></table></div>"
  }

  datatype ChipDoc = ChipDoc(sections: seq<string>, scripts: seq<string>)

  /** The page's two templates: section i's block and section i's embed script. */
  datatype Templates = Templates(section: (nat, PlanSection) -> string, script: (nat, PlanSection) -> string)

  /** The concrete templates; `chart` is Altair's JSON for a section's trend. */
  function PageTemplates(chart: PlanSection -> string): Templates {
    Templates((i: nat, p: PlanSection) => SectionHtml(i, p),
              (i: nat, p: PlanSection) => ChipEmbedScript(i, chart(p)))
  }

  /** The indices below n of sections with trend data, ascending. */
  function ChartIndices(plans: seq<PlanSection>, n: nat): (r: seq<nat>)
    requires n <= |plans|
    ensures forall i: nat :: i in r <==> (i < n && plans[i].trend != [])
    ensures forall k, l :: 0 <= k < l < |r| ==> r[k] < r[l]
    ensures forall k :: 0 <= k < |r| ==> r[k] < n
    decreases n
  {
    if n == 0 then []
    else
      var prev := ChartIndices(plans, n - 1);
      prev + (if plans[n - 1].trend != [] then [n - 1] else [])
  }

  /** The generation loop over the first n sections: escaping a non-string
      county, priority or focus area raises AttributeError. */
  function ChipReportUpTo(plans: seq<PlanSection>, n: nat, tpl: Templates): Result<ChipDoc>
    requires n <= |plans|
    decreases n
  {
    if n == 0 then Success(ChipDoc([], []))
    else
      match ChipReportUpTo(plans, n - 1, tpl)
      case Failure(e) => Failure(e)
      case Success(doc) =>
        var p := plans[n - 1];
        var scripts := if p.trend != [] then doc.scripts + [tpl.script(n - 1, p)] else doc.scripts;
        if !Escapable(p) then Failure("AttributeError: object has no attribute 'replace'")
        else Success(ChipDoc(doc.sections + [tpl.section(n - 1, p)], scripts))
  }

  /** The report is built exactly when every section's stored values are strings. */
  lemma {:induction false} ChipReportSucceeds(plans: seq<PlanSection>, n: nat, tpl: Templates)
    requires n <= |plans|
    ensures ChipReportUpTo(plans, n, tpl).Success? <==> forall i :: 0 <= i < n ==> Escapable(plans[i])
    decreases n
  {
    if n > 0 {
      ChipReportSucceeds(plans, n - 1, tpl);
    }
  }

  /** A built report has exactly one block per section, in list order, and
      one script per section with trend data, in the same order. */
  lemma ChipReportShape(plans: seq<PlanSection>, n: nat, tpl: Templates)
    requires n <= |plans|
    ensures ChipReportUpTo(plans, n, tpl).Success? ==>
      var doc := ChipReportUpTo(plans, n, tpl).value;
      var charts := ChartIndices(plans, n);
      && |doc.sections| == n
      && (forall i :: 0 <= i < n ==> doc.sections[i] == tpl.section(i, plans[i]))
      && |doc.scripts| == |charts|
      && (forall k :: 0 <= k < |charts| ==> doc.scripts[k] == tpl.script(charts[k], plans[charts[k]]))
  {
    ChipSectionsShape(plans, n, tpl);
    ChipScriptsShape(plans, n, tpl);
  }

  lemma {:induction false} ChipSectionsShape(plans: seq<PlanSection>, n: nat, tpl: Templates)
    requires n <= |plans|
    ensures ChipReportUpTo(plans, n, tpl).Success? ==>
      (|ChipReportUpTo(plans, n, tpl).value.sections| == n
      && forall i :: 0 <= i < n ==> ChipReportUpTo(plans, n, tpl).value.sections[i] == tpl.section(i, plans[i]))
    decreases n
  {
    if n > 0 && ChipReportUpTo(plans, n, tpl).Success? {
      ChipSectionsShape(plans, n - 1, tpl);
      var prev := ChipReportUpTo(plans, n - 1, tpl).value;
      assert ChipReportUpTo(plans, n, tpl).value.sections == prev.sections + [tpl.section(n - 1, plans[n - 1])];
    }
  }

  lemma {:induction false} ChipScriptsShape(plans: seq<PlanSection>, n: nat, tpl: Templates)
    requires n <= |plans|
    ensures ChipReportUpTo(plans, n, tpl).Success? ==>
      (|ChipReportUpTo(plans, n, tpl).value.scripts| == |ChartIndices(plans, n)|
      && forall k :: 0 <= k < |ChartIndices(plans, n)| ==>
        ChipReportUpTo(plans, n, tpl).value.scripts[k] == tpl.script(ChartIndices(plans, n)[k], plans[ChartIndices(plans, n)[k]]))
    decreases n
  {
    if n > 0 && ChipReportUpTo(plans, n, tpl).Success? {
      ChipScriptsShape(plans, n - 1, tpl);
      var prev := ChipReportUpTo(plans, n - 1, tpl).value;
      var charts := ChartIndices(plans, n);
      var before := ChartIndices(plans, n - 1);
      var p := plans[n - 1];
      if p.trend != [] {
        assert charts == before + [n - 1];
        assert ChipReportUpTo(plans, n, tpl).value.scripts == prev.scripts + [tpl.script(n - 1, p)];
        ScriptsAppend(prev.scripts, before, plans, tpl, n - 1);
      } else {
        assert charts == before;
        assert ChipReportUpTo(plans, n, tpl).value.scripts == prev.scripts;
      }
    }
  }

  /** Appending section i's script to scripts that match their chart
      indices keeps them matching with i appended. */
  lemma ScriptsAppend(scripts: seq<string>, charts: seq<nat>, plans: seq<PlanSection>, tpl: Templates, i: nat)
    requires i < |plans| && |scripts| == |charts|
    requires forall k :: 0 <= k < |charts| ==> charts[k] < |plans| && scripts[k] == tpl.script(charts[k], plans[charts[k]])
    ensures var s := scripts + [tpl.script(i, plans[i])];
      var c := charts + [i];
      |s| == |c| && forall k :: 0 <= k < |c| ==> c[k] < |plans| && s[k] == tpl.script(c[k], plans[c[k]])
  {
  }

  /** Once the loop has raised, later steps keep the same exception. */
  lemma {:induction false} ChipFailurePersists(plans: seq<PlanSection>, i: nat, n: nat, tpl: Templates)
    requires i <= n <= |plans|
    requires ChipReportUpTo(plans, i, tpl).Failure?
    ensures ChipReportUpTo(plans, n, tpl) == ChipReportUpTo(plans, i, tpl)
    decreases n
  {
    if n > i {
      ChipFailurePersists(plans, i, n - 1, tpl);
    }
  }

  /** The page's generation loop. */
  method BuildChipReport(plans: seq<PlanSection>, tpl: Templates) returns (r: Result<ChipDoc>)
    ensures r == ChipReportUpTo(plans, |plans|, tpl)
  {
    var parts: seq<string> := [];
    var scripts: seq<string> := [];
    var i := 0;
    while i < |plans|
      invariant 0 <= i <= |plans|
      invariant ChipReportUpTo(plans, i, tpl) == Success(ChipDoc(parts, scripts))
    {
      var plan := plans[i];
      if plan.trend != [] {
        scripts := scripts + [tpl.script(i, plan)];
      }
      if !Escapable(plan) {
        r := Failure("AttributeError: object has no attribute 'replace'");
        ChipFailurePersists(plans, i + 1, |plans|, tpl);
        return;
      }
      parts := parts + [tpl.section(i, plan)];
      i := i + 1;
    }
    r := Success(ChipDoc(parts, scripts));
  }

  /** The document's head: the county in the title and heading, and the
      generation time. */
  function DocHead(county: string, now: string): string {
    "<!DOCTYPE html><html><head><title>CHIP Report for " + county + " County</title></head><body>"
    + "<h1>Community Health Improvement Plan</h1><h2>" + county + " County</h2><p><em>Generated on " + now + "</em></p>"
  }

  const DocTail: string := "</body></html>"

  /** The single script tag running every embed call on load. */
  function ScriptBlock(scripts: seq<string>): string {
    "<script type=\"text/javascript\">window.onload = function() {" + Join(scripts, ";") + "};</script>"
  }

  /** The downloaded document: the head, the sections in order, then one
      script running every embed call. */
  function Document(doc: ChipDoc, county: string, now: string): (d: string)
    ensures StartsWith(d, DocHead(county, now)) && EndsWith(d, DocTail)
  {
    DocHead(county, now) + Join(doc.sections, "")
    + ScriptBlock(doc.scripts) + DocTail
  }

  /** Section i stands in the document right after the head and the
      sections before it. */
  lemma DocumentHoldsSection(doc: ChipDoc, county: string, now: string, i: nat)
    requires i < |doc.sections|
    ensures var d := Document(doc, county, now);
      var k := |DocHead(county, now)| + |Join(doc.sections[..i], "")|;
      k + |doc.sections[i]| <= |d| && d[k..k + |doc.sections[i]|] == doc.sections[i]
  {
    JoinedPartAt(DocHead(county, now), doc.sections, ScriptBlock(doc.scripts), DocTail, i);
  }

  /** How one run of the page ends. */
  datatype Page =
    | NoSections                            // "No CHIP sections have been added yet. ..." and stop
    | Rerun(remaining: seq<PlanSection>)    // a remove button popped a section
    | Download(county: string, fileName: string, doc: Result<ChipDoc>)

  /** The page: the guard on the section list, then the remove buttons, then
      the document for the county of the first section. */
  function ChipReportPage(sections: Option<seq<PlanSection>>, marked: seq<nat>, tpl: Templates): (p: Page)
    requires sections.Some? ==> forall i :: i in marked ==> i < |sections.value|
    ensures p.NoSections? <==> !ReportAvailable(sections)
    ensures p.Rerun? <==> ReportAvailable(sections) && marked != []
    ensures p.Rerun? ==> p.remaining == AfterRemoval(sections.value, marked) && |p.remaining| == |sections.value| - 1
    ensures p.Download? ==>
      && marked == [] && sections.value != []
      && p.county == Show(sections.value[0].county)
      && p.fileName == "CHIP_Report_" + p.county + ".html"
    ensures p.Download? ==> (p.doc.Success? <==> forall i :: 0 <= i < |sections.value| ==> Escapable(sections.value[i]))
    ensures p.Download? && p.doc.Success? ==> |p.doc.value.sections| == |sections.value|
  {
    if !ReportAvailable(sections) then NoSections
    else if marked != [] then Rerun(AfterRemoval(sections.value, marked))
    else
      var plans := sections.value;
      var county := Show(plans[0].county);
      ChipReportSucceeds(plans, |plans|, tpl);
      ChipReportShape(plans, |plans|, tpl);
      Download(county, "CHIP_Report_" + county + ".html", ChipReportUpTo(plans, |plans|, tpl))
  }
}
