/** The consolidated report builder: one HTML section and one Vega-Embed
    script per saved analysis, in the order they were saved. Markdown
    rendering and the repr of the filter dict are passed in as functions;
    the template's indentation is not reproduced. */
module ReportBuilder {
  import opened Wrappers
  import opened Strings
  import opened Tables
  import opened CascadingFilter
  import opened AnalysisSession
  import opened ListOps

  /** The page builds a report only from a present, non-empty saved list. */
  predicate ReportAvailable(saved: Option<seq<Analysis>>) {
    saved.Some? && saved.value != []
  }

  function DivId(i: nat): string {
    "vis" + NatToString(i)
  }

  function SpecVar(i: nat): string {
    "spec" + NatToString(i)
  }

  /** Different sections never share a div id or a script variable. */
  lemma SectionNamesDistinct(i: nat, j: nat)
    ensures i != j ==> DivId(i) != DivId(j) && SpecVar(i) != SpecVar(j)
  {
    PrefixedIndexInjective("vis", i, j);
    PrefixedIndexInjective("spec", i, j);
  }

  const WidthLine: string := ".width = 'container';"
  const HeightLine: string := ".height = 300;"
  const EmbedCall: string := "vegaEmbed('#"
  const EmbedOptions: string := ", {\"actions\": false});"

  /** The script that embeds section i's chart into its div. */
  function EmbedScript(i: nat, chart: string): string {
    "const " + SpecVar(i) + " = " + chart + ";"
    + SpecVar(i) + WidthLine
    + SpecVar(i) + HeightLine
    + EmbedCall + DivId(i) + "', " + SpecVar(i) + EmbedOptions
  }

  /** Python's `str` of a selection (list repr simplified to quoted items). */
  function SelectionText(sel: Selection): string {
    match sel
    case One(v) => Show(v)
    case NoneSelected => "None"
    case Many(vs) => "[" + ShownList(vs, "'") + "]"
  }

  /** The values shown, each between `quote`s, separated by ", ". */
  function ShownList(vs: seq<Value>, quote: string): string
    decreases |vs|
  {
    if vs == [] then ""
    else if |vs| == 1 then quote + Show(vs[0]) + quote
    else quote + Show(vs[0]) + quote + ", " + ShownList(vs[1..], quote)
  }

  /** One `<li>` per note, in stored order. */
  function NoteItems(notes: seq<Value>): (r: string)
    decreases |notes|
  {
    if notes == [] then "" else "<li>" + Show(notes[0]) + "</li>" + NoteItems(notes[1..])
  }

  /** The notes list is rendered piecewise: items of a longer list follow
      those of its prefix. */
  lemma {:induction false} NoteItemsAppend(a: seq<Value>, b: seq<Value>)
    ensures NoteItems(a + b) == NoteItems(a) + NoteItems(b)
    decreases |a|
  {
    if a == [] {
      assert a + b == b;
    } else {
      var item := "<li>" + Show(a[0]) + "</li>";
      assert (a + b)[0] == a[0];
      assert (a + b)[1..] == a[1..] + b;
      NoteItemsAppend(a[1..], b);
      calc {
        NoteItems(a + b);
        item + NoteItems(a[1..] + b);
        item + (NoteItems(a[1..]) + NoteItems(b));
        (item + NoteItems(a[1..])) + NoteItems(b);
        NoteItems(a) + NoteItems(b);
      }
    }
  }

  /** Every source is a string, as `', '.join` requires. */
  predicate AllText(vs: seq<Value>) {
    forall k :: 0 <= k < |vs| ==> vs[k].Text?
  }

  function SourcesText(sources: seq<Value>): string {
    ShownList(sources, "")
  }

  // The fixed pieces of the section template.
  const H2Open: string := "<h2>"
  const H2Close: string := "</h2><p><strong>Filters:</strong> <code>"
  const DivOpen: string := "</code></p><div id=\""
  const DivClose: string := "\" class=\"chart-container\"></div><p><strong>Source:</strong> "
  const NotesOpen: string := "</p><div><strong>Data Notes:</strong><ul>"
  const InsightsOpen: string := "</ul></div><div><h3>AI-Generated Insights</h3>"
  const SectionClose: string := "</div><hr>"

  /** The body of section i. */
  function SectionHtml(i: nat, a: Analysis, markdown: string -> string, filtersRepr: Filters -> string): string {
    H2Open + NatToString(i + 1) + ". " + a.dashboard + ": " + SelectionText(a.indicator)
    + H2Close + filtersRepr(a.filters)
    + DivOpen + DivId(i)
    + DivClose + SourcesText(a.sources)
    + NotesOpen + NoteItems(a.notes)
    + InsightsOpen + markdown(a.text)
    + SectionClose
  }

  datatype Report = Report(sections: seq<string>, scripts: seq<string>)

  /** The page's two templates: section i's body and section i's embed script. */
  datatype Templates = Templates(section: (nat, Analysis) -> string, script: (nat, string) -> string)

  function PageTemplates(markdown: string -> string, filtersRepr: Filters -> string): Templates {
    Templates((i: nat, a: Analysis) => SectionHtml(i, a, markdown, filtersRepr),
              (i: nat, chart: string) => EmbedScript(i, chart))
  }

  /** The report loop over the first n saved analyses: reading the missing
      `chart_json` key raises KeyError, and joining a non-string source
      raises TypeError. */
  function ReportUpTo(saved: seq<Analysis>, n: nat, tpl: Templates): Result<Report>
    requires n <= |saved|
    decreases n
  {
    if n == 0 then Success(Report([], []))
    else
      match ReportUpTo(saved, n - 1, tpl)
      case Failure(e) => Failure(e)
      case Success(rep) =>
        var a := saved[n - 1];
        if a.chartJson.None? then Failure("KeyError: 'chart_json'")
        else if !AllText(a.sources) then Failure("TypeError: sequence item: expected str instance")
        else Success(Report(rep.sections + [tpl.section(n - 1, a)],
                            rep.scripts + [tpl.script(n - 1, a.chartJson.value)]))
  }

  /** The report is built exactly when every analysis carries its chart and
      string sources. */
  lemma {:induction false} ReportSucceeds(saved: seq<Analysis>, n: nat, tpl: Templates)
    requires n <= |saved|
    ensures ReportUpTo(saved, n, tpl).Success? <==>
      forall i :: 0 <= i < n ==> saved[i].chartJson.Some? && AllText(saved[i].sources)
    decreases n
  {
    if n > 0 {
      ReportSucceeds(saved, n - 1, tpl);
    }
  }

  /** A built report has one section and one script per analysis, section i
      and script i belonging to analysis i. */
  lemma {:induction false} ReportShape(saved: seq<Analysis>, n: nat, tpl: Templates)
    requires n <= |saved|
    ensures ReportUpTo(saved, n, tpl).Success? ==>
      var rep := ReportUpTo(saved, n, tpl).value;
      && |rep.sections| == n && |rep.scripts| == n
      && (forall i :: 0 <= i < n ==> rep.sections[i] == tpl.section(i, saved[i]))
      && (forall i :: 0 <= i < n ==> saved[i].chartJson.Some? && rep.scripts[i] == tpl.script(i, saved[i].chartJson.value))
    decreases n
  {
    if n > 0 && ReportUpTo(saved, n, tpl).Success? {
      ReportShape(saved, n - 1, tpl);
    }
  }

  /** Once the loop has raised, later steps keep the same exception. */
  lemma {:induction false} FailurePersists(saved: seq<Analysis>, i: nat, n: nat, tpl: Templates)
    requires i <= n <= |saved|
    requires ReportUpTo(saved, i, tpl).Failure?
    ensures ReportUpTo(saved, n, tpl) == ReportUpTo(saved, i, tpl)
    decreases n
  {
    if n > i {
      FailurePersists(saved, i, n - 1, tpl);
    }
  }

  /** The page's generation loop. */
  method BuildReport(saved: seq<Analysis>, tpl: Templates) returns (r: Result<Report>)
    ensures r == ReportUpTo(saved, |saved|, tpl)
  {
    var parts: seq<string> := [];
    var scripts: seq<string> := [];
    var i := 0;
    while i < |saved|
      invariant 0 <= i <= |saved|
      invariant ReportUpTo(saved, i, tpl) == Success(Report(parts, scripts))
    {
      var snap := saved[i];
      if snap.chartJson.None? {
        r := Failure("KeyError: 'chart_json'");
        FailurePersists(saved, i + 1, |saved|, tpl);
        return;
      }
      scripts := scripts + [tpl.script(i, snap.chartJson.value)];
      if !AllText(snap.sources) {
        r := Failure("TypeError: sequence item: expected str instance");
        FailurePersists(saved, i + 1, |saved|, tpl);
        return;
      }
      parts := parts + [tpl.section(i, snap)];
      i := i + 1;
    }
    r := Success(Report(parts, scripts));
  }

  /** The document's head, up to and including the generation time. */
  function DocHead(now: string): string {
    "<!DOCTYPE html><html><head><title>NYS Health Report</title></head><body>"
    + "<h1>NYS Health Data Report</h1><p><em>Generated on " + now + "</em></p>"
  }

  const DocTail: string := "</body></html>"

  /** The single script tag running every embed call on load. */
  function ScriptBlock(scripts: seq<string>): string {
    "<script type=\"text/javascript\">window.onload = function() {" + Join(scripts, ";") + "};</script>"
  }

  /** The downloaded document: the head with the generation time (a
      parameter), the sections in order, then one script running every
      embed call. */
  function Document(rep: Report, now: string): (d: string)
    ensures StartsWith(d, DocHead(now)) && EndsWith(d, DocTail)
  {
    DocHead(now) + Join(rep.sections, "")
    + ScriptBlock(rep.scripts) + DocTail
  }

  /** Section i stands in the document right after the head and the
      sections before it. */
  lemma DocumentHoldsSection(rep: Report, now: string, i: nat)
    requires i < |rep.sections|
    ensures var d := Document(rep, now);
      var k := |DocHead(now)| + |Join(rep.sections[..i], "")|;
      k + |rep.sections[i]| <= |d| && d[k..k + |rep.sections[i]|] == rep.sections[i]
  {
    JoinedPartAt(DocHead(now), rep.sections, ScriptBlock(rep.scripts), DocTail, i);
  }

  /** How one run of the page ends. */
  datatype Page =
    | NoAnalyses                       // "No analyses saved yet. ..." and stop
    | Rerun(remaining: seq<Analysis>)  // a remove button popped an entry
    | Download(report: Result<Report>)

  /** The page: the guard on the saved list, then the remove buttons, then
      the report built from every saved analysis. */
  function ReportPage(saved: Option<seq<Analysis>>, marked: seq<nat>, tpl: Templates): (p: Page)
    requires saved.Some? ==> forall i :: i in marked ==> i < |saved.value|
    ensures p.NoAnalyses? <==> !ReportAvailable(saved)
    ensures p.Rerun? <==> ReportAvailable(saved) && marked != []
    ensures p.Rerun? ==> p.remaining == AfterRemoval(saved.value, marked) && |p.remaining| == |saved.value| - 1
    ensures p.Download? ==> marked == [] && (p.report.Success? <==>
      forall i :: 0 <= i < |saved.value| ==> saved.value[i].chartJson.Some? && AllText(saved.value[i].sources))
    ensures p.Download? && p.report.Success? ==> |p.report.value.sections| == |saved.value| && saved.value != []
  {
    if !ReportAvailable(saved) then NoAnalyses
    else if marked != [] then Rerun(AfterRemoval(saved.value, marked))
    else
      ReportSucceeds(saved.value, |saved.value|, tpl);
      ReportShape(saved.value, |saved.value|, tpl);
      Download(ReportUpTo(saved.value, |saved.value|, tpl))
  }

  /** As written, a saved analysis has no `chart_json`, so a report over a
      saved list holding one always raises. */
  lemma AsWrittenReportFails(cfg: Config, view: View, text: string, before: seq<Analysis>, tpl: Templates)
    requires view.Shown?
    ensures var saved := before + [RecordAsWritten(cfg, view, text)];
      ReportUpTo(saved, |saved|, tpl).Failure?
    ensures var saved := before + [RecordAsWritten(cfg, view, text)];
      ReportPage(Some(saved), [], tpl).Download? && ReportPage(Some(saved), [], tpl).report.Failure?
  {
    var saved := before + [RecordAsWritten(cfg, view, text)];
    ReportSucceeds(saved, |saved|, tpl);
    assert saved[|before|].chartJson.None?;
  }

  /** With the chart stored in each record, saved analyses whose sources are
      strings always produce the report, one section per analysis. */
  lemma CorrectedReportSucceeds(saved: seq<Analysis>, tpl: Templates)
    requires ChartsStored(saved)
    requires forall i :: 0 <= i < |saved| ==> AllText(saved[i].sources)
    ensures ReportUpTo(saved, |saved|, tpl).Success?
    ensures |ReportUpTo(saved, |saved|, tpl).value.sections| == |saved|
    ensures saved != [] ==> ReportPage(Some(saved), [], tpl).Download? && ReportPage(Some(saved), [], tpl).report.Success?
  {
    ReportSucceeds(saved, |saved|, tpl);
    ReportShape(saved, |saved|, tpl);
  }
}
