/** The AI-analysis part of the dashboard pages: the record built when the
    user asks for insights, and the session state that holds the current
    analysis and the list of saved ones. */
module AnalysisSession {
  import opened Wrappers
  import opened Tables
  import opened CascadingFilter
  import opened ListOps

  /** The filters stored with an analysis: every selection except lists of
      more than five values. */
  function FilterSummary(f: Filters): (r: Filters)
    ensures forall k :: k in r <==> k in f && !(f[k].Many? && |f[k].values| > 5)
    ensures forall k :: k in r ==> r[k] == f[k]
  {
    map k | k in f && !(f[k].Many? && |f[k].values| > 5) :: f[k]
  }

  /** Summarising twice drops nothing more, and a summary only ever holds lists
      of at most five values. */
  lemma FilterSummaryIdempotent(f: Filters)
    ensures FilterSummary(FilterSummary(f)) == FilterSummary(f)
    ensures forall k :: k in FilterSummary(f) && FilterSummary(f)[k].Many? ==> |FilterSummary(f)[k].values| <= 5
  {
    var s := FilterSummary(f);
    assert FilterSummary(s).Keys == s.Keys;
  }

  /** A saved analysis. `chartJson` is the key the report builder reads; it is
      absent from the record the dashboard stores. */
  datatype Analysis = Analysis(
    dashboard: string,
    indicator: Selection,
    filters: Filters,
    text: string,
    notes: seq<Value>,
    sources: seq<Value>,
    rawData: Table,
    config: Config,
    chartJson: Option<string>)

  /** The record as the dashboard builds it: no chart specification. */
  function RecordAsWritten(cfg: Config, view: View, text: string): (a: Analysis)
    requires view.Shown?
    ensures a.chartJson.None? && Summarised(a)
    ensures a.indicator == view.indicator && a.rawData == view.table
    ensures forall k :: k in a.filters ==> k in view.filters && a.filters[k] == view.filters[k]
  {
    Analysis(cfg.title, view.indicator, FilterSummary(view.filters), text, view.notes, view.sources,
      view.table, cfg, None)
  }

  /** The record with the chart's Vega-Lite specification stored beside it,
      which is what the report builder needs. */
  function Record(cfg: Config, view: View, text: string, chartJson: string): (a: Analysis)
    requires view.Shown?
    ensures a.chartJson == Some(chartJson) && Summarised(a)
    ensures a.(chartJson := None) == RecordAsWritten(cfg, view, text)
  {
    RecordAsWritten(cfg, view, text).(chartJson := Some(chartJson))
  }

  /** A record's filters hold no list of more than five values. */
  predicate Summarised(a: Analysis) {
    forall k :: k in a.filters ==> !(a.filters[k].Many? && |a.filters[k].values| > 5)
  }

  /** Every record carries its chart specification. */
  predicate ChartsStored(xs: seq<Analysis>) {
    forall i :: 0 <= i < |xs| ==> xs[i].chartJson.Some?
  }

  /** The session keys `current_ai_analysis`, `saved_analyses` (absent until
      the first save) and `last_dashboard`. */
  class Session {
    var current: Option<Analysis>
    var saved: Option<seq<Analysis>>
    var lastDashboard: Option<string>

    /** Every record in the session went through the filter summary: none
        holds a list of more than five values. */
    predicate Valid()
      reads this
    {
      && (current.Some? ==> Summarised(current.value))
      && (saved.Some? ==> forall i :: 0 <= i < |saved.value| ==> Summarised(saved.value[i]))
    }

    /** `saved_analyses`, with an absent key read as the empty list. */
    function Saved(): seq<Analysis>
      reads this
    {
      saved.GetOr([])
    }

    constructor()
      ensures Valid()
      ensures current == None && saved == None && lastDashboard == None
    {
      current := None;
      saved := None;
      lastDashboard := None;
    }

    /** Opening a dashboard page: the current analysis is cleared when the
        previous page was another dashboard (or none). */
    method EnterDashboard(name: string)
      requires Valid()
      modifies this
      ensures Valid()
      ensures lastDashboard == Some(name) && saved == old(saved)
      ensures current == (if old(lastDashboard) == Some(name) then old(current) else None)
    {
      if lastDashboard != Some(name) {
        current := None;
      }
      lastDashboard := Some(name);
    }

    /** "Generate Insights": the analysis of the shown table, built as the
        dashboard builds it (without its chart), becomes the current one. */
    method GenerateInsights(cfg: Config, view: View, text: string)
      requires Valid() && view.Shown?
      modifies this
      ensures Valid()
      ensures current == Some(RecordAsWritten(cfg, view, text))
      ensures saved == old(saved) && lastDashboard == old(lastDashboard)
    {
      current := Some(RecordAsWritten(cfg, view, text));
    }

    /** "Generate Insights" with the chart's specification stored in the
        record, which the report builder needs (see `Record`). */
    method GenerateInsightsWithChart(cfg: Config, view: View, text: string, chartJson: string)
      requires Valid() && view.Shown?
      modifies this
      ensures Valid()
      ensures current == Some(Record(cfg, view, text, chartJson))
      ensures saved == old(saved) && lastDashboard == old(lastDashboard)
    {
      current := Some(Record(cfg, view, text, chartJson));
    }

    /** The current analysis is displayed, and can be saved, only while its
        indicator is the one selected on the page. */
    predicate ShowsCurrent(indicator: Selection)
      reads this
    {
      current.Some? && current.value.indicator == indicator
    }

    /** "Save This Analysis": appends the displayed analysis to the saved list
        (created empty if absent) and clears it; earlier entries are unchanged.
        Nothing happens when the current analysis is not displayed. */
    method Save(indicator: Selection)
      requires Valid()
      modifies this
      ensures Valid()
      ensures old(ShowsCurrent(indicator)) ==>
        saved == Some(old(Saved()) + [old(current).value]) && current == None
      ensures !old(ShowsCurrent(indicator)) ==> saved == old(saved) && current == old(current)
      ensures lastDashboard == old(lastDashboard)
    {
      if ShowsCurrent(indicator) {
        if saved.None? {
          saved := Some([]);
        }
        saved := Some(saved.value + [current.value]);
        current := None;
      }
    }

    /** The report builder's remove buttons: one run pops the highest marked index. */
    method RemoveMarked(marked: seq<nat>)
      requires Valid() && saved.Some?
      requires forall i :: i in marked ==> i < |saved.value|
      modifies this
      ensures Valid()
      ensures saved == Some(AfterRemoval(old(saved.value), marked))
      ensures current == old(current) && lastDashboard == old(lastDashboard)
    {
      if marked != [] {
        var i := MaxOf(marked);
        saved := Some(RemoveAt(saved.value, i));
      }
    }
  }

  /** Saving and then removing the last entry restores the saved list. */
  lemma SaveThenRemove(before: seq<Analysis>, a: Analysis)
    ensures AfterRemoval(before + [a], [|before|]) == before
  {
    AppendThenRemove(before, a);
  }
}
