/** The three dashboard configurations (`CONFIGS`) fed to the cascading
    filter engine, and the well-formedness that makes its lookups by label
    safe. Loader, file path and analyzer entries are left out. */
module DashboardConfigs {
  import opened Wrappers
  import opened Tables
  import opened CascadingFilter

  function Texts(names: seq<string>): (r: seq<Value>)
    ensures |r| == |names| && forall i :: 0 <= i < |r| ==> r[i] == Text(names[i])
  {
    if names == [] then [] else [Text(names[0])] + Texts(names[1..])
  }

  const ChirsSteps: seq<FilterStep> :=
    [ FilterStep("Topic Area", "Topic Area", SelectBox),
      FilterStep("Indicator", "Indicator Title", SelectBox),
      FilterStep("Counties", "Geographic area", MultiSelect(Listed(Texts(
        ["Westchester County", "Dutchess County", "Putnam County", "Sullivan County",
         "Rockland County", "Orange County", "Ulster County"])))),
      FilterStep("Years", "Year", MultiSelect(Listed([]))) ]

  const Chirs: Config := Config(
    "CHIRS Indicators", ChirsSteps, "Indicator", "Geographic area", "Year", "Rate/Percent", "Rate / Percent",
    "Data Source", "Data Notes", None)

  const PreventionAgendaSteps: seq<FilterStep> :=
    [ FilterStep("Priority Area", "Priority Area", SelectBox),
      FilterStep("Focus Area", "Focus Area", SelectBox),
      FilterStep("Indicator", "Indicator", SelectBox),
      FilterStep("Counties", "County Name", MultiSelect(Listed(Texts(
        ["Westchester", "Dutchess", "Putnam", "Sullivan", "Rockland", "Orange", "Ulster"])))),
      FilterStep("Years", "Data Years", MultiSelect(AllOptions)) ]

  const PreventionAgenda: Config := Config(
    "Prevention Agenda Trends", PreventionAgendaSteps, "Indicator", "County Name", "Data Years", "Percentage/Rate/Ratio", "Percentage / Rate / Ratio",
    "Date Source", "Data Comments", Some(ObjectiveLine("2024 Objective", "2024 Objective", "red")))

  const MchSteps: seq<FilterStep> :=
    [ FilterStep("Domain Area", "Domain Area", SelectBox),
      FilterStep("Indicator", "Indicator", SelectBox),
      FilterStep("Counties", "County Name", MultiSelect(Listed(Texts(
        ["Westchester", "Dutchess", "Putnam", "Sullivan", "Rockland", "Orange", "Ulster"])))),
      FilterStep("Years", "Data Years", MultiSelect(AllOptions)) ]

  const Mch: Config := Config(
    "MCH Dashboard", MchSteps, "Indicator", "County Name", "Data Years", "Percentage/Rate", "Percentage / Rate",
    "Date Source", "Data Comments", Some(ObjectiveLine("MCH Objective", "MCH Objective", "green")))

  const Configs: map<string, Config> := map[
    "CHIRS Indicators" := Chirs,
    "Prevention Agenda Trends" := PreventionAgenda,
    "MCH Dashboard" := Mch]

  /** How many steps carry the given label. */
  function LabelCount(steps: seq<FilterStep>, caption: string): (n: nat)
    ensures n <= |steps|
    ensures n == 0 <==> forall j :: 0 <= j < |steps| ==> steps[j].caption != caption
    decreases |steps|
  {
    if steps == [] then 0
    else (if steps[0].caption == caption then 1 else 0) + LabelCount(steps[1..], caption)
  }

  /** The shape the engine and the chart rely on: distinct labels, an indicator
      label naming exactly one selectbox step, the year column bound to the last
      ("Years") step and the county column to the "Counties" step. */
  predicate WellFormed(cfg: Config) {
    && |cfg.filters| >= 2
    && DistinctLabels(cfg.filters)
    && LabelCount(cfg.filters, cfg.indicatorLabel) == 1
    && (forall j :: 0 <= j < |cfg.filters| && cfg.filters[j].caption == cfg.indicatorLabel
          ==> cfg.filters[j].widget.SelectBox?)
    && cfg.filters[|cfg.filters| - 1].caption == "Years"
    && cfg.filters[|cfg.filters| - 1].col == cfg.yearCol
    && LabelCount(cfg.filters, "Counties") == 1
    && (forall j :: 0 <= j < |cfg.filters| && cfg.filters[j].caption == "Counties"
          ==> cfg.filters[j].col == cfg.countyCol)
    && cfg.valueCol != ""
  }

  /** `WellFormed` from distinct labels and the positions of the indicator
      and "Counties" steps. */
  lemma WellFormedOf(cfg: Config, i: nat, c: nat)
    requires |cfg.filters| >= 2 && DistinctLabels(cfg.filters)
    requires i < |cfg.filters| && cfg.filters[i].caption == cfg.indicatorLabel && cfg.filters[i].widget.SelectBox?
    requires c < |cfg.filters| && cfg.filters[c].caption == "Counties" && cfg.filters[c].col == cfg.countyCol
    requires cfg.filters[|cfg.filters| - 1].caption == "Years"
    requires cfg.filters[|cfg.filters| - 1].col == cfg.yearCol
    requires cfg.valueCol != ""
    ensures WellFormed(cfg)
  {
    UniqueLabelCount(cfg.filters, i);
    UniqueLabelCount(cfg.filters, c);
  }

  /** With distinct labels, a label carried by step k is carried once. */
  lemma {:induction false} UniqueLabelCount(steps: seq<FilterStep>, k: nat)
    requires DistinctLabels(steps) && k < |steps|
    ensures LabelCount(steps, steps[k].caption) == 1
    decreases |steps|
  {
    var rest := steps[1..];
    assert DistinctLabels(rest) by {
      forall a, b | 0 <= a < b < |rest| ensures rest[a].caption != rest[b].caption {
        assert rest[a] == steps[a + 1] && rest[b] == steps[b + 1];
      }
    }
    if k == 0 {
      assert forall j :: 0 <= j < |rest| ==> rest[j].caption != steps[0].caption by {
        forall j | 0 <= j < |rest| ensures rest[j].caption != steps[0].caption {
          assert rest[j] == steps[j + 1];
        }
      }
    } else {
      UniqueLabelCount(rest, k - 1);
      assert rest[k - 1] == steps[k];
    }
  }

  lemma ChirsWellFormed()
    ensures WellFormed(Chirs)
  {
    ChirsDistinct();
    WellFormedOf(Chirs, 1, 2);
  }

  lemma ChirsDistinct()
    ensures DistinctLabels(ChirsSteps)
  {
  }

  lemma PreventionAgendaWellFormed()
    ensures WellFormed(PreventionAgenda)
  {
    PreventionAgendaDistinct();
    WellFormedOf(PreventionAgenda, 2, 3);
  }

  lemma PreventionAgendaDistinct()
    ensures DistinctLabels(PreventionAgendaSteps)
  {
  }

  lemma MchWellFormed()
    ensures WellFormed(Mch)
  {
    MchDistinct();
    WellFormedOf(Mch, 1, 2);
  }

  lemma MchDistinct()
    ensures DistinctLabels(MchSteps)
  {
  }

  lemma ConfigsMembers(name: string)
    requires name in Configs
    ensures Configs[name] == Chirs || Configs[name] == PreventionAgenda || Configs[name] == Mch
  {
  }

  /** Every configuration in `CONFIGS` is well formed; only the Prevention
      Agenda and MCH dashboards draw an objective line. */
  lemma ConfigsWellFormed()
    ensures forall name :: name in Configs ==> WellFormed(Configs[name])
    ensures Chirs.objective.None?
    ensures PreventionAgenda.objective.Some?
    ensures Mch.objective.Some?
  {
    forall name | name in Configs ensures WellFormed(Configs[name]) {
      ConfigsMembers(name);
      if Configs[name] == Chirs {
        ChirsWellFormed();
      } else if Configs[name] == PreventionAgenda {
        PreventionAgendaWellFormed();
      } else {
        MchWellFormed();
      }
    }
  }

  /** The index of the indicator step in a well-formed config. */
  lemma IndicatorStep(cfg: Config) returns (k: nat)
    requires WellFormed(cfg)
    ensures k < |cfg.filters| && cfg.filters[k].caption == cfg.indicatorLabel
    ensures IndicatorIsStep(cfg)
    ensures cfg.filters[k].widget.SelectBox?
  {
    k :| 0 <= k < |cfg.filters| && cfg.filters[k].caption == cfg.indicatorLabel;
  }

  /** In a well-formed dashboard the page's indicator is what the indicator
      selectbox returned: a single offered value, or None only when that step
      offers nothing. */
  lemma DashboardIndicator(cfg: Config, t: Table, picks: seq<Pick>)
    requires WellFormed(cfg) && |picks| == |cfg.filters|
    ensures IndicatorIsStep(cfg)
    ensures var v := Dashboard(cfg, t, picks);
      !v.Blocked? ==> exists k :: (0 <= k < |cfg.filters| && cfg.filters[k].caption == cfg.indicatorLabel
        && v.indicator == SelectionAt(cfg, t, picks, k) && (v.indicator.One? || v.indicator.NoneSelected?))
  {
    var k := IndicatorStep(cfg);
    DashboardSpec(cfg, t, picks);
    StoredSelection(cfg, t, picks, |cfg.filters|, k);
  }
}
