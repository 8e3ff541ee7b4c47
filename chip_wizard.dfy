/** The CHIP wizard page: the `chip_wizard` form held in session state, its
    dependent selectboxes, the editable objective and strategy lists, and the
    `chip_report_sections` list that "Add section" appends to. */
module ChipWizard {
  import opened Wrappers
  import opened Tables
  import opened ChipData
  import opened ListOps

  /** One row of the strategy table; every field starts empty. */
  datatype Strategy = Strategy(activity: string, partners: string, timeframe: string, evaluation: string, outcome: string)

  const EmptyStrategy: Strategy := Strategy("", "", "", "", "")

  /** A saved plan section: a copy of the form plus the data context shown
      beside it. */
  datatype PlanSection = PlanSection(
    county: Value, priority: Value, focus: Value, indicator: Value,
    goal: string, disparities: string,
    objectives: seq<string>, strategies: seq<Strategy>,
    trend: Table, officialObjective: string, latestData: string)

  /** The selectbox's answer: the user's pick when it is offered, otherwise the
      option at the widget's `index`. */
  function Choose(options: seq<Value>, current: Value, pick: Option<Value>): (v: Value)
    requires current in options
    ensures v in options
    ensures pick.Some? && pick.value in options ==> v == pick.value
    ensures (pick.None? || pick.value !in options) ==> v == current
  {
    if pick.Some? && pick.value in options then pick.value else current
  }

  /** The sorted, distinct, present values of one column. */
  function Options(t: Table, col: string): (r: seq<Value>)
    ensures StrictlyAscending(r)
    ensures forall v :: v in r <==> v != Missing && exists row :: row in t && Cell(row, col) == v
  {
    SortedOptions(t, col, false)
  }

  /** The options of `col` among the rows whose `keyCol` equals `key`: the
      focus areas of a priority area, and the indicators of a focus area
      (whatever its priority area). */
  function OptionsWhere(t: Table, keyCol: string, key: Value, col: string): (r: seq<Value>)
    ensures StrictlyAscending(r)
    ensures forall v :: v in r <==> (v != Missing &&
      exists row :: row in t && CellEq(row, keyCol, key) && Cell(row, col) == v)
  {
    Options(Filter(t, (row: Row) => CellEq(row, keyCol, key)), col)
  }

  class ChipSession {
    // The `chip_wizard` form; an absent key is None.
    var county: Option<Value>
    var priority: Option<Value>
    var focus: Option<Value>
    var indicator: Option<Value>
    var goal: string
    var disparities: string
    var objectives: seq<string>
    var strategies: seq<Strategy>
    // `chip_report_sections`, absent until the first section is added.
    var sections: Option<seq<PlanSection>>

    /** The form always has at least one objective and one strategy. */
    predicate Valid()
      reads this
    {
      |objectives| >= 1 && |strategies| >= 1
    }

    /** `chip_report_sections`, with an absent key read as the empty list. */
    function Sections(): seq<PlanSection>
      reads this
    {
      sections.GetOr([])
    }

    /** A blank form: one empty objective and one empty strategy. */
    predicate Blank()
      reads this
    {
      && goal == "" && disparities == ""
      && objectives == [""] && strategies == [EmptyStrategy]
    }

    constructor()
      ensures Valid() && Blank()
      ensures county == None && priority == None && focus == None && indicator == None
      ensures sections == None
    {
      county, priority, focus, indicator := None, None, None, None;
      goal, disparities := "", "";
      objectives := [""];
      strategies := [EmptyStrategy];
      sections := None;
    }

    /** The county selectbox. Its index is that of the stored county, or of
        "Dutchess" (else the first county) when none is stored; an empty
        county list (IndexError) or a stored county no longer listed
        (ValueError of `list.index`) aborts the run with nothing changed. */
    method SelectCounty(t: Table, pick: Option<Value>) returns (ok: bool)
      requires Valid()
      modifies this
      ensures Valid()
      ensures var counties := Options(t, "County Name");
        ok <==> counties != [] && (old(county).None? || old(county).value in counties)
      ensures ok ==> county.Some? && county.value in Options(t, "County Name")
      ensures ok ==> county == Some(Choose(Options(t, "County Name"),
        old(county).GetOr(DefaultCounty(Options(t, "County Name"))), pick))
      ensures !ok ==> county == old(county)
      ensures priority == old(priority) && focus == old(focus) && indicator == old(indicator)
      ensures goal == old(goal) && disparities == old(disparities)
      ensures objectives == old(objectives) && strategies == old(strategies) && sections == old(sections)
    {
      var counties := Options(t, "County Name");
      if counties == [] {
        return false;
      }
      var current := county.GetOr(DefaultCounty(counties));
      if current !in counties {
        return false;
      }
      county := Some(Choose(counties, current, pick));
      return true;
    }

    /** The priority-area selectbox: the first priority area when none is
        stored. */
    method SelectPriority(t: Table, pick: Option<Value>) returns (ok: bool)
      requires Valid()
      modifies this
      ensures Valid()
      ensures var areas := Options(t, "Priority Area");
        ok <==> areas != [] && (old(priority).None? || old(priority).value in areas)
      ensures ok ==> priority.Some? && priority.value in Options(t, "Priority Area")
      ensures ok ==> priority == Some(Choose(Options(t, "Priority Area"),
        old(priority).GetOr(Options(t, "Priority Area")[0]), pick))
      ensures !ok ==> priority == old(priority)
      ensures county == old(county) && focus == old(focus) && indicator == old(indicator)
      ensures goal == old(goal) && disparities == old(disparities)
      ensures objectives == old(objectives) && strategies == old(strategies) && sections == old(sections)
    {
      var areas := Options(t, "Priority Area");
      if priority.None? && areas == [] {
        return false;
      }
      var current := if priority.Some? then priority.value else areas[0];
      if current !in areas {
        return false;
      }
      priority := Some(Choose(areas, current, pick));
      return true;
    }

    /** The focus-area selectbox. A stored focus area that is absent or not
        among the chosen priority's focus areas is first reset to the first
        of them. */
    method SelectFocus(t: Table, pick: Option<Value>) returns (ok: bool)
      requires Valid() && priority.Some?
      modifies this
      ensures Valid()
      ensures var areas := OptionsWhere(t, "Priority Area", old(priority).value, "Focus Area");
        && (ok <==> areas != [])
        && (ok ==> focus.Some? && focus.value in areas)
        && (ok ==> focus == Some(Choose(areas,
              if old(focus).Some? && old(focus).value in areas then old(focus).value else areas[0], pick)))
      ensures !ok ==> focus == old(focus)
      ensures county == old(county) && priority == old(priority) && indicator == old(indicator)
      ensures goal == old(goal) && disparities == old(disparities)
      ensures objectives == old(objectives) && strategies == old(strategies) && sections == old(sections)
    {
      var areas := OptionsWhere(t, "Priority Area", priority.value, "Focus Area");
      if focus.None? || focus.value !in areas {
        if areas == [] {
          return false;
        }
        focus := Some(areas[0]);
      }
      focus := Some(Choose(areas, focus.value, pick));
      return true;
    }

    /** The indicator selectbox, with the same fallback to the first option. */
    method SelectIndicator(t: Table, pick: Option<Value>) returns (ok: bool)
      requires Valid() && focus.Some?
      modifies this
      ensures Valid()
      ensures var list := OptionsWhere(t, "Focus Area", old(focus).value, "Indicator");
        && (ok <==> list != [])
        && (ok ==> indicator.Some? && indicator.value in list)
        && (ok ==> indicator == Some(Choose(list,
              if old(indicator).Some? && old(indicator).value in list then old(indicator).value else list[0], pick)))
      ensures !ok ==> indicator == old(indicator)
      ensures county == old(county) && priority == old(priority) && focus == old(focus)
      ensures goal == old(goal) && disparities == old(disparities)
      ensures objectives == old(objectives) && strategies == old(strategies) && sections == old(sections)
    {
      var list := OptionsWhere(t, "Focus Area", focus.value, "Indicator");
      if indicator.None? || indicator.value !in list {
        if list == [] {
          return false;
        }
        indicator := Some(list[0]);
      }
      indicator := Some(Choose(list, indicator.value, pick));
      return true;
    }

    /** The goal and disparities text inputs (an AI-suggested goal arrives
        the same way). */
    method SetTexts(newGoal: string, newDisparities: string)
      requires Valid()
      modifies this
      ensures Valid()
      ensures goal == newGoal && disparities == newDisparities
      ensures county == old(county) && priority == old(priority) && focus == old(focus) && indicator == old(indicator)
      ensures objectives == old(objectives) && strategies == old(strategies) && sections == old(sections)
    {
      goal := newGoal;
      disparities := newDisparities;
    }

    /** The text input of objective i. */
    method SetObjective(i: nat, text: string)
      requires Valid() && i < |objectives|
      modifies this
      ensures Valid()
      ensures objectives == old(objectives)[i := text]
      ensures county == old(county) && priority == old(priority) && focus == old(focus) && indicator == old(indicator)
      ensures goal == old(goal) && disparities == old(disparities)
      ensures strategies == old(strategies) && sections == old(sections)
    {
      objectives := objectives[i := text];
    }

    /** The five inputs of strategy i. */
    method SetStrategy(i: nat, s: Strategy)
      requires Valid() && i < |strategies|
      modifies this
      ensures Valid()
      ensures strategies == old(strategies)[i := s]
      ensures county == old(county) && priority == old(priority) && focus == old(focus) && indicator == old(indicator)
      ensures goal == old(goal) && disparities == old(disparities)
      ensures objectives == old(objectives) && sections == old(sections)
    {
      strategies := strategies[i := s];
    }

    /** "Add Objective": one empty objective at the end. */
    method AddObjective()
      requires Valid()
      modifies this
      ensures Valid()
      ensures objectives == old(objectives) + [""]
      ensures county == old(county) && priority == old(priority) && focus == old(focus) && indicator == old(indicator)
      ensures goal == old(goal) && disparities == old(disparities)
      ensures strategies == old(strategies) && sections == old(sections)
    {
      objectives := objectives + [""];
    }

    /** "Remove Last Objective": pops only while more than one remains. */
    method RemoveLastObjective()
      requires Valid()
      modifies this
      ensures Valid()
      ensures |old(objectives)| > 1 ==> objectives == old(objectives)[..|old(objectives)| - 1]
      ensures |old(objectives)| == 1 ==> objectives == old(objectives)
      ensures county == old(county) && priority == old(priority) && focus == old(focus) && indicator == old(indicator)
      ensures goal == old(goal) && disparities == old(disparities)
      ensures strategies == old(strategies) && sections == old(sections)
    {
      if |objectives| > 1 {
        objectives := objectives[..|objectives| - 1];
      }
    }

    /** "Add Strategy": one all-empty strategy at the end. */
    method AddStrategy()
      requires Valid()
      modifies this
      ensures Valid()
      ensures strategies == old(strategies) + [EmptyStrategy]
      ensures county == old(county) && priority == old(priority) && focus == old(focus) && indicator == old(indicator)
      ensures goal == old(goal) && disparities == old(disparities)
      ensures objectives == old(objectives) && sections == old(sections)
    {
      strategies := strategies + [EmptyStrategy];
    }

    /** "Remove Last Strategy": pops only while more than one remains. */
    method RemoveLastStrategy()
      requires Valid()
      modifies this
      ensures Valid()
      ensures |old(strategies)| > 1 ==> strategies == old(strategies)[..|old(strategies)| - 1]
      ensures |old(strategies)| == 1 ==> strategies == old(strategies)
      ensures county == old(county) && priority == old(priority) && focus == old(focus) && indicator == old(indicator)
      ensures goal == old(goal) && disparities == old(disparities)
      ensures objectives == old(objectives) && sections == old(sections)
    {
      if |strategies| > 1 {
        strategies := strategies[..|strategies| - 1];
      }
    }

    /** The snapshot "Add section" stores: the form and the data context. */
    function Snapshot(ctx: ChipContext): (p: PlanSection)
      requires county.Some? && priority.Some? && focus.Some? && indicator.Some?
      reads this
      ensures p.trend == ctx.trend && p.officialObjective == ctx.objective && p.latestData == ctx.latest
      ensures p.county == county.value && p.objectives == objectives && p.strategies == strategies
    {
      PlanSection(county.value, priority.value, focus.value, indicator.value, goal, disparities,
        objectives, strategies, ctx.trend, ctx.objective, ctx.latest)
    }

    /** "Add This Section": appends the snapshot of the form and of `ctx`,
        the data context computed from the Prevention Agenda table `pa` for
        the stored selections (creating the list when absent), and replaces
        the form by a blank one that keeps the county. The button is reached
        only when that context was computed without raising. */
    method AddSection(pa: Option<Table>, ctx: ChipContext)
      requires Valid() && county.Some? && priority.Some? && focus.Some? && indicator.Some?
      requires ChipData.ChipData(pa, priority.value, focus.value, indicator.value, county.value) == Success(ctx)
      modifies this
      ensures Valid() && Blank()
      ensures sections == Some(old(Sections()) + [old(Snapshot(ctx))])
      ensures county == old(county) && priority == None && focus == None && indicator == None
    {
      var snap := Snapshot(ctx);
      if sections.None? {
        sections := Some([]);
      }
      sections := Some(sections.value + [snap]);
      priority, focus, indicator := None, None, None;
      goal, disparities := "", "";
      objectives := [""];
      strategies := [EmptyStrategy];
    }

    /** The CHIP report's remove buttons: one run pops the highest marked
        section. */
    method RemoveMarkedSections(marked: seq<nat>)
      requires sections.Some? && forall i :: i in marked ==> i < |sections.value|
      modifies this
      ensures sections == Some(AfterRemoval(old(sections.value), marked))
      ensures county == old(county) && priority == old(priority) && focus == old(focus) && indicator == old(indicator)
      ensures goal == old(goal) && disparities == old(disparities)
      ensures objectives == old(objectives) && strategies == old(strategies)
    {
      if marked != [] {
        sections := Some(RemoveAt(sections.value, MaxOf(marked)));
      }
    }
  }

  /** Adding a section and then removing the last one restores the list. */
  lemma AddThenRemoveSection(before: seq<PlanSection>, p: PlanSection)
    ensures AfterRemoval(before + [p], [|before|]) == before
  {
    AppendThenRemove(before, p);
  }
}
