# NYS Community Health Explorer — a Dafny model

The NYS Community Health Explorer is a Streamlit suite. Public-health staff
use it to browse New York State county health data, compare counties, score
priorities and draft Community Health Improvement Plans (CHIPs). This
project models the logic behind its pages. Every table is an ordered
sequence of rows. Every row maps column names to cells. A cell is text, an
integer or missing (pandas' NaN). A widget is the value it returns for the
options it offers and what the user did with it.

The model covers these parts:

- **The dashboard engine** (`CascadingFilter`, `DashboardConfigs`). It is
  used by the CHIRS, Prevention Agenda and MCH dashboards.
  - Each filter step offers the sorted values left by the earlier steps.
  - The first empty selection blocks the page.
  - The rows shown are those that pass every step and have a value.
  - The three configurations are well formed.
- **The AI-analysis session** (`AnalysisSession`). It covers the current
  analysis, saving it and removing saved entries.
- **The Consolidated Report Builder** (`ReportBuilder`). It emits one
  section and one Vega-Embed script per saved analysis.
- **The CHIP Wizard** (`ChipWizard`, `ChipData`) and **the CHIP Report**
  (`ChipReport`, `Html`).
  - The wizard is a form held in session state, with fallbacks for its
    selectboxes and add/remove buttons for objectives and strategies.
  - `ChipData` is the objective, latest value and five-year trend read
    from the Prevention Agenda table.
  - The report is HTML with escaping and line breaks turned into `<br>`.
- **The Hanlon prioritization page** (`Hanlon`, `CountyPicker`). It covers
  the size and seriousness suggestions and the priority score.
- **The County Snapshot page** (`CountySnapshot`). It covers the boundary
  lookup, the metric cards and the prompt's metric map.
- **The Census side of the utilities and the two Census pages**
  (`CensusApi`, `CensusLabels`, `CensusExplorer`, `SdohExplorer`):
  - variable-label cleaning and the variable filter;
  - the query parameters and the response-to-frame conversion;
  - the geography branch and the county filter;
  - column renaming.
- **The County Health Rankings trend page** (`ChrTrends`).

`Tables` and `Strings` hold the pandas and Python primitives the pages
share: `sorted(unique())`, boolean masks, `to_numeric`, `strip`, `split`,
`join`, `replace` and `str(n)`. `ListOps` holds `list.pop` and the removal
loop of the two report pages. `Wrappers` holds `Option` and `Result`.

Source line numbers refer to the files of the original repository.

## Model

| member | source | states |
|---|---|---|
| Tables.SortedDistinct | modules/ui_components.py:18 | `sorted(unique())` without NaN: strictly ascending, and it holds exactly the non-missing values of its input |
| Tables.SortedOptions | modules/ui_components.py:18 | a column's options are strictly ascending, or strictly descending when `reverse` is set; they are exactly the non-missing values some row has in that column |
| Tables.LtTotal | modules/ui_components.py:18 | the order `sorted` uses on one column is total (with LtIrreflexive and LtTransitive it is a strict total order) |
| Tables.LtTransitive | modules/ui_components.py:18 | the sort order is transitive |
| Tables.LtIrreflexive | modules/ui_components.py:18 | the sort order is irreflexive |
| Tables.Unique | modules/ui_components.py:53 | `unique()` has no duplicates, keeps exactly the input's values, and lists them in the order they first appear |
| Tables.PresentValues | modules/ui_components.py:53-56 | the sources and notes lists: duplicate-free, exactly the truthy non-missing values of the column, in the order they first appear in it |
| Tables.FilterValuesOrder | modules/ui_components.py:53-56 | dropping the missing and falsy values keeps the first-appearance order of the rest |
| Tables.Filter | modules/ui_components.py:36-38 | a boolean mask keeps exactly the elements satisfying the predicate, never more than the input |
| Tables.FilterAppend | modules/ui_components.py:36-38 | masking keeps relative order: it distributes over concatenation |
| Tables.FilterCompose | modules/ui_components.py:29-41 | masking by one predicate and then another equals masking once by their conjunction |
| Tables.FilterExt | modules/ui_components.py:29-41 | masks that agree on every element select the same rows |
| Tables.ToNumeric | modules/utils.py:112 | `to_numeric(errors='coerce')` yields a number or missing, keeps numbers, keeps missing |
| Tables.ToNumericShow | modules/utils.py:112 | an integer's decimal text is coerced back to that integer |
| Tables.DefaultCounty | pages/9_Hanlon_Prioritization.py:37 | the default county is "Dutchess" when offered, otherwise the first option, and always an option |
| Strings.Strip | pages/6_Census_Explorer.py:23 | `strip()` gives a slice of the input with no whitespace at either end, and leaves already-stripped text unchanged |
| Strings.Split | pages/6_Census_Explorer.py:23 | `split(sep)` gives at least one piece, and no piece contains the separator |
| Strings.JoinSplit | pages/6_Census_Explorer.py:23 | joining the pieces of a split with the separator gives back the text |
| Strings.SplitJoin | modules/utils.py:102 | splitting a join of separator-free pieces gives back the pieces |
| Strings.ReplaceAbsent | modules/utils.py:79 | `replace` of a pattern that does not occur leaves the text unchanged |
| Strings.NatToStringInjective | pages/5_Report_Builder.py:37 | different indices render to different decimal strings |
| Strings.PrefixedIndexInjective | pages/8_CHIP_Report.py:53 | a fixed prefix followed by an index names each index once |
| Strings.JoinEmptyAt | pages/5_Report_Builder.py:92 | `''.join(parts)` holds part i right after the parts before it |
| CascadingFilter.Where | modules/ui_components.py:13-16 | one step's mask: `isin` for a list, `==` otherwise, keeping exactly the matching rows |
| CascadingFilter.KeepOffered | modules/ui_components.py:25 | the restricted default holds exactly the defaults that are offered |
| CascadingFilter.KeepOfferedOrder | modules/ui_components.py:25 | the restricted default keeps the defaults' order |
| CascadingFilter.DefaultSelection | modules/ui_components.py:23-25 | "all" preselects every option; a listed default preselects exactly its offered members |
| CascadingFilter.Resolve | modules/ui_components.py:20-27 | a selectbox returns an offered value, or None exactly when it offers nothing, and honours an offered pick; a multiselect returns offered values, and its default when untouched |
| CascadingFilter.NarrowedIsConjunction | modules/ui_components.py:10-16 | narrowing by steps 0..i-1 one after another keeps, in order, exactly the rows passing all those steps |
| CascadingFilter.Store | modules/ui_components.py:21-26 | storing the selections under their labels defines every label |
| CascadingFilter.StoreLast | modules/ui_components.py:21-26 | the value under a label is the last one stored under it |
| CascadingFilter.Selections | modules/ui_components.py:9-27 | the selections of the first i steps, one per step, each what that step's widget returned |
| CascadingFilter.FiltersAfter | modules/ui_components.py:9-27 | after i steps, every earlier step's label is in `filters` |
| CascadingFilter.FiltersAfterStep | modules/ui_components.py:21-26 | one more step stores its widget's value under its label and changes nothing else |
| CascadingFilter.OptionUniverse | modules/ui_components.py:9-18 | step i offers exactly the distinct non-missing values of its column among the rows passing every earlier selection, descending for the year column and ascending otherwise |
| CascadingFilter.StoredSelection | modules/ui_components.py:9-27 | with distinct labels, the dict holds under each step's label what that step's widget returned |
| CascadingFilter.ApplyAllSpec | modules/ui_components.py:29-38 | the second loop stops exactly when some selection is empty, at the first such step; otherwise it keeps, in order, the rows passing every step |
| CascadingFilter.ApplyAllStep | modules/ui_components.py:30-38 | one turn of the second loop: stop on an empty selection, otherwise narrow and continue |
| CascadingFilter.DropMissing | modules/ui_components.py:40-41 | `dropna(subset=[value_col])` keeps exactly the rows with a value |
| CascadingFilter.IndicatorLabelled | modules/ui_components.py:43 | the lookup `filters[indicator_label]` is defined |
| CascadingFilter.DashboardSpec | modules/ui_components.py:6-56 | the page is blocked exactly when a selection is empty, warning about the first one; otherwise the indicator is the stored selection; a shown table is non-empty and holds, in order, exactly the rows that pass every step and have a value; "no data" means no such row |
| CascadingFilter.ShownRowsHaveValues | modules/ui_components.py:40-41 | every row shown has a value in the value column |
| CascadingFilter.SelectFilters | modules/ui_components.py:9-27 | the first loop builds exactly the `filters` dict of the specification |
| CascadingFilter.StepWidget | modules/ui_components.py:10-27 | one pass of the first loop returns what step i's widget returns over the narrowed table |
| CascadingFilter.NarrowBy | modules/ui_components.py:10-16 | the inner loop computes the table narrowed by steps 0..i-1 |
| CascadingFilter.LabelledSuffix | modules/ui_components.py:30-38 | the labels of a suffix of the steps stay defined |
| CascadingFilter.RenderDashboard | modules/ui_components.py:6-56 | the imperative `render_dashboard` produces exactly the page of the specification |
| DashboardConfigs.Texts | modules/config.py:16 | a list literal of names becomes the same list of text cells |
| DashboardConfigs.LabelCount | modules/config.py:13-18 | a label count is at most the number of steps, and zero exactly when no step has that label |
| DashboardConfigs.WellFormedOf | modules/config.py:13-21 | distinct labels, a selectbox indicator step, a county step and a final year step make a config well formed |
| DashboardConfigs.UniqueLabelCount | modules/config.py:13-18 | with distinct labels each step's label occurs once |
| DashboardConfigs.ChirsWellFormed | modules/config.py:9-22 | the CHIRS configuration is well formed |
| DashboardConfigs.PreventionAgendaWellFormed | modules/config.py:23-38 | the Prevention Agenda configuration is well formed |
| DashboardConfigs.MchWellFormed | modules/config.py:39-53 | the MCH configuration is well formed |
| DashboardConfigs.ConfigsMembers | modules/config.py:8-54 | `CONFIGS` holds exactly the three dashboards |
| DashboardConfigs.ConfigsWellFormed | modules/config.py:8-54 | every configuration is well formed; only Prevention Agenda and MCH draw an objective line |
| DashboardConfigs.IndicatorStep | modules/config.py:13-47 | a well-formed configuration's indicator label is a selectbox step |
| DashboardConfigs.DashboardIndicator | modules/ui_components.py:43-68 | the page's indicator is what the indicator selectbox returned: one offered value, or None |
| AnalysisSession.FilterSummary | modules/ui_components.py:69 | the stored filters are exactly those that are not lists longer than five, with unchanged values |
| AnalysisSession.FilterSummaryIdempotent | modules/ui_components.py:69 | summarising twice changes nothing, and a summary holds no list longer than five |
| AnalysisSession.RecordAsWritten | modules/ui_components.py:67-72 | the record as built has the indicator, the shown table and the summarised filters (no list longer than five), and no chart specification |
| AnalysisSession.Record | modules/ui_components.py:67-72 | the corrected record stores the chart specification; otherwise it equals the record as written |
| AnalysisSession.Session.constructor | pages/2_CHIRS_Indicators.py:16-18 | a fresh session has no current analysis, no saved list and no last dashboard |
| AnalysisSession.Session.EnterDashboard | pages/2_CHIRS_Indicators.py:16-18 | opening a different dashboard clears the current analysis; the saved list is untouched |
| AnalysisSession.Session.GenerateInsights | modules/ui_components.py:64-73 | the record as the dashboard builds it, without a chart specification, becomes the current analysis; nothing else changes; every record in the session stays summarised |
| AnalysisSession.Session.GenerateInsightsWithChart | modules/ui_components.py:64-73 | the corrected flow: the record with its chart specification becomes the current analysis; nothing else changes |
| AnalysisSession.Session.Save | modules/ui_components.py:75-84 | when the current analysis is for the shown indicator, it is appended to the saved list (created if absent) and cleared; otherwise nothing changes |
| AnalysisSession.Session.RemoveMarked | pages/5_Report_Builder.py:15-25 | one run pops the highest marked index from the saved list; nothing else changes |
| AnalysisSession.SaveThenRemove | pages/5_Report_Builder.py:23-24 | saving an analysis and removing it again restores the saved list |
| ListOps.MaxOf | pages/5_Report_Builder.py:23 | the first index of the descending sort is a marked index no smaller than any other |
| ListOps.RemoveAt | pages/5_Report_Builder.py:24 | `pop(i)` drops exactly entry i, keeps the others in order, and loses nothing else (multiset) |
| ListOps.AppendThenRemove | pages/5_Report_Builder.py:24 | popping what was just appended gives the list back |
| ListOps.AfterRemoval | pages/5_Report_Builder.py:23-25 | with nothing marked the list is unchanged; otherwise exactly one entry goes |
| ReportBuilder.SectionNamesDistinct | pages/5_Report_Builder.py:37-45 | different sections never share a div id or a spec variable |
| ReportBuilder.NoteItemsAppend | pages/5_Report_Builder.py:58 | the notes list renders piecewise: one `<li>` per note, in order |
| ReportBuilder.ReportSucceeds | pages/5_Report_Builder.py:36-62 | the report loop succeeds exactly when every analysis has a chart specification and string sources |
| ReportBuilder.ReportShape | pages/5_Report_Builder.py:36-62 | a built report has one section and one script per analysis, each from that analysis |
| ReportBuilder.FailurePersists | pages/5_Report_Builder.py:36-62 | once the loop raises, the exception is what the page gets |
| ReportBuilder.BuildReport | pages/5_Report_Builder.py:33-62 | the imperative loop computes the report of the specification |
| ReportBuilder.AsWrittenReportFails | pages/5_Report_Builder.py:41 | a saved list containing a record as the dashboard builds it always makes the report raise, and the page offers no document |
| ReportBuilder.CorrectedReportSucceeds | pages/5_Report_Builder.py:36-62 | with chart specifications stored, a report over analyses with string sources is always built, one section each, and the page offers it |
| ReportBuilder.Document | pages/5_Report_Builder.py:75-96 | the document starts with the head holding the generation time and ends by closing the body and html |
| ReportBuilder.DocumentHoldsSection | pages/5_Report_Builder.py:92 | section i stands in the document right after the head and the sections before it |
| ReportBuilder.ReportPage | pages/5_Report_Builder.py:10-62 | the info message and stop exactly when the saved list is absent or empty; a pressed remove button pops one entry and reruns; otherwise the report is offered, built exactly when every analysis has a chart and string sources, one section each |
| Html.Escape | pages/8_CHIP_Report.py:65-83 | `html.escape` output holds no `<`, `>`, `"` or `'`, is never shorter, and adds no newline |
| Html.UnescapeHead | pages/8_CHIP_Report.py:65-83 | unescaping reads one escaped character back off the front |
| Html.UnescapeEscape | pages/8_CHIP_Report.py:65-83 | escaping loses nothing: unescaping gives back the user's text |
| Html.BreaksIsReplace | pages/8_CHIP_Report.py:68-69 | the line-break rewriting is Python's `replace('\n', '<br>')` |
| Html.UnbreakBreaks | pages/8_CHIP_Report.py:68-69 | in text without `<`, every `<br>` came from a newline |
| Html.MultilineCell | pages/8_CHIP_Report.py:68-69 | an activity or partners cell contains no raw newline |
| Html.MultilineCellRoundTrip | pages/8_CHIP_Report.py:68-69 | the cell's text, line breaks included, is recovered exactly |
| ChipWizard.Choose | pages/7_CHIP_Wizard.py:38-41 | the selectbox returns an offered pick, otherwise the stored index's value |
| ChipWizard.Options | pages/7_CHIP_Wizard.py:36-44 | a column's options are strictly ascending and exactly its non-missing values |
| ChipWizard.OptionsWhere | pages/7_CHIP_Wizard.py:51-61 | strictly ascending, and exactly the values of a column among the rows with the chosen key: the focus areas of the priority area, and the indicators of the focus area whatever its priority area |
| ChipWizard.ChipSession.constructor | pages/7_CHIP_Wizard.py:22-27 | a fresh form has one empty objective, one empty strategy, empty texts and no selections |
| ChipWizard.ChipSession.SelectCounty | pages/7_CHIP_Wizard.py:36-41 | the county is an offered pick, else the stored county, else the default; it fails where `index()` raises; nothing else changes |
| ChipWizard.ChipSession.SelectPriority | pages/7_CHIP_Wizard.py:44-49 | the first priority area is stored when none is; the result is an offered value; nothing else changes |
| ChipWizard.ChipSession.SelectFocus | pages/7_CHIP_Wizard.py:51-58 | a stored focus area that is absent or not offered falls back to the first; the result is offered |
| ChipWizard.ChipSession.SelectIndicator | pages/7_CHIP_Wizard.py:60-67 | the same fallback for the indicator |
| ChipWizard.ChipSession.SetTexts | pages/7_CHIP_Wizard.py:90-102 | the goal and disparities inputs replace those texts only |
| ChipWizard.ChipSession.SetObjective | pages/7_CHIP_Wizard.py:105-106 | objective i's text is replaced; nothing else changes |
| ChipWizard.ChipSession.SetStrategy | pages/7_CHIP_Wizard.py:120-128 | strategy i is replaced; nothing else changes |
| ChipWizard.ChipSession.AddObjective | pages/7_CHIP_Wizard.py:110-112 | one empty objective is appended |
| ChipWizard.ChipSession.RemoveLastObjective | pages/7_CHIP_Wizard.py:113-115 | the last objective goes only while more than one remains |
| ChipWizard.ChipSession.AddStrategy | pages/7_CHIP_Wizard.py:133-136 | one all-empty strategy is appended |
| ChipWizard.ChipSession.RemoveLastStrategy | pages/7_CHIP_Wizard.py:137-139 | the last strategy goes only while more than one remains |
| ChipWizard.ChipSession.Snapshot | pages/7_CHIP_Wizard.py:145-148 | the snapshot copies the form and adds the trend, objective and latest data |
| ChipWizard.ChipSession.AddSection | pages/7_CHIP_Wizard.py:144-161 | the snapshot of the form and of the data context `get_pa_data_for_chip` computed for the stored selections is appended to the section list (created if absent); the form is reset keeping only the county |
| ChipWizard.ChipSession.RemoveMarkedSections | pages/8_CHIP_Report.py:19-29 | one run pops the highest marked section; the form is untouched |
| ChipWizard.AddThenRemoveSection | pages/8_CHIP_Report.py:27-28 | adding a section and removing it again restores the list |
| ChipData.IndicatorRows | modules/utils.py:192-193 | exactly the rows of the chosen priority area, focus area and indicator |
| ChipData.CountyRows | modules/utils.py:199 | exactly the rows of the chosen county |
| ChipData.CoerceYears | modules/utils.py:201 | each row's year is coerced to a number or missing; nothing else changes |
| ChipData.InsertByYear | modules/utils.py:202 | inserting keeps the years descending with missing last, and is a permutation step |
| ChipData.SortByYearDesc | modules/utils.py:202 | `sort_values(ascending=False)` is descending with missing years last, and a permutation of its input |
| ChipData.Head | modules/utils.py:202 | `head(n)` is the prefix of length min(n, size) |
| ChipData.CoercedYearsNumeric | modules/utils.py:201 | after coercion every year is a number or missing |
| ChipData.Trend | modules/utils.py:199-202 | the trend has at most five rows, descending by year, empty exactly when the county has no rows, each a county row with its year coerced |
| ChipData.TrendFirstYear | modules/utils.py:203-205 | the latest trend row has no year only when no county row has a numeric year |
| ChipData.TrendHeadNumeric | modules/utils.py:202-205 | otherwise the latest trend row has a numeric year, the newest among the county's rows |
| ChipData.TrendHeadMissing | modules/utils.py:202-205 | when no county row has a numeric year, the latest trend row has none either |
| ChipData.ChipData | modules/utils.py:184-207 | no table or no matching rows give "Not available" twice and no trend; `int()` raises exactly when county rows exist and none has a numeric year; otherwise the trend is at most five rows, descending, empty exactly without county rows; the objective text is "{objective} {measure}" of the first matching row, or "Not available" without an objective; the latest text is "{value} {measure} ({year})" of the first trend row, or "Not available" without county rows or without a value |
| ChipData.ChipObjective | modules/utils.py:194-197 | the objective text is "Not available" when the first matching row has no objective, and otherwise the objective followed by the measure unit, which is never "Not available" for a numeric objective |
| ChipData.ChipTrendRows | modules/utils.py:192-202 | every trend row belongs to the chosen county, priority area, focus area and indicator |
| ChipData.ChipDataTrend | modules/utils.py:199-207 | a successful context's trend is empty or the county's trend |
| ChipReport.ObjectiveEntriesSound | pages/8_CHIP_Report.py:65-66 | every listed objective has text and is numbered by its position |
| ChipReport.ObjectiveEntriesComplete | pages/8_CHIP_Report.py:65-66 | every objective with text is listed, under its position |
| ChipReport.ObjectiveEntriesOrdered | pages/8_CHIP_Report.py:65-66 | objectives are listed in increasing number |
| ChipReport.EmittedStrategies | pages/8_CHIP_Report.py:67-73 | exactly the strategies with some non-empty field get a row |
| ChipReport.BlankPlanEmitsNothing | pages/8_CHIP_Report.py:65-73 | a blank form lists no objective and no strategy |
| ChipReport.ChartNamesDistinct | pages/8_CHIP_Report.py:53-58 | different sections never share a chart div or a spec variable |
| ChipReport.ChartIndices | pages/8_CHIP_Report.py:45 | the sections with trend data, ascending |
| ChipReport.ChipReportSucceeds | pages/8_CHIP_Report.py:41-92 | the report is built exactly when every section's stored values are strings that can be escaped |
| ChipReport.ChipReportShape | pages/8_CHIP_Report.py:41-92 | one block per section, in order, and one script per section with trend data, in the same order |
| ChipReport.ChipSectionsShape | pages/8_CHIP_Report.py:75-92 | a built report has one block per section, section i from plan i |
| ChipReport.ChipScriptsShape | pages/8_CHIP_Report.py:45-62 | a built report has one script per section with trend data, in order |
| ChipReport.ChipFailurePersists | pages/8_CHIP_Report.py:41-92 | once escaping raises, the exception is what the page gets |
| ChipReport.BuildChipReport | pages/8_CHIP_Report.py:37-92 | the imperative loop computes the report of the specification |
| ChipReport.Document | pages/8_CHIP_Report.py:104-127 | the document starts with the head naming the county and the generation time and ends by closing the body and html |
| ChipReport.DocumentHoldsSection | pages/8_CHIP_Report.py:123 | section i stands in the document right after the head and the sections before it |
| ChipReport.ChipReportPage | pages/8_CHIP_Report.py:14-132 | the info message and stop exactly when the section list is absent or empty; a pressed remove button pops one section and reruns; otherwise the document is offered for the first section's county as `CHIP_Report_{county}.html`, built exactly when every section can be escaped, one block per section |
| Hanlon.ParseIntString | pages/9_Hanlon_Prioritization.py:59 | `float()` reads an integer's decimal text back as that integer |
| Hanlon.ParseMinus | pages/9_Hanlon_Prioritization.py:59 | a leading minus sign negates the number |
| Hanlon.SizeForCount | pages/9_Hanlon_Prioritization.py:60-65 | the size suggestion from an event count lies in 5..8 |
| Hanlon.SizeForCountMonotone | pages/9_Hanlon_Prioritization.py:60-65 | a larger event count never lowers the size suggestion |
| Hanlon.SizeSuggestion | pages/9_Hanlon_Prioritization.py:56-67 | the suggestion is 5 when the count is missing or does not parse, and always 5..8 |
| Hanlon.SizeOfNumber | pages/9_Hanlon_Prioritization.py:57-65 | a numeric event count is compared as the number itself |
| Hanlon.SeriousnessFor | pages/9_Hanlon_Prioritization.py:71-76 | the seriousness suggestion lies in 1..10 |
| Hanlon.SeriousnessSuggestion | pages/9_Hanlon_Prioritization.py:69-76 | a missing quartile gives 5 |
| Hanlon.NanHasNoQuartile | pages/9_Hanlon_Prioritization.py:70 | the text "nan" names no quartile |
| Hanlon.SeriousnessRanks | pages/9_Hanlon_Prioritization.py:71-76 | Q4 gives 9 whatever else is named, then Q3 gives 7, Q1 or Q2 give 4, and 5 exactly when no quartile is named |
| Hanlon.SuggestionsInSliderRange | pages/9_Hanlon_Prioritization.py:83-84 | both suggestions are valid values of their 1..10 sliders |
| Hanlon.PriorityScore | pages/9_Hanlon_Prioritization.py:88 | (A + B) × C over the slider ranges lies in 1..30 |
| Hanlon.PriorityScoreMonotone | pages/9_Hanlon_Prioritization.py:88 | raising any component never lowers the score |
| CountyPicker.CountyOptions | pages/9_Hanlon_Prioritization.py:35 | the counties are strictly ascending and exactly the non-missing names |
| CountyPicker.PickCounty | pages/9_Hanlon_Prioritization.py:35-38 | the county is an offered pick, otherwise the default; None exactly when there is no county |
| CountyPicker.UntouchedPicksDutchess | pages/12_County_Snapshot.py:35-38 | left untouched, the picker shows Dutchess whenever a row names it |
| CountySnapshot.SnapshotCounty | pages/12_County_Snapshot.py:31-38 | no county without the Prevention Agenda table; otherwise the shared picker |
| CountySnapshot.FindBoundary | pages/12_County_Snapshot.py:55-56 | the first feature with the target name, or None exactly when none has it |
| CountySnapshot.Boundary | pages/12_County_Snapshot.py:52-73 | no file, a not-found warning naming "{county} County", or the first matching feature |
| CountySnapshot.BoundaryFoundIff | pages/12_County_Snapshot.py:54-57 | with a file loaded, the boundary is found exactly when some feature has the name |
| CountySnapshot.DisplayMetric | pages/12_County_Snapshot.py:81-83 | an absent label shows "No Data" with "(...)"; a value other than "N/A" is shown and "N/A" shows as "No Data"; a truthy year appears in the title and a falsy one as "..." |
| CountySnapshot.MissingShowsAsNoData | pages/12_County_Snapshot.py:82 | an absent label is shown exactly like one reported as "N/A" with no year |
| CountySnapshot.DisplayedValue | pages/12_County_Snapshot.py:83 | the card shows the metric's value exactly when it is not "N/A" |
| CountySnapshot.MetricsForAi | pages/12_County_Snapshot.py:104-105 | the prompt's map has every snapshot and census label; census values win, dated 2022 |
| CountySnapshot.MetricsForAiIgnoresNames | pages/12_County_Snapshot.py:104 | indicator names never reach the prompt |
| CensusApi.KeysOf | modules/utils.py:44-74 | a dict literal's keys, in source order |
| CensusApi.Lookup | modules/utils.py:44-74 | a lookup finds a value exactly when the key is present, and the value is that key's entry |
| CensusApi.DatasetsHaveYears | modules/utils.py:44-49 | every dataset lists at least one year |
| CensusApi.NewYorkCode | modules/utils.py:50 | New York's state code is "36" |
| CensusApi.VarList.constructor | modules/utils.py:99 | the caller's code list |
| CensusApi.WithName | modules/utils.py:101 | "NAME" is always present: put first when absent, and the list is unchanged otherwise |
| CensusApi.Params | modules/utils.py:102-103 | the query has "get", "for" and the `geo_in` keys; "get" is the comma-join of the codes and `geo_in` overrides |
| CensusApi.GetListsCodes | modules/utils.py:102 | the codes are read back off "get" exactly when no code contains a comma |
| CensusApi.HeaderNames | modules/utils.py:110 | the header row's cells are the column labels |
| CensusApi.Width | modules/utils.py:110 | the data width is the longest row's length |
| CensusApi.LastIndex | modules/utils.py:110 | the position of the last column with a label |
| CensusApi.BuildRow | modules/utils.py:110 | a data row under the labels: every label is a column, and a label's cell is at its last position |
| CensusApi.CoerceColumn | modules/utils.py:112 | one column is coerced to numbers and nothing else changes |
| CensusApi.CoerceColumns | modules/utils.py:111-112 | the coercion loop keeps the columns and the number of rows |
| CensusApi.CoerceColumnsCells | modules/utils.py:111-112 | exactly the listed codes other than "NAME" that are columns are coerced; every other cell is untouched |
| CensusApi.ResponseFrame | modules/utils.py:105-119 | an HTTP error, an undecodable body or fewer than two rows give an empty frame; a connection error or timeout propagates; otherwise the frame is built exactly when the data width matches the header |
| CensusApi.RawFrame | modules/utils.py:110 | one row per data row, under the header's labels |
| CensusApi.ResponseCells | modules/utils.py:109-113 | a well-shaped response gives a frame with the header's labels, one row per data row and each cell coerced or kept as the code list says |
| CensusApi.FetchCensusData | modules/utils.py:99-119 | an empty code list sends nothing; otherwise "NAME" is inserted into the caller's list, the query is formed from that list and the response becomes the frame |
| CensusApi.CoerceListed | modules/utils.py:111-112 | the imperative coercion loop computes the coerced frame |
| CensusLabels.Collapse | modules/utils.py:80 | `re.sub(r'\s+', ' ', s)` leaves only single blanks and is empty exactly for empty text |
| CensusLabels.CollapseNormal | modules/utils.py:80 | text already in that shape is unchanged |
| CensusLabels.ReplaceBangsNoBangBang | modules/utils.py:79 | after replacing "!!" by " \| " no "!!" is left |
| CensusLabels.CleanVariableLabel | modules/utils.py:77-80 | a non-string label gives "N/A"; a cleaned label has no edge whitespace |
| CensusLabels.CleanLabelShape | modules/utils.py:77-80 | a cleaned label has no edge whitespace, single blanks only, and no "!!" |
| CensusLabels.CleanLabelIdempotent | modules/utils.py:77-80 | cleaning a cleaned label changes nothing |
| CensusLabels.CleanFixpoint | modules/utils.py:77-80 | text in the cleaned shape is a fixpoint of the cleaner |
| CensusLabels.KeepCode | modules/utils.py:91-92 | a code is kept exactly when it ends in "E" or "N" (which excludes the A/M/MA/EA suffixes) |
| CensusLabels.FetchCensusVariables | modules/utils.py:89-92 | exactly the kept codes that have a label, each with its cleaned label |
| CensusLabels.FetchedLabelsClean | modules/utils.py:89-92 | every offered label is clean |
| CensusExplorer.DatasetChoice | pages/6_Census_Explorer.py:13-14 | the dataset is one of the offered keys, the pick when offered |
| CensusExplorer.YearOptions | pages/6_Census_Explorer.py:15 | the year options are exactly the dataset's listed years, at least one |
| CensusExplorer.YearChoice | pages/6_Census_Explorer.py:15 | the year is always an offered year, the pick when offered |
| CensusExplorer.ManualVariables | pages/6_Census_Explorer.py:22-23 | one code per comma-separated piece, each stripped and comma-free |
| CensusExplorer.ManualVariablesRoundTrip | pages/6_Census_Explorer.py:22-23 | codes typed comma-separated without surrounding blanks come back as typed |
| CensusExplorer.SelectedVariables | pages/6_Census_Explorer.py:18-29 | typed codes when no variable list loaded; otherwise offered codes, defaulting to B01001_001E when offered |
| CensusExplorer.FipsList | pages/6_Census_Explorer.py:48 | one code per county exactly when every county has a code (`KeyError` otherwise) |
| CensusExplorer.SelectedCounties | pages/6_Census_Explorer.py:42-44 | the default seven counties until the user picks; picks are table keys |
| CensusExplorer.DefaultsHaveCodes | pages/6_Census_Explorer.py:42 | every preselected county has a code |
| CensusExplorer.SelectedCountiesHaveCodes | pages/6_Census_Explorer.py:42-48 | the county choice always maps to a FIPS list, one code per county |
| CensusExplorer.NyIn | pages/6_Census_Explorer.py:40 | the `in` parameter is "state:36" |
| CensusExplorer.Geography | pages/6_Census_Explorer.py:35-51 | the geography branch for all states, all NY counties, specific counties, and an empty county choice |
| CensusExplorer.SpecificAddsOnlyFilter | pages/6_Census_Explorer.py:38-48 | specific counties query the same as all NY counties and only add the local filter |
| CensusExplorer.CountyFilter | pages/6_Census_Explorer.py:58-59 | the county filter is applied only with a non-empty FIPS list, a non-empty frame and a county column |
| CensusExplorer.CountyFilterOrder | pages/6_Census_Explorer.py:58-59 | the filter keeps rows in fetched order |
| CensusExplorer.NumericCols | pages/6_Census_Explorer.py:68-69 | the plot candidates are exactly the selected codes that are numeric columns |
| CensusExplorer.FetchedCodesPlottable | pages/6_Census_Explorer.py:68-69 | every fetched code other than NAME that came back as a column can be plotted |
| CensusExplorer.AfterFetch | pages/6_Census_Explorer.py:54-91 | the selection warning exactly without a geography or variables; then the "no data" error exactly when the filtered frame is empty; otherwise that frame and its plot candidates |
| SdohExplorer.AvailableSdoh | pages/10_SDoH_Explorer.py:36 | exactly the fixed variables the year offers, in fixed order |
| SdohExplorer.SelectedSdoh | pages/10_SDoH_Explorer.py:38-43 | all available codes until the user picks; picks are available codes |
| SdohExplorer.DisplayColumns | pages/10_SDoH_Explorer.py:70-72 | NAME becomes the index; each other column keeps its position, renamed when available |
| SdohExplorer.Rename | pages/10_SDoH_Explorer.py:72 | an available code becomes its label; other columns keep their name |
| SdohExplorer.RenamedToLabel | pages/10_SDoH_Explorer.py:23-72 | an available code is shown under its fixed label |
| SdohExplorer.CodesDistinct | pages/10_SDoH_Explorer.py:23-31 | no code appears twice in the fixed list |
| SdohExplorer.AfterFetch | pages/10_SDoH_Explorer.py:51-108 | a warning exactly when no variable or no county is chosen; then the "no data" error exactly when the county-filtered frame has no rows; a shown table is that frame with renamed columns |
| ChrTrends.Measures | pages/11_CHR_Trends.py:28 | the measures are strictly ascending and exactly the non-missing measure names |
| ChrTrends.Counties | pages/11_CHR_Trends.py:32 | the counties are strictly ascending and exactly the non-missing county names |
| ChrTrends.MeasureChoice | pages/11_CHR_Trends.py:29 | the measure is an offered pick, else the first measure; None exactly when there is no measure |
| ChrTrends.PresentDefaults | pages/11_CHR_Trends.py:33-37 | exactly the default counties that are offered |
| ChrTrends.PresentDefaultsOrder | pages/11_CHR_Trends.py:37 | the preselected counties keep the defaults' order |
| ChrTrends.SelectedCounties | pages/11_CHR_Trends.py:34-38 | the present defaults until the user picks; picks are offered counties |
| ChrTrends.Filtered | pages/11_CHR_Trends.py:44-47 | exactly the rows of the chosen measure and the chosen counties |
| ChrTrends.FilteredOrder | pages/11_CHR_Trends.py:44-47 | rows keep their order in the data |
| ChrTrends.Page | pages/11_CHR_Trends.py:21-70 | the load error appears exactly when the table could not be loaded |
| ChrTrends.Body | pages/11_CHR_Trends.py:40-68 | the county warning appears exactly when no county is selected; then "no data" exactly when the filtered table is empty; a trend is the non-empty filtered table, each row of an offered measure and county |
| ChrTrends.UntouchedShowsDefaults | pages/11_CHR_Trends.py:33-47 | before the county box is touched, the chart holds only default counties and the chosen measure |

## Left out

- Rendering is not modelled:
  - Streamlit widgets, layout and messages (beyond the texts that decide a branch);
  - Altair charts (`create_chart`, a chart's JSON is an opaque string);
  - pydeck maps and the bounding-box centre arithmetic;
  - markdown and Python's `repr` of dicts, passed as function parameters.
- The network and files become parameters:
  - HTTP requests are a parameter holding how the request ended: a decoded body, an HTTP error, an undecodable body, or a connection error or timeout (which `fetch_census_data` does not catch).
  - The loaders `load_chirs_data`, `load_prevention_data` and `load_mch_data` are a parameter holding their table, `None` when loading failed.
  - `st.cache_data` is not modelled.
- Clocks and the AI:
  - the generation time of the downloaded reports is a parameter;
  - the AI text (`modules/ai_analysis.py`) is a parameter.
- Helper modules that are not part of this model: `get_snapshot_data`, `get_census_snapshot`, `load_county_geojson`, `get_hanlon_data` and `load_chr_trend_data`. Their results are inputs.
- The Home page and the three dashboard pages only dispatch to the engine. The one piece of logic they hold, the current-analysis reset, is `AnalysisSession.Session.EnterDashboard`.
- Floating point:
  - numbers are integers, except the Hanlon event count and slider C, which are reals;
  - `float()` is modelled on plain decimals only, without exponents, `inf` or `nan`;
  - number formatting (`:.2f`, float repr) is not modelled.
- Tables.ToNumeric: reads only integer texts as numbers; a decimal text becomes missing, whereas pandas would keep it as a float.
- Tables.SortedOptions: a column mixing text and numbers is ordered numbers-before-text, where Python's `sorted` would raise `TypeError`.
- ChrTrends.Measures: the source does not drop NaN before sorting measure names. A missing measure name is left out of the options rather than modelled as NaN in the list.
- CensusApi.BuildRow: duplicate column labels are collapsed to the last one. pandas would keep both columns.
- CensusExplorer.NumericCols: `is_numeric_dtype` is approximated as "every cell a number or missing"; an all-missing object column counts as numeric here.
- CensusExplorer.FipsList: the FIPS table's codes are not proved distinct.
- CountySnapshot.Boundary: an empty GeoJSON dict is treated like a missing file.
- Tables.Cell: a column a row does not have reads as missing. pandas raises `KeyError` when a whole column is absent, for example `filtered_df[config['source_col']]` at modules/ui_components.py:53; the model does not capture that crash.
- ChipReport.ChipReportSucceeds: only a non-string selectbox value is modelled as making `html.escape` raise. Other field types are out of the data model.

## Findings

| source | as written | input that shows it | evidently intended | confidence | as-written member | corrected member |
|---|---|---|---|---|---|---|
| pages/5_Report_Builder.py:41 | The report reads `snap['chart_json']`, but the record saved at modules/ui_components.py:67-72 has no such key, so generating the report raises `KeyError` | Generate insights on any dashboard, save the analysis, then open the Report Builder | Each saved analysis stores its chart's Vega-Lite JSON under `chart_json` | not executed | ReportBuilder.AsWrittenReportFails | ReportBuilder.CorrectedReportSucceeds |

The session keeps the record as the dashboard builds it (`AnalysisSession.Session.GenerateInsights`), so a saved list can reach the state in which the report raises. `AnalysisSession.Session.GenerateInsightsWithChart` is the corrected flow, which stores the chart.
