/** The employee analytics page: three server-computed employee lists
    (low performers, high potential, promotion ready) narrowed by a
    department selector, with their counts and the summary cards. */
module AnalyticsDashboard {
  import opened Common

  datatype Employee = Employee(
    employeeNumber: string,
    employeeName: string,
    departmentCode: string,
    evaluationStatus: bool)

  datatype DepartmentCount = DepartmentCount(department: string, count: int)
  datatype CompetencySlice = CompetencySlice(name: string, value: int)

  datatype AnalyticsData = AnalyticsData(
    totalEmployees: int,
    departmentCounts: seq<DepartmentCount>,
    competencyOverview: seq<CompetencySlice>,
    lowPerformers: seq<Employee>,
    highPotential: seq<Employee>,
    promotionReady: seq<Employee>)

  /** Which of the three lists. */
  datatype ListKind = LowPerformers | HighPotential | PromotionReady

  /** The four summary cards. */
  datatype Summary = Summary(totalEmployees: int, departments: int, lowPerformers: int, highPotential: int)

  /** One list panel: its header count and whether a table is drawn
      (otherwise an empty-list message). */
  datatype Panel = Panel(count: int, rows: seq<Employee>, showsTable: bool)

  /** What the page renders. */
  datatype Page =
    | Loading
    | LoadFailed
    | Dashboard(summary: Summary, low: Panel, high: Panel, promotion: Panel)

  const AllSelection: string := "all"

  function ListOf(d: AnalyticsData, kind: ListKind): seq<Employee> {
    match kind
    case LowPerformers => d.lowPerformers
    case HighPotential => d.highPotential
    case PromotionReady => d.promotionReady
  }

  /** `selected === "all" ? data?.list : data?.list.filter(...)`: absent
      data stays absent. */
  function Filtered(data: Option<AnalyticsData>, kind: ListKind, selected: string): Option<seq<Employee>> {
    if data.None? then None
    else if selected == AllSelection then Some(ListOf(data.value, kind))
    else Some(Filter(ListOf(data.value, kind), (e: Employee) => e.departmentCode == selected))
  }

  /** `list?.length || 0`. */
  function ListCount(list: Option<seq<Employee>>): (n: nat)
    ensures list.None? ==> n == 0
    ensures list.Some? ==> n == |list.value|
  {
    if list.Some? && |list.value| != 0 then |list.value| else 0
  }

  /** Without data nothing is listed; with "all" a list is the fetched
      one; otherwise it holds, in order, every copy of each employee of
      the selected department and nothing else. */
  lemma FilteredMeaning(data: Option<AnalyticsData>, kind: ListKind, selected: string)
    ensures data.None? <==> Filtered(data, kind, selected).None?
    ensures data.Some? && selected == AllSelection ==> Filtered(data, kind, selected) == Some(ListOf(data.value, kind))
    ensures data.Some? ==> IsSubsequence(Filtered(data, kind, selected).value, ListOf(data.value, kind))
    ensures data.Some? && selected != AllSelection ==>
              forall e :: multiset(Filtered(data, kind, selected).value)[e] ==
                          if e.departmentCode == selected then multiset(ListOf(data.value, kind))[e] else 0
  {
    if data.Some? {
      var list := ListOf(data.value, kind);
      var p := (e: Employee) => e.departmentCode == selected;
      if selected == AllSelection {
        SubsequenceOfSelf(list);
      } else {
        FilterIsSubsequence(list, p);
        forall e ensures multiset(Filter(list, p))[e] == if p(e) then multiset(list)[e] else 0 {
          FilterMultiplicity(list, p, e);
        }
      }
    }
  }

  /** A list panel for the selection. */
  function PanelFor(data: Option<AnalyticsData>, kind: ListKind, selected: string): Panel {
    var list := Filtered(data, kind, selected);
    Panel(ListCount(list), if list.Some? then list.value else [], ListCount(list) != 0)
  }

  function SummaryOf(d: AnalyticsData): Summary {
    Summary(d.totalEmployees, |d.departmentCounts|, |d.lowPerformers|, |d.highPotential|)
  }

  /** The page for the loading flag, the fetched data and the selector. */
  function Render(loading: bool, data: Option<AnalyticsData>, selected: string): (p: Page)
    ensures p.Loading? <==> loading
    ensures p.LoadFailed? <==> !loading && data.None?
    ensures p.Dashboard? ==> data.Some? && p.summary == SummaryOf(data.value)
  {
    if loading then Loading
    else if data.None? then LoadFailed
    else Dashboard(SummaryOf(data.value), PanelFor(data, LowPerformers, selected),
                   PanelFor(data, HighPotential, selected), PanelFor(data, PromotionReady, selected))
  }

  /** A panel's header counts exactly the rows it lists, the table is
      drawn iff there is a row, and the count never exceeds the unfiltered
      list's length, which it equals under "all". */
  lemma PanelMeaning(data: Option<AnalyticsData>, kind: ListKind, selected: string)
    ensures PanelFor(data, kind, selected).count == |PanelFor(data, kind, selected).rows|
    ensures PanelFor(data, kind, selected).showsTable <==> PanelFor(data, kind, selected).rows != []
    ensures data.Some? ==> PanelFor(data, kind, selected).count <= |ListOf(data.value, kind)|
    ensures data.Some? && selected == AllSelection ==>
              PanelFor(data, kind, selected).count == |ListOf(data.value, kind)|
  {
  }

  /** The summary cards are the same whichever department is selected,
      and the low-performer and high-potential cards bound the headers of
      their panels. */
  lemma SummaryIgnoresSelection(data: Option<AnalyticsData>, selected: string, other: string)
    requires data.Some?
    ensures Render(false, data, selected).summary == Render(false, data, other).summary
    ensures Render(false, data, selected).low.count <= Render(false, data, selected).summary.lowPerformers
    ensures Render(false, data, selected).high.count <= Render(false, data, selected).summary.highPotential
    ensures Render(false, data, AllSelection).low.count == Render(false, data, AllSelection).summary.lowPerformers
    ensures Render(false, data, AllSelection).high.count == Render(false, data, AllSelection).summary.highPotential
  {
    PanelMeaning(data, LowPerformers, selected);
    PanelMeaning(data, HighPotential, selected);
  }
}
