/** The gap analytics page: per-department and per-competency gap counts
    in three buckets, their totals accumulated by loops, and the code
    selectors that narrow the lists shown. */
module Statistics {
  import opened Common

  /** How many scores fall one, two and three points short. */
  datatype GapData = GapData(gap1: int, gap2: int, gap3: int)

  datatype DepartmentData = DepartmentData(
    departmentCode: string,
    departmentName: string,
    employeeCount: int,
    gapData: GapData,
    evaluatedCount: int,
    notEvaluatedCount: int)

  datatype CompetencyData = CompetencyData(competencyCode: string, competencyName: string, gapData: GapData)

  datatype DashboardData = DashboardData(
    totalEmployees: int,
    totalEvaluated: int,
    totalNotEvaluated: int,
    departmentData: seq<DepartmentData>,
    competencyData: seq<CompetencyData>)

  /** The two tabs of the page; "departments" is the one shown first. */
  datatype Tab = DepartmentsTab | CompetenciesTab

  /** A tab's section: the cards of the entries the selector lets through
      and the overall gap chart, present only while the selector is "all". */
  datatype DepartmentSection = DepartmentSection(cards: seq<DepartmentData>, allChart: Option<GapData>)
  datatype CompetencySection = CompetencySection(cards: seq<CompetencyData>, allChart: Option<GapData>)

  /** What the page shows for the fetched data, the active tab and the two
      selectors: the summary counts, always, and the section of the active
      tab only. */
  datatype DashboardView = DashboardView(
    totalEmployees: int,
    totalEvaluated: int,
    totalNotEvaluated: int,
    departmentSection: Option<DepartmentSection>,
    competencySection: Option<CompetencySection>)

  const AllSelection: string := "all"
  const Zero: GapData := GapData(0, 0, 0)

  // ---------------------------------------------------------------------
  // Sums

  function Add(a: GapData, b: GapData): GapData {
    GapData(a.gap1 + b.gap1, a.gap2 + b.gap2, a.gap3 + b.gap3)
  }

  /** The component-wise sum, accumulated from the first element on. */
  function SumGaps(gaps: seq<GapData>): GapData
    decreases |gaps|
  {
    if gaps == [] then Zero else Add(SumGaps(gaps[..|gaps| - 1]), gaps[|gaps| - 1])
  }

  /** The sum of a concatenation is the sum of the sums. */
  lemma {:induction false} SumGapsAppend(a: seq<GapData>, b: seq<GapData>)
    ensures SumGaps(a + b) == Add(SumGaps(a), SumGaps(b))
    decreases |b|
  {
    if b == [] {
      assert a + b == a;
    } else {
      var n := |b| - 1;
      assert (a + b)[..|a + b| - 1] == a + b[..n];
      SumGapsAppend(a, b[..n]);
    }
  }

  /** Each component of the sum is the sum of that component. */
  lemma {:induction false} SumGapsComponents(gaps: seq<GapData>)
    ensures SumGaps(gaps).gap1 == Sum1(gaps) && SumGaps(gaps).gap2 == Sum2(gaps) && SumGaps(gaps).gap3 == Sum3(gaps)
    decreases |gaps|
  {
    if gaps != [] {
      var n := |gaps| - 1;
      SumGapsComponents(gaps[..n]);
      Sum1Last(gaps);
      Sum2Last(gaps);
      Sum3Last(gaps);
    }
  }

  /** Reference sums of one bucket, taken from the front. */
  function Sum1(gaps: seq<GapData>): int {
    if gaps == [] then 0 else gaps[0].gap1 + Sum1(gaps[1..])
  }

  function Sum2(gaps: seq<GapData>): int {
    if gaps == [] then 0 else gaps[0].gap2 + Sum2(gaps[1..])
  }

  function Sum3(gaps: seq<GapData>): int {
    if gaps == [] then 0 else gaps[0].gap3 + Sum3(gaps[1..])
  }

  lemma {:induction false} Sum1Last(gaps: seq<GapData>)
    requires gaps != []
    ensures Sum1(gaps) == Sum1(gaps[..|gaps| - 1]) + gaps[|gaps| - 1].gap1
  {
    if |gaps| > 1 {
      assert gaps[1..][..|gaps[1..]| - 1] == gaps[..|gaps| - 1][1..];
      Sum1Last(gaps[1..]);
    }
  }

  lemma {:induction false} Sum2Last(gaps: seq<GapData>)
    requires gaps != []
    ensures Sum2(gaps) == Sum2(gaps[..|gaps| - 1]) + gaps[|gaps| - 1].gap2
  {
    if |gaps| > 1 {
      assert gaps[1..][..|gaps[1..]| - 1] == gaps[..|gaps| - 1][1..];
      Sum2Last(gaps[1..]);
    }
  }

  lemma {:induction false} Sum3Last(gaps: seq<GapData>)
    requires gaps != []
    ensures Sum3(gaps) == Sum3(gaps[..|gaps| - 1]) + gaps[|gaps| - 1].gap3
  {
    if |gaps| > 1 {
      assert gaps[1..][..|gaps[1..]| - 1] == gaps[..|gaps| - 1][1..];
      Sum3Last(gaps[1..]);
    }
  }

  function DepartmentGaps(departments: seq<DepartmentData>): seq<GapData> {
    seq(|departments|, i requires 0 <= i < |departments| => departments[i].gapData)
  }

  function CompetencyGaps(competencies: seq<CompetencyData>): seq<GapData> {
    seq(|competencies|, i requires 0 <= i < |competencies| => competencies[i].gapData)
  }

  /** The department total over two lists is the sum of their totals. */
  lemma DepartmentTotalsAdd(a: seq<DepartmentData>, b: seq<DepartmentData>)
    ensures SumGaps(DepartmentGaps(a + b)) == Add(SumGaps(DepartmentGaps(a)), SumGaps(DepartmentGaps(b)))
  {
    assert DepartmentGaps(a + b) == DepartmentGaps(a) + DepartmentGaps(b);
    SumGapsAppend(DepartmentGaps(a), DepartmentGaps(b));
  }

  /** The competency total over two lists is the sum of their totals. */
  lemma CompetencyTotalsAdd(a: seq<CompetencyData>, b: seq<CompetencyData>)
    ensures SumGaps(CompetencyGaps(a + b)) == Add(SumGaps(CompetencyGaps(a)), SumGaps(CompetencyGaps(b)))
  {
    assert CompetencyGaps(a + b) == CompetencyGaps(a) + CompetencyGaps(b);
    SumGapsAppend(CompetencyGaps(a), CompetencyGaps(b));
  }

  /** The loop over the departments; absent input gives zero in every bucket. */
  method CalculateTotalDepartmentGaps(departments: Option<seq<DepartmentData>>) returns (total: GapData)
    ensures departments.None? ==> total == Zero
    ensures departments.Some? ==> total == SumGaps(DepartmentGaps(departments.value))
  {
    total := GapData(0, 0, 0);
    if departments.None? {
      return;
    }
    var ds := departments.value;
    var i := 0;
    while i < |ds|
      invariant 0 <= i <= |ds|
      invariant total == SumGaps(DepartmentGaps(ds[..i]))
    {
      assert DepartmentGaps(ds[..i + 1])[..i] == DepartmentGaps(ds[..i]);
      total := total.(gap1 := total.gap1 + ds[i].gapData.gap1);
      total := total.(gap2 := total.gap2 + ds[i].gapData.gap2);
      total := total.(gap3 := total.gap3 + ds[i].gapData.gap3);
      i := i + 1;
    }
    assert ds[..i] == ds;
  }

  /** The loop over the competencies; absent input gives zero in every bucket. */
  method CalculateTotalCompetencyGaps(competencies: Option<seq<CompetencyData>>) returns (total: GapData)
    ensures competencies.None? ==> total == Zero
    ensures competencies.Some? ==> total == SumGaps(CompetencyGaps(competencies.value))
  {
    total := GapData(0, 0, 0);
    if competencies.None? {
      return;
    }
    var cs := competencies.value;
    var i := 0;
    while i < |cs|
      invariant 0 <= i <= |cs|
      invariant total == SumGaps(CompetencyGaps(cs[..i]))
    {
      assert CompetencyGaps(cs[..i + 1])[..i] == CompetencyGaps(cs[..i]);
      total := total.(gap1 := total.gap1 + cs[i].gapData.gap1);
      total := total.(gap2 := total.gap2 + cs[i].gapData.gap2);
      total := total.(gap3 := total.gap3 + cs[i].gapData.gap3);
      i := i + 1;
    }
    assert cs[..i] == cs;
  }

  // ---------------------------------------------------------------------
  // Selection

  function DepartmentsToShow(departments: seq<DepartmentData>, selected: string): seq<DepartmentData> {
    if selected == AllSelection then departments
    else Filter(departments, (d: DepartmentData) => d.departmentCode == selected)
  }

  function CompetenciesToShow(competencies: seq<CompetencyData>, selected: string): seq<CompetencyData> {
    if selected == AllSelection then competencies
    else Filter(competencies, (c: CompetencyData) => c.competencyCode == selected)
  }

  /** "all" shows every department; any other code shows, in order, every
      copy of each department with that code and nothing else. */
  lemma DepartmentsToShowMeaning(departments: seq<DepartmentData>, selected: string)
    ensures selected == AllSelection ==> DepartmentsToShow(departments, selected) == departments
    ensures IsSubsequence(DepartmentsToShow(departments, selected), departments)
    ensures selected != AllSelection ==>
              forall d :: multiset(DepartmentsToShow(departments, selected))[d] ==
                          if d.departmentCode == selected then multiset(departments)[d] else 0
  {
    var p := (d: DepartmentData) => d.departmentCode == selected;
    if selected == AllSelection {
      SubsequenceOfSelf(departments);
    } else {
      FilterIsSubsequence(departments, p);
      forall d ensures multiset(Filter(departments, p))[d] == if p(d) then multiset(departments)[d] else 0 {
        FilterMultiplicity(departments, p, d);
      }
    }
  }

  /** "all" shows every competency; any other code shows, in order, every
      copy of each competency with that code and nothing else. */
  lemma CompetenciesToShowMeaning(competencies: seq<CompetencyData>, selected: string)
    ensures selected == AllSelection ==> CompetenciesToShow(competencies, selected) == competencies
    ensures IsSubsequence(CompetenciesToShow(competencies, selected), competencies)
    ensures selected != AllSelection ==>
              forall c :: multiset(CompetenciesToShow(competencies, selected))[c] ==
                          if c.competencyCode == selected then multiset(competencies)[c] else 0
  {
    var p := (c: CompetencyData) => c.competencyCode == selected;
    if selected == AllSelection {
      SubsequenceOfSelf(competencies);
    } else {
      FilterIsSubsequence(competencies, p);
      forall c ensures multiset(Filter(competencies, p))[c] == if p(c) then multiset(competencies)[c] else 0 {
        FilterMultiplicity(competencies, p, c);
      }
    }
  }

  /** One render of the page once loading finished: nothing without data;
      otherwise the summary counts come from the whole data, and only the
      active tab's section is shown, its cards following its selector and
      its overall chart, over the whole data, present only for "all". */
  method Dashboard(data: Option<DashboardData>, activeTab: Tab, selectedDepartment: string, selectedCompetency: string)
    returns (view: Option<DashboardView>)
    ensures data.None? <==> view.None?
    ensures data.Some? ==>
              var d := data.value;
              var v := view.value;
              v.totalEmployees == d.totalEmployees && v.totalEvaluated == d.totalEvaluated &&
              v.totalNotEvaluated == d.totalNotEvaluated
    ensures data.Some? ==>
              (view.value.departmentSection.Some? <==> activeTab == DepartmentsTab) &&
              (view.value.competencySection.Some? <==> activeTab == CompetenciesTab)
    ensures data.Some? && activeTab == DepartmentsTab ==>
              var section := view.value.departmentSection.value;
              section.cards == DepartmentsToShow(data.value.departmentData, selectedDepartment) &&
              section.allChart ==
                (if selectedDepartment == AllSelection then Some(SumGaps(DepartmentGaps(data.value.departmentData))) else None)
    ensures data.Some? && activeTab == CompetenciesTab ==>
              var section := view.value.competencySection.value;
              section.cards == CompetenciesToShow(data.value.competencyData, selectedCompetency) &&
              section.allChart ==
                (if selectedCompetency == AllSelection then Some(SumGaps(CompetencyGaps(data.value.competencyData))) else None)
  {
    if data.None? {
      return None;
    }
    var d := data.value;
    var departmentsTotal := CalculateTotalDepartmentGaps(Some(d.departmentData));
    var competenciesTotal := CalculateTotalCompetencyGaps(Some(d.competencyData));
    var departmentSection := if activeTab == DepartmentsTab then
      Some(DepartmentSection(DepartmentsToShow(d.departmentData, selectedDepartment),
                             if selectedDepartment == AllSelection then Some(departmentsTotal) else None))
    else None;
    var competencySection := if activeTab == CompetenciesTab then
      Some(CompetencySection(CompetenciesToShow(d.competencyData, selectedCompetency),
                             if selectedCompetency == AllSelection then Some(competenciesTotal) else None))
    else None;
    view := Some(DashboardView(d.totalEmployees, d.totalEvaluated, d.totalNotEvaluated,
                               departmentSection, competencySection));
  }
}
