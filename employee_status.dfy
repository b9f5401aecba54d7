/** The HR evaluation-status screen: the employee list filtered by search,
    department and status, a selection of employee numbers with a
    select-all switch, the bulk reset of the selected employees to
    pending, and the read-only score popup. */
module EmployeeStatus {
  import opened Common
  import opened EvaluationRecords

  datatype Department = Department(id: int, departmentCode: string, name: string)

  /** A catalog entry; on this screen the description is a plain string. */
  datatype Competency = Competency(id: int, code: string, name: string, description: string)

  const UnknownDepartment: string := "Unknown department"

  // ---------------------------------------------------------------------
  // Filtering

  predicate MatchesDepartment(e: Employee, departmentFilter: string) {
    e.departmentCode == departmentFilter
  }

  /** The list shown: search (for a non-empty term), then department and
      status (each unless its selector is "all"). */
  function ApplyFilters(employees: seq<Employee>, searchTerm: string, departmentFilter: string,
                        statusFilter: string): seq<Employee> {
    var afterSearch := FilterWhen(employees, searchTerm != "", (e: Employee) => MatchesSearch(e, searchTerm));
    var afterDepartment := FilterWhen(afterSearch, departmentFilter != AllFilter,
                                      (e: Employee) => MatchesDepartment(e, departmentFilter));
    FilterWhen(afterDepartment, statusFilter != AllFilter, (e: Employee) => MatchesStatus(e, statusFilter))
  }

  /** The condition for being listed, as one predicate. */
  predicate Listed(e: Employee, searchTerm: string, departmentFilter: string, statusFilter: string) {
    (searchTerm == "" || MatchesSearch(e, searchTerm)) &&
    (departmentFilter == AllFilter || MatchesDepartment(e, departmentFilter)) &&
    (statusFilter == AllFilter || MatchesStatus(e, statusFilter))
  }

  lemma ApplyFiltersIsOneFilter(employees: seq<Employee>, searchTerm: string, departmentFilter: string,
                                statusFilter: string)
    ensures ApplyFilters(employees, searchTerm, departmentFilter, statusFilter) ==
            Filter(employees, (e: Employee) => Listed(e, searchTerm, departmentFilter, statusFilter))
  {
    FilterWhenThrice(employees,
                     searchTerm != "", (e: Employee) => MatchesSearch(e, searchTerm),
                     departmentFilter != AllFilter, (e: Employee) => MatchesDepartment(e, departmentFilter),
                     statusFilter != AllFilter, (e: Employee) => MatchesStatus(e, statusFilter),
                     (e: Employee) => Listed(e, searchTerm, departmentFilter, statusFilter));
  }

  /** The shown list keeps the order of `employees`, holds every copy of
      each employee meeting the three conditions and nothing else; with
      every filter inactive it is `employees` itself. */
  lemma ApplyFiltersMeaning(employees: seq<Employee>, searchTerm: string, departmentFilter: string,
                            statusFilter: string)
    ensures IsSubsequence(ApplyFilters(employees, searchTerm, departmentFilter, statusFilter), employees)
    ensures forall e :: multiset(ApplyFilters(employees, searchTerm, departmentFilter, statusFilter))[e] ==
                        if Listed(e, searchTerm, departmentFilter, statusFilter) then multiset(employees)[e] else 0
    ensures searchTerm == "" && departmentFilter == AllFilter && statusFilter == AllFilter ==>
              ApplyFilters(employees, searchTerm, departmentFilter, statusFilter) == employees
  {
    var listed := (e: Employee) => Listed(e, searchTerm, departmentFilter, statusFilter);
    ApplyFiltersIsOneFilter(employees, searchTerm, departmentFilter, statusFilter);
    FilterIsSubsequence(employees, listed);
    forall e ensures multiset(Filter(employees, listed))[e] == if listed(e) then multiset(employees)[e] else 0 {
      FilterMultiplicity(employees, listed, e);
    }
  }

  // ---------------------------------------------------------------------
  // Selection and the bulk update

  /** `employees.map(emp => emp.employee_number)`. */
  function Numbers(employees: seq<Employee>): seq<string> {
    seq(|employees|, i requires 0 <= i < |employees| => employees[i].employeeNumber)
  }

  /** Select-all takes one number per listed employee, and a number is
      taken exactly when some listed employee has it. */
  lemma NumbersCoverList(employees: seq<Employee>)
    ensures |Numbers(employees)| == |employees|
    ensures forall n :: n in Numbers(employees) ==> exists i :: 0 <= i < |employees| && employees[i].employeeNumber == n
    ensures forall n :: (exists i :: 0 <= i < |employees| && employees[i].employeeNumber == n) ==> n in Numbers(employees)
  {
    forall n | n in Numbers(employees)
      ensures exists i :: 0 <= i < |employees| && employees[i].employeeNumber == n
    {
      var i :| 0 <= i < |Numbers(employees)| && Numbers(employees)[i] == n;
      assert employees[i].employeeNumber == n;
    }
    forall n | exists i :: 0 <= i < |employees| && employees[i].employeeNumber == n
      ensures n in Numbers(employees)
    {
      var i :| 0 <= i < |employees| && employees[i].employeeNumber == n;
      assert Numbers(employees)[i] == n;
    }
  }

  /** The local update after the bulk status reset: every selected
      employee becomes pending, with no evaluator and no date. */
  function MarkPending(employees: seq<Employee>, selected: seq<string>): seq<Employee> {
    MapWhere(employees, (e: Employee) => e.employeeNumber in selected,
             (e: Employee) => e.(evaluationStatus := false, evaluationBy := None, lastEvaluatedDate := None))
  }

  /** Exactly the selected employees change, and only in the three
      evaluation fields; the length is kept. */
  lemma MarkPendingMeaning(employees: seq<Employee>, selected: seq<string>, i: int)
    requires 0 <= i < |employees|
    ensures |MarkPending(employees, selected)| == |employees|
    ensures employees[i].employeeNumber !in selected ==> MarkPending(employees, selected)[i] == employees[i]
    ensures employees[i].employeeNumber in selected ==>
              var e := MarkPending(employees, selected)[i];
              !e.evaluationStatus && e.evaluationBy == None && e.lastEvaluatedDate == None &&
              e.(evaluationStatus := employees[i].evaluationStatus, evaluationBy := employees[i].evaluationBy,
                 lastEvaluatedDate := employees[i].lastEvaluatedDate) == employees[i]
  {
  }

  /** Resetting the same selection again changes nothing. */
  lemma MarkPendingIdempotent(employees: seq<Employee>, selected: seq<string>)
    ensures MarkPending(MarkPending(employees, selected), selected) == MarkPending(employees, selected)
  {
    var once := MarkPending(employees, selected);
    var twice := MarkPending(once, selected);
    forall i | 0 <= i < |once| ensures twice[i] == once[i] {
      MarkPendingMeaning(employees, selected, i);
      MarkPendingMeaning(once, selected, i);
    }
  }

  // ---------------------------------------------------------------------
  // Score rows

  function CatalogEntry(catalog: seq<Competency>, code: string): Option<Competency> {
    FindFirst(catalog, (c: Competency) => c.code == code)
  }

  /** One row: a catalog hit supplies name and description as they are;
      a miss shows the code as name and a fixed description. */
  function Enrich(catalog: seq<Competency>, s: CompetencyScore): CompetencyDisplay {
    match CatalogEntry(catalog, s.code)
    case None => Display(s, s.code, NoDescription)
    case Some(c) => Display(s, c.name, c.description)
  }

  function EnrichAll(catalog: seq<Competency>, scores: seq<CompetencyScore>): seq<CompetencyDisplay> {
    seq(|scores|, i requires 0 <= i < |scores| => Enrich(catalog, scores[i]))
  }

  /** Rows keep length, order, codes and scores; the gap is actual minus
      required; the first catalog entry with the code supplies name and
      description, and a missing code falls back. */
  lemma EnrichAllMeaning(catalog: seq<Competency>, scores: seq<CompetencyScore>, i: int)
    requires 0 <= i < |scores|
    ensures |EnrichAll(catalog, scores)| == |scores|
    ensures var d := EnrichAll(catalog, scores)[i];
            d.code == scores[i].code && d.requiredScore == scores[i].requiredScore &&
            d.actualScore == scores[i].actualScore &&
            d.gap == scores[i].actualScore - scores[i].requiredScore
    ensures (forall j :: 0 <= j < |catalog| ==> catalog[j].code != scores[i].code) ==>
              EnrichAll(catalog, scores)[i].name == scores[i].code &&
              EnrichAll(catalog, scores)[i].description == NoDescription
    ensures forall j :: 0 <= j < |catalog| && catalog[j].code == scores[i].code &&
                        (forall k :: 0 <= k < j ==> catalog[k].code != scores[i].code) ==>
              EnrichAll(catalog, scores)[i].name == catalog[j].name &&
              EnrichAll(catalog, scores)[i].description == catalog[j].description
  {
    var s := scores[i];
    var found := CatalogEntry(catalog, s.code);
    forall j | 0 <= j < |catalog| && catalog[j].code == s.code &&
               (forall k :: 0 <= k < j ==> catalog[k].code != s.code)
      ensures found == Some(catalog[j])
    {
      var w :| 0 <= w < |catalog| && catalog[w] == found.value && catalog[w].code == s.code &&
               forall k :: 0 <= k < w ==> catalog[k].code != s.code;
      assert !(w < j) && !(j < w);
    }
  }

  /** The popup's department: the name of the department whose code is
      the employee's; an unknown employee or code, or an empty name, shows
      a fallback. */
  function DepartmentName(employees: seq<Employee>, departments: seq<Department>, number: string): (r: string)
    ensures FindEmployee(employees, number).None? ==> r == UnknownDepartment
    ensures r == UnknownDepartment || exists i :: 0 <= i < |departments| && departments[i].name == r
  {
    var employee := FindEmployee(employees, number);
    var department := if employee.Some? then
                        FindFirst(departments, (d: Department) => d.departmentCode == employee.value.departmentCode)
                      else None;
    OrElse(if department.Some? then department.value.name else "", UnknownDepartment)
  }

  /** For a listed employee, first found at `i`: the first department with
      the employee's code supplies the name, "Unknown department" when that
      name is empty; with no such department the fallback is shown. */
  lemma DepartmentNameMeaning(employees: seq<Employee>, departments: seq<Department>, number: string, i: int)
    requires 0 <= i < |employees| && employees[i].employeeNumber == number
    requires forall j :: 0 <= j < i ==> employees[j].employeeNumber != number
    ensures (forall j :: 0 <= j < |departments| ==> departments[j].departmentCode != employees[i].departmentCode) ==>
              DepartmentName(employees, departments, number) == UnknownDepartment
    ensures forall j :: 0 <= j < |departments| && departments[j].departmentCode == employees[i].departmentCode &&
                        (forall k :: 0 <= k < j ==> departments[k].departmentCode != employees[i].departmentCode) ==>
              DepartmentName(employees, departments, number) == OrElse(departments[j].name, UnknownDepartment)
  {
    var found := FindEmployee(employees, number);
    var w :| 0 <= w < |employees| && employees[w] == found.value && employees[w].employeeNumber == number &&
             forall j :: 0 <= j < w ==> employees[j].employeeNumber != number;
    assert w == i;
    var code := employees[i].departmentCode;
    var department := FindFirst(departments, (d: Department) => d.departmentCode == code);
    forall j | 0 <= j < |departments| && departments[j].departmentCode == code &&
               (forall k :: 0 <= k < j ==> departments[k].departmentCode != code)
      ensures DepartmentName(employees, departments, number) == OrElse(departments[j].name, UnknownDepartment)
    {
      var v :| 0 <= v < |departments| && departments[v] == department.value && departments[v].departmentCode == code &&
               forall k :: 0 <= k < v ==> departments[k].departmentCode != code;
      assert !(v < j) && !(j < v);
    }
  }

  // ---------------------------------------------------------------------
  // The screen

  class StatusScreen {
    var employees: seq<Employee>
    var departments: seq<Department>
    var competencies: seq<Competency>
    var searchTerm: string
    var departmentFilter: string
    var statusFilter: string
    var selectedEmployees: seq<string>
    var selectAll: bool
    var competencyData: Option<EmployeeCompetencyData>
    var showCompetencyPopup: bool

    /** The cached `filteredEmployees`, which an effect keeps in step with
        the four inputs it is computed from. */
    function FilteredEmployees(): seq<Employee>
      reads this
    {
      ApplyFilters(employees, searchTerm, departmentFilter, statusFilter)
    }

    constructor ()
      ensures employees == [] && departments == [] && competencies == []
      ensures searchTerm == "" && departmentFilter == AllFilter && statusFilter == AllFilter
      ensures selectedEmployees == [] && !selectAll && competencyData == None && !showCompetencyPopup
    {
      employees, departments, competencies := [], [], [];
      searchTerm, departmentFilter, statusFilter := "", AllFilter, AllFilter;
      selectedEmployees, selectAll, competencyData, showCompetencyPopup := [], false, None, false;
    }

    /** The load effect, after the three fetches succeeded. */
    method LoadData(fetchedEmployees: seq<Employee>, fetchedDepartments: seq<Department>,
                    fetchedCompetencies: seq<Competency>)
      modifies this`employees, this`departments, this`competencies
      ensures employees == fetchedEmployees && departments == fetchedDepartments
      ensures competencies == fetchedCompetencies
    {
      employees := fetchedEmployees;
      departments := fetchedDepartments;
      competencies := fetchedCompetencies;
    }

    method HandleSearch(value: string)
      modifies this`searchTerm
      ensures searchTerm == value
    {
      searchTerm := value;
    }

    method HandleDepartmentFilter(value: string)
      modifies this`departmentFilter
      ensures departmentFilter == value
    {
      departmentFilter := value;
    }

    method HandleStatusFilter(value: string)
      modifies this`statusFilter
      ensures statusFilter == value
    {
      statusFilter := value;
    }

    /** A row's checkbox: the number's membership flips, every other
        number keeps its membership, and a new number goes last. */
    method ToggleSelectEmployee(employeeNumber: string)
      modifies this`selectedEmployees
      ensures selectedEmployees == Toggle(old(selectedEmployees), employeeNumber)
      ensures employeeNumber in selectedEmployees <==> employeeNumber !in old(selectedEmployees)
      ensures forall n :: n != employeeNumber && n in old(selectedEmployees) ==> n in selectedEmployees
      ensures forall n :: n != employeeNumber && n in selectedEmployees ==> n in old(selectedEmployees)
      ensures employeeNumber !in old(selectedEmployees) ==>
                selectedEmployees == old(selectedEmployees) + [employeeNumber]
    {
      selectedEmployees := Toggle(selectedEmployees, employeeNumber);
    }

    /** The "Select All" checkbox: switching it on selects the listed
        employees in list order, switching it off clears the selection. */
    method ToggleSelectAll()
      modifies this`selectedEmployees, this`selectAll
      ensures selectAll == !old(selectAll)
      ensures old(selectAll) ==> selectedEmployees == []
      ensures !old(selectAll) ==> selectedEmployees == Numbers(FilteredEmployees())
      ensures !old(selectAll) ==>
                forall i :: 0 <= i < |FilteredEmployees()| ==> FilteredEmployees()[i].employeeNumber in selectedEmployees
    {
      if selectAll {
        selectedEmployees := [];
      } else {
        var listed := FilteredEmployees();
        NumbersCoverList(listed);
        selectedEmployees := Numbers(listed);
      }
      selectAll := !selectAll;
    }

    /** "Mark as Pending", once the server accepted the update: with an
        empty selection nothing happens; otherwise the selected employees
        become pending and the selection is cleared. */
    method MarkAsPending()
      modifies this`employees, this`selectedEmployees, this`selectAll
      ensures old(selectedEmployees) == [] ==>
                employees == old(employees) && selectedEmployees == [] && selectAll == old(selectAll)
      ensures old(selectedEmployees) != [] ==>
                employees == MarkPending(old(employees), old(selectedEmployees)) &&
                selectedEmployees == [] && !selectAll
      ensures forall i :: 0 <= i < |employees| && employees[i].employeeNumber in old(selectedEmployees) ==>
                !employees[i].evaluationStatus
    {
      if |selectedEmployees| == 0 {
        return;
      }
      forall i | 0 <= i < |employees| {
        MarkPendingMeaning(employees, selectedEmployees, i);
      }
      employees := MarkPending(employees, selectedEmployees);
      selectedEmployees := [];
      selectAll := false;
    }

    /** Opening the popup once the score fetch succeeded. */
    method FetchEmployeeCompetencies(employeeNumber: string, fetched: seq<CompetencyScore>)
      modifies this`competencyData, this`showCompetencyPopup
      ensures competencyData == Some(EmployeeCompetencyData(
                Summary(employeeNumber, employees, DepartmentName(employees, departments, employeeNumber)),
                EnrichAll(competencies, fetched)))
      ensures showCompetencyPopup
    {
      var department := DepartmentName(employees, departments, employeeNumber);
      competencyData := Some(EmployeeCompetencyData(Summary(employeeNumber, employees, department),
                                                    EnrichAll(competencies, fetched)));
      showCompetencyPopup := true;
    }

    /** The close button of the popup. */
    method ClosePopup()
      modifies this`showCompetencyPopup
      ensures !showCompetencyPopup
    {
      showCompetencyPopup := false;
    }
  }
}
