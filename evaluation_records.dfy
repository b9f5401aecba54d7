/** The records and list logic that the two evaluation screens
    (the department manager's and the HR status screen) declare alike:
    employees with their evaluation status, score rows, the rows enriched
    for display, and the search and status conditions of their filters. */
module EvaluationRecords {
  import opened Common

  datatype Employee = Employee(
    employeeNumber: string,
    employeeName: string,
    jobCode: string,
    reportingEmployeeName: string,
    roleCode: string,
    departmentCode: string,
    evaluationStatus: bool,
    evaluationBy: Option<string>,
    lastEvaluatedDate: Option<string>)

  /** One score row as the server sends it. */
  datatype CompetencyScore = CompetencyScore(code: string, requiredScore: int, actualScore: int)

  /** One score row as the evaluation popup shows it. */
  datatype CompetencyDisplay = CompetencyDisplay(
    code: string,
    name: string,
    description: string,
    requiredScore: int,
    actualScore: int,
    gap: int)

  datatype EmployeeSummary = EmployeeSummary(
    employeeNumber: string,
    employeeName: string,
    department: string,
    jobTitle: string)

  /** What the popup is opened with. */
  datatype EmployeeCompetencyData = EmployeeCompetencyData(
    employee: EmployeeSummary,
    competencies: seq<CompetencyDisplay>)

  const NoDescription: string := "No description available"
  const AllFilter: string := "all"
  const EvaluatedFilter: string := "evaluated"

  /** The search box: the number or the name contains the term, ignoring ASCII case. */
  predicate MatchesSearch(e: Employee, term: string) {
    Includes(Lower(e.employeeNumber), Lower(term)) || Includes(Lower(e.employeeName), Lower(term))
  }

  /** The status selector: "evaluated" asks for evaluated employees, any
      other value for pending ones. */
  predicate MatchesStatus(e: Employee, statusFilter: string) {
    e.evaluationStatus == (statusFilter == EvaluatedFilter)
  }

  /** The search ignores the case of the term. */
  lemma SearchIgnoresCase(e: Employee, term: string)
    ensures MatchesSearch(e, term) == MatchesSearch(e, Lower(term))
    ensures (term == "") == (Lower(term) == "")
  {
    LowerIdempotent(term);
  }

  /** The search term occurs in the lower-cased number or name. */
  lemma MatchesSearchMeaning(e: Employee, term: string)
    ensures MatchesSearch(e, term) ==>
            exists i :: OccursAt(Lower(e.employeeNumber), Lower(term), i) ||
                        OccursAt(Lower(e.employeeName), Lower(term), i)
    ensures (exists i :: OccursAt(Lower(e.employeeNumber), Lower(term), i) ||
                         OccursAt(Lower(e.employeeName), Lower(term), i)) ==>
            MatchesSearch(e, term)
  {
    IncludesInEither(Lower(e.employeeNumber), Lower(e.employeeName), Lower(term));
  }

  lemma IncludesInEither(a: string, b: string, t: string)
    ensures Includes(a, t) || Includes(b, t) <==> exists i :: OccursAt(a, t, i) || OccursAt(b, t, i)
  {
    IncludesMeansOccurs(a, t);
    IncludesMeansOccurs(b, t);
  }

  /** A score row with its display name and description; the gap is the
      actual score minus the required one. */
  function Display(s: CompetencyScore, name: string, description: string): (d: CompetencyDisplay)
    ensures d.code == s.code && d.requiredScore == s.requiredScore && d.actualScore == s.actualScore
    ensures d.name == name && d.description == description
    ensures d.gap >= 0 <==> s.actualScore >= s.requiredScore
    ensures d.actualScore == d.requiredScore + d.gap
  {
    CompetencyDisplay(s.code, name, description, s.requiredScore, s.actualScore, s.actualScore - s.requiredScore)
  }

  /** The employee part of the popup: the listed employee with that number
      supplies name and job, with fallbacks when absent or empty. */
  function Summary(employeeNumber: string, employees: seq<Employee>, department: string): (r: EmployeeSummary)
    ensures r.employeeNumber == employeeNumber && r.department == department
    ensures (forall i :: 0 <= i < |employees| ==> employees[i].employeeNumber != employeeNumber) ==>
              r.employeeName == "Unknown" && r.jobTitle == "Unknown position"
  {
    var found := FindEmployee(employees, employeeNumber);
    var name := if found.Some? then found.value.employeeName else "";
    var job := if found.Some? then found.value.jobCode else "";
    EmployeeSummary(employeeNumber, OrElse(name, "Unknown"), department, OrElse(job, "Unknown position"))
  }

  /** When the first listed employee with the number is at `i`, its name
      and job code are shown, each falling back when empty. */
  lemma SummaryFirstMatch(employeeNumber: string, employees: seq<Employee>, department: string, i: int)
    requires 0 <= i < |employees| && employees[i].employeeNumber == employeeNumber
    requires forall j :: 0 <= j < i ==> employees[j].employeeNumber != employeeNumber
    ensures Summary(employeeNumber, employees, department).employeeName == OrElse(employees[i].employeeName, "Unknown")
    ensures Summary(employeeNumber, employees, department).jobTitle == OrElse(employees[i].jobCode, "Unknown position")
  {
    var found := FindEmployee(employees, employeeNumber);
    assert found.Some?;
    var k :| 0 <= k < |employees| && employees[k] == found.value && employees[k].employeeNumber == employeeNumber &&
             forall j :: 0 <= j < k ==> employees[j].employeeNumber != employeeNumber;
    assert k == i;
  }

  /** `employees.find(e => e.employee_number === number)`. */
  function FindEmployee(employees: seq<Employee>, number: string): Option<Employee> {
    FindFirst(employees, (e: Employee) => e.employeeNumber == number)
  }
}
