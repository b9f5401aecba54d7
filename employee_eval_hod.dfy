/** The department manager's evaluation screen: a filtered employee list,
    a popup with the selected employee's scores, score editing clamped to
    the 0..3 scale, and submission of the edited scores. */
module EmployeeEvalHod {
  import opened Common
  import opened EvaluationRecords
  import AuthContext

  /** A catalog entry; its description may be null. */
  datatype Competency = Competency(id: int, code: string, name: string, description: Option<string>)

  /** One score of a submitted evaluation. */
  datatype ScoreEntry = ScoreEntry(competencyCode: string, actualScore: int)

  datatype EvaluationPayload = EvaluationPayload(
    employeeNumber: string,
    evaluatorId: string,
    scores: seq<ScoreEntry>)

  /** Edited scores keyed by competency code, in insertion order. */
  type Scores = seq<(string, int)>

  const MinScore: int := 0
  const MaxScore: int := 3

  // ---------------------------------------------------------------------
  // Filtering

  /** The list shown: the search step runs only for a non-empty term, the
      status step only when the selector is not "all". */
  function ApplyFilters(employees: seq<Employee>, searchTerm: string, statusFilter: string): seq<Employee> {
    var afterSearch := FilterWhen(employees, searchTerm != "", (e: Employee) => MatchesSearch(e, searchTerm));
    FilterWhen(afterSearch, statusFilter != AllFilter, (e: Employee) => MatchesStatus(e, statusFilter))
  }

  /** The condition for being listed, as one predicate. */
  predicate Listed(e: Employee, searchTerm: string, statusFilter: string) {
    (searchTerm == "" || MatchesSearch(e, searchTerm)) &&
    (statusFilter == AllFilter || MatchesStatus(e, statusFilter))
  }

  lemma ApplyFiltersIsOneFilter(employees: seq<Employee>, searchTerm: string, statusFilter: string)
    ensures ApplyFilters(employees, searchTerm, statusFilter) ==
            Filter(employees, (e: Employee) => Listed(e, searchTerm, statusFilter))
  {
    var search := (e: Employee) => MatchesSearch(e, searchTerm);
    var status := (e: Employee) => MatchesStatus(e, statusFilter);
    FilterWhenTwice(employees, searchTerm != "", search, statusFilter != AllFilter, status,
                    (e: Employee) => Listed(e, searchTerm, statusFilter));
  }

  /** The shown list keeps the order of `employees`, holds every copy of
      each employee meeting both conditions and nothing else; with no
      search term and status "all" it is `employees` itself. */
  lemma ApplyFiltersMeaning(employees: seq<Employee>, searchTerm: string, statusFilter: string)
    ensures IsSubsequence(ApplyFilters(employees, searchTerm, statusFilter), employees)
    ensures forall e :: multiset(ApplyFilters(employees, searchTerm, statusFilter))[e] ==
                        if Listed(e, searchTerm, statusFilter) then multiset(employees)[e] else 0
    ensures searchTerm == "" && statusFilter == AllFilter ==>
              ApplyFilters(employees, searchTerm, statusFilter) == employees
  {
    var listed := (e: Employee) => Listed(e, searchTerm, statusFilter);
    ApplyFiltersIsOneFilter(employees, searchTerm, statusFilter);
    FilterIsSubsequence(employees, listed);
    forall e ensures multiset(Filter(employees, listed))[e] == if listed(e) then multiset(employees)[e] else 0 {
      FilterMultiplicity(employees, listed, e);
    }
  }

  // ---------------------------------------------------------------------
  // Score rows

  /** The first catalog entry with the code. */
  function CatalogEntry(catalog: seq<Competency>, code: string): Option<Competency> {
    FindFirst(catalog, (c: Competency) => c.code == code)
  }

  /** One row: a catalog hit supplies the name and, unless null or empty,
      the description; a miss shows the code as name. */
  function Enrich(catalog: seq<Competency>, s: CompetencyScore): CompetencyDisplay {
    match CatalogEntry(catalog, s.code)
    case None => Display(s, s.code, NoDescription)
    case Some(c) =>
      Display(s, c.name, OrElse(if c.description.Some? then c.description.value else "", NoDescription))
  }

  /** The `map` over the fetched scores. */
  function EnrichAll(catalog: seq<Competency>, scores: seq<CompetencyScore>): seq<CompetencyDisplay> {
    seq(|scores|, i requires 0 <= i < |scores| => Enrich(catalog, scores[i]))
  }

  /** Rows keep length, order, codes and scores; the gap is actual minus
      required; the first catalog entry with the code names the row, and
      a missing code or a null or empty description falls back. */
  lemma EnrichAllMeaning(catalog: seq<Competency>, scores: seq<CompetencyScore>, i: int)
    requires 0 <= i < |scores|
    ensures |EnrichAll(catalog, scores)| == |scores|
    ensures var d := EnrichAll(catalog, scores)[i];
            d.code == scores[i].code && d.requiredScore == scores[i].requiredScore &&
            d.actualScore == scores[i].actualScore &&
            d.gap == scores[i].actualScore - scores[i].requiredScore
    ensures (forall j :: 0 <= j < |catalog| ==> catalog[j].code != scores[i].code) ==>
              EnrichAll(catalog, scores)[i].name == scores[i].code &&
              EnrichAll(catalog, scores)[i].description == NoDescription
    ensures forall j :: 0 <= j < |catalog| && catalog[j].code == scores[i].code &&
                        (forall k :: 0 <= k < j ==> catalog[k].code != scores[i].code) ==>
              EnrichAll(catalog, scores)[i].name == catalog[j].name &&
              (EnrichAll(catalog, scores)[i].description == NoDescription <==>
                 catalog[j].description in {None, Some(""), Some(NoDescription)})
  {
    var s := scores[i];
    var found := CatalogEntry(catalog, s.code);
    forall j | 0 <= j < |catalog| && catalog[j].code == s.code &&
               (forall k :: 0 <= k < j ==> catalog[k].code != s.code)
      ensures found == Some(catalog[j])
    {
      var w :| 0 <= w < |catalog| && catalog[w] == found.value && catalog[w].code == s.code &&
               forall k :: 0 <= k < w ==> catalog[k].code != s.code;
      assert !(w < j) && !(j < w);
    }
  }

  /** The `reduce` into `tempScores`: each row's actual score under its
      code, a later row overwriting an earlier one with the same code. */
  function InitialScores(rows: seq<CompetencyDisplay>): Scores
    decreases |rows|
  {
    if rows == [] then []
    else Put(InitialScores(rows[..|rows| - 1]), rows[|rows| - 1].code, rows[|rows| - 1].actualScore)
  }

  /** The rows' codes, in order. */
  function Codes(rows: seq<CompetencyDisplay>): seq<string> {
    seq(|rows|, i requires 0 <= i < |rows| => rows[i].code)
  }

  /** A code is a key exactly when some row has it. */
  lemma {:induction false} InitialScoresKeys(rows: seq<CompetencyDisplay>, code: string)
    ensures Get(InitialScores(rows), code).Some? <==> code in Codes(rows)
  {
    if rows != [] {
      var n := |rows| - 1;
      InitialScoresKeys(rows[..n], code);
      assert Codes(rows) == Codes(rows[..n]) + [rows[n].code];
      PutHasKey(InitialScores(rows[..n]), rows[n].code, rows[n].actualScore, code);
    }
  }

  /** A code's value is the actual score of the last row with that code. */
  lemma {:induction false} InitialScoresLastWins(rows: seq<CompetencyDisplay>, i: int)
    requires 0 <= i < |rows|
    requires forall j :: i < j < |rows| ==> rows[j].code != rows[i].code
    ensures Get(InitialScores(rows), rows[i].code) == Some(rows[i].actualScore)
  {
    var n := |rows| - 1;
    var prefix := rows[..n];
    assert InitialScores(rows) == Put(InitialScores(prefix), rows[n].code, rows[n].actualScore);
    if i < n {
      assert prefix[i] == rows[i];
      assert forall j :: i < j < |prefix| ==> prefix[j] == rows[j];
      InitialScoresLastWins(prefix, i);
      PutOtherKey(InitialScores(prefix), rows[n].code, rows[n].actualScore, rows[i].code);
    }
  }

  lemma {:induction false} InitialScoresDistinct(rows: seq<CompetencyDisplay>)
    ensures DistinctKeys(InitialScores(rows))
  {
    if rows != [] {
      var n := |rows| - 1;
      InitialScoresDistinct(rows[..n]);
      PutDistinctKeys(InitialScores(rows[..n]), rows[n].code, rows[n].actualScore);
    }
  }

  /** `Math.min(Math.max(n, 0), 3)`. */
  function ClampScore(n: int): (r: int)
    ensures MinScore <= r <= MaxScore
    ensures MinScore <= n <= MaxScore ==> r == n
    ensures n < MinScore ==> r == MinScore
    ensures n > MaxScore ==> r == MaxScore
  {
    var atLeastMin := if n > MinScore then n else MinScore;
    if atLeastMin < MaxScore then atLeastMin else MaxScore
  }

  /** handleScoreChange on the scores: a number is clamped and stored
      under the code; input that does not parse changes nothing. */
  function ChangeScore(scores: Scores, code: string, parsed: Option<int>): Scores {
    if parsed.Some? then Put(scores, code, ClampScore(parsed.value)) else scores
  }

  lemma ChangeScoreMeaning(scores: Scores, code: string, parsed: Option<int>)
    ensures parsed.None? ==> ChangeScore(scores, code, parsed) == scores
    ensures parsed.Some? ==> Get(ChangeScore(scores, code, parsed), code) == Some(ClampScore(parsed.value))
    ensures parsed.Some? ==>
              var v := Get(ChangeScore(scores, code, parsed), code).value; MinScore <= v <= MaxScore
    ensures forall k :: k != code ==> Get(ChangeScore(scores, code, parsed), k) == Get(scores, k)
    ensures DistinctKeys(scores) ==> DistinctKeys(ChangeScore(scores, code, parsed))
  {
    if parsed.Some? {
      forall k | k != code ensures Get(ChangeScore(scores, code, parsed), k) == Get(scores, k) {
        PutOtherKey(scores, code, ClampScore(parsed.value), k);
      }
      if DistinctKeys(scores) {
        PutDistinctKeys(scores, code, ClampScore(parsed.value));
      }
    }
  }

  /** `Object.entries(tempScores).map(...)`: one payload score per entry, in order. */
  function PayloadScores(scores: Scores): seq<ScoreEntry> {
    seq(|scores|, i requires 0 <= i < |scores| => ScoreEntry(scores[i].0, scores[i].1))
  }

  /** The payload lists every code once, in key order, with its stored score. */
  lemma PayloadScoresMeaning(scores: Scores)
    requires DistinctKeys(scores)
    ensures |PayloadScores(scores)| == |scores|
    ensures forall i :: 0 <= i < |scores| ==>
              PayloadScores(scores)[i].competencyCode == KeysOf(scores)[i] &&
              Get(scores, KeysOf(scores)[i]) == Some(PayloadScores(scores)[i].actualScore)
  {
    forall i | 0 <= i < |scores|
      ensures Get(scores, KeysOf(scores)[i]) == Some(scores[i].1)
    {
      GetAtIndex(scores, i);
    }
  }

  lemma {:induction false} GetAtIndex(m: Scores, i: int)
    requires DistinctKeys(m) && 0 <= i < |m|
    ensures Get(m, m[i].0) == Some(m[i].1)
  {
    if i > 0 {
      assert KeysOf(m)[0] != KeysOf(m)[i];
      assert DistinctKeys(m[1..]) by {
        var ks := KeysOf(m[1..]);
        forall a, b | 0 <= a < b < |ks| ensures ks[a] != ks[b] {
          assert ks[a] == KeysOf(m)[a + 1] && ks[b] == KeysOf(m)[b + 1];
        }
      }
      GetAtIndex(m[1..], i - 1);
    }
  }

  /** The local update after a successful submission: the evaluated
      employee is marked evaluated by the evaluator, at `date`. */
  function MarkEvaluated(employees: seq<Employee>, number: string, evaluator: string, date: string): seq<Employee> {
    MapWhere(employees, (e: Employee) => e.employeeNumber == number,
             (e: Employee) => e.(evaluationStatus := true, evaluationBy := Some(evaluator), lastEvaluatedDate := Some(date)))
  }

  /** Only the employees with that number change, and only in the three
      evaluation fields; the length is kept. */
  lemma MarkEvaluatedMeaning(employees: seq<Employee>, number: string, evaluator: string, date: string, i: int)
    requires 0 <= i < |employees|
    ensures |MarkEvaluated(employees, number, evaluator, date)| == |employees|
    ensures employees[i].employeeNumber != number ==> MarkEvaluated(employees, number, evaluator, date)[i] == employees[i]
    ensures employees[i].employeeNumber == number ==>
              var e := MarkEvaluated(employees, number, evaluator, date)[i];
              e.evaluationStatus && e.evaluationBy == Some(evaluator) && e.lastEvaluatedDate == Some(date) &&
              e.(evaluationStatus := employees[i].evaluationStatus, evaluationBy := employees[i].evaluationBy,
                 lastEvaluatedDate := employees[i].lastEvaluatedDate) == employees[i]
  {
  }

  // ---------------------------------------------------------------------
  // The screen

  class EvaluationScreen {
    var employees: seq<Employee>
    var searchTerm: string
    var statusFilter: string
    var competencyCatalog: seq<Competency>
    var competencyData: Option<EmployeeCompetencyData>
    var showCompetencyPopup: bool
    var editingScores: bool
    var tempScores: Scores

    /** The cached `filteredEmployees`, which an effect keeps in step with
        the three inputs it is computed from. */
    function FilteredEmployees(): seq<Employee>
      reads this
    {
      ApplyFilters(employees, searchTerm, statusFilter)
    }

    ghost predicate Valid()
      reads this
    {
      DistinctKeys(tempScores)
    }

    constructor ()
      ensures Valid()
      ensures employees == [] && searchTerm == "" && statusFilter == AllFilter && competencyCatalog == []
      ensures competencyData == None && !showCompetencyPopup && !editingScores && tempScores == []
    {
      employees, searchTerm, statusFilter, competencyCatalog := [], "", AllFilter, [];
      competencyData, showCompetencyPopup, editingScores, tempScores := None, false, false, [];
    }

    /** The load effect, after both fetches succeeded; nothing happens
        without a signed-in user. */
    method LoadData(user: Option<AuthContext.User>, catalog: seq<Competency>, fetched: seq<Employee>)
      modifies this
      ensures user.None? ==> unchanged(this)
      ensures user.Some? ==> competencyCatalog == catalog && employees == fetched
      ensures searchTerm == old(searchTerm) && statusFilter == old(statusFilter) && tempScores == old(tempScores)
      ensures competencyData == old(competencyData) && showCompetencyPopup == old(showCompetencyPopup)
      ensures editingScores == old(editingScores)
    {
      if user.Some? {
        competencyCatalog := catalog;
        employees := fetched;
      }
    }

    method HandleSearch(value: string)
      modifies this`searchTerm
      ensures searchTerm == value
    {
      searchTerm := value;
    }

    method HandleStatusFilter(value: string)
      modifies this`statusFilter
      ensures statusFilter == value
    {
      statusFilter := value;
    }

    /** Opening the popup for an employee once the score fetch succeeded:
        rows are enriched from the catalog and the edited scores start as
        the actual ones. */
    method FetchEmployeeCompetencies(employeeNumber: string, fetched: seq<CompetencyScore>,
                                     user: Option<AuthContext.User>)
      modifies this`tempScores, this`competencyData, this`showCompetencyPopup, this`editingScores
      ensures Valid()
      ensures var rows := EnrichAll(competencyCatalog, fetched);
              var department := if user.Some? then "Department " + user.value.departmentCode else "Unknown department";
              tempScores == InitialScores(rows) &&
              competencyData == Some(EmployeeCompetencyData(Summary(employeeNumber, employees, department), rows))
      ensures showCompetencyPopup && !editingScores
    {
      var rows := EnrichAll(competencyCatalog, fetched);
      InitialScoresDistinct(rows);
      tempScores := InitialScores(rows);
      var department := if user.Some? then "Department " + user.value.departmentCode else "Unknown department";
      competencyData := Some(EmployeeCompetencyData(Summary(employeeNumber, employees, department), rows));
      showCompetencyPopup := true;
      editingScores := false;
    }

    /** The "Evaluate" button of the popup. */
    method StartEditing()
      modifies this`editingScores
      ensures editingScores
    {
      editingScores := true;
    }

    /** The "Cancel" button of the popup. */
    method CancelEditing()
      modifies this`editingScores
      ensures !editingScores
    {
      editingScores := false;
    }

    /** The close button of the popup. */
    method ClosePopup()
      modifies this`showCompetencyPopup
      ensures !showCompetencyPopup
    {
      showCompetencyPopup := false;
    }

    /** `parsed` is what `parseInt` made of the input, None for NaN. */
    method HandleScoreChange(code: string, parsed: Option<int>)
      requires Valid()
      modifies this`tempScores
      ensures Valid()
      ensures tempScores == ChangeScore(old(tempScores), code, parsed)
    {
      ChangeScoreMeaning(tempScores, code, parsed);
      if parsed.Some? {
        var clamped := ClampScore(parsed.value);
        tempScores := Put(tempScores, code, clamped);
      }
    }

    /** Submitting once the server accepted the payload: returns that
        payload, marks the employee evaluated at `now` and closes the
        popup; without popup data or a user nothing happens. */
    method SubmitEvaluation(user: Option<AuthContext.User>, now: string) returns (payload: Option<EvaluationPayload>)
      modifies this`employees, this`showCompetencyPopup
      ensures old(competencyData).None? || user.None? ==>
                payload.None? && employees == old(employees) && showCompetencyPopup == old(showCompetencyPopup)
      ensures competencyData.Some? && user.Some? ==>
                var number := competencyData.value.employee.employeeNumber;
                payload == Some(EvaluationPayload(number, user.value.username, PayloadScores(tempScores))) &&
                employees == MarkEvaluated(old(employees), number, user.value.username, now) &&
                !showCompetencyPopup
    {
      if competencyData.None? || user.None? {
        return None;
      }
      var number := competencyData.value.employee.employeeNumber;
      payload := Some(EvaluationPayload(number, user.value.username, PayloadScores(tempScores)));
      employees := MarkEvaluated(employees, number, user.value.username, now);
      showCompetencyPopup := false;
    }
  }
}
