/** The employee table: a modal form creates or edits an employee, and a
    row's delete button removes it; after each accepted server call the
    in-memory table is updated in place. */
module EmployeeCrud {
  import opened Common

  datatype Employee = Employee(
    employeeNumber: string,
    employeeName: string,
    jobCode: string,
    reportingEmployeeName: string,
    roleCode: string,
    departmentId: int)

  datatype Role = Role(roleCode: string, name: string)
  datatype Department = Department(id: int, name: string)

  /** The empty form of a new employee. */
  const BlankForm: Employee := Employee("", "", "", "", "", 0)

  // ---------------------------------------------------------------------
  // Table updates

  /** The update after an accepted edit: every entry with the edited
      number takes the form's six fields. */
  function EditEmployees(employees: seq<Employee>, key: string, form: Employee): seq<Employee> {
    MapWhere(employees, (e: Employee) => e.employeeNumber == key, (e: Employee) => form)
  }

  /** The update after an accepted delete. */
  function DeleteEmployee(employees: seq<Employee>, number: string): seq<Employee> {
    Filter(employees, (e: Employee) => e.employeeNumber != number)
  }

  /** Exactly the entries with the key become the form; the length and
      every other entry are kept. */
  lemma EditEmployeesMeaning(employees: seq<Employee>, key: string, form: Employee, i: int)
    requires 0 <= i < |employees|
    ensures |EditEmployees(employees, key, form)| == |employees|
    ensures employees[i].employeeNumber == key ==> EditEmployees(employees, key, form)[i] == form
    ensures employees[i].employeeNumber != key ==> EditEmployees(employees, key, form)[i] == employees[i]
  {
  }

  /** No entry with the number is left; the others keep their order and
      their number of copies. */
  lemma DeleteEmployeeMeaning(employees: seq<Employee>, number: string)
    ensures IsSubsequence(DeleteEmployee(employees, number), employees)
    ensures forall e: Employee :: e in DeleteEmployee(employees, number) ==> e.employeeNumber != number
    ensures forall e: Employee :: e.employeeNumber != number ==>
              multiset(DeleteEmployee(employees, number))[e] == multiset(employees)[e]
  {
    var p := (e: Employee) => e.employeeNumber != number;
    FilterIsSubsequence(employees, p);
    forall e: Employee | e.employeeNumber != number
      ensures multiset(Filter(employees, p))[e] == multiset(employees)[e]
    {
      FilterMultiplicity(employees, p, e);
    }
  }

  /** Deleting a number after creating or editing under it leaves what
      deleting it alone would. */
  lemma DeleteUndoesSave(employees: seq<Employee>, form: Employee, created: Employee)
    ensures DeleteEmployee(EditEmployees(employees, form.employeeNumber, form), form.employeeNumber) ==
            DeleteEmployee(employees, form.employeeNumber)
    ensures DeleteEmployee(employees + [created], created.employeeNumber) ==
            DeleteEmployee(employees, created.employeeNumber)
  {
    FilterAfterMapWhere(employees, (e: Employee) => e.employeeNumber == form.employeeNumber,
                        (e: Employee) => form, (e: Employee) => e.employeeNumber != form.employeeNumber);
    FilterAppendLast(employees, created, (e: Employee) => e.employeeNumber != created.employeeNumber);
  }

  // ---------------------------------------------------------------------
  // The screen

  class EmployeeScreen {
    var employees: seq<Employee>
    var roles: seq<Role>
    var departments: seq<Department>
    var modalOpen: bool
    var employeeNumber: string
    var employeeName: string
    var jobCode: string
    var reportingEmployeeName: string
    var roleCode: string
    var departmentId: int
    var editingEmployeeNumber: Option<string>

    /** The record the form fields make up. */
    function Form(): Employee
      reads this
    {
      Employee(employeeNumber, employeeName, jobCode, reportingEmployeeName, roleCode, departmentId)
    }

    /** `if (editingEmployeeNumber)`: null and the empty string both mean
        a new employee. */
    predicate Editing()
      reads this
    {
      editingEmployeeNumber.Some? && editingEmployeeNumber.value != ""
    }

    /** The number input cannot be changed while editing. */
    predicate NumberInputDisabled()
      reads this
    {
      Editing()
    }

    constructor ()
      ensures employees == [] && roles == [] && departments == [] && !modalOpen
      ensures Form() == BlankForm && editingEmployeeNumber == None
    {
      employees, roles, departments, modalOpen := [], [], [], false;
      employeeNumber, employeeName, jobCode, reportingEmployeeName, roleCode, departmentId := "", "", "", "", "", 0;
      editingEmployeeNumber := None;
    }

    /** The load effect, after the three fetches succeeded. */
    method LoadData(fetchedEmployees: seq<Employee>, fetchedRoles: seq<Role>, fetchedDepartments: seq<Department>)
      modifies this`employees, this`roles, this`departments
      ensures employees == fetchedEmployees && roles == fetchedRoles && departments == fetchedDepartments
    {
      employees := fetchedEmployees;
      roles := fetchedRoles;
      departments := fetchedDepartments;
    }

    /** "Save", once the server accepted it: an edit rewrites the entries
        with the edited number, a create appends the record the server
        returned (`created`); the modal then closes and the form stays. */
    method HandleSubmit(created: Employee)
      modifies this`employees, this`modalOpen
      ensures old(Editing()) ==> employees == EditEmployees(old(employees), old(editingEmployeeNumber).value, Form())
      ensures !old(Editing()) ==> employees == old(employees) + [created]
      ensures !modalOpen
    {
      if editingEmployeeNumber.Some? && editingEmployeeNumber.value != "" {
        var key := editingEmployeeNumber.value;
        var form := Employee(employeeNumber, employeeName, jobCode, reportingEmployeeName, roleCode, departmentId);
        employees := MapWhere(employees, (e: Employee) => e.employeeNumber == key, (e: Employee) => form);
      } else {
        employees := employees + [created];
      }
      CloseModal();
    }

    /** A row's "Delete": with the dialog confirmed and the call accepted,
        every entry with the number goes; declined, nothing changes. */
    method HandleDelete(number: string, confirmed: bool)
      modifies this`employees
      ensures confirmed ==> employees == DeleteEmployee(old(employees), number)
      ensures !confirmed ==> employees == old(employees)
    {
      if confirmed {
        employees := Filter(employees, (e: Employee) => e.employeeNumber != number);
      }
    }

    /** "Add Employee" (`employee` absent) clears the form; a row's "Edit"
        loads the row into it and remembers its number; both open the modal. */
    method OpenModal(employee: Option<Employee>)
      modifies this`editingEmployeeNumber, this`employeeNumber, this`employeeName, this`jobCode,
               this`reportingEmployeeName, this`roleCode, this`departmentId, this`modalOpen
      ensures employee.Some? ==> Form() == employee.value && editingEmployeeNumber == Some(employee.value.employeeNumber)
      ensures employee.None? ==> Form() == BlankForm && editingEmployeeNumber == None
      ensures modalOpen
    {
      if employee.Some? {
        var e := employee.value;
        editingEmployeeNumber := Some(e.employeeNumber);
        employeeNumber := e.employeeNumber;
        employeeName := e.employeeName;
        jobCode := e.jobCode;
        reportingEmployeeName := e.reportingEmployeeName;
        roleCode := e.roleCode;
        departmentId := e.departmentId;
      } else {
        editingEmployeeNumber := None;
        employeeNumber := "";
        employeeName := "";
        jobCode := "";
        reportingEmployeeName := "";
        roleCode := "";
        departmentId := 0;
      }
      modalOpen := true;
    }

    method CloseModal()
      modifies this`modalOpen
      ensures !modalOpen
    {
      modalOpen := false;
    }
  }
}
