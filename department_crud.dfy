/** The department table: a modal form creates or edits a department,
    and a row's delete button removes it; after each accepted server call
    the in-memory list is updated in place. An edit is sent for the code
    the modal was opened with, but the local update matches departments
    by the code in the form, which the user may have changed. */
module DepartmentCrud {
  import opened Common

  datatype Department = Department(id: int, departmentCode: string, name: string)

  /** The form state: the department's code and name. */
  datatype DepartmentForm = DepartmentForm(departmentCode: string, name: string)

  const BlankForm: DepartmentForm := DepartmentForm("", "")

  // ---------------------------------------------------------------------
  // List updates

  /** `{ ...dept, ...departmentData }`: the form's two fields, the id kept. */
  function Merge(d: Department, form: DepartmentForm): Department {
    d.(departmentCode := form.departmentCode, name := form.name)
  }

  /** The update after an accepted edit: the form is merged into every
      department whose code is the form's code. */
  function EditDepartments(departments: seq<Department>, form: DepartmentForm): seq<Department> {
    MapWhere(departments, (d: Department) => d.departmentCode == form.departmentCode,
             (d: Department) => Merge(d, form))
  }

  function DeleteDepartment(departments: seq<Department>, code: string): seq<Department> {
    Filter(departments, (d: Department) => d.departmentCode != code)
  }

  /** Exactly the departments with the form's code take the form's name,
      keeping id and code; the length and every other department are kept. */
  lemma EditDepartmentsMeaning(departments: seq<Department>, form: DepartmentForm, i: int)
    requires 0 <= i < |departments|
    ensures |EditDepartments(departments, form)| == |departments|
    ensures departments[i].departmentCode == form.departmentCode ==>
              EditDepartments(departments, form)[i] == departments[i].(name := form.name)
    ensures departments[i].departmentCode != form.departmentCode ==>
              EditDepartments(departments, form)[i] == departments[i]
  {
  }

  /** When the code was changed in the form, the department being edited
      keeps its old code and name in the list, and any other department
      that already had the new code takes the new name. */
  lemma EditWithChangedCode(departments: seq<Department>, editingCode: string, form: DepartmentForm, i: int)
    requires 0 <= i < |departments|
    requires form.departmentCode != editingCode
    ensures departments[i].departmentCode == editingCode ==> EditDepartments(departments, form)[i] == departments[i]
    ensures departments[i].departmentCode == form.departmentCode ==>
              EditDepartments(departments, form)[i].name == form.name
  {
    EditDepartmentsMeaning(departments, form, i);
  }

  /** No department with the code is left; the others keep their order
      and their number of copies. */
  lemma DeleteDepartmentMeaning(departments: seq<Department>, code: string)
    ensures IsSubsequence(DeleteDepartment(departments, code), departments)
    ensures forall d: Department :: d in DeleteDepartment(departments, code) ==> d.departmentCode != code
    ensures forall d: Department :: d.departmentCode != code ==>
              multiset(DeleteDepartment(departments, code))[d] == multiset(departments)[d]
  {
    var p := (d: Department) => d.departmentCode != code;
    FilterIsSubsequence(departments, p);
    forall d: Department | d.departmentCode != code
      ensures multiset(Filter(departments, p))[d] == multiset(departments)[d]
    {
      FilterMultiplicity(departments, p, d);
    }
  }

  /** Deleting the form's code after an edit, or a created department's
      code after the create, leaves what deleting it alone would. */
  lemma DeleteUndoesSave(departments: seq<Department>, form: DepartmentForm, created: Department)
    ensures DeleteDepartment(EditDepartments(departments, form), form.departmentCode) ==
            DeleteDepartment(departments, form.departmentCode)
    ensures DeleteDepartment(departments + [created], created.departmentCode) ==
            DeleteDepartment(departments, created.departmentCode)
  {
    FilterAfterMapWhere(departments, (d: Department) => d.departmentCode == form.departmentCode,
                        (d: Department) => Merge(d, form),
                        (d: Department) => d.departmentCode != form.departmentCode);
    FilterAppendLast(departments, created, (d: Department) => d.departmentCode != created.departmentCode);
  }

  // ---------------------------------------------------------------------
  // The screen

  class DepartmentScreen {
    var departments: seq<Department>
    var modalOpen: bool
    var departmentName: string
    var departmentCode: string
    var editingCode: Option<string>

    function Form(): DepartmentForm
      reads this
    {
      DepartmentForm(departmentCode, departmentName)
    }

    /** `if (editingCode)`: null and the empty string both mean a new department. */
    predicate Editing()
      reads this
    {
      editingCode.Some? && editingCode.value != ""
    }

    constructor ()
      ensures departments == [] && !modalOpen && Form() == BlankForm && editingCode == None
    {
      departments, modalOpen := [], false;
      departmentName, departmentCode, editingCode := "", "", None;
    }

    /** The load effect, after the fetch succeeded. */
    method LoadData(fetched: seq<Department>)
      modifies this`departments
      ensures departments == fetched
    {
      departments := fetched;
    }

    /** "Add Department" passes nothing, a row's "Edit" its code and name:
        an absent or empty code means a new department, absent values
        become "", and the modal opens. */
    method OpenModal(code: Option<string>, name: Option<string>)
      modifies this`editingCode, this`departmentCode, this`departmentName, this`modalOpen
      ensures editingCode == if code.Some? && code.value != "" then code else None
      ensures departmentCode == (if code.Some? then code.value else "")
      ensures departmentName == (if name.Some? then name.value else "")
      ensures modalOpen
    {
      var givenCode := if code.Some? then code.value else "";
      var givenName := if name.Some? then name.value else "";
      editingCode := if givenCode != "" then Some(givenCode) else None;
      departmentCode := OrElse(givenCode, "");
      departmentName := OrElse(givenName, "");
      modalOpen := true;
    }

    /** "Cancel", and the end of every accepted save: the modal closes and
        the form and the editing code are cleared. */
    method CloseModal()
      modifies this`modalOpen, this`departmentName, this`departmentCode, this`editingCode
      ensures !modalOpen && Form() == BlankForm && editingCode == None
    {
      modalOpen := false;
      departmentName := "";
      departmentCode := "";
      editingCode := None;
    }

    method HandleCodeChange(value: string)
      modifies this`departmentCode
      ensures departmentCode == value
    {
      departmentCode := value;
    }

    method HandleNameChange(value: string)
      modifies this`departmentName
      ensures departmentName == value
    {
      departmentName := value;
    }

    /** "Save", once the server accepted it: an edit merges the form into
        the departments with the form's code, a create appends the
        department the server returned (`created`); then the modal closes. */
    method HandleSubmit(created: Department)
      modifies this
      ensures old(Editing()) ==> departments == EditDepartments(old(departments), old(Form()))
      ensures !old(Editing()) ==> departments == old(departments) + [created]
      ensures !modalOpen && Form() == BlankForm && editingCode == None
    {
      var form := DepartmentForm(departmentCode, departmentName);
      if editingCode.Some? && editingCode.value != "" {
        departments := MapWhere(departments, (d: Department) => d.departmentCode == form.departmentCode,
                                (d: Department) => Merge(d, form));
      } else {
        departments := departments + [created];
      }
      CloseModal();
    }

    /** A row's "Delete": with the dialog confirmed and the call accepted
        every department with the code goes; declined, nothing changes. */
    method HandleDelete(code: string, confirmed: bool)
      modifies this`departments
      ensures confirmed ==> departments == DeleteDepartment(old(departments), code)
      ensures !confirmed ==> departments == old(departments)
    {
      if confirmed {
        departments := Filter(departments, (d: Department) => d.departmentCode != code);
      }
    }
  }
}
