/** The role table: a modal form with two inputs creates or edits a role,
    rejecting blank input, and a row's delete button removes a role;
    after each accepted server call the in-memory list is updated in place. */
module RoleCrud {
  import opened Common

  datatype Role = Role(id: int, roleCode: string, name: string)

  /** The form state: a role without its id. */
  datatype RoleForm = RoleForm(roleCode: string, name: string)

  /** The `name` attribute of the input that changed. */
  datatype Field = RoleCodeField | NameField

  const BlankForm: RoleForm := RoleForm("", "")

  // ---------------------------------------------------------------------
  // String.prototype.trim

  /** The characters `trim` removes: the ECMAScript white space and line
      terminators. */
  predicate IsJsWhitespace(c: char) {
    ('\U{0009}' <= c <= '\U{000D}') || c == '\U{0020}' || c == '\U{00A0}' || c == '\U{1680}' ||
    ('\U{2000}' <= c <= '\U{200A}') || c == '\U{2028}' || c == '\U{2029}' || c == '\U{202F}' ||
    c == '\U{205F}' || c == '\U{3000}' || c == '\U{FEFF}'
  }

  /** Leading white space removed: a suffix of `s`, everything cut off is
      white space, and it does not start with white space. */
  function TrimStart(s: string): (r: string)
    ensures |r| <= |s| && r == s[|s| - |r|..]
    ensures forall i :: 0 <= i < |s| - |r| ==> IsJsWhitespace(s[i])
    ensures r != [] ==> !IsJsWhitespace(r[0])
  {
    if s != [] && IsJsWhitespace(s[0]) then TrimStart(s[1..]) else s
  }

  /** Trailing white space removed: a prefix of `s`, everything cut off
      is white space, and it does not end with white space. */
  function TrimEnd(s: string): (r: string)
    ensures |r| <= |s| && r == s[..|r|]
    ensures forall i :: |r| <= i < |s| ==> IsJsWhitespace(s[i])
    ensures r != [] ==> !IsJsWhitespace(r[|r| - 1])
  {
    if s != [] && IsJsWhitespace(s[|s| - 1]) then TrimEnd(s[..|s| - 1]) else s
  }

  function Trim(s: string): string {
    TrimEnd(TrimStart(s))
  }

  /** `!s.trim()`: nothing is left after trimming. */
  predicate IsBlank(s: string) {
    Trim(s) == ""
  }

  /** A string is blank exactly when every character is white space. */
  lemma BlankMeansAllWhitespace(s: string)
    ensures IsBlank(s) <==> forall i :: 0 <= i < |s| ==> IsJsWhitespace(s[i])
  {
    var t := TrimStart(s);
    if t != [] {
      assert !IsJsWhitespace(t[0]);
      assert TrimEnd(t) != [];
      assert t[0] == s[|s| - |t|];
    }
  }

  /** The surrounding white space never matters to the check. */
  lemma TrimIdempotent(s: string)
    ensures Trim(Trim(s)) == Trim(s)
  {
    var r := Trim(s);
    if r != [] {
      assert !IsJsWhitespace(r[0]) by {
        var t := TrimStart(s);
        assert r == t[..|r|];
      }
      assert TrimStart(r) == r;
    }
  }

  // ---------------------------------------------------------------------
  // List updates

  /** The input check of "Save": both fields must have a non-blank value. */
  predicate FormValid(form: RoleForm) {
    !IsBlank(form.roleCode) && !IsBlank(form.name)
  }

  /** `{ ...role, ...formData }`: the form's two fields, the id kept. */
  function Merge(role: Role, form: RoleForm): Role {
    role.(roleCode := form.roleCode, name := form.name)
  }

  function EditRoles(roles: seq<Role>, id: int, form: RoleForm): seq<Role> {
    MapWhere(roles, (r: Role) => r.id == id, (r: Role) => Merge(r, form))
  }

  function DeleteRole(roles: seq<Role>, id: int): seq<Role> {
    Filter(roles, (r: Role) => r.id != id)
  }

  /** Exactly the roles with the id take the form's code and name, keeping
      their id; the length and every other role are kept. */
  lemma EditRolesMeaning(roles: seq<Role>, id: int, form: RoleForm, i: int)
    requires 0 <= i < |roles|
    ensures |EditRoles(roles, id, form)| == |roles|
    ensures roles[i].id == id ==> EditRoles(roles, id, form)[i] == Role(id, form.roleCode, form.name)
    ensures roles[i].id != id ==> EditRoles(roles, id, form)[i] == roles[i]
  {
  }

  /** No role with the id is left; the others keep their order and their
      number of copies. */
  lemma DeleteRoleMeaning(roles: seq<Role>, id: int)
    ensures IsSubsequence(DeleteRole(roles, id), roles)
    ensures forall r: Role :: r in DeleteRole(roles, id) ==> r.id != id
    ensures forall r: Role :: r.id != id ==> multiset(DeleteRole(roles, id))[r] == multiset(roles)[r]
  {
    var p := (r: Role) => r.id != id;
    FilterIsSubsequence(roles, p);
    forall r: Role | r.id != id ensures multiset(Filter(roles, p))[r] == multiset(roles)[r] {
      FilterMultiplicity(roles, p, r);
    }
  }

  /** Deleting an id after editing it, or after creating a role with it,
      leaves what deleting it alone would. */
  lemma DeleteUndoesSave(roles: seq<Role>, id: int, form: RoleForm, created: Role)
    ensures DeleteRole(EditRoles(roles, id, form), id) == DeleteRole(roles, id)
    ensures DeleteRole(roles + [created], created.id) == DeleteRole(roles, created.id)
  {
    FilterAfterMapWhere(roles, (r: Role) => r.id == id, (r: Role) => Merge(r, form), (r: Role) => r.id != id);
    FilterAppendLast(roles, created, (r: Role) => r.id != created.id);
  }

  // ---------------------------------------------------------------------
  // The screen

  class RoleScreen {
    var roles: seq<Role>
    var modalOpen: bool
    var formData: RoleForm
    var editingId: Option<int>

    /** `if (editingId)`: null and the id 0 both mean a new role. */
    predicate Editing()
      reads this
    {
      editingId.Some? && editingId.value != 0
    }

    /** The code input is read-only while editing. */
    predicate RoleCodeReadOnly()
      reads this
    {
      Editing()
    }

    constructor ()
      ensures roles == [] && !modalOpen && formData == BlankForm && editingId == None
    {
      roles, modalOpen, formData, editingId := [], false, BlankForm, None;
    }

    /** The load effect, after the fetch succeeded. */
    method LoadData(fetched: seq<Role>)
      modifies this`roles
      ensures roles == fetched
    {
      roles := fetched;
    }

    /** "Save": blank input raises the alert (`alerted`) and changes
        nothing; otherwise, once the server accepted it, an edit merges the
        form into the roles with the edited id, a create appends the role
        the server returned (`created`), and the modal closes. */
    method HandleSubmit(created: Role) returns (alerted: bool)
      modifies this`roles, this`modalOpen
      ensures alerted <==> !FormValid(formData)
      ensures alerted ==> roles == old(roles) && modalOpen == old(modalOpen)
      ensures !alerted && old(Editing()) ==> roles == EditRoles(old(roles), old(editingId).value, formData) && !modalOpen
      ensures !alerted && !old(Editing()) ==> roles == old(roles) + [created] && !modalOpen
    {
      if IsBlank(formData.roleCode) || IsBlank(formData.name) {
        return true;
      }
      alerted := false;
      if editingId.Some? && editingId.value != 0 {
        var id := editingId.value;
        var form := formData;
        roles := MapWhere(roles, (r: Role) => r.id == id, (r: Role) => Merge(r, form));
      } else {
        roles := roles + [created];
      }
      CloseModal();
    }

    /** A row's "Delete": with the dialog confirmed and the call accepted
        every role with the id goes; declined, nothing changes. */
    method HandleDelete(id: int, confirmed: bool)
      modifies this`roles
      ensures confirmed ==> roles == DeleteRole(old(roles), id)
      ensures !confirmed ==> roles == old(roles)
    {
      if confirmed {
        roles := Filter(roles, (r: Role) => r.id != id);
      }
    }

    /** "Add Role" (`role` absent) clears the form; a row's "Edit" loads
        its code and name and remembers its id; both open the modal. */
    method OpenModal(role: Option<Role>)
      modifies this`editingId, this`formData, this`modalOpen
      ensures role.Some? ==> editingId == Some(role.value.id) &&
                             formData == RoleForm(role.value.roleCode, role.value.name)
      ensures role.None? ==> editingId == None && formData == BlankForm
      ensures modalOpen
    {
      if role.Some? {
        editingId := Some(role.value.id);
        formData := RoleForm(role.value.roleCode, role.value.name);
      } else {
        editingId := None;
        formData := BlankForm;
      }
      modalOpen := true;
    }

    method CloseModal()
      modifies this`modalOpen
      ensures !modalOpen
    {
      modalOpen := false;
    }

    /** Typing into one of the two inputs: that field takes the value and
        the other field is kept. */
    method HandleInputChange(field: Field, value: string)
      modifies this`formData
      ensures field == RoleCodeField ==> formData.roleCode == value && formData.name == old(formData).name
      ensures field == NameField ==> formData.name == value && formData.roleCode == old(formData).roleCode
    {
      match field
      case RoleCodeField => formData := formData.(roleCode := value);
      case NameField => formData := formData.(name := value);
    }
  }
}
