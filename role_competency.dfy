/** The role/competency assignment editor: for the role being edited the
    catalog splits into available and assigned competencies, a selection
    of codes is toggled, and the selection is assigned to or removed from
    the role. */
module RoleCompetency {
  import opened Common

  datatype Role = Role(roleCode: string, name: string)
  datatype Competency = Competency(code: string, name: string, description: Option<string>)

  /** The body of the server call a handler makes: the role and the
      selected codes to add or to take away. */
  datatype Request =
    | AssignRequest(roleCode: string, codes: seq<string>)
    | RemoveRequest(roleCode: string, codes: seq<string>)

  // ---------------------------------------------------------------------
  // The two lists of the modal

  function Available(catalog: seq<Competency>, assignedCodes: seq<string>): seq<Competency> {
    Filter(catalog, (c: Competency) => c.code !in assignedCodes)
  }

  function AssignedView(catalog: seq<Competency>, assignedCodes: seq<string>): seq<Competency> {
    Filter(catalog, (c: Competency) => c.code in assignedCodes)
  }

  /** The two lists keep catalog order, hold exactly the entries whose
      code is respectively unassigned and assigned, and together make up
      the catalog; with nothing assigned the assigned list is empty, which
      the modal shows as a message. */
  lemma AvailableAssignedPartition(catalog: seq<Competency>, assignedCodes: seq<string>)
    ensures IsSubsequence(Available(catalog, assignedCodes), catalog)
    ensures IsSubsequence(AssignedView(catalog, assignedCodes), catalog)
    ensures forall c :: c in Available(catalog, assignedCodes) <==> c in catalog && c.code !in assignedCodes
    ensures forall c :: c in AssignedView(catalog, assignedCodes) <==> c in catalog && c.code in assignedCodes
    ensures |Available(catalog, assignedCodes)| + |AssignedView(catalog, assignedCodes)| == |catalog|
    ensures multiset(Available(catalog, assignedCodes)) + multiset(AssignedView(catalog, assignedCodes)) == multiset(catalog)
    ensures assignedCodes == [] ==> AssignedView(catalog, assignedCodes) == []
  {
    var isAssigned := (c: Competency) => c.code in assignedCodes;
    FilterIsSubsequence(catalog, (c: Competency) => c.code !in assignedCodes);
    FilterIsSubsequence(catalog, isAssigned);
    FilterPartition(catalog, isAssigned, (c: Competency) => c.code !in assignedCodes);
    if assignedCodes == [] && AssignedView(catalog, assignedCodes) != [] {
      assert AssignedView(catalog, assignedCodes)[0] in AssignedView(catalog, assignedCodes);
    }
  }

  // ---------------------------------------------------------------------
  // The two buttons

  /** "Assign Selected" is disabled for an empty selection or one whose
      every code is already assigned. */
  predicate AssignDisabled(selected: seq<string>, assignedCodes: seq<string>) {
    |selected| == 0 || All(selected, (c: string) => c in assignedCodes)
  }

  /** "Remove Selected" is disabled for an empty selection or one with no
      assigned code. */
  predicate RemoveDisabled(selected: seq<string>, assignedCodes: seq<string>) {
    |selected| == 0 || All(selected, (c: string) => c !in assignedCodes)
  }

  /** Assigning is possible exactly when some selected code is not yet assigned. */
  lemma AssignEnabledMeaning(selected: seq<string>, assignedCodes: seq<string>)
    ensures !AssignDisabled(selected, assignedCodes) ==> exists i :: 0 <= i < |selected| && selected[i] !in assignedCodes
    ensures (exists i :: 0 <= i < |selected| && selected[i] !in assignedCodes) ==> !AssignDisabled(selected, assignedCodes)
  {
    AllMeansEvery(selected, (c: string) => c in assignedCodes);
  }

  /** Removing is possible exactly when some selected code is assigned. */
  lemma RemoveEnabledMeaning(selected: seq<string>, assignedCodes: seq<string>)
    ensures !RemoveDisabled(selected, assignedCodes) ==> exists i :: 0 <= i < |selected| && selected[i] in assignedCodes
    ensures (exists i :: 0 <= i < |selected| && selected[i] in assignedCodes) ==> !RemoveDisabled(selected, assignedCodes)
  {
    AllMeansEvery(selected, (c: string) => c !in assignedCodes);
  }

  /** For a non-empty selection at least one of the two buttons is enabled. */
  lemma SomeButtonEnabled(selected: seq<string>, assignedCodes: seq<string>)
    requires selected != []
    ensures !AssignDisabled(selected, assignedCodes) || !RemoveDisabled(selected, assignedCodes)
  {
    AssignEnabledMeaning(selected, assignedCodes);
    RemoveEnabledMeaning(selected, assignedCodes);
    if selected[0] in assignedCodes {
      assert 0 <= 0 < |selected| && selected[0] in assignedCodes;
    } else {
      assert 0 <= 0 < |selected| && selected[0] !in assignedCodes;
    }
  }

  // ---------------------------------------------------------------------
  // The screen

  class AssignmentScreen {
    var roles: seq<Role>
    var competencies: seq<Competency>
    var currentRole: Option<Role>
    var assignedCompetencies: seq<string>
    var selectedCompetencies: seq<string>
    var modalOpen: bool

    /** The modal is drawn while it is open and a role is chosen. */
    predicate ModalShown()
      reads this
    {
      modalOpen && currentRole.Some?
    }

    constructor ()
      ensures roles == [] && competencies == [] && currentRole == None
      ensures assignedCompetencies == [] && selectedCompetencies == [] && !modalOpen
    {
      roles, competencies, currentRole := [], [], None;
      assignedCompetencies, selectedCompetencies, modalOpen := [], [], false;
    }

    /** The load effect, after both fetches succeeded. */
    method LoadData(fetchedRoles: seq<Role>, fetchedCompetencies: seq<Competency>)
      modifies this`roles, this`competencies
      ensures roles == fetchedRoles && competencies == fetchedCompetencies
    {
      roles := fetchedRoles;
      competencies := fetchedCompetencies;
    }

    /** "Assign Competencies" on a role row, once the role's codes were
        fetched: the role becomes current and the modal opens; the
        selection is left as it was. */
    method OpenAssignmentModal(role: Role, fetchedAssigned: seq<string>)
      modifies this`currentRole, this`assignedCompetencies, this`modalOpen
      ensures currentRole == Some(role) && assignedCompetencies == fetchedAssigned && modalOpen
      ensures ModalShown()
    {
      currentRole := Some(role);
      assignedCompetencies := fetchedAssigned;
      modalOpen := true;
    }

    /** "Close": the modal closes and the selection is emptied. */
    method CloseModal()
      modifies this`modalOpen, this`selectedCompetencies
      ensures !modalOpen && selectedCompetencies == []
      ensures !ModalShown()
    {
      modalOpen := false;
      selectedCompetencies := [];
    }

    /** A checkbox in either list: the code's membership flips, every other
        code keeps its membership, and a new code goes last. */
    method ToggleCompetency(code: string)
      modifies this`selectedCompetencies
      ensures selectedCompetencies == Toggle(old(selectedCompetencies), code)
      ensures code in selectedCompetencies <==> code !in old(selectedCompetencies)
      ensures forall c :: c != code && c in old(selectedCompetencies) ==> c in selectedCompetencies
      ensures forall c :: c != code && c in selectedCompetencies ==> c in old(selectedCompetencies)
      ensures code !in old(selectedCompetencies) ==>
                selectedCompetencies == old(selectedCompetencies) + [code]
    {
      selectedCompetencies := Toggle(selectedCompetencies, code);
    }

    /** "Assign Selected", once the server accepted the call and the
        role's codes were fetched again: nothing happens without a role or
        with an empty selection; otherwise the request carries the
        selection, the refetched codes replace the assigned ones and the
        selection is emptied. */
    method HandleAssign(refetched: seq<string>) returns (request: Option<Request>)
      modifies this`assignedCompetencies, this`selectedCompetencies
      ensures old(currentRole).None? || old(selectedCompetencies) == [] ==>
                request.None? && assignedCompetencies == old(assignedCompetencies) &&
                selectedCompetencies == old(selectedCompetencies)
      ensures currentRole.Some? && old(selectedCompetencies) != [] ==>
                request == Some(AssignRequest(currentRole.value.roleCode, old(selectedCompetencies))) &&
                assignedCompetencies == refetched && selectedCompetencies == []
    {
      if currentRole.None? || |selectedCompetencies| == 0 {
        return None;
      }
      request := Some(AssignRequest(currentRole.value.roleCode, selectedCompetencies));
      assignedCompetencies := refetched;
      selectedCompetencies := [];
    }

    /** "Remove Selected", with the same guard and reset as assigning. */
    method HandleRemove(refetched: seq<string>) returns (request: Option<Request>)
      modifies this`assignedCompetencies, this`selectedCompetencies
      ensures old(currentRole).None? || old(selectedCompetencies) == [] ==>
                request.None? && assignedCompetencies == old(assignedCompetencies) &&
                selectedCompetencies == old(selectedCompetencies)
      ensures currentRole.Some? && old(selectedCompetencies) != [] ==>
                request == Some(RemoveRequest(currentRole.value.roleCode, old(selectedCompetencies))) &&
                assignedCompetencies == refetched && selectedCompetencies == []
    {
      if currentRole.None? || |selectedCompetencies| == 0 {
        return None;
      }
      request := Some(RemoveRequest(currentRole.value.roleCode, selectedCompetencies));
      assignedCompetencies := refetched;
      selectedCompetencies := [];
    }
  }
}
