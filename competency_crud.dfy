/** The competency catalog table: a modal form creates or edits a
    competency, and a row's delete button removes it; after each accepted
    server call the in-memory list is updated in place. */
module CompetencyCrud {
  import opened Common

  /** A catalog entry; its description may be absent. */
  datatype Competency = Competency(id: int, code: string, name: string, description: Option<string>)

  /** The three fields the form edits. */
  datatype CompetencyForm = CompetencyForm(code: string, name: string, description: string)

  const BlankForm: CompetencyForm := CompetencyForm("", "", "")

  // ---------------------------------------------------------------------
  // List updates

  /** `{ ...c, ...competencyData }`: the form's fields over the entry's,
      the id kept. */
  function Merge(c: Competency, form: CompetencyForm): (r: Competency)
    ensures r.id == c.id
    ensures r.code == form.code && r.name == form.name && r.description == Some(form.description)
  {
    c.(code := form.code, name := form.name, description := Some(form.description))
  }

  /** The update after an accepted edit: the form is merged into every
      entry with the edited id. */
  function EditCompetencies(competencies: seq<Competency>, id: int, form: CompetencyForm): seq<Competency> {
    MapWhere(competencies, (c: Competency) => c.id == id, (c: Competency) => Merge(c, form))
  }

  function DeleteCompetency(competencies: seq<Competency>, id: int): seq<Competency> {
    Filter(competencies, (c: Competency) => c.id != id)
  }

  /** Exactly the entries with the id take the form's fields, keeping
      their id; the length and every other entry are kept. */
  lemma EditCompetenciesMeaning(competencies: seq<Competency>, id: int, form: CompetencyForm, i: int)
    requires 0 <= i < |competencies|
    ensures |EditCompetencies(competencies, id, form)| == |competencies|
    ensures competencies[i].id == id ==>
              EditCompetencies(competencies, id, form)[i] ==
                Competency(id, form.code, form.name, Some(form.description))
    ensures competencies[i].id != id ==> EditCompetencies(competencies, id, form)[i] == competencies[i]
  {
  }

  /** No entry with the id is left; the others keep their order and their
      number of copies. */
  lemma DeleteCompetencyMeaning(competencies: seq<Competency>, id: int)
    ensures IsSubsequence(DeleteCompetency(competencies, id), competencies)
    ensures forall c: Competency :: c in DeleteCompetency(competencies, id) ==> c.id != id
    ensures forall c: Competency :: c.id != id ==>
              multiset(DeleteCompetency(competencies, id))[c] == multiset(competencies)[c]
  {
    var p := (c: Competency) => c.id != id;
    FilterIsSubsequence(competencies, p);
    forall c: Competency | c.id != id
      ensures multiset(Filter(competencies, p))[c] == multiset(competencies)[c]
    {
      FilterMultiplicity(competencies, p, c);
    }
  }

  /** Deleting an id after editing it, or after creating an entry with it,
      leaves what deleting it alone would. */
  lemma DeleteUndoesSave(competencies: seq<Competency>, id: int, form: CompetencyForm, created: Competency)
    ensures DeleteCompetency(EditCompetencies(competencies, id, form), id) == DeleteCompetency(competencies, id)
    ensures DeleteCompetency(competencies + [created], created.id) == DeleteCompetency(competencies, created.id)
  {
    FilterAfterMapWhere(competencies, (c: Competency) => c.id == id, (c: Competency) => Merge(c, form),
                        (c: Competency) => c.id != id);
    FilterAppendLast(competencies, created, (c: Competency) => c.id != created.id);
  }

  // ---------------------------------------------------------------------
  // The screen

  class CompetencyScreen {
    var competency: seq<Competency>
    var modalOpen: bool
    var code: string
    var name: string
    var description: string
    var editingId: Option<int>

    function Form(): CompetencyForm
      reads this
    {
      CompetencyForm(code, name, description)
    }

    /** `if (editingId)`: null and the id 0 both mean a new competency. */
    predicate Editing()
      reads this
    {
      editingId.Some? && editingId.value != 0
    }

    constructor ()
      ensures competency == [] && !modalOpen && Form() == BlankForm && editingId == None
    {
      competency, modalOpen := [], false;
      code, name, description, editingId := "", "", "", None;
    }

    /** The load effect, after the fetch succeeded. */
    method LoadData(fetched: seq<Competency>)
      modifies this`competency
      ensures competency == fetched
    {
      competency := fetched;
    }

    /** "Save", once the server accepted it: an edit merges the form into
        the entries with the edited id, a create appends the record the
        server returned (`created`); the modal then closes. */
    method HandleSubmit(created: Competency)
      modifies this`competency, this`modalOpen
      ensures old(Editing()) ==> competency == EditCompetencies(old(competency), old(editingId).value, Form())
      ensures !old(Editing()) ==> competency == old(competency) + [created]
      ensures !modalOpen
    {
      if editingId.Some? && editingId.value != 0 {
        var id := editingId.value;
        var form := CompetencyForm(code, name, description);
        competency := MapWhere(competency, (c: Competency) => c.id == id, (c: Competency) => Merge(c, form));
      } else {
        competency := competency + [created];
      }
      CloseModal();
    }

    /** A row's "Delete": with the dialog confirmed and the call accepted
        every entry with the id goes; declined, nothing changes. */
    method HandleDelete(id: int, confirmed: bool)
      modifies this`competency
      ensures confirmed ==> competency == DeleteCompetency(old(competency), id)
      ensures !confirmed ==> competency == old(competency)
    {
      if confirmed {
        competency := Filter(competency, (c: Competency) => c.id != id);
      }
    }

    /** "Add Competency" (`c` absent) clears the form; a row's "Edit"
        loads the row, an absent or empty description as ""; both open
        the modal. */
    method OpenModal(c: Option<Competency>)
      modifies this`editingId, this`code, this`name, this`description, this`modalOpen
      ensures c.Some? ==>
                editingId == Some(c.value.id) &&
                Form() == CompetencyForm(c.value.code, c.value.name,
                                         if c.value.description.Some? then c.value.description.value else "")
      ensures c.None? ==> editingId == None && Form() == BlankForm
      ensures modalOpen
    {
      if c.Some? {
        editingId := Some(c.value.id);
        code := c.value.code;
        name := c.value.name;
        description := OrElse(if c.value.description.Some? then c.value.description.value else "", "");
      } else {
        editingId := None;
        code := "";
        name := "";
        description := "";
      }
      modalOpen := true;
    }

    method CloseModal()
      modifies this`modalOpen
      ensures !modalOpen
    {
      modalOpen := false;
    }
  }
}
