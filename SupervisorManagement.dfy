/** The supervisor registry screen (client/components/SupervisorManagement.tsx):
    the form and list controller. Its state is the six React state variables
    `formData`, `editingSupervisor`, `isDialogOpen`, `loading`, `error` and
    `message`; the CRUD collaborator is a log of the calls issued to it.
    The awaited outcome of a call, the answer to the confirmation prompt and
    the clock readings are parameters. */
module SupervisorManagement {
  import opened ArrayOps

  /** A supervisor record as the list provides it. */
  datatype Supervisor = Supervisor(id: string, nom: string, telephone: string,
                                   company: Option<string>, statut: string)

  /** The form fields. */
  datatype FormData = FormData(nom: string, telephone: string, company: string, statut: string)

  const EmptyForm: FormData := FormData("", "", "", "actif")

  /** The document sent to the collection: the form plus `updatedAt`, and
      `createdAt` on creation only. */
  datatype SupervisorData = SupervisorData(nom: string, telephone: string, company: string, statut: string,
                                           updatedAt: string, createdAt: Option<string>)

  /** A call issued to the CRUD collaborator. */
  datatype Call =
    | AddDocument(data: SupervisorData)
    | UpdateDocument(id: string, data: SupervisorData)
    | DeleteDocument(id: string)

  /** How an awaited call ended; a thrown error without a message carries "". */
  datatype Outcome = Succeeded | Failed(errorMessage: string)

  const ValidationError := "Veuillez remplir tous les champs obligatoires"
  const UpdatedMessage := "Superviseur mis à jour avec succès"
  const AddedMessage := "Superviseur ajouté avec succès"
  const DeletedMessage := "Superviseur supprimé avec succès"
  const SubmitErrorPrefix := "Erreur lors de la gestion du superviseur: "
  const DeleteErrorPrefix := "Erreur lors de la suppression: "
  const UnknownError := "Erreur inconnue"

  /** `prefix + (err.message || 'Erreur inconnue')`. */
  function ErrorText(prefix: string, errorMessage: string): (text: string)
    ensures |text| > |prefix| && text[..|prefix|] == prefix
    ensures errorMessage != "" ==> text[|prefix|..] == errorMessage
    ensures errorMessage == "" ==> text[|prefix|..] == UnknownError
  {
    prefix + (if errorMessage != "" then errorMessage else UnknownError)
  }

  /** `supervisor.company || ''`: an absent company and an empty one both
      become "". */
  function CompanyOrEmpty(company: Option<string>): (text: string)
    ensures text == "" <==> company.None? || company.value == ""
    ensures text != "" ==> company == Some(text)
  {
    if company.Some? then company.value else ""
  }

  /** The component state, together with the collaborator's call log. */
  datatype Panel = Panel(formData: FormData, editingSupervisor: Option<Supervisor>, isDialogOpen: bool,
                         loading: bool, error: string, message: string, calls: seq<Call>)

  /** The state the component starts in. */
  function Initial(calls: seq<Call>): Panel {
    Panel(EmptyForm, None, false, false, "", "", calls)
  }

  /** The validation of `handleSubmit`: name and phone are required, so the
      empty form never passes, and the company and status are not checked. */
  predicate IsComplete(form: FormData)
    ensures form.nom == "" || form.telephone == "" ==> !IsComplete(form)
  {
    form.nom != "" && form.telephone != ""
  }

  /** The empty form never passes validation, and the company and status
      play no part in it. */
  lemma ValidationIgnoresOptionalFields(form: FormData, company: string, statut: string)
    ensures !IsComplete(EmptyForm)
    ensures IsComplete(form) <==> IsComplete(form.(company := company, statut := statut))
  {
  }

  /** The one call a valid submit issues: an update of the record being
      edited, or else a creation; only creation adds `createdAt`. The clock
      is read once for `updatedAt` and once more for `createdAt`, so the two
      readings are separate parameters. */
  function SubmitRequest(form: FormData, editing: Option<Supervisor>, updatedAt: string, createdAt: string): (c: Call)
    ensures c.UpdateDocument? <==> editing.Some?
    ensures c.UpdateDocument? ==> c.id == editing.value.id && c.data.createdAt == None
    ensures c.AddDocument? ==> c.data.createdAt == Some(createdAt)
    ensures !c.DeleteDocument?
    ensures c.data.nom == form.nom && c.data.telephone == form.telephone
    ensures c.data.company == form.company && c.data.statut == form.statut && c.data.updatedAt == updatedAt
  {
    var data := SupervisorData(form.nom, form.telephone, form.company, form.statut, updatedAt, None);
    if editing.Some? then UpdateDocument(editing.value.id, data)
    else AddDocument(data.(createdAt := Some(createdAt)))
  }

  // ---------------------------------------------------------------------
  // The handlers, as functions of the state

  /** `resetForm`: the form, the record being edited and both texts return
      to their initial values; the dialog flag, `loading` and the calls are
      left alone. */
  function Reset(p: Panel): (r: Panel)
    ensures r == Initial(p.calls).(isDialogOpen := p.isDialogOpen, loading := p.loading)
  {
    p.(formData := EmptyForm, editingSupervisor := None, error := "", message := "")
  }

  /** Resetting twice is resetting once. */
  lemma ResetIdempotent(p: Panel)
    ensures Reset(Reset(p)) == Reset(p)
  {
  }

  /** `handleSubmit`: clear the messages and set `loading`; on invalid input
      set the validation error and stop (the `finally` still clears
      `loading`); otherwise issue the one call and, on success, set the
      success text, reset the form (which clears that text again) and close
      the dialog, or on failure set the error and keep everything else. */
  function Submitted(p: Panel, outcome: Outcome, updatedAt: string, createdAt: string): (r: Panel)
    ensures !r.loading && r.message == ""
    ensures |p.calls| <= |r.calls| && r.calls[..|p.calls|] == p.calls
    ensures |r.calls| == |p.calls| + 1 <==> IsComplete(p.formData)
    ensures r.error == "" <==> IsComplete(p.formData) && outcome.Succeeded?
  {
    var started := p.(loading := true, error := "", message := "");
    if !IsComplete(started.formData) then
      started.(error := ValidationError, loading := false)
    else
      var issued := started.(calls := started.calls + [SubmitRequest(started.formData, started.editingSupervisor, updatedAt, createdAt)]);
      match outcome
      case Succeeded =>
        var text := if issued.editingSupervisor.Some? then UpdatedMessage else AddedMessage;
        Reset(issued.(message := text)).(isDialogOpen := false, loading := false)
      case Failed(m) =>
        issued.(error := ErrorText(SubmitErrorPrefix, m), loading := false)
  }

  /** `handleEdit`: the form shows the record, which becomes the record being
      edited, and the dialog opens; the texts, `loading` and the calls are
      left alone. The form passes validation exactly when the record has a
      name and a phone. */
  function Edited(p: Panel, s: Supervisor): (r: Panel)
    ensures r.editingSupervisor == Some(s) && r.isDialogOpen
    ensures r.formData.nom == s.nom && r.formData.telephone == s.telephone && r.formData.statut == s.statut
    ensures r.formData.company == CompanyOrEmpty(s.company)
    ensures IsComplete(r.formData) <==> s.nom != "" && s.telephone != ""
    ensures r.error == p.error && r.message == p.message && r.loading == p.loading && r.calls == p.calls
  {
    p.(formData := FormData(s.nom, s.telephone, CompanyOrEmpty(s.company), s.statut),
       editingSupervisor := Some(s), isDialogOpen := true)
  }

  /** `handleDelete`: nothing at all unless confirmed; otherwise one delete
      call, then the success text or the error, and `loading` cleared. The
      list itself is not touched: it comes from the subscription. */
  function Deleted(p: Panel, s: Supervisor, confirmed: bool, outcome: Outcome): (r: Panel)
    ensures !confirmed ==> r == p
    ensures confirmed ==> r.calls == p.calls + [DeleteDocument(s.id)] && !r.loading
    ensures r.formData == p.formData && r.editingSupervisor == p.editingSupervisor
    ensures r.isDialogOpen == p.isDialogOpen
  {
    if !confirmed then p
    else
      var issued := p.(loading := true, calls := p.calls + [DeleteDocument(s.id)]);
      match outcome
      case Succeeded => issued.(message := DeletedMessage, loading := false)
      case Failed(m) => issued.(error := ErrorText(DeleteErrorPrefix, m), loading := false)
  }

  /** The dialog's `onOpenChange`: the flag follows the dialog; closing it
      also resets the form, opening it keeps whatever the form holds. */
  function OpenChanged(p: Panel, open: bool): (r: Panel)
    ensures r.isDialogOpen == open && r.loading == p.loading && r.calls == p.calls
    ensures !open ==> r.formData == EmptyForm && r.editingSupervisor == None && r.error == "" && r.message == ""
    ensures open ==> r.formData == p.formData && r.editingSupervisor == p.editingSupervisor
    ensures open ==> r.error == p.error && r.message == p.message
  {
    var q := p.(isDialogOpen := open);
    if !open then Reset(q) else q
  }

  /** The Cancel button only closes the dialog: every other part of the
      state stays as it was. */
  function Cancelled(p: Panel): (r: Panel)
    ensures !r.isDialogOpen
    ensures r.formData == p.formData && r.editingSupervisor == p.editingSupervisor
    ensures r.error == p.error && r.message == p.message && r.loading == p.loading && r.calls == p.calls
  {
    p.(isDialogOpen := false)
  }

  datatype Field = NomField | TelephoneField | CompanyField | StatutField

  /** The value a form field holds. */
  function FieldValue(form: FormData, field: Field): string {
    match field
    case NomField => form.nom
    case TelephoneField => form.telephone
    case CompanyField => form.company
    case StatutField => form.statut
  }

  /** The inputs' `onChange` handlers: the edited field takes the new value,
      the other fields keep theirs, and nothing outside the form changes. */
  function Typed(p: Panel, field: Field, value: string): (r: Panel)
    ensures FieldValue(r.formData, field) == value
    ensures forall other: Field :: other != field ==> FieldValue(r.formData, other) == FieldValue(p.formData, other)
    ensures r.(formData := p.formData) == p
  {
    var f := p.formData;
    p.(formData := match field
                   case NomField => f.(nom := value)
                   case TelephoneField => f.(telephone := value)
                   case CompanyField => f.(company := value)
                   case StatutField => f.(statut := value))
  }

  // ---------------------------------------------------------------------
  // What each handler guarantees

  /** Invalid input issues no call, shows the validation error and leaves
      the form, the record being edited and the dialog as they were. */
  lemma SubmitInvalidMakesNoCall(p: Panel, outcome: Outcome, updatedAt: string, createdAt: string)
    requires !IsComplete(p.formData)
    ensures var r := Submitted(p, outcome, updatedAt, createdAt);
      && r.calls == p.calls && r.error == ValidationError && r.message == "" && !r.loading
      && r.formData == p.formData && r.editingSupervisor == p.editingSupervisor
      && r.isDialogOpen == p.isDialogOpen
  {
  }

  /** Valid input issues exactly one call, whatever its outcome. */
  lemma SubmitValidMakesOneCall(p: Panel, outcome: Outcome, updatedAt: string, createdAt: string)
    requires IsComplete(p.formData)
    ensures Submitted(p, outcome, updatedAt, createdAt).calls == p.calls + [SubmitRequest(p.formData, p.editingSupervisor, updatedAt, createdAt)]
  {
  }

  /** A successful save returns the component to its initial state; the
      success text set just before `resetForm` does not survive it. */
  lemma SubmitSuccessResets(p: Panel, updatedAt: string, createdAt: string)
    requires IsComplete(p.formData)
    ensures Submitted(p, Succeeded, updatedAt, createdAt) == Initial(p.calls + [SubmitRequest(p.formData, p.editingSupervisor, updatedAt, createdAt)])
  {
  }

  /** A failed save keeps the form, the record being edited and the dialog,
      and shows the error. */
  lemma SubmitFailureKeepsForm(p: Panel, errorMessage: string, updatedAt: string, createdAt: string)
    requires IsComplete(p.formData)
    ensures var r := Submitted(p, Failed(errorMessage), updatedAt, createdAt);
      && r.formData == p.formData && r.editingSupervisor == p.editingSupervisor
      && r.isDialogOpen == p.isDialogOpen && !r.loading && r.message == ""
      && r.error == ErrorText(SubmitErrorPrefix, errorMessage)
  {
  }

  /** Editing a record and saving it unchanged sends that record back as an
      update of the same id, with the company normalised to "" and no
      `createdAt`. */
  lemma EditThenSubmit(p: Panel, s: Supervisor, updatedAt: string, createdAt: string)
    requires s.nom != "" && s.telephone != ""
    ensures var r := Submitted(Edited(p, s), Succeeded, updatedAt, createdAt);
      && r.calls == p.calls + [UpdateDocument(s.id, SupervisorData(s.nom, s.telephone, CompanyOrEmpty(s.company),
                                                                    s.statut, updatedAt, None))]
      && r == Initial(r.calls)
  {
  }

  /** Editing, switching the status to "inactif" and saving issues exactly
      one update of that record with the new status and closes the dialog. */
  lemma DeactivateThroughEdit(p: Panel, s: Supervisor, updatedAt: string, createdAt: string)
    requires s.nom != "" && s.telephone != ""
    ensures var r := Submitted(Typed(Edited(p, s), StatutField, "inactif"), Succeeded, updatedAt, createdAt);
      && r.calls == p.calls + [UpdateDocument(s.id, SupervisorData(s.nom, s.telephone, CompanyOrEmpty(s.company),
                                                                    "inactif", updatedAt, None))]
      && !r.isDialogOpen
  {
  }

  /** A declined confirmation changes nothing. */
  lemma DeclinedDeleteChangesNothing(p: Panel, s: Supervisor, outcome: Outcome)
    ensures Deleted(p, s, false, outcome) == p
  {
  }

  /** A confirmed delete issues exactly one delete of that id, reports the
      outcome and leaves the form and dialog alone. */
  lemma ConfirmedDeleteMakesOneCall(p: Panel, s: Supervisor, outcome: Outcome)
    ensures var r := Deleted(p, s, true, outcome);
      && r.calls == p.calls + [DeleteDocument(s.id)] && !r.loading
      && r.formData == p.formData && r.editingSupervisor == p.editingSupervisor
      && r.isDialogOpen == p.isDialogOpen
      && (outcome.Succeeded? ==> r.message == DeletedMessage && r.error == p.error)
      && (outcome.Failed? ==> r.error == ErrorText(DeleteErrorPrefix, outcome.errorMessage) && r.message == p.message)
  {
  }

  /** Closing the dialog through `onOpenChange` resets the form; the Cancel
      button closes it but keeps the form and the record being edited. */
  lemma CloseResetsCancelKeeps(p: Panel)
    ensures OpenChanged(p, false) == Initial(p.calls).(loading := p.loading)
    ensures var r := Cancelled(p);
      && !r.isDialogOpen && r.formData == p.formData && r.editingSupervisor == p.editingSupervisor
      && r.error == p.error && r.message == p.message && r.calls == p.calls
  {
  }

  /** Because Cancel keeps the record being edited, reopening the dialog
      through its "Ajouter un superviseur" trigger after a Cancel is still in
      edit mode: the dialog is titled for editing and saving updates that
      record instead of creating a new one. */
  lemma AddAfterCancelStillUpdates(p: Panel, s: Supervisor, updatedAt: string, createdAt: string)
    requires s.nom != "" && s.telephone != ""
    ensures var reopened := OpenChanged(Cancelled(Edited(p, s)), true);
      && DialogTitle(reopened) == "Modifier le superviseur"
      && Submitted(reopened, Succeeded, updatedAt, createdAt).calls
         == p.calls + [UpdateDocument(s.id, SupervisorData(s.nom, s.telephone, CompanyOrEmpty(s.company),
                                                            s.statut, updatedAt, None))]
  {
  }

  // ---------------------------------------------------------------------
  // Display rules

  datatype Tone = Green | Red
  datatype StatusBadge = StatusBadge(text: string, tone: Tone)

  /** `getStatusBadge`: "Actif" in green exactly for "actif"; every other
      value, not only "inactif", shows "Inactif" in red. */
  function GetStatusBadge(statut: string): (b: StatusBadge)
    ensures b.text == "Actif" <==> statut == "actif"
    ensures b.tone == Green <==> statut == "actif"
    ensures b.text == "Actif" || b.text == "Inactif"
  {
    if statut == "actif" then StatusBadge("Actif", Green) else StatusBadge("Inactif", Red)
  }

  /** The company cell: `supervisor.company || '-'`. */
  function CompanyCell(company: Option<string>): (text: string)
    ensures text != ""
    ensures company.Some? && company.value != "" ==> text == company.value
    ensures text != "-" ==> company == Some(text)
  {
    if company.Some? && company.value != "" then company.value else "-"
  }

  /** The dialog title names the mode. */
  function DialogTitle(p: Panel): (text: string)
    ensures text == "Modifier le superviseur" <==> p.editingSupervisor.Some?
    ensures text == "Ajouter un nouveau superviseur" <==> p.editingSupervisor.None?
  {
    if p.editingSupervisor.Some? then "Modifier le superviseur" else "Ajouter un nouveau superviseur"
  }

  datatype SubmitButton = SubmitButton(text: string, disabled: bool)

  /** The submit button: disabled while `loading`, labelled by the mode. */
  function GetSubmitButton(p: Panel): (b: SubmitButton)
    ensures b.disabled <==> p.loading
    ensures p.loading ==> b.text == "Enregistrement..."
    ensures !p.loading ==> (b.text == "Modifier" <==> p.editingSupervisor.Some?)
    ensures !p.loading ==> (b.text == "Ajouter" <==> p.editingSupervisor.None?)
  {
    SubmitButton(if p.loading then "Enregistrement..." else if p.editingSupervisor.Some? then "Modifier" else "Ajouter",
                 p.loading)
  }

  // ---------------------------------------------------------------------
  // Sequences of user actions

  datatype Event =
    | Submit(outcome: Outcome, updatedAt: string, createdAt: string)
    | Edit(supervisor: Supervisor)
    | Delete(target: Supervisor, confirmed: bool, result: Outcome)
    | OpenChange(open: bool)
    | Cancel
    | Input(field: Field, value: string)

  function Step(p: Panel, e: Event): Panel {
    match e
    case Submit(outcome, updatedAt, createdAt) => Submitted(p, outcome, updatedAt, createdAt)
    case Edit(s) => Edited(p, s)
    case Delete(s, confirmed, result) => Deleted(p, s, confirmed, result)
    case OpenChange(open) => OpenChanged(p, open)
    case Cancel => Cancelled(p)
    case Input(field, value) => Typed(p, field, value)
  }

  function Run(p: Panel, events: seq<Event>): Panel
    decreases |events|
  {
    if events == [] then p else Run(Step(p, events[0]), events[1..])
  }

  predicate IsDeleteCall(c: Call) { c.DeleteDocument? }
  predicate IsSaveCall(c: Call) { !c.DeleteDocument? }
  predicate IsConfirmedDelete(e: Event) { e.Delete? && e.confirmed }
  predicate IsSubmit(e: Event) { e.Submit? }

  /** One handler appends at most one call: a delete exactly for a confirmed
      delete, a save only for a submit. */
  lemma StepCalls(p: Panel, e: Event)
    ensures var q := Step(p, e);
      && |p.calls| <= |q.calls| <= |p.calls| + 1 && q.calls[..|p.calls|] == p.calls
      && Count(q.calls[|p.calls|..], IsDeleteCall) == (if IsConfirmedDelete(e) then 1 else 0)
      && Count(q.calls[|p.calls|..], IsSaveCall) <= (if IsSubmit(e) then 1 else 0)
  {
    var q := Step(p, e);
    var added := q.calls[|p.calls|..];
    assert q.calls == p.calls + added;
    if e.Submit? && IsComplete(p.formData) {
      assert added == [SubmitRequest(p.formData, p.editingSupervisor, e.updatedAt, e.createdAt)];
    } else if IsConfirmedDelete(e) {
      assert added == [DeleteDocument(e.target.id)];
    } else {
      assert added == [];
    }
  }

  /** Once no handler is running, none is left running after any sequence of
      user actions: every handler that sets `loading` clears it again. */
  lemma {:induction false} RunSettles(p: Panel, events: seq<Event>)
    requires !p.loading
    ensures !Run(p, events).loading
    decreases |events|
  {
    if events != [] {
      RunSettles(Step(p, events[0]), events[1..]);
    }
  }

  /** Over any sequence of user actions the call log only grows, the delete
      calls added are exactly one per confirmed delete, and the saves added
      are at most one per submit. */
  lemma {:induction false} RunCalls(p: Panel, events: seq<Event>)
    ensures var r := Run(p, events);
      && |p.calls| <= |r.calls| && r.calls[..|p.calls|] == p.calls
      && Count(r.calls[|p.calls|..], IsDeleteCall) == Count(events, IsConfirmedDelete)
      && Count(r.calls[|p.calls|..], IsSaveCall) <= Count(events, IsSubmit)
    decreases |events|
  {
    if events != [] {
      var q := Step(p, events[0]);
      StepCalls(p, events[0]);
      RunCalls(q, events[1..]);
      var r := Run(p, events);
      assert r == Run(q, events[1..]);
      var first := q.calls[|p.calls|..];
      var rest := r.calls[|q.calls|..];
      assert r.calls[|p.calls|..] == first + rest;
      CountAppend(first, rest, IsDeleteCall);
      CountAppend(first, rest, IsSaveCall);
    }
  }

  // ---------------------------------------------------------------------
  // The component, with its state updated in place

  /** The CRUD collaborator: it records every call issued to it. */
  class Backend {
    var calls: seq<Call>

    constructor ()
      ensures calls == []
    {
      calls := [];
    }

    method Issue(c: Call)
      modifies this
      ensures calls == old(calls) + [c]
    {
      calls := calls + [c];
    }
  }

  class SupervisorPanel {
    const backend: Backend
    var formData: FormData
    var editingSupervisor: Option<Supervisor>
    var isDialogOpen: bool
    var loading: bool
    var error: string
    var message: string

    function Snapshot(): Panel
      reads this, backend
    {
      Panel(formData, editingSupervisor, isDialogOpen, loading, error, message, backend.calls)
    }

    constructor (backend: Backend)
      ensures this.backend == backend
      ensures Snapshot() == Initial(backend.calls)
    {
      this.backend := backend;
      formData := EmptyForm;
      editingSupervisor := None;
      isDialogOpen := false;
      loading := false;
      error := "";
      message := "";
    }

    method ResetForm()
      modifies this
      ensures Snapshot() == Reset(old(Snapshot()))
    {
      formData := EmptyForm;
      editingSupervisor := None;
      error := "";
      message := "";
    }

    method HandleSubmit(outcome: Outcome, updatedAt: string, createdAt: string)
      modifies this, backend
      ensures Snapshot() == Submitted(old(Snapshot()), outcome, updatedAt, createdAt)
    {
      loading := true;
      error := "";
      message := "";
      if formData.nom == "" || formData.telephone == "" {
        error := ValidationError;
        loading := false;
        return;
      }
      var data := SupervisorData(formData.nom, formData.telephone, formData.company, formData.statut, updatedAt, None);
      if editingSupervisor.Some? {
        backend.Issue(UpdateDocument(editingSupervisor.value.id, data));
        if outcome.Succeeded? {
          message := UpdatedMessage;
        }
      } else {
        backend.Issue(AddDocument(data.(createdAt := Some(createdAt))));
        if outcome.Succeeded? {
          message := AddedMessage;
        }
      }
      if outcome.Succeeded? {
        ResetForm();
        isDialogOpen := false;
      } else {
        error := ErrorText(SubmitErrorPrefix, outcome.errorMessage);
      }
      loading := false;
    }

    method HandleEdit(s: Supervisor)
      modifies this
      ensures Snapshot() == Edited(old(Snapshot()), s)
    {
      formData := FormData(s.nom, s.telephone, CompanyOrEmpty(s.company), s.statut);
      editingSupervisor := Some(s);
      isDialogOpen := true;
    }

    method HandleDelete(s: Supervisor, confirmed: bool, outcome: Outcome)
      modifies this, backend
      ensures Snapshot() == Deleted(old(Snapshot()), s, confirmed, outcome)
    {
      if !confirmed {
        return;
      }
      loading := true;
      backend.Issue(DeleteDocument(s.id));
      if outcome.Succeeded? {
        message := DeletedMessage;
      } else {
        error := ErrorText(DeleteErrorPrefix, outcome.errorMessage);
      }
      loading := false;
    }

    method OnOpenChange(open: bool)
      modifies this
      ensures Snapshot() == OpenChanged(old(Snapshot()), open)
    {
      isDialogOpen := open;
      if !open {
        ResetForm();
      }
    }

    method OnCancel()
      modifies this
      ensures Snapshot() == Cancelled(old(Snapshot()))
    {
      isDialogOpen := false;
    }

    method OnInput(field: Field, value: string)
      modifies this
      ensures Snapshot() == Typed(old(Snapshot()), field, value)
    {
      match field
      case NomField => formData := formData.(nom := value);
      case TelephoneField => formData := formData.(telephone := value);
      case CompanyField => formData := formData.(company := value);
      case StatutField => formData := formData.(statut := value);
    }
  }
}
