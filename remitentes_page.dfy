/** The administration page of the referrers ("remitentes"): the list with its status badges,
    counts and actions, and the create/edit dialog with its save. */
module RemitentesPage {
  import opened Wrappers
  import opened Strings
  import opened Decimal
  import opened Responses
  import opened ClinicalImagesService

  // ---------------------------------------------------------------------------
  // The list

  const Active := "active"
  const Inactive := "inactive"
  const Fired := "fired"

  /** A referrer as the API lists it. */
  datatype Remitente = Remitente(id: int, name: string, firstName: string, lastName: string,
                                 email: string, cellphone: string, role: string, status: string,
                                 createdAt: string)

  datatype StatusStyle = StatusStyle(text: string, classes: string)

  const InactiveStyle := StatusStyle("Inactivo", "bg-yellow-100 text-yellow-700")

  /** `STATUS_CONFIG[r.status] ?? STATUS_CONFIG.inactive`. */
  function StatusConfig(status: string): (r: StatusStyle)
    ensures status != Active && status != Fired ==> r == InactiveStyle
    ensures status == Active ==> r.text == "Activo"
    ensures status == Fired ==> r.text == "Despedido"
  {
    if status == Active then StatusStyle("Activo", "bg-emerald-100 text-emerald-700")
    else if status == Fired then StatusStyle("Despedido", "bg-red-100 text-red-600")
    else InactiveStyle
  }

  /** The row's action buttons, besides "Editar" which every row has. */
  datatype Actions = Actions(activar: bool, inactivar: bool, despedir: bool)

  function ActionsFor(status: string): (r: Actions)
    ensures r.activar <==> status != Active
    ensures r.inactivar <==> status == Active
    ensures r.despedir <==> status != Fired
  {
    Actions(status != Active, status == Active, status != Fired)
  }

  /** Exactly one of "Activar" and "Inactivar" is offered, and every row offers at least two
      status actions except a fired one, which can only be reactivated. */
  lemma ActionsExclusive(status: string)
    ensures ActionsFor(status).activar != ActionsFor(status).inactivar
    ensures status == Fired ==> ActionsFor(status) == Actions(true, false, false)
    ensures status != Fired ==> ActionsFor(status).despedir
  {
  }

  /** `remitentes.filter((r) => r.status === status).length`. */
  function CountStatus(rs: seq<Remitente>, status: string): (n: nat)
    ensures n <= |rs|
  {
    if rs == [] then 0
    else CountStatus(rs[..|rs| - 1], status) + (if rs[|rs| - 1].status == status then 1 else 0)
  }

  predicate KnownStatus(r: Remitente) {
    r.status == Active || r.status == Inactive || r.status == Fired
  }

  /** When every status is one of the three, the three counts of the header strip add up to
      the length of the list. */
  lemma {:induction false} CountsSum(rs: seq<Remitente>)
    requires forall i :: 0 <= i < |rs| ==> KnownStatus(rs[i])
    ensures CountStatus(rs, Active) + CountStatus(rs, Inactive) + CountStatus(rs, Fired) == |rs|
  {
    if rs != [] {
      var p := rs[..|rs| - 1];
      assert forall i :: 0 <= i < |p| ==> p[i] == rs[i];
      CountsSum(p);
    }
  }

  /** A row with any other status is counted by none of the three. */
  lemma {:induction false} UnknownNotCounted(rs: seq<Remitente>, r: Remitente)
    requires !KnownStatus(r)
    ensures CountStatus(rs + [r], Active) == CountStatus(rs, Active)
    ensures CountStatus(rs + [r], Inactive) == CountStatus(rs, Inactive)
    ensures CountStatus(rs + [r], Fired) == CountStatus(rs, Fired)
  {
    assert (rs + [r])[..|rs + [r]| - 1] == rs;
  }

  // ---------------------------------------------------------------------------
  // The dialog

  /** The dialog's fields. */
  datatype Form = Form(name: string, firstName: string, lastName: string, email: string,
                       cellphone: string, password: string)

  const EmptyForm := Form("", "", "", "", "", "")

  datatype FormField = Name | FirstName | LastName | Email | Cellphone | Password

  /** `setForm((f) => ({ ...f, first_name: e.target.value }))` and its five siblings. */
  function SetField(f: Form, field: FormField, value: string): (r: Form)
    ensures field == Name ==> r == f.(name := value)
    ensures field == FirstName ==> r == f.(firstName := value)
    ensures field == LastName ==> r == f.(lastName := value)
    ensures field == Email ==> r == f.(email := value)
    ensures field == Cellphone ==> r == f.(cellphone := value)
    ensures field == Password ==> r == f.(password := value)
  {
    match field
    case Name => f.(name := value)
    case FirstName => f.(firstName := value)
    case LastName => f.(lastName := value)
    case Email => f.(email := value)
    case Cellphone => f.(cellphone := value)
    case Password => f.(password := value)
  }

  const RequiredText := "Completa todos los campos obligatorios"
  const PasswordText := "La contrase\U{00F1}a es obligatoria para nuevos remitentes"

  /** The two checks at the top of the save: the message of the first that fails, or None. */
  function SaveGate(f: Form, editingId: Option<int>): (r: Option<string>)
    ensures r == Some(RequiredText) <==>
              f.name == "" || f.firstName == "" || f.lastName == "" || f.email == "" || f.cellphone == ""
    ensures r == Some(PasswordText) <==>
              f.name != "" && f.firstName != "" && f.lastName != "" && f.email != "" && f.cellphone != ""
              && !Truthy(editingId) && f.password == ""
    ensures r.None? || r == Some(RequiredText) || r == Some(PasswordText)
  {
    assert RequiredText != PasswordText by {
      assert |RequiredText| != |PasswordText|;
    }
    if f.name == "" || f.firstName == "" || f.lastName == "" || f.email == "" || f.cellphone == "" then
      Some(RequiredText)
    else if !Truthy(editingId) && f.password == "" then
      Some(PasswordText)
    else
      None
  }

  /** An edit may keep the password empty; a create may not, and an id of 0 is a create. */
  lemma PasswordOnlyForCreate(f: Form, id: int)
    requires f.name != "" && f.firstName != "" && f.lastName != "" && f.email != "" && f.cellphone != ""
    requires f.password == ""
    ensures id != 0 ==> SaveGate(f, Some(id)) == None
    ensures SaveGate(f, None) == Some(PasswordText)
    ensures SaveGate(f, Some(0)) == Some(PasswordText)
  {
  }

  /** The JSON body: the form, with the password key deleted when it is empty. */
  datatype Body = Body(name: string, firstName: string, lastName: string, email: string,
                       cellphone: string, password: Option<string>)

  function RequestBody(f: Form): (b: Body)
    ensures b.password.None? <==> f.password == ""
    ensures b.password.Some? ==> b.password.value == f.password
    ensures b.name == f.name && b.firstName == f.firstName && b.lastName == f.lastName
    ensures b.email == f.email && b.cellphone == f.cellphone
  {
    Body(f.name, f.firstName, f.lastName, f.email, f.cellphone,
         if f.password == "" then None else Some(f.password))
  }

  /** The three status actions, by their path segment. */
  datatype StatusAction = Activar | Inactivar | Despedir

  function ActionPath(a: StatusAction): string {
    match a
    case Activar => "activar"
    case Inactivar => "inactivar"
    case Despedir => "despedir"
  }

  /** The button's label in lower case, as the confirmation and the toast spell it; for the
      three fixed labels it is the path segment itself. */
  function LabelLower(a: StatusAction): (r: string)
    ensures r == ActionPath(a)
  {
    match a
    case Activar => "activar"
    case Inactivar => "inactivar"
    case Despedir => "despedir"
  }

  datatype Verb = POST | PUT | PATCH

  datatype Request = Request(verb: Verb, url: string, body: Option<Body>)

  /** The collection URL. */
  function Collection(env: Option<string>): string {
    Interpolate(ApiBaseUrl(env)) + "/api/v1/remitentes"
  }

  /** PUT to the referrer's own URL when editing a truthy id; POST to the collection
      otherwise. */
  function SaveRequest(env: Option<string>, f: Form, editingId: Option<int>): (r: Request)
    ensures r.body == Some(RequestBody(f))
    ensures Truthy(editingId) ==> r.verb == PUT && r.url == Collection(env) + "/" + IntToDecimal(editingId.value)
    ensures !Truthy(editingId) ==> r.verb == POST && r.url == Collection(env)
  {
    if Truthy(editingId) then Request(PUT, Collection(env) + "/" + IntToDecimal(editingId.value), Some(RequestBody(f)))
    else Request(POST, Collection(env), Some(RequestBody(f)))
  }

  function StatusRequest(env: Option<string>, id: int, a: StatusAction): Request {
    Request(PATCH, Collection(env) + "/" + IntToDecimal(id) + "/" + ActionPath(a), None)
  }

  /** The status change of one referrer goes under that referrer's own URL. */
  lemma StatusRequestUnderItem(env: Option<string>, f: Form, id: int, a: StatusAction)
    requires id != 0
    ensures var u := SaveRequest(env, f, Some(id)).url;
      StatusRequest(env, id, a).url == u + "/" + ActionPath(a)
  {
  }

  /** The JSON body of a response that is not OK: its `message`, and its `errors` record as
      the list of its values (each a list of messages). A body that does not parse is `{}`. */
  datatype ErrorBody = ErrorBody(message: Option<string>, errors: Option<seq<seq<string>>>)

  /** How a save request ends. */
  datatype SaveResponse = Saved | Refused(body: ErrorBody) | Failed(error: string)

  const SaveFallback := "Error al guardar"

  /** `a ?? b` on two possibly-absent strings. */
  function Nullish(a: Option<string>, b: Option<string>): (r: Option<string>)
    ensures a.Some? ==> r == a
    ensures a.None? ==> r == b
  {
    if a.Some? then a else b
  }

  /** The message of the error thrown for a refused save, as the chain of `??` is written:
      the message, else the flattened `errors` joined with spaces, else the fallback. */
  function RefusalText(err: ErrorBody): string {
    var joined := Join(Flatten(err.errors.GetOr([])), " ");
    Nullish(Nullish(err.message, Some(joined)), Some(SaveFallback)).value
  }

  /** The join always yields a string, so the last fallback is dead: the text is the
      message, or else the joined errors, which are empty when there are none (a body
      that does not parse gives an empty toast). */
  lemma RefusalFallbackUnreachable(err: ErrorBody)
    ensures err.message.Some? ==> RefusalText(err) == err.message.value
    ensures err.message.None? ==> RefusalText(err) == Join(Flatten(err.errors.GetOr([])), " ")
    ensures RefusalText(ErrorBody(None, None)) == ""
    ensures RefusalText(ErrorBody(None, Some([]))) == ""
    ensures err.message.None? && err.errors == Some([["a", "b"], ["c"]]) ==> RefusalText(err) == "a b c"
  {
    assert Flatten([["a", "b"], ["c"]]) == ["a", "b", "c"] by {
      assert [["a", "b"], ["c"]][1..] == [["c"]];
    }
    assert Join(["a", "b", "c"], " ") == "a b c" by {
      assert ["a", "b", "c"][1..] == ["b", "c"];
      assert ["b", "c"][1..] == ["c"];
    }
  }

  /** The toast of a failed save: the refusal text, or the thrown error's message. */
  function SaveFailureText(res: SaveResponse): (r: string)
    requires !res.Saved?
    ensures res.Failed? ==> r == res.error
    ensures res.Refused? && res.body.message.Some? ==> r == res.body.message.value
  {
    match res
    case Refused(err) => RefusalText(err)
    case Failed(e) => e
  }

  /** What a handler does outside the page: the requests sent, the toast shown (if any), and
      whether the list is reloaded. */
  datatype Outcome = Outcome(sent: seq<Request>, toast: Option<Toast>, reload: bool)

  /** The specification of the save. */
  function Save(env: Option<string>, f: Form, editingId: Option<int>, res: SaveResponse): Outcome {
    var gate := SaveGate(f, editingId);
    if gate.Some? then Outcome([], Some(ToastError(gate.value)), false)
    else
      var sent := [SaveRequest(env, f, editingId)];
      if res.Saved? then
        Outcome(sent, Some(ToastSuccess(if Truthy(editingId) then "Remitente actualizado" else "Remitente creado")), true)
      else Outcome(sent, Some(ToastError(SaveFailureText(res))), false)
  }

  /** A save sends at most one request, and none when a check fails; the list is reloaded
      exactly when the request was accepted, and only then is the toast a success. */
  lemma SaveSends(env: Option<string>, f: Form, editingId: Option<int>, res: SaveResponse)
    ensures var o := Save(env, f, editingId, res);
      (o.sent == [] <==> SaveGate(f, editingId).Some?)
      && |o.sent| <= 1
      && (o.reload <==> o.sent != [] && res.Saved?)
      && o.toast.Some? && (o.toast.value.ToastSuccess? <==> o.reload)
  {
  }

  const StatusFallback := "Error al cambiar estado"

  /** The specification of a status change: nothing at all when the confirmation is
      declined, else one PATCH. */
  function ChangeStatus(env: Option<string>, id: int, a: StatusAction, confirmed: bool, res: Response): Outcome {
    if !confirmed then Outcome([], None, false)
    else
      var sent := [StatusRequest(env, id, a)];
      if res.Ok? then Outcome(sent, Some(ToastSuccess("Remitente " + LabelLower(a) + " correctamente")), true)
      else Outcome(sent, Some(ToastError(FailureText(res, StatusFallback))), false)
  }

  lemma ChangeStatusConfirmed(env: Option<string>, id: int, a: StatusAction, confirmed: bool, res: Response)
    ensures var o := ChangeStatus(env, id, a, confirmed, res);
      (o.sent == [] <==> !confirmed)
      && (o.toast.None? <==> !confirmed)
      && (o.reload <==> confirmed && res.Ok?)
      && (confirmed ==> o.sent[0].verb == PATCH && o.sent[0].body.None?)
  {
  }

  class Page {
    const env: Option<string>
    var showModal: bool
    var editingId: Option<int>
    var isSaving: bool
    var form: Form

    /** No save is in flight. */
    ghost predicate Valid()
      reads this
    {
      !isSaving
    }

    constructor(env: Option<string>)
      ensures Valid() && this.env == env
      ensures !showModal && editingId == None && form == EmptyForm
    {
      this.env := env;
      showModal := false;
      editingId := None;
      isSaving := false;
      form := EmptyForm;
    }

    /** "Nuevo remitente". */
    method OpenCreate()
      modifies this
      ensures showModal && editingId == None && form == EmptyForm
      ensures isSaving == old(isSaving)
    {
      editingId := None;
      form := EmptyForm;
      showModal := true;
    }

    /** "Editar": the dialog opens on the referrer's fields, with an empty password. */
    method OpenEdit(r: Remitente)
      modifies this
      ensures showModal && editingId == Some(r.id)
      ensures form == Form(r.name, r.firstName, r.lastName, r.email, r.cellphone, "")
      ensures isSaving == old(isSaving)
    {
      editingId := Some(r.id);
      form := Form(r.name, r.firstName, r.lastName, r.email, r.cellphone, "");
      showModal := true;
    }

    /** The close button, "Cancelar", a click on the backdrop, and the end of a good save. */
    method CloseModal()
      modifies this
      ensures !showModal && editingId == None && form == EmptyForm
      ensures isSaving == old(isSaving)
    {
      showModal := false;
      editingId := None;
      form := EmptyForm;
    }

    /** Typing into one of the dialog's inputs. */
    method SetFormField(field: FormField, value: string)
      modifies this
      ensures form == SetField(old(form), field, value)
      ensures showModal == old(showModal) && editingId == old(editingId) && isSaving == old(isSaving)
    {
      form := SetField(form, field, value);
    }

    /** "Guardar", given how the request ends. A good save closes and empties the dialog; any
        other outcome keeps it as it was. */
    method HandleSave(res: SaveResponse) returns (o: Outcome)
      requires Valid()
      modifies this
      ensures Valid()
      ensures o == Save(env, old(form), old(editingId), res)
      ensures o.reload ==> !showModal && editingId == None && form == EmptyForm
      ensures !o.reload ==> showModal == old(showModal) && editingId == old(editingId) && form == old(form)
    {
      var gate := SaveGate(form, editingId);
      if gate.Some? {
        o := Outcome([], Some(ToastError(gate.value)), false);
        return;
      }
      isSaving := true;
      var sent := [SaveRequest(env, form, editingId)];
      if res.Saved? {
        var text := if Truthy(editingId) then "Remitente actualizado" else "Remitente creado";
        CloseModal();
        o := Outcome(sent, Some(ToastSuccess(text)), true);
      } else {
        o := Outcome(sent, Some(ToastError(SaveFailureText(res))), false);
      }
      isSaving := false;
    }

    /** One of the status buttons of a row, given the answer to the confirmation and the
        response. The dialog is not touched. */
    method HandleChangeStatus(id: int, a: StatusAction, confirmed: bool, res: Response) returns (o: Outcome)
      ensures o == ChangeStatus(env, id, a, confirmed, res)
    {
      if !confirmed {
        o := Outcome([], None, false);
        return;
      }
      var sent := [StatusRequest(env, id, a)];
      if !res.Ok? {
        o := Outcome(sent, Some(ToastError(FailureText(res, StatusFallback))), false);
      } else {
        o := Outcome(sent, Some(ToastSuccess("Remitente " + LabelLower(a) + " correctamente")), true);
      }
    }
  }
}
