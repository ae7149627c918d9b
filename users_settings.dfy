/** The user administration tab of `src/settings/UsersSettings.tsx`: reading an API
    error, validating and building the request of the save button, the deleted-row
    rule and prefilling the form to edit a user. */
module UsersSettings {
  import opened Wrappers
  import opened Text

  /** An error thrown by the API client. Each part may be missing; a thrown value
      that is not an object has none of them. The validation errors are listed in
      the order `Object.keys` yields them. */
  datatype ApiError = ApiError(status: Option<int>, errors: Option<seq<(string, seq<string>)>>, message: Option<string>)

  /** `getErrorMessage`: for a 422 with validation errors, the first message of the
      first field (or "Validation failed." when there is none); otherwise the
      error's message, or "Ocurrió un error." when it has none. */
  function GetErrorMessage(e: ApiError): (r: string)
    ensures e.status == Some(422) && e.errors.Some? && |e.errors.value| > 0
            && e.errors.value[0].0 != "" && |e.errors.value[0].1| > 0
            ==> r == e.errors.value[0].1[0]
    ensures e.status == Some(422) && e.errors.Some?
            && (|e.errors.value| == 0 || e.errors.value[0].0 == "" || |e.errors.value[0].1| == 0)
            ==> r == "Validation failed."
    ensures !(e.status == Some(422) && e.errors.Some?) && e.message.Some? ==> r == e.message.value
    ensures !(e.status == Some(422) && e.errors.Some?) && e.message.None? ==> r == "Ocurrió un error."
  {
    if e.status == Some(422) && e.errors.Some? then
      var errors := e.errors.value;
      if |errors| > 0 && errors[0].0 != "" && |errors[0].1| > 0 then errors[0].1[0] else "Validation failed."
    else
      e.message.GetOr("Ocurrió un error.")
  }

  /** The message shown is never blank when neither the field messages nor the
      error's own message are. */
  lemma ErrorMessageNeverBlank(e: ApiError)
    requires e.errors.Some? ==> forall k, j :: 0 <= k < |e.errors.value| && 0 <= j < |e.errors.value[k].1| ==> e.errors.value[k].1[j] != ""
    requires e.message.Some? ==> e.message.value != ""
    ensures GetErrorMessage(e) != ""
  {
  }

  /** A validation failure of a status other than 422 reports the error's message,
      not a field message. */
  lemma OnlyUnprocessableReadsFields(e: ApiError)
    requires e.status != Some(422)
    ensures GetErrorMessage(e) == e.message.GetOr("Ocurrió un error.")
  {
  }

  datatype NamedRef = NamedRef(id: int, name: string)

  datatype UserRow = UserRow(
    id: int,
    name: string,
    email: string,
    role: Option<NamedRef>,
    branch: Option<NamedRef>,
    deletedAt: Option<string>)

  /** The form; the selects hold the chosen id as text, "" for none. */
  datatype UserForm = UserForm(
    name: string,
    email: string,
    password: string,
    passwordConfirmation: string,
    roleId: string,
    branchId: string)

  /** The edit request body. `Number(...)` fields are `None` when the text is not a
      number (NaN); `branchId` is `None` for `null`. */
  datatype PutPayload = PutPayload(
    name: string,
    email: string,
    roleId: Option<int>,
    branchId: Option<Option<int>>,
    password: Option<string>,
    passwordConfirmation: Option<string>)

  /** The create request body: the fields as typed; ids stay text, `None` for `null`. */
  datatype PostBody = PostBody(
    name: string,
    email: string,
    password: string,
    passwordConfirmation: string,
    roleId: Option<string>,
    branchId: Option<string>)

  datatype SaveOutcome = Invalid(message: string) | Put(userId: int, payload: PutPayload) | Post(body: PostBody)

  predicate Blank(s: string) {
    Trim(s) == ""
  }

  /** The checks of `save`, in order: the first one that fails. */
  function FirstInvalid(form: UserForm, creating: bool): (r: Option<string>)
    ensures r.None? <==> !Blank(form.name) && !Blank(form.email) && !(creating && Blank(form.password)) && form.roleId != ""
    ensures Blank(form.name) || Blank(form.email) ==> r == Some("Nombre y email son obligatorios.")
    ensures !Blank(form.name) && !Blank(form.email) && creating && Blank(form.password)
            ==> r == Some("Password es obligatorio para crear un usuario.")
    ensures !Blank(form.name) && !Blank(form.email) && !(creating && Blank(form.password)) && form.roleId == ""
            ==> r == Some("Selecciona un rol.")
  {
    if Blank(form.name) || Blank(form.email) then Some("Nombre y email son obligatorios.")
    else if creating && Blank(form.password) then Some("Password es obligatorio para crear un usuario.")
    else if form.roleId == "" then Some("Selecciona un rol.")
    else None
  }

  /** The edit payload: trimmed name and email, numeric ids (`null` for no branch),
      and the password twice only when one was typed. */
  function PutPayloadOf(form: UserForm): (r: PutPayload)
    ensures r.name == Trim(form.name) && r.email == Trim(form.email)
    ensures r.roleId == ParseInteger(form.roleId)
    ensures r.branchId.None? <==> form.branchId == ""
    ensures r.branchId.Some? ==> r.branchId.value == ParseInteger(form.branchId)
    ensures r.password.Some? <==> !Blank(form.password)
    ensures r.password.Some? ==> r.password.value == form.password
    ensures r.passwordConfirmation == r.password
  {
    var base := PutPayload(Trim(form.name), Trim(form.email), ParseInteger(form.roleId),
                           if form.branchId != "" then Some(ParseInteger(form.branchId)) else None, None, None);
    if !Blank(form.password) then base.(password := Some(form.password), passwordConfirmation := Some(form.password))
    else base
  }

  /** The create body: the fields as typed, the password confirmed by itself. */
  function PostBodyOf(form: UserForm): (r: PostBody)
    ensures r.passwordConfirmation == r.password == form.password
    ensures r.roleId.None? <==> form.roleId == ""
    ensures r.branchId.None? <==> form.branchId == ""
  {
    PostBody(form.name, form.email, form.password, form.password,
             if form.roleId != "" then Some(form.roleId) else None,
             if form.branchId != "" then Some(form.branchId) else None)
  }

  /** What the save button does with a form: an error message and no request, or a
      PUT of the edited user, or a POST of a new one. */
  function SaveRequest(form: UserForm, editing: Option<UserRow>): (r: SaveOutcome)
    ensures r.Invalid? <==> FirstInvalid(form, editing.None?).Some?
    ensures r.Invalid? ==> Some(r.message) == FirstInvalid(form, editing.None?)
    ensures r.Put? <==> editing.Some? && FirstInvalid(form, false).None?
    ensures r.Put? ==> r.userId == editing.value.id && r.payload == PutPayloadOf(form)
    ensures r.Post? ==> r.body == PostBodyOf(form) && r.body.roleId.Some?
    ensures r.Post? ==> !Blank(r.body.password)
  {
    match FirstInvalid(form, editing.None?)
    case Some(msg) => Invalid(msg)
    case None =>
      if editing.Some? then Put(editing.value.id, PutPayloadOf(form)) else Post(PostBodyOf(form))
  }

  /** `save`, step by step: each check returns early with its message; the payload
      is built, then the password is added to it when one was typed; then the
      request for editing or creating is chosen. */
  method Save(form: UserForm, editing: Option<UserRow>) returns (outcome: SaveOutcome)
    ensures outcome == SaveRequest(form, editing)
  {
    if Trim(form.name) == "" || Trim(form.email) == "" {
      assert FirstInvalid(form, editing.None?) == Some("Nombre y email son obligatorios.");
      return Invalid("Nombre y email son obligatorios.");
    }
    if editing.None? && Trim(form.password) == "" {
      assert FirstInvalid(form, true) == Some("Password es obligatorio para crear un usuario.");
      return Invalid("Password es obligatorio para crear un usuario.");
    }
    if form.roleId == "" {
      assert FirstInvalid(form, editing.None?) == Some("Selecciona un rol.");
      return Invalid("Selecciona un rol.");
    }
    assert FirstInvalid(form, editing.None?).None?;
    var branch: Option<Option<int>> := None;
    if form.branchId != "" {
      branch := Some(ParseInteger(form.branchId));
    }
    var payload := PutPayload(Trim(form.name), Trim(form.email), ParseInteger(form.roleId), branch, None, None);
    if Trim(form.password) != "" {
      payload := payload.(password := Some(form.password));
      payload := payload.(passwordConfirmation := Some(form.password));
    }
    assert payload == PutPayloadOf(form);
    if editing.Some? {
      outcome := Put(editing.value.id, payload);
    } else {
      var roleId: Option<string> := if form.roleId != "" then Some(form.roleId) else None;
      var branchId: Option<string> := if form.branchId != "" then Some(form.branchId) else None;
      var body := PostBody(form.name, form.email, form.password, form.password, roleId, branchId);
      assert body == PostBodyOf(form);
      outcome := Post(body);
    }
  }

  /** A row is shown as deleted, without edit and delete buttons, iff `deleted_at`
      is set to a non-empty value. */
  predicate IsDeleted(u: UserRow) {
    u.deletedAt.Some? && u.deletedAt.value != ""
  }

  function RowActions(u: UserRow): (r: seq<string>)
    ensures r == [] <==> IsDeleted(u)
    ensures !IsDeleted(u) ==> r == ["Editar", "Eliminar"]
  {
    if IsDeleted(u) then [] else ["Editar", "Eliminar"]
  }

  /** The select value of an optional reference: its id as text, "" when absent or 0. */
  function RefSelectValue(ref: Option<NamedRef>): (r: string)
    ensures r == "" <==> ref.None? || ref.value.id == 0
  {
    if ref.Some? && ref.value.id != 0 then IntToString(ref.value.id) else ""
  }

  /** The "Editar" button: the user's name, email, role and branch, both password
      fields cleared. */
  function EditPrefill(u: UserRow): (r: UserForm)
    ensures r.password == "" && r.passwordConfirmation == ""
    ensures r.name == u.name && r.email == u.email
    ensures r.roleId == RefSelectValue(u.role) && r.branchId == RefSelectValue(u.branch)
  {
    UserForm(u.name, u.email, "", "", RefSelectValue(u.role), RefSelectValue(u.branch))
  }

  /** Saving an untouched edit form sends the user's own role and branch ids back
      and no password. */
  lemma EditThenSaveKeepsUser(u: UserRow)
    requires !Blank(u.name) && !Blank(u.email)
    requires u.role.Some? && u.role.value.id != 0
    ensures SaveRequest(EditPrefill(u), Some(u)).Put?
    ensures var p := SaveRequest(EditPrefill(u), Some(u)).payload;
            && p.roleId == Some(u.role.value.id)
            && p.password.None?
            && (u.branch.Some? && u.branch.value.id != 0 ==> p.branchId == Some(Some(u.branch.value.id)))
            && (u.branch.None? || u.branch.value.id == 0 ==> p.branchId.None?)
  {
    var form := EditPrefill(u);
    assert Blank(form.password) by {
      assert |Trim("")| == 0;
    }
    assert FirstInvalid(form, false).None?;
    var p := PutPayloadOf(form);
    assert SaveRequest(form, Some(u)) == Put(u.id, p);
    ParseIntToString(u.role.value.id);
    if u.branch.Some? && u.branch.value.id != 0 {
      ParseIntToString(u.branch.value.id);
    }
  }
}
