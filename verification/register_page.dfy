/** The registration page: a form object edited field by field, a
    confirmation guard in front of the request, the payload that leaves the
    confirmation out, and the two-way classification of failures. */
module RegisterPage {
  import opened Js
  import opened Api

  /** The form object, field name to value. */
  type Form = map<string, string>

  const PasswordKey: string := "contrasena"
  const ConfirmKey: string := "confirmarContrasena"

  const InitialForm: Form := map[
    "nombre" := "", "apellidoPaterno" := "", "apellidoMaterno" := "", "telefono" := "",
    "edad" := "", "correo" := "", PasswordKey := "", ConfirmKey := ""]

  datatype Page = Page(form: Form, error: Option<string>, success: Option<string>, isLoading: bool)

  const Initial: Page := Page(InitialForm, None, None, false)

  const Mismatch: string := "Las contraseñas no coinciden."
  const Redirecting: string := " Redirigiendo al login..."
  const RegisterFailed: string := "Error al registrar la cuenta."
  const Unexpected: string := "Ocurrió un error inesperado."

  /** A property read off the form object; `None` is `undefined`. */
  function Get(form: Form, k: string): Option<string> {
    if k in form then Some(form[k]) else None
  }

  /** `handleChange`: `{ ...prev, [name]: value }`. */
  function HandleChange(p: Page, name: string, value: string): (r: Page)
    ensures r.form.Keys == p.form.Keys + {name}
    ensures Get(r.form, name) == Some(value)
    ensures forall k :: k != name ==> Get(r.form, k) == Get(p.form, k)
    ensures r.(form := p.form) == p
  {
    p.(form := p.form[name := value])
  }

  /** `const { confirmarContrasena, ...dataToSubmit } = formData`. */
  function Payload(form: Form): (d: Form)
    ensures d.Keys == form.Keys - {ConfirmKey}
    ensures forall k :: k in d ==> d[k] == form[k]
  {
    map k | k in form && k != ConfirmKey :: form[k]
  }

  /** The request the handler made, if any, and the page afterwards. */
  datatype Submission = Submission(request: Option<Form>, after: Page)

  /** `handleSubmit`: messages are cleared first; a mismatched confirmation
      stops before any request and leaves `isLoading` alone; otherwise the
      payload is posted and the reply becomes the success or error text. */
  function Submit(p: Page, reply: Reply<Body>): (s: Submission)
    ensures s.request.Some? <==> Get(p.form, PasswordKey) == Get(p.form, ConfirmKey)
    ensures s.request.Some? ==> s.request.value.Keys == p.form.Keys - {ConfirmKey}
    ensures s.request.Some? ==> forall k :: k in s.request.value ==> s.request.value[k] == p.form[k]
    ensures s.request.None? ==>
              s.after.error == Some(Mismatch) && s.after.success == None && s.after.isLoading == p.isLoading
    ensures s.request.Some? ==> !s.after.isLoading
    ensures s.request.Some? && reply.Ok? ==>
              s.after.success == Some(Text(reply.data.mensaje) + Redirecting) && s.after.error == None
    ensures s.request.Some? && reply.HttpErr? ==>
              s.after.error == Some(Or(reply.body.mensaje, RegisterFailed)) && s.after.success == None
    ensures s.request.Some? && reply.NoResponse? ==>
              s.after.error == Some(Unexpected) && s.after.success == None
    ensures s.after.form == p.form
  {
    var q := p.(error := None, success := None);
    if Get(p.form, PasswordKey) != Get(p.form, ConfirmKey) then
      Submission(None, q.(error := Some(Mismatch)))
    else
      var after :=
        match reply
        case Ok(data) => q.(success := Some(Text(data.mensaje) + Redirecting), isLoading := false)
        case HttpErr(_, body) => q.(error := Some(Or(body.mensaje, RegisterFailed)), isLoading := false)
        case NoResponse => q.(error := Some(Unexpected), isLoading := false);
      Submission(Some(Payload(p.form)), after)
  }

  /** The payload loses only the confirmation: putting it back restores the form. */
  lemma PayloadRestores(form: Form)
    requires ConfirmKey in form
    ensures ConfirmKey !in Payload(form)
    ensures Payload(form)[ConfirmKey := form[ConfirmKey]] == form
  {
  }

  /** Editing a field the form already has keeps its set of fields, so the
      payload of an edited initial form always has the seven data fields. */
  lemma EditKeepsFields(p: Page, name: string, value: string)
    requires name in p.form
    ensures HandleChange(p, name, value).form.Keys == p.form.Keys
    ensures Payload(HandleChange(p, name, value).form).Keys == p.form.Keys - {ConfirmKey}
  {
  }
}
