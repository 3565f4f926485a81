/** The password-reset page: an ordered validation chain (token present,
    passwords equal, password strong enough) in front of one request, the
    message it leaves behind, and the invalid-link view. The strength rule
    is the page's regular expression
    `^(?=.*[a-z])(?=.*[A-Z])(?=.*\d)(?=.*[@$!%*?&.#_-])[A-Za-z\d@$!%*?&.#_-]{8,}$`,
    stated here over character classes. */
module ResetPasswordPage {
  import opened Js
  import opened Api

  /** The four character classes the expression asks for. */
  datatype Class = Lower | Upper | Digit | Symbol

  predicate InClass(c: char, k: Class) {
    match k
    case Lower => 'a' <= c <= 'z'
    case Upper => 'A' <= c <= 'Z'
    case Digit => '0' <= c <= '9'
    case Symbol =>
      || c == '@' || c == '$' || c == '!' || c == '%' || c == '*' || c == '?'
      || c == '&' || c == '.' || c == '#' || c == '_' || c == '-'
  }

  /** `[A-Za-z\d@$!%*?&.#_-]`. */
  predicate Allowed(c: char) {
    InClass(c, Lower) || InClass(c, Upper) || InClass(c, Digit) || InClass(c, Symbol)
  }

  /** The characters a JavaScript `.` does not match. */
  predicate LineTerminator(c: char) {
    c == '\n' || c == '\r' || c == '\U{2028}' || c == '\U{2029}'
  }

  /** `(?=.*[k])` at the start of `s`: a character of class `k` occurs with
      only non-terminators before it. */
  predicate Lookahead(s: string, k: Class) {
    exists i :: 0 <= i < |s| && InClass(s[i], k) && forall j :: 0 <= j < i ==> !LineTerminator(s[j])
  }

  /** What the regular expression accepts, read construct by construct. */
  predicate MatchesRegex(s: string) {
    && Lookahead(s, Lower) && Lookahead(s, Upper) && Lookahead(s, Digit) && Lookahead(s, Symbol)
    && |s| >= 8 && forall i :: 0 <= i < |s| ==> Allowed(s[i])
  }

  predicate Contains(s: string, k: Class) {
    exists i :: 0 <= i < |s| && InClass(s[i], k)
  }

  /** The rule in words: at least eight characters, all from the allowed
      set, with a lower-case letter, an upper-case letter, a digit and a
      symbol among them. */
  predicate Strong(s: string) {
    && |s| >= 8
    && (forall i :: 0 <= i < |s| ==> Allowed(s[i]))
    && Contains(s, Lower) && Contains(s, Upper) && Contains(s, Digit) && Contains(s, Symbol)
  }

  /** The lookaheads' `.*` cannot skip a line terminator, but the anchored
      class already excludes them, so the expression is exactly the rule. */
  lemma RegexIsStrong(s: string)
    ensures MatchesRegex(s) <==> Strong(s)
  {
    if forall i :: 0 <= i < |s| ==> Allowed(s[i]) {
      LookaheadIsContains(s, Lower);
      LookaheadIsContains(s, Upper);
      LookaheadIsContains(s, Digit);
      LookaheadIsContains(s, Symbol);
    }
  }

  /** Over allowed characters only, a lookahead is plain containment. */
  lemma LookaheadIsContains(s: string, k: Class)
    requires forall i :: 0 <= i < |s| ==> Allowed(s[i])
    ensures Lookahead(s, k) <==> Contains(s, k)
  {
    if Contains(s, k) {
      var i :| 0 <= i < |s| && InClass(s[i], k);
      forall j | 0 <= j < i
        ensures !LineTerminator(s[j])
      {
        assert Allowed(s[j]);
      }
    }
  }

  /** `passwordRegex.test(s)` in one pass over the string. */
  method TestPassword(s: string) returns (ok: bool)
    ensures ok <==> MatchesRegex(s)
  {
    var allowed, lower, upper, digit, symbol := true, false, false, false, false;
    var i := 0;
    while i < |s|
      invariant 0 <= i <= |s|
      invariant allowed <==> forall j :: 0 <= j < i ==> Allowed(s[j])
      invariant lower <==> Contains(s[..i], Lower)
      invariant upper <==> Contains(s[..i], Upper)
      invariant digit <==> Contains(s[..i], Digit)
      invariant symbol <==> Contains(s[..i], Symbol)
    {
      var c := s[i];
      assert s[..i + 1] == s[..i] + [c];
      allowed := allowed && Allowed(c);
      lower := lower || InClass(c, Lower);
      upper := upper || InClass(c, Upper);
      digit := digit || InClass(c, Digit);
      symbol := symbol || InClass(c, Symbol);
      i := i + 1;
    }
    assert s[..|s|] == s;
    ok := |s| >= 8 && allowed && lower && upper && digit && symbol;
    RegexIsStrong(s);
  }

  datatype Tipo = Error | Exito

  /** The feedback line under the form. */
  datatype Message = Message(texto: string, tipo: Tipo)

  datatype Page = Page(token: Option<string>, nuevaContrasena: string, confirmarContrasena: string, mensaje: Option<Message>, cargando: bool)

  const MissingToken: string := "Token inválido o faltante."
  const Mismatch: string := "Las contraseñas no coinciden."
  const Weak: string := "La contraseña es muy débil (Requiere Mayúscula, Minúscula, Número y Símbolo)"
  const Updated: string := "¡Contraseña actualizada! Redirigiendo..."
  const ResetFailed: string := "Error al restablecer contraseña."

  /** The body of `/auth/reset-password`. */
  datatype ResetRequest = ResetRequest(token: string, nuevaContrasena: string)

  /** The request the handler made, if any, and the page afterwards. */
  datatype Submission = Submission(request: Option<ResetRequest>, after: Page)

  /** `handleSubmit`. The checks run in order and the first failing one
      decides the message; only when all pass is the request made, carrying
      the token and the new password, and `cargando` is down again once the
      answer is in. */
  function Submit(p: Page, reply: Reply<()>): (s: Submission)
    ensures s.request.Some? <==> Truthy(p.token) && p.nuevaContrasena == p.confirmarContrasena && Strong(p.nuevaContrasena)
    ensures s.request.Some? ==> s.request.value == ResetRequest(p.token.value, p.nuevaContrasena)
    ensures !Truthy(p.token) ==> s.after.mensaje == Some(Message(MissingToken, Error))
    ensures Truthy(p.token) && p.nuevaContrasena != p.confirmarContrasena ==>
              s.after.mensaje == Some(Message(Mismatch, Error))
    ensures Truthy(p.token) && p.nuevaContrasena == p.confirmarContrasena && !Strong(p.nuevaContrasena) ==>
              s.after.mensaje == Some(Message(Weak, Error))
    ensures s.request.None? ==> s.after.cargando == p.cargando
    ensures s.request.Some? ==>
              && !s.after.cargando
              && (reply.Ok? ==> s.after.mensaje == Some(Message(Updated, Exito)))
              && (!reply.Ok? ==> s.after.mensaje == Some(Message(MensajeOr(reply, ResetFailed), Error)))
    ensures s.after.(mensaje := p.mensaje, cargando := p.cargando) == p
  {
    var q := p.(mensaje := None);
    if !Truthy(p.token) then
      Submission(None, q.(mensaje := Some(Message(MissingToken, Error))))
    else if p.nuevaContrasena != p.confirmarContrasena then
      Submission(None, q.(mensaje := Some(Message(Mismatch, Error))))
    else if !MatchesRegex(p.nuevaContrasena) then
      assert !Strong(p.nuevaContrasena) by { RegexIsStrong(p.nuevaContrasena); }
      Submission(None, q.(mensaje := Some(Message(Weak, Error))))
    else
      assert Strong(p.nuevaContrasena) by { RegexIsStrong(p.nuevaContrasena); }
      var answered :=
        if reply.Ok? then Message(Updated, Exito)
        else Message(MensajeOr(reply, ResetFailed), Error);
      Submission(Some(ResetRequest(p.token.value, p.nuevaContrasena)), q.(mensaje := Some(answered), cargando := false))
  }

  /** The view: a page without a usable token shows only the invalid-link card. */
  datatype View = InvalidLink | ResetForm

  function ViewOf(p: Page): (v: View)
    ensures v == InvalidLink <==> !Truthy(p.token)
  {
    if Truthy(p.token) then ResetForm else InvalidLink
  }

  /** A mismatch is reported even when the password is also too weak. */
  lemma MismatchBeforeStrength(p: Page, reply: Reply<()>)
    requires Truthy(p.token) && p.nuevaContrasena != p.confirmarContrasena && !Strong(p.nuevaContrasena)
    ensures Submit(p, reply).after.mensaje == Some(Message(Mismatch, Error))
    ensures Submit(p, reply).request == None
  {
  }

  /** The view gates the handler: behind the invalid-link card no request is
      ever made, and behind the form the token check never fires, so the
      only rejections there are a mismatch and a weak password. */
  lemma ViewGatesSubmit(p: Page, reply: Reply<()>)
    ensures ViewOf(p) == InvalidLink ==> Submit(p, reply).request == None
    ensures ViewOf(p) == ResetForm && Submit(p, reply).request.None? ==>
              Submit(p, reply).after.mensaje in {Some(Message(Mismatch, Error)), Some(Message(Weak, Error))}
  {
  }

  /** A string in which no character belongs to class `k` does not contain it. */
  lemma Lacks(s: string, k: Class)
    requires forall i :: 0 <= i < |s| ==> !InClass(s[i], k)
    ensures !Strong(s)
  {
  }

  /** Examples of the rule: one accepted password, and one rejection for each
      missing requirement. */
  lemma StrengthExamples()
    ensures Strong("Abcdef1!")
    ensures !Strong("Abcde1!")
    ensures !Strong("Abcdef1! ")
    ensures !Strong("abcdef1!")
    ensures !Strong("ABCDEF1!")
    ensures !Strong("Abcdefg!")
    ensures !Strong("Abcdefg1")
  {
    var s := "Abcdef1!";
    assert InClass(s[1], Lower) && InClass(s[0], Upper);
    assert InClass(s[6], Digit) && InClass(s[7], Symbol);
    assert !Allowed("Abcdef1! "[8]);
    Lacks("abcdef1!", Upper);
    Lacks("ABCDEF1!", Lower);
    Lacks("Abcdefg!", Digit);
    Lacks("Abcdefg1", Symbol);
  }
}
