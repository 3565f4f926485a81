/** The magic-link redeemer: a one-shot verification of the token taken
    from the visited URL, an optional hand-off into the second factor, the
    second-factor retry loop, and the four-way render precedence. */
module MagicVerifyPage {
  import opened Js
  import opened Api

  datatype Page = Page(
    token: Option<string>,
    requires2FA: bool,
    tempToken: Option<string>,
    otpCode: string,
    error: Option<string>,
    isLoading: bool)

  /** The first render: the page is busy until the verification settles. */
  function Initial(token: Option<string>): Page {
    Page(token, false, Some(""), "", None, true)
  }

  const NoToken: string := "Token no proporcionado."
  const LinkFailed: string := "Enlace inválido o expirado."
  const TwoFactorFailed: string := "Error al verificar 2FA."

  /** How the page hands a session to `login`: the tokens as returned and
      the returned user, or `{ nombre: 'Usuario' }` when there is none, then
      a navigation to `/` that replaces the history entry. */
  function SignIn(data: AuthData): Exit {
    Exit(LoginCall(data.accessToken, data.refreshToken, Some(data.user.GetOr(DefaultUser))), "/", true)
  }

  /** The mount effect: the token sent to `/auth/magic-verify`, if any, the
      page once the answer is handled, and the hand-over to the session. */
  datatype Redemption = Redemption(request: Option<string>, page: Page, exit: Option<Exit>)

  /** The verification effect, run once on the page's initial state. `answer`
      is what the server would reply; it is not consulted when no token is
      present, because then no request is made. */
  function Redeem(token: Option<string>, answer: Reply<AuthData>): (r: Redemption)
    ensures !Truthy(token) ==>
              && r.request == None && r.exit == None
              && r.page.error == Some(NoToken) && !r.page.isLoading && !r.page.requires2FA
    ensures Truthy(token) ==> r.request == token
    ensures Truthy(token) && answer.Ok? && answer.data.requires2FA ==>
              && r.page.requires2FA && r.page.tempToken == answer.data.tempToken
              && !r.page.isLoading && r.page.error == None && r.exit == None
    ensures Truthy(token) && answer.Ok? && !answer.data.requires2FA ==>
              && r.exit.Some? && r.exit.value.replace && r.exit.value.to == "/"
              && r.exit.value.call.accessToken == answer.data.accessToken
              && r.exit.value.call.refreshToken == answer.data.refreshToken
              && r.exit.value.call.user == Some(if answer.data.user.Some? then answer.data.user.value else DefaultUser)
    ensures Truthy(token) && !answer.Ok? ==>
              && r.exit == None && !r.page.isLoading && !r.page.requires2FA
              && r.page.error == Some(MensajeOr(answer, LinkFailed))
    ensures r.page.token == token && r.page.otpCode == ""
  {
    var p := Initial(token);
    if !Truthy(token) then
      Redemption(None, p.(error := Some(NoToken), isLoading := false), None)
    else
      match answer
      case Ok(data) =>
        if data.requires2FA then
          Redemption(token, p.(requires2FA := true, tempToken := data.tempToken, isLoading := false), None)
        else
          Redemption(token, p, Some(SignIn(data)))
      case _ =>
        Redemption(token, p.(isLoading := false, error := Some(MensajeOr(answer, LinkFailed))), None)
  }

  /** The second-factor handler's effect: the state while the request is
      outstanding, the state once the answer is handled, and the hand-over. */
  datatype Submission = Submission(pending: Page, after: Page, exit: Option<Exit>)

  /** `handle2FASubmit`: success signs in with the same fallback user as the
      mount effect; failure keeps the challenge and its `tempToken`. */
  function Submit2FA(p: Page, reply: Reply<AuthData>): (s: Submission)
    ensures s.pending.error == None && s.pending.isLoading
    ensures s.pending.requires2FA == p.requires2FA && s.pending.tempToken == p.tempToken
    ensures reply.Ok? ==>
              && s.exit.Some? && s.exit.value.replace && s.exit.value.to == "/"
              && s.exit.value.call.accessToken == reply.data.accessToken
              && s.exit.value.call.refreshToken == reply.data.refreshToken
              && s.exit.value.call.user == Some(if reply.data.user.Some? then reply.data.user.value else DefaultUser)
    ensures !reply.Ok? ==>
              && s.exit == None && !s.after.isLoading
              && s.after.requires2FA == p.requires2FA && s.after.tempToken == p.tempToken
              && s.after.otpCode == p.otpCode
              && s.after.error == Some(MensajeOr(reply, TwoFactorFailed))
  {
    var q := p.(error := None, isLoading := true);
    match reply
    case Ok(data) => Submission(q, q, Some(SignIn(data)))
    case _ => Submission(q, q.(isLoading := false, error := Some(MensajeOr(reply, TwoFactorFailed))), None)
  }

  /** The view the render chain selects. */
  datatype View = Verifying | TwoFactorForm | ErrorCard(message: string) | RedirectHome

  /** Loading first, then the second-factor form, then the error card, and
      otherwise a redirect to `/`. */
  function ViewOf(p: Page): (v: View)
    ensures v == Verifying <==> p.isLoading
    ensures v == TwoFactorForm <==> !p.isLoading && p.requires2FA
    ensures v.ErrorCard? <==> !p.isLoading && !p.requires2FA && Truthy(p.error)
    ensures v.ErrorCard? ==> v.message == p.error.value
    ensures v == RedirectHome <==> !p.isLoading && !p.requires2FA && !Truthy(p.error)
  {
    if p.isLoading then Verifying
    else if p.requires2FA then TwoFactorForm
    else if Truthy(p.error) then ErrorCard(p.error.value)
    else RedirectHome
  }

  /** A link that cannot be redeemed ends on the error card, with no session
      handed over; the card's only way on is the link back to `/login`. */
  lemma FailedLinkIsTerminal(token: Option<string>, answer: Reply<AuthData>)
    requires !Truthy(token) || !answer.Ok?
    ensures var r := Redeem(token, answer);
            r.exit == None && ViewOf(r.page).ErrorCard?
  {
  }

  /** After a challenge, a failed code leaves the form up with the error
      shown, and the retry sends the same `tempToken`. */
  lemma ChallengeRetry(token: string, challenge: AuthData, code: string, failure: Reply<AuthData>)
    requires token != "" && challenge.requires2FA && !failure.Ok?
    ensures var p := Redeem(Some(token), Ok(challenge)).page.(otpCode := code);
            var s := Submit2FA(p, failure);
            && ViewOf(p) == TwoFactorForm
            && ViewOf(s.after) == TwoFactorForm
            && s.after.tempToken == challenge.tempToken
            && s.exit == None
  {
  }
}
