/** The login page's flow controller: a mode, an orthogonal second-factor
    challenge (`requires2FA` with its `tempToken`), four submit handlers that
    turn a server reply into the next state, the buttons that switch modes,
    and the precedence that picks the view. */
module LoginPage {
  import opened Js
  import opened Api

  /** `LoginMode`. */
  datatype Mode = Password | MagicLink | MagicLinkSent | ForgotPassword | ForgotPasswordSent

  datatype Page = Page(
    mode: Mode,
    correo: string,
    contrasena: string,
    error: Option<string>,
    isLoading: bool,
    requires2FA: bool,
    tempToken: Option<string>,
    otpCode: string)

  const Initial: Page := Page(Password, "", "", None, false, false, Some(""), "")

  const TooManyAttempts: string := "Demasiados intentos. Intenta más tarde."
  const LoginFailed: string := "Error al iniciar sesión."
  const MagicLinkFailed: string := "Error al enviar el enlace."
  const TwoFactorFailed: string := "Error al verificar 2FA."
  const ForgotFailed: string := "Error al solicitar recuperación."

  /** `q` is `p` with the error cleared and the busy flag raised, and
      nothing else changed: what every handler does before its request. */
  predicate StartsRequest(p: Page, q: Page) {
    q.error == None && q.isLoading && q.(error := p.error, isLoading := p.isLoading) == p
  }

  /** A submit handler's effect: the state shown while the request is
      outstanding, the state once the reply is handled, and the hand-over
      to the session when the user got in. */
  datatype Submission = Submission(pending: Page, after: Page, exit: Option<Exit>)

  /** The error text of a rejected password login. Only this handler sets a
      429 reply apart, and only when the server sent no message. */
  function PasswordError(r: Reply<AuthData>): (e: string)
    requires !r.Ok?
    ensures r.HttpErr? && Truthy(r.body.mensaje) ==> e == r.body.mensaje.value
    ensures r.HttpErr? && !Truthy(r.body.mensaje) && r.status == 429 ==> e == TooManyAttempts
    ensures !(r.HttpErr? && (Truthy(r.body.mensaje) || r.status == 429)) ==> e == LoginFailed
  {
    match r
    case HttpErr(status, body) => if status == 429 then Or(body.mensaje, TooManyAttempts) else Or(body.mensaje, LoginFailed)
    case NoResponse => LoginFailed
  }

  /** `handlePasswordSubmit`. A challenge keeps the user on the page with the
      returned `tempToken`; a session is handed to `login` with the access
      token alone; a rejection leaves the mode as it was. */
  function SubmitPassword(p: Page, reply: Reply<AuthData>): (s: Submission)
    ensures StartsRequest(p, s.pending)
    ensures reply.Ok? && reply.data.requires2FA ==>
              && s.after.requires2FA && s.after.tempToken == reply.data.tempToken
              && !s.after.isLoading && s.after.mode == p.mode && s.exit == None
    ensures reply.Ok? && !reply.data.requires2FA ==>
              s.exit == Some(Exit(LoginCall(reply.data.accessToken, None, None), "/", false))
    ensures !reply.Ok? ==>
              && s.after.mode == p.mode && !s.after.isLoading && s.exit == None
              && s.after.error == Some(PasswordError(reply))
    ensures s.after.correo == p.correo && s.after.contrasena == p.contrasena && s.after.otpCode == p.otpCode
    ensures !(reply.Ok? && reply.data.requires2FA) ==>
              s.after.requires2FA == p.requires2FA && s.after.tempToken == p.tempToken
  {
    var q := p.(error := None, isLoading := true);
    match reply
    case Ok(data) =>
      if data.requires2FA then
        Submission(q, q.(requires2FA := true, tempToken := data.tempToken, isLoading := false), None)
      else
        Submission(q, q, Some(Exit(LoginCall(data.accessToken, None, None), "/", false)))
    case _ =>
      Submission(q, q.(isLoading := false, error := Some(PasswordError(reply))), None)
  }

  /** `handleMagicLinkSubmit`: an accepted request moves to `magiclink-sent`;
      a failed one stays and shows the server's message or the fallback. */
  function SubmitMagicLink<D>(p: Page, reply: Reply<D>): (s: Submission)
    ensures StartsRequest(p, s.pending) && s.exit == None && !s.after.isLoading
    ensures reply.Ok? ==> s.after.mode == MagicLinkSent && s.after.error == None
    ensures !reply.Ok? ==> s.after.mode == p.mode && s.after.error == Some(MensajeOr(reply, MagicLinkFailed))
    ensures s.after.requires2FA == p.requires2FA && s.after.tempToken == p.tempToken
    ensures s.after.correo == p.correo && s.after.contrasena == p.contrasena && s.after.otpCode == p.otpCode
  {
    var q := p.(error := None, isLoading := true);
    if reply.Ok? then Submission(q, q.(isLoading := false, mode := MagicLinkSent), None)
    else Submission(q, q.(isLoading := false, error := Some(MensajeOr(reply, MagicLinkFailed))), None)
  }

  /** The body of the second-factor request: the stored `tempToken` and the
      typed code. */
  function TwoFactorRequest(p: Page): (Option<string>, string) {
    (p.tempToken, p.otpCode)
  }

  /** `handle2FASubmit`: success hands the access token to `login`; failure
      keeps the challenge and its `tempToken`, so the retry sends the same
      token again. */
  function Submit2FA(p: Page, reply: Reply<AuthData>): (s: Submission)
    ensures StartsRequest(p, s.pending)
    ensures reply.Ok? ==> s.exit == Some(Exit(LoginCall(reply.data.accessToken, None, None), "/", false))
    ensures !reply.Ok? ==>
              && s.exit == None && !s.after.isLoading
              && s.after.error == Some(MensajeOr(reply, TwoFactorFailed))
              && s.after.requires2FA == p.requires2FA
              && TwoFactorRequest(s.after) == TwoFactorRequest(p)
    ensures s.after.mode == p.mode
    ensures s.after.correo == p.correo && s.after.contrasena == p.contrasena && s.after.otpCode == p.otpCode
  {
    var q := p.(error := None, isLoading := true);
    match reply
    case Ok(data) => Submission(q, q, Some(Exit(LoginCall(data.accessToken, None, None), "/", false)))
    case _ => Submission(q, q.(isLoading := false, error := Some(MensajeOr(reply, TwoFactorFailed))), None)
  }

  /** `handleForgotPasswordSubmit`: an accepted request moves to
      `forgot-password-sent`, whether or not the account exists; a failed one
      stays and shows the server's message or the fallback. */
  function SubmitForgotPassword<D>(p: Page, reply: Reply<D>): (s: Submission)
    ensures StartsRequest(p, s.pending) && s.exit == None && !s.after.isLoading
    ensures reply.Ok? ==> s.after.mode == ForgotPasswordSent && s.after.error == None
    ensures !reply.Ok? ==> s.after.mode == p.mode && s.after.error == Some(MensajeOr(reply, ForgotFailed))
    ensures s.after.requires2FA == p.requires2FA && s.after.tempToken == p.tempToken
    ensures s.after.correo == p.correo && s.after.contrasena == p.contrasena && s.after.otpCode == p.otpCode
  {
    var q := p.(error := None, isLoading := true);
    if reply.Ok? then Submission(q, q.(isLoading := false, mode := ForgotPasswordSent), None)
    else Submission(q, q.(isLoading := false, error := Some(MensajeOr(reply, ForgotFailed))), None)
  }

  /** The view the render chain selects. */
  datatype View = TwoFactorForm | MagicLinkSentCard | ForgotPasswordSentCard | ForgotPasswordForm | PasswordForm | MagicLinkForm

  /** The second-factor form overrides every mode; otherwise each mode has
      its own view. */
  function ViewOf(p: Page): (v: View)
    ensures p.requires2FA <==> v == TwoFactorForm
    ensures !p.requires2FA ==>
              && (v == PasswordForm <==> p.mode == Password)
              && (v == MagicLinkForm <==> p.mode == MagicLink)
              && (v == MagicLinkSentCard <==> p.mode == MagicLinkSent)
              && (v == ForgotPasswordForm <==> p.mode == ForgotPassword)
              && (v == ForgotPasswordSentCard <==> p.mode == ForgotPasswordSent)
  {
    if p.requires2FA then TwoFactorForm
    else
      match p.mode
      case MagicLinkSent => MagicLinkSentCard
      case ForgotPasswordSent => ForgotPasswordSentCard
      case ForgotPassword => ForgotPasswordForm
      case Password => PasswordForm
      case MagicLink => MagicLinkForm
  }

  /** The mode buttons: "back to login"/"cancel", "forgot your password?",
      and the password/magic-link toggle. */
  datatype Button = BackToLogin | ForgotLink | Toggle

  predicate Offers(v: View, b: Button) {
    match b
    case BackToLogin => v == MagicLinkSentCard || v == ForgotPasswordSentCard || v == ForgotPasswordForm
    case ForgotLink => v == PasswordForm
    case Toggle => v == PasswordForm || v == MagicLinkForm
  }

  /** A button press changes only the mode; `None` when the current view has
      no such button. Back goes to `password`, the link to `forgot-password`,
      and the toggle swaps `password` and `magiclink`. */
  function Press(p: Page, b: Button): (r: Option<Page>)
    ensures r.Some? <==> Offers(ViewOf(p), b)
    ensures r.Some? ==> r.value == p.(mode := r.value.mode)
    ensures r.Some? && b == BackToLogin ==> r.value.mode == Password
    ensures r.Some? && b == ForgotLink ==> r.value.mode == ForgotPassword
    ensures r.Some? && b == Toggle ==>
              && (p.mode == Password ==> r.value.mode == MagicLink)
              && (p.mode == MagicLink ==> r.value.mode == Password)
  {
    if !Offers(ViewOf(p), b) then None
    else
      match b
      case BackToLogin => Some(p.(mode := Password))
      case ForgotLink => Some(p.(mode := ForgotPassword))
      case Toggle => Some(p.(mode := if p.mode == Password then MagicLink else Password))
  }

  /** The inputs a view shows. */
  datatype Input = CorreoInput | ContrasenaInput | OtpInput

  predicate Shows(v: View, i: Input) {
    match i
    case CorreoInput => v == PasswordForm || v == MagicLinkForm || v == ForgotPasswordForm
    case ContrasenaInput => v == PasswordForm
    case OtpInput => v == TwoFactorForm
  }

  /** One user action on the page: typing into an input, submitting the
      visible form (the request is answered by `reply`), or pressing a button. */
  datatype Action = Type(input: Input, value: string) | Submit(reply: Reply<AuthData>) | Click(button: Button)

  /** `handleChange` and the OTP field's change handler: only the named
      field changes, and only when the view shows that input. */
  function Typed(p: Page, i: Input, value: string): (r: Page)
    ensures Shows(ViewOf(p), i) ==>
              match i
              case CorreoInput => r == p.(correo := value)
              case ContrasenaInput => r == p.(contrasena := value)
              case OtpInput => r == p.(otpCode := value)
    ensures !Shows(ViewOf(p), i) ==> r == p
  {
    if !Shows(ViewOf(p), i) then p
    else
      match i
      case CorreoInput => p.(correo := value)
      case ContrasenaInput => p.(contrasena := value)
      case OtpInput => p.(otpCode := value)
  }

  /** The page's state invariant: a challenge is only ever raised from the
      password mode, and before it the `tempToken` is still the initial `''`. */
  predicate Consistent(p: Page) {
    && (p.requires2FA ==> p.mode == Password)
    && (!p.requires2FA ==> p.tempToken == Some(""))
  }

  /** One action: the handler of the visible form, the pressed button, or
      the edited input. Once a challenge is raised it stays raised. */
  function Step(p: Page, a: Action): (r: Page)
    ensures Consistent(p) ==> Consistent(r)
    ensures p.requires2FA ==> r.requires2FA && r.tempToken == p.tempToken
  {
    match a
    case Type(i, v) => Typed(p, i, v)
    case Click(b) => Press(p, b).GetOr(p)
    case Submit(reply) =>
      match ViewOf(p)
      case TwoFactorForm => Submit2FA(p, reply).after
      case PasswordForm => SubmitPassword(p, reply).after
      case MagicLinkForm => SubmitMagicLink(p, reply).after
      case ForgotPasswordForm => SubmitForgotPassword(p, reply).after
      case _ => p
  }

  /** The page after a sequence of actions. */
  function Run(p: Page, acts: seq<Action>): Page
    decreases |acts|
  {
    if |acts| == 0 then p else Run(Step(p, acts[0]), acts[1..])
  }

  /** Every state the page can reach from its initial state is consistent. */
  lemma {:induction false} RunKeepsConsistent(p: Page, acts: seq<Action>)
    requires Consistent(p)
    ensures Consistent(Run(p, acts))
    decreases |acts|
  {
    if |acts| > 0 {
      RunKeepsConsistent(Step(p, acts[0]), acts[1..]);
    }
  }

  /** The page starts in the password form with no challenge and no error. */
  lemma InitialIsPasswordForm()
    ensures ViewOf(Initial) == PasswordForm && Initial.error == None && !Initial.isLoading
    ensures Consistent(Initial)
  {
  }

  /** Every mode, and the challenge, is reachable from the initial state by
      a run that fills in the inputs its forms mark as required; each
      confirmation card shows the address that was submitted. */
  lemma EveryViewReachable(challenge: AuthData)
    requires challenge.requires2FA
    ensures Run(Initial, [Click(Toggle)]).mode == MagicLink
    ensures var r := Run(Initial, [Click(Toggle), Type(CorreoInput, "a@b.com"), Submit(Ok(challenge))]);
            r.mode == MagicLinkSent && r.correo == "a@b.com"
    ensures Run(Initial, [Click(ForgotLink)]).mode == ForgotPassword
    ensures var r := Run(Initial, [Click(ForgotLink), Type(CorreoInput, "a@b.com"), Submit(Ok(challenge))]);
            r.mode == ForgotPasswordSent && r.correo == "a@b.com"
    ensures ViewOf(Run(Initial, [Type(CorreoInput, "a@b.com"), Type(ContrasenaInput, "x"), Submit(Ok(challenge))])) == TwoFactorForm
  {
    var sent := [Submit(Ok(challenge))];
    var typed := [Type(CorreoInput, "a@b.com")] + sent;
    var m := Step(Initial, Click(Toggle));
    assert ViewOf(m) == MagicLinkForm;
    var m1 := Step(m, Type(CorreoInput, "a@b.com"));
    assert m1 == m.(correo := "a@b.com");
    assert [Click(Toggle), Type(CorreoInput, "a@b.com"), Submit(Ok(challenge))][1..] == typed;
    assert typed[1..] == sent;
    assert Run(m1, sent) == Step(m1, Submit(Ok(challenge)));
    var f := Step(Initial, Click(ForgotLink));
    assert ViewOf(f) == ForgotPasswordForm;
    var f1 := Step(f, Type(CorreoInput, "a@b.com"));
    assert f1 == f.(correo := "a@b.com");
    assert [Click(ForgotLink), Type(CorreoInput, "a@b.com"), Submit(Ok(challenge))][1..] == typed;
    assert Run(f1, sent) == Step(f1, Submit(Ok(challenge)));
    var c := Step(Initial, Type(CorreoInput, "a@b.com"));
    assert c == Initial.(correo := "a@b.com");
    var c1 := Step(c, Type(ContrasenaInput, "x"));
    assert c1 == c.(contrasena := "x");
    var pw := [Type(ContrasenaInput, "x")] + sent;
    assert [Type(CorreoInput, "a@b.com"), Type(ContrasenaInput, "x"), Submit(Ok(challenge))][1..] == pw;
    assert pw[1..] == sent;
    assert Run(c1, sent) == Step(c1, Submit(Ok(challenge)));
  }

  /** With no message from the server, a throttled login reads differently
      from a rejected one. */
  lemma ThrottlingIsDistinct(b: Body, status: int)
    requires !Truthy(b.mensaje) && status != 429
    ensures PasswordError(HttpErr(429, b)) != PasswordError(HttpErr(status, b))
  {
  }

  /** The forgot-password handler does not set a 429 reply apart: without a
      server message it reads exactly like any other failure. */
  lemma ForgotPasswordThrottlingNotDistinct(p: Page, b: Body, status: int)
    requires !Truthy(b.mensaje)
    ensures SubmitForgotPassword<()>(p, HttpErr(429, b)).after == SubmitForgotPassword<()>(p, HttpErr(status, b)).after
  {
  }
}
