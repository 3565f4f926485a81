/** The security settings page: second-factor enrolment as a three-phase
    machine (nothing set up, QR code shown, enabled) driven by the setup and
    enable requests, and the conditions under which each part is shown. */
module ConfigurationPage {
  import opened Js
  import opened Api

  datatype Page = Page(qrCodeUrl: Option<string>, otpCode: string, error: Option<string>, success: Option<string>, isLoading: bool)

  const Initial: Page := Page(None, "", None, None, false)

  const SetupFailed: string := "Error al iniciar la configuración 2FA."
  const OtpInvalid: string := "Código OTP inválido."

  /** The success body of `/security/2fa/setup`. */
  datatype SetupData = SetupData(otpauthUrl: Option<string>)

  /** A handler's effect: the state while the request is outstanding and
      the state once the answer is handled. */
  datatype Submission = Submission(pending: Page, after: Page)

  /** `handleSetup2FA`: both messages are cleared before the request; the
      answer's `otpauth_url` becomes the QR value; a failure leaves the QR
      value as it was and shows `mensaje` or the fallback. */
  function Setup(p: Page, reply: Reply<SetupData>): (s: Submission)
    ensures s.pending.isLoading && s.pending.error == None && s.pending.success == None
    ensures s.pending.qrCodeUrl == p.qrCodeUrl
    ensures reply.Ok? ==> s.after.qrCodeUrl == reply.data.otpauthUrl && s.after.error == None
    ensures !reply.Ok? ==> s.after.qrCodeUrl == p.qrCodeUrl && s.after.error == Some(MensajeOr(reply, SetupFailed))
    ensures !s.after.isLoading && s.after.success == None && s.after.otpCode == p.otpCode
  {
    var q := p.(isLoading := true, error := None, success := None);
    match reply
    case Ok(data) => Submission(q, q.(qrCodeUrl := data.otpauthUrl, isLoading := false))
    case _ => Submission(q, q.(isLoading := false, error := Some(MensajeOr(reply, SetupFailed))))
  }

  /** `err.response?.data?.message || fallback`: the enable handler reads the
      English `message` field, not `mensaje`. */
  function MessageOr<D>(r: Reply<D>, fallback: string): string {
    match r
    case HttpErr(_, b) => Or(b.message, fallback)
    case _ => fallback
  }

  /** `handleEnable2FA`: success takes the answer's `message` as the
      success text and drops the QR value; a failure keeps the QR value for
      another try. */
  function Enable(p: Page, reply: Reply<Body>): (s: Submission)
    ensures s.pending.isLoading && s.pending.error == None
    ensures s.pending.success == p.success && s.pending.qrCodeUrl == p.qrCodeUrl
    ensures reply.Ok? ==> s.after.success == reply.data.message && s.after.qrCodeUrl == None && s.after.error == None
    ensures !reply.Ok? ==>
              && s.after.qrCodeUrl == p.qrCodeUrl && s.after.success == p.success
              && s.after.error == Some(MessageOr(reply, OtpInvalid))
    ensures !s.after.isLoading && s.after.otpCode == p.otpCode
  {
    var q := p.(isLoading := true, error := None);
    match reply
    case Ok(data) => Submission(q, q.(success := data.message, qrCodeUrl := None, isLoading := false))
    case _ => Submission(q, q.(isLoading := false, error := Some(MessageOr(reply, OtpInvalid))))
  }

  /** The enrolment phase the page is in. */
  datatype Phase = Idle | QrShown | Enabled

  function PhaseOf(p: Page): Phase {
    if Truthy(p.qrCodeUrl) then QrShown
    else if Truthy(p.success) then Enabled
    else Idle
  }

  /** What the page renders: the loading stub, or the panel with the parts
      that are visible. */
  datatype View = LoadingStub | Panel(setupButton: bool, qrSection: bool, successBox: bool, errorBox: bool)

  /** A signed-out visitor sees only the stub. The setup button shows only
      when there is neither a QR value nor a success text. */
  function ViewOf(isAuthenticated: bool, p: Page): (v: View)
    ensures v == LoadingStub <==> !isAuthenticated
    ensures v.Panel? ==>
              && (v.setupButton <==> !Truthy(p.qrCodeUrl) && !Truthy(p.success))
              && (v.qrSection <==> Truthy(p.qrCodeUrl))
              && (v.successBox <==> Truthy(p.success))
              && (v.errorBox <==> Truthy(p.error))
    ensures v.Panel? ==> (v.setupButton <==> PhaseOf(p) == Idle) && (v.qrSection <==> PhaseOf(p) == QrShown)
  {
    if !isAuthenticated then LoadingStub
    else
      Panel(
        !Truthy(p.qrCodeUrl) && !Truthy(p.success),
        Truthy(p.qrCodeUrl),
        Truthy(p.success),
        Truthy(p.error))
  }

  /** One user action: pressing the setup button, submitting the code form,
      or typing the code; each answered request carries its reply. */
  datatype Action = PressSetup(setupReply: Reply<SetupData>) | SubmitCode(enableReply: Reply<Body>) | TypeCode(value: string)

  /** At most one of the QR section and the success text is up. */
  predicate Consistent(p: Page) {
    !(Truthy(p.qrCodeUrl) && Truthy(p.success))
  }

  /** One action, taken only through a control the current view shows.
      Once enabled, nothing on the page moves it out of that phase. */
  function Step(isAuthenticated: bool, p: Page, a: Action): (r: Page)
    ensures Consistent(p) ==> Consistent(r)
    ensures PhaseOf(p) == Enabled ==> PhaseOf(r) == Enabled
  {
    match ViewOf(isAuthenticated, p)
    case LoadingStub => p
    case Panel(setupButton, qrSection, _, _) =>
      match a
      case PressSetup(reply) => if setupButton then Setup(p, reply).after else p
      case SubmitCode(reply) => if qrSection then Enable(p, reply).after else p
      case TypeCode(v) => if qrSection then p.(otpCode := v) else p
  }

  function Run(isAuthenticated: bool, p: Page, acts: seq<Action>): Page
    decreases |acts|
  {
    if |acts| == 0 then p else Run(isAuthenticated, Step(isAuthenticated, p, acts[0]), acts[1..])
  }

  lemma {:induction false} RunKeepsConsistent(isAuthenticated: bool, p: Page, acts: seq<Action>)
    requires Consistent(p)
    ensures Consistent(Run(isAuthenticated, p, acts))
    ensures PhaseOf(p) == Enabled ==> PhaseOf(Run(isAuthenticated, p, acts)) == Enabled
    decreases |acts|
  {
    if |acts| > 0 {
      RunKeepsConsistent(isAuthenticated, Step(isAuthenticated, p, acts[0]), acts[1..]);
    }
  }

  /** The enrolment transitions: setup moves to the QR phase when the answer
      carries a URL, and a failed setup stays idle; enable reaches the
      enabled phase when the answer carries a message, falls back to idle
      when it carries none, and a failed enable stays on the QR phase. */
  lemma Transitions(p: Page, setup: Reply<SetupData>, enable: Reply<Body>)
    requires PhaseOf(p) == Idle
    ensures var a := Setup(p, setup).after;
            && (setup.Ok? && Truthy(setup.data.otpauthUrl) ==> PhaseOf(a) == QrShown)
            && (!setup.Ok? ==> PhaseOf(a) == Idle)
    ensures var q := Setup(p, setup).after;
            PhaseOf(q) == QrShown ==>
              var e := Enable(q, enable).after;
              && (enable.Ok? && Truthy(enable.data.message) ==> PhaseOf(e) == Enabled)
              && (enable.Ok? && !Truthy(enable.data.message) ==> PhaseOf(e) == Idle)
              && (!enable.Ok? ==> PhaseOf(e) == QrShown)
  {
  }

  /** A failed enable reports the server's English `message`; a Spanish
      `mensaje` alone does not reach the user. */
  lemma EnableIgnoresMensaje(p: Page, status: int, m: string)
    requires m != ""
    ensures Enable(p, HttpErr(status, Body(Some(m), None))).after.error == Some(OtpInvalid)
  {
  }
}
