/** The interface of the remote authentication service as the pages see it:
    the shapes of its answers and the outcome of one request. The service
    itself, HTTP and axios are not modelled; each request is answered by an
    abstract `Reply`. */
module Api {
  import opened Js

  /** The profile snapshot the server returns and the session keeps. Every
      field may be missing: the fallback user of the magic-link page has
      only a name. */
  datatype User = User(id: Option<int>, nombre: Option<string>, correo: Option<string>)

  /** `{ nombre: 'Usuario' }`, used when a verify answer carries no user. */
  const DefaultUser: User := User(None, Some("Usuario"), None)

  /** A JSON body that may carry a Spanish `mensaje` and/or an English
      `message`; error bodies and some success bodies have this shape. */
  datatype Body = Body(mensaje: Option<string>, message: Option<string>)

  /** The success body of `/auth/login`, `/auth/magic-verify` and
      `/auth/2fa-verify`: either a second-factor challenge or a session. */
  datatype AuthData = AuthData(
    requires2FA: bool,
    tempToken: Option<string>,
    accessToken: Option<string>,
    refreshToken: Option<string>,
    user: Option<User>)

  /** What one request ends in: a 2xx answer with its data, an HTTP error
      answer with its status and body, or no answer at all (network
      failure, or a failure that is not an HTTP error). */
  datatype Reply<+D> = Ok(data: D) | HttpErr(status: int, body: Body) | NoResponse

  /** `err.response?.data?.mensaje || fallback`: the server's message when it
      sent a non-empty one, the page's fixed text otherwise. */
  function MensajeOr<D>(r: Reply<D>, fallback: string): string {
    match r
    case HttpErr(_, b) => Or(b.mensaje, fallback)
    case _ => fallback
  }

  /** The arguments a page passes to the session's `login`. A page that
      passes fewer arguments leaves the rest `None` (`undefined`). */
  datatype LoginCall = LoginCall(accessToken: Option<string>, refreshToken: Option<string>, user: Option<User>)

  /** A page handing over to the session: `login(...)` followed by
      `navigate(to, { replace })`. */
  datatype Exit = Exit(call: LoginCall, to: string, replace: bool)
}
