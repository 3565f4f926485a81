# Client-side authentication of the ModaSarita storefront, in Dafny

This project models the authentication logic of the storefront's React
front end, taken out of its view code: the login page's flow controller
(password, magic link, second factor, forgot password), the session
manager over `localStorage`, the magic-link redeemer, the password-reset
and registration validators, and the second-factor enrolment page. Each
page is an immutable state record with pure transition functions; every
network call is answered by an abstract `Api.Reply`
(`Ok(data) | HttpErr(status, body) | NoResponse`), and every JavaScript
`undefined` is `Js.None`.

Modules, one per source file, plus three shared ones:

- `Js`: `Option`, string truthiness, the `a || b` fallback and `String(v)`.
- `Api`: the server's answer shapes, `Reply`, the `mensaje || fallback`
  rule, and `Exit`, a page's hand-over to the session (`login(...)` then
  `navigate`).
- `UserCodec`: stands in for `JSON.stringify`/`JSON.parse` of the stored
  user. It is a small self-delimiting encoding, not JSON. The only property
  the session relies on is proved: parsing what was serialized gives the
  user back.
- `AuthContext`, `LoginPage`, `MagicVerifyPage`, `ResetPasswordPage`,
  `RegisterPage`, `ConfigurationPage`: the source files of the same names.
- `Scenarios`: runs that cross from a page into the session and through a
  restart.

Submit handlers return the state shown while the request is outstanding
(`pending`) where the source makes that state observable, the state once
the reply is handled (`after`), and, for the sign-in paths, the `Exit`.
`LoginPage.Step` and `ConfigurationPage.Step` take one user action through
a control the current view shows, and `Run` folds a sequence of actions;
the state invariants are proved over every such sequence.

Facts about the code that the model keeps as written:

- `LoginPage` calls `login` with the access token alone
  (src/pages/LoginPage.tsx lines 54 and 95), while `login` takes three
  arguments (src/context/AuthContext.tsx line 38). The model passes
  `undefined` for the refresh token and the user. `localStorage` then holds
  the text `undefined` under `refreshToken` and `user`, and the session is
  authenticated with no user (`Scenarios.PasswordLoginDropsRefreshToken`).
  `MagicVerifyPage` passes all three values (src/pages/MagicVerifyPage.tsx
  lines 41 and 63).
- Only the password handler gives a 429 reply its own text
  (src/pages/LoginPage.tsx lines 60-64). The forgot-password handler treats
  it like any other failure (line 117,
  `LoginPage.ForgotPasswordThrottlingNotDistinct`).
- `logout` and `logoutAllDevices` call `localStorage.clear()`
  (src/context/AuthContext.tsx lines 58 and 70), which empties every key,
  not only the three the session writes.
- The start-up effect adopts whatever `JSON.parse` returns
  (src/context/AuthContext.tsx line 32). A stored user text `null` is
  adopted as a `null` user with the flag set, so the session is
  authenticated without a user (`AuthContext.NullUserBootsUnpaired`). The
  application never writes that text itself.
- The enable step of second-factor enrolment reads the error's English
  `message` field, not `mensaje` (src/pages/ConfigurationPage.tsx line 51,
  `ConfigurationPage.EnableIgnoresMensaje`). A successful enable whose answer
  has no `message` leaves the page in the idle phase, with the setup button
  showing again.

## Model

| member | source | states |
|---|---|---|
| `AuthContext.Mounted` | src/context/AuthContext.tsx:21-23 | the provider starts unauthenticated, with no user, over the persisted storage, and hides its children |
| `AuthContext.Rehydrate` | src/context/AuthContext.tsx:26-36 | the stored user is parsed and adopted, and the flag set, only when both `user` and `accessToken` are truthy; a text the stand-in parse cannot read is a throw, a stored `null` is adopted as no user with the flag set; storage is untouched, loading ends and the children show; a paired session stays paired exactly when storage does not hold a `null` user |
| `AuthContext.Login` | src/context/AuthContext.tsx:38-45 | storage maps `accessToken`, `refreshToken` and `user` to the given values and keeps every other key; the session is authenticated with the given user; user and flag agree exactly when a user was passed |
| `AuthContext.Logout` | src/context/AuthContext.tsx:47-62 | storage is emptied and the session signed out whatever the server answers; the revoke request is made exactly when a truthy refresh token is stored, and carries it |
| `AuthContext.LogoutAllDevices` | src/context/AuthContext.tsx:65-78 | a confirmed revoke-all clears storage and session; any failure leaves the whole state unchanged |
| `AuthContext.UseAuth` | src/context/AuthContext.tsx:87-93 | the hook throws its fixed message exactly when no provider value exists, and returns that value otherwise |
| `AuthContext.LogoutIgnoresServer` | src/context/AuthContext.tsx:47-62 | two different server answers to `logout` lead to the same local state |
| `AuthContext.LoginThenReload` | src/context/AuthContext.tsx:26-45 | after `login` the tokens read back verbatim, and the next start is authenticated with the same user exactly when the access token is non-empty |
| `AuthContext.LogoutThenReload` | src/context/AuthContext.tsx:26-62 | after `logout` the next start finds no session |
| `AuthContext.MutatorsKeepSessionPaired` | src/context/AuthContext.tsx:31-72 | `logout` and `logoutAllDevices` keep user and flag paired; `login` does so exactly when given a user, and rehydration exactly when storage does not hold a `null` user |
| `AuthContext.NullUserBootsUnpaired` | src/context/AuthContext.tsx:31-34 | a stored `null` user with a non-empty access token boots authenticated with no user |
| `AuthContext.ConsumerSeesBootedSession` | src/context/AuthContext.tsx:82-93 | outside a provider the hook throws; under a booted provider it returns a value with loading over, whose user and flag are paired unless storage held a `null` user |
| `UserCodec.ParseSerialize` | src/context/AuthContext.tsx:32-41 | parsing the stored text of a user gives that user back, never a throw and never `null` |
| `LoginPage.PasswordError` | src/pages/LoginPage.tsx:57-65 | a rejected login shows the server's non-empty `mensaje`; otherwise the throttling text for 429 and the generic text for anything else |
| `LoginPage.SubmitPassword` | src/pages/LoginPage.tsx:37-66 | the error is cleared and loading raised first; a challenge stores exactly the returned `tempToken` and makes no `login` call; a session calls `login` with the access token and goes to `/`; a rejection keeps the mode and ends loading; the typed address, password and code are kept |
| `LoginPage.SubmitMagicLink` | src/pages/LoginPage.tsx:69-83 | success moves to `magiclink-sent`; failure keeps the mode and shows `mensaje` or the handler's fallback; the typed address, password and code are kept |
| `LoginPage.Submit2FA` | src/pages/LoginPage.tsx:86-101 | success calls `login` and goes to `/`; failure keeps the challenge, and the retry request carries the same `tempToken`; the typed address, password and code are kept |
| `LoginPage.SubmitForgotPassword` | src/pages/LoginPage.tsx:104-119 | success moves to `forgot-password-sent`; failure keeps the mode and shows `mensaje` or the handler's fallback; the typed address, password and code are kept |
| `LoginPage.ViewOf` | src/pages/LoginPage.tsx:123-222 | the second-factor form shows exactly when `requires2FA` is set, whatever the mode; otherwise each mode selects its own view |
| `LoginPage.Press` | src/pages/LoginPage.tsx:154-264 | a button works only on a view that shows it, changes only the mode, sends back/cancel to `password`, and swaps `password` and `magiclink` with the toggle |
| `LoginPage.Typed` | src/pages/LoginPage.tsx:31-34 | typing changes only the named field, and only when the view shows its input |
| `LoginPage.Step` | src/pages/LoginPage.tsx:37-264 | each action keeps the page consistent, and a raised challenge stays raised with its `tempToken` |
| `LoginPage.RunKeepsConsistent` | src/pages/LoginPage.tsx:27-119 | after any sequence of actions a challenge exists only in the password mode, and without one the `tempToken` is still the initial empty string |
| `LoginPage.InitialIsPasswordForm` | src/pages/LoginPage.tsx:21-29 | the page starts in the password form, with no challenge, no error and no request in flight |
| `LoginPage.EveryViewReachable` | src/pages/LoginPage.tsx:69-119 | every mode, and the second-factor form, is reachable from the initial state by a run that fills in the required inputs, and each confirmation card keeps the submitted address |
| `LoginPage.ThrottlingIsDistinct` | src/pages/LoginPage.tsx:60-64 | without a server message, a throttled login reads differently from any other rejected one |
| `LoginPage.ForgotPasswordThrottlingNotDistinct` | src/pages/LoginPage.tsx:115-118 | without a server message, a throttled forgot-password request reads exactly like any other failure |
| `MagicVerifyPage.Redeem` | src/pages/MagicVerifyPage.tsx:21-51 | no token: the fixed error, no loading and no request; otherwise the token is sent; a challenge stores the returned `tempToken` and makes no `login` call; a session calls `login` with both returned tokens and the returned or default user, replacing history; a failure shows `mensaje` or the fallback and creates no session |
| `MagicVerifyPage.Submit2FA` | src/pages/MagicVerifyPage.tsx:53-70 | success signs in with the same default-user rule; failure keeps the challenge, `tempToken` and code |
| `MagicVerifyPage.ViewOf` | src/pages/MagicVerifyPage.tsx:72-124 | loading wins, then the second-factor form, then the error card, then the redirect to `/` |
| `MagicVerifyPage.FailedLinkIsTerminal` | src/pages/MagicVerifyPage.tsx:21-122 | a missing or rejected link ends on the error card with nothing handed to the session |
| `MagicVerifyPage.ChallengeRetry` | src/pages/MagicVerifyPage.tsx:35-108 | after a challenge a wrong code keeps the form up and the returned `tempToken` stored |
| `ResetPasswordPage.RegexIsStrong` | src/pages/ResetPasswordPage.tsx:35 | the regular expression accepts exactly the strings of at least eight allowed characters containing a lower-case letter, an upper-case letter, a digit and a symbol |
| `ResetPasswordPage.LookaheadIsContains` | src/pages/ResetPasswordPage.tsx:35 | over allowed characters, each lookahead of the expression is plain containment |
| `ResetPasswordPage.TestPassword` | src/pages/ResetPasswordPage.tsx:35-36 | a one-pass scan answers exactly what the expression accepts |
| `ResetPasswordPage.Submit` | src/pages/ResetPasswordPage.tsx:20-64 | the token check, then the mismatch check, then the strength check decide the message; the request is made exactly when all three pass and carries the token and new password; success is `exito`, failure `error` with `mensaje` or the fallback; `cargando` ends false after a request |
| `ResetPasswordPage.ViewOf` | src/pages/ResetPasswordPage.tsx:67-79 | the invalid-link card shows exactly when the token is missing or empty |
| `ResetPasswordPage.MismatchBeforeStrength` | src/pages/ResetPasswordPage.tsx:24-39 | a mismatch is reported, and no request made, even when the password is also too weak |
| `ResetPasswordPage.ViewGatesSubmit` | src/pages/ResetPasswordPage.tsx:20-79 | behind the invalid-link card no request is made; behind the form the only rejections are a mismatch and a weak password |
| `ResetPasswordPage.StrengthExamples` | src/pages/ResetPasswordPage.tsx:35 | one password the rule accepts, and one rejection each for too short, a disallowed space, and a missing upper-case letter, lower-case letter, digit or symbol |
| `RegisterPage.HandleChange` | src/pages/RegisterPage.tsx:24-30 | only the named field changes; every other field and the messages keep their values |
| `RegisterPage.Payload` | src/pages/RegisterPage.tsx:45 | the payload is the form without `confirmarContrasena`, every other field kept with its value |
| `RegisterPage.Submit` | src/pages/RegisterPage.tsx:32-65 | both messages are cleared; a mismatch shows its text, makes no request and keeps `isLoading`; otherwise the payload is posted; success shows `mensaje` followed by the redirect note; an HTTP error shows `mensaje` or its fallback, no answer the unexpected-error text |
| `RegisterPage.PayloadRestores` | src/pages/RegisterPage.tsx:45-48 | putting the confirmation back into the payload restores the form |
| `RegisterPage.EditKeepsFields` | src/pages/RegisterPage.tsx:9-30 | editing an existing field keeps the set of fields, so the payload keeps all the others |
| `ConfigurationPage.Setup` | src/pages/ConfigurationPage.tsx:17-33 | both messages are cleared before the request; success stores `otpauth_url` as the QR value; failure leaves the QR value and shows `mensaje` or the fallback |
| `ConfigurationPage.Enable` | src/pages/ConfigurationPage.tsx:35-53 | success takes `message` as the success text and drops the QR value; failure keeps the QR value and shows `message` or the fallback |
| `ConfigurationPage.ViewOf` | src/pages/ConfigurationPage.tsx:55-132 | a signed-out visitor sees only the stub; the setup button shows exactly in the idle phase and the QR section exactly in the QR phase |
| `ConfigurationPage.Step` | src/pages/ConfigurationPage.tsx:71-117 | each action keeps the QR section and the success text from showing together, and the enabled phase is never left |
| `ConfigurationPage.RunKeepsConsistent` | src/pages/ConfigurationPage.tsx:17-53 | the same two facts hold after any sequence of actions |
| `ConfigurationPage.Transitions` | src/pages/ConfigurationPage.tsx:17-53 | setup with a URL leads from idle to the QR phase and a failed one stays idle; enable with a message reaches the enabled phase, without one returns to idle, and a failed one stays on the QR phase |
| `ConfigurationPage.EnableIgnoresMensaje` | src/pages/ConfigurationPage.tsx:51 | a failed enable whose body carries only `mensaje` shows the fixed fallback |
| `Scenarios.PasswordLoginDropsRefreshToken` | src/pages/LoginPage.tsx:49-56 | a direct password login leaves `undefined` as the stored refresh token and user, and an authenticated session without a user |
| `Scenarios.PasswordThenSecondFactor` | src/pages/LoginPage.tsx:37-101 | a challenged login stores `T1`, the code request carries it, and the accepted code hands over `A1` but not `R1` |
| `Scenarios.MagicLinkThenSecondFactor` | src/pages/MagicVerifyPage.tsx:35-64 | the same challenge through a magic link stores `A1` and `R1`, and the next start is authenticated with the returned user |
| `Scenarios.MagicLinkSessionSurvivesReload` | src/pages/MagicVerifyPage.tsx:40-42 | a direct magic-link session is found again on the next start, with the returned or the default user |
| `Scenarios.FailedMagicLinkCreatesNoSession` | src/pages/MagicVerifyPage.tsx:22-46 | a missing or rejected link hands nothing to `login`, and a missing one sends no request |

## Left out

- Rendering: JSX, CSS modules and icons. Only which view the precedence chain selects, and which controls it shows, is modelled.
- axios, HTTP, `import.meta.env` and the backend. Each request is answered by an abstract `Reply`, and a success body is taken to have the modelled shape (a truthy non-boolean `requires2FA` is not modelled).
- React scheduling: effect re-runs when dependencies change (the magic-link effect lists the unmemoised `login`), StrictMode double effects, and async interleaving or stale replies. Each handler runs start to finish as one step, so a submit while `isLoading` is set is not modelled.
- Navigation timing. `navigate` after a sign-in is the `Exit` value. The delayed redirects to `/login` after a registration or reset (`setTimeout`) are left out. A page that has handed over to the session would unmount, but `Step` and `Run` go on applying actions to its last state.
- `alert` and `console` calls, including the two alerts of `logoutAllDevices`.
- `AuthContext.Rehydrate`: the stored texts that throw are those the stand-in encoding `UserCodec` cannot read, which are not the texts `JSON.parse` rejects. A JSON user object throws in the model, and some texts that are not JSON read as a user. The model shares only two facts with JSON: what `login` writes reads back as the same user (`UserCodec.ParseSerialize`), and the literal `null` parses to `null`. A number, string, array or object of another shape, which `JSON.parse` would also hand to `setUser`, has no text of its own. What React does after a throw is not modelled.
- `null` and `undefined` are both `None`. `String(null)` would read `null` where the model writes `undefined`.
- `RegisterPage.Submit`: an HTTP error without a body would make the source throw inside its `catch`. That case is not modelled; the body is always present.
- `RegisterPage.Submit`: does not describe the state while the request is outstanding (`isLoading` true), because only the state after the reply is returned.
- `ResetPasswordPage.Submit`: does not describe the state while the request is outstanding (`cargando` true), for the same reason.
- `ProtectedRoute` (used at src/main.tsx:29) is not modelled; only the settings page's own `isAuthenticated` stub is.
- Browser constraint validation: the `required` and `type="email"` attributes of the login forms (src/pages/LoginPage.tsx lines 196, 226, 230, 252) and the `required` code inputs (src/pages/LoginPage.tsx line 133, src/pages/MagicVerifyPage.tsx line 97) keep the browser from submitting an empty field. `LoginPage.Step` submits whatever the fields hold. The `maxLength={6}` of the enrolment code input (src/pages/ConfigurationPage.tsx line 107) is not modelled either: `ConfigurationPage.Step` stores any typed string as the code.
- `Navbar`, `App.tsx`, `HomePage`, `ProductCard`, `Error404`: view wrappers and static content, outside the authentication core. Of `main.tsx` (the route table) only the fact above is recorded.
- The QR code component: a foreign library. The QR value is modelled only as a string.
