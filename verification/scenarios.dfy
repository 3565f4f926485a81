/** End-to-end runs that cross from a page into the session manager: what a
    page hands to `login` and what storage then holds, and what a later
    start of the application reads back. */
module Scenarios {
  import opened Js
  import opened Api
  import AuthContext
  import LoginPage
  import MagicVerifyPage
  import UserCodec

  /** The login page calls `login` with the access token only, so storage
      gets the text `undefined` for the refresh token and the user, and the
      session is authenticated without a user. */
  lemma PasswordLoginDropsRefreshToken(p: LoginPage.Page, data: AuthData, a: AuthContext.Auth)
    requires LoginPage.ViewOf(p) == LoginPage.PasswordForm && !data.requires2FA
    ensures var s := LoginPage.SubmitPassword(p, Ok(data));
            && s.exit.Some?
            && var r := AuthContext.Login(a, s.exit.value.call);
               && AuthContext.GetItem(r.store, AuthContext.RefreshKey) == Some("undefined")
               && AuthContext.GetItem(r.store, AuthContext.UserKey) == Some("undefined")
               && r.isAuthenticated && r.user == None
               && !AuthContext.Paired(r)
  {
  }

  /** Password "x" for "a@b.com" is challenged with `T1`; the code is then
      accepted with `A1`/`R1`. The login page keeps `T1` for the code
      request, but hands over only `A1`. */
  lemma PasswordThenSecondFactor(a: AuthContext.Auth, u: User)
    ensures
      var challenge := AuthData(true, Some("T1"), None, None, None);
      var typed := LoginPage.Run(LoginPage.Initial,
        [LoginPage.Type(LoginPage.CorreoInput, "a@b.com"), LoginPage.Type(LoginPage.ContrasenaInput, "x")]);
      var p := LoginPage.Step(typed, LoginPage.Submit(Ok(challenge)));
      && typed.correo == "a@b.com" && typed.contrasena == "x"
      && LoginPage.ViewOf(p) == LoginPage.TwoFactorForm
      && p.tempToken == Some("T1")
      && var q := p.(otpCode := "000000");
         && LoginPage.TwoFactorRequest(q) == (Some("T1"), "000000")
         && var s := LoginPage.Submit2FA(q, Ok(AuthData(false, None, Some("A1"), Some("R1"), Some(u))));
            && s.exit == Some(Exit(LoginCall(Some("A1"), None, None), "/", false))
            && AuthContext.GetItem(AuthContext.Login(a, s.exit.value.call).store, AuthContext.AccessKey) == Some("A1")
            && AuthContext.GetItem(AuthContext.Login(a, s.exit.value.call).store, AuthContext.RefreshKey) == Some("undefined")
  {
    var acts := [LoginPage.Type(LoginPage.CorreoInput, "a@b.com"), LoginPage.Type(LoginPage.ContrasenaInput, "x")];
    var p1 := LoginPage.Step(LoginPage.Initial, acts[0]);
    assert p1 == LoginPage.Initial.(correo := "a@b.com");
    assert acts[1..] == [acts[1]];
    var p2 := LoginPage.Step(p1, acts[1]);
    assert LoginPage.Run(p1, acts[1..]) == LoginPage.Run(p2, []);
  }

  /** The same challenge reached through a magic link: here the page hands
      over all three values, and a later start finds the session again. */
  lemma MagicLinkThenSecondFactor(token: string, a: AuthContext.Auth, u: User)
    requires token != ""
    ensures
      var r := MagicVerifyPage.Redeem(Some(token), Ok(AuthData(true, Some("T1"), None, None, None)));
      && r.page.requires2FA && r.page.tempToken == Some("T1")
      && var s := MagicVerifyPage.Submit2FA(r.page.(otpCode := "000000"), Ok(AuthData(false, None, Some("A1"), Some("R1"), Some(u))));
         && s.exit.Some?
         && var stored := AuthContext.Login(a, s.exit.value.call).store;
            && AuthContext.GetItem(stored, AuthContext.AccessKey) == Some("A1")
            && AuthContext.GetItem(stored, AuthContext.RefreshKey) == Some("R1")
            && AuthContext.Rehydrate(AuthContext.Mounted(stored))
               == AuthContext.Booted(AuthContext.Auth(stored, Some(u), true, false))
  {
    UserCodec.ParseSerialize(u);
  }

  /** A direct magic-link session survives a restart: with truthy tokens the
      next start is authenticated with the returned user, or with the
      fallback user when none was returned. */
  lemma MagicLinkSessionSurvivesReload(token: string, data: AuthData, a: AuthContext.Auth)
    requires token != "" && !data.requires2FA
    requires Truthy(data.accessToken) && data.refreshToken.Some?
    ensures var r := MagicVerifyPage.Redeem(Some(token), Ok(data));
            && r.exit.Some?
            && var stored := AuthContext.Login(a, r.exit.value.call).store;
               && AuthContext.GetItem(stored, AuthContext.RefreshKey) == data.refreshToken
               && var b := AuthContext.Rehydrate(AuthContext.Mounted(stored));
                  && b.Booted? && b.auth.isAuthenticated
                  && b.auth.user == Some(data.user.GetOr(DefaultUser))
  {
    UserCodec.ParseSerialize(data.user.GetOr(DefaultUser));
  }

  /** A magic link that fails leaves storage and the session untouched:
      nothing is handed to `login`. */
  lemma FailedMagicLinkCreatesNoSession(token: Option<string>, answer: Reply<AuthData>)
    requires !Truthy(token) || !answer.Ok?
    ensures MagicVerifyPage.Redeem(token, answer).exit == None
    ensures !Truthy(token) ==> MagicVerifyPage.Redeem(token, answer).request == None
  {
  }
}
