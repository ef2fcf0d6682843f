/**
 * The session provider of `src/contexts/AuthContext.tsx`: the startup
 * identity check, login, register and logout, as atomic transitions of
 * the record `{storedToken, user, isLoading}`. Every request a
 * transition makes goes through the interceptors of `ApiClient` as the
 * source writes them, and its settled reply is a parameter of the
 * transition. `CheckAuthCorrected` is the startup check with the
 * identity request recognised by its path.
 */
module Session {
  import opened Wrappers
  import opened Http
  import opened Text
  import Api
  import ApiClient

  datatype User = User(id: string, userName: string, email: string, channelName: Option<string>, avatar: Option<string>)

  /** The provider's state: the `token` slot of `localStorage`, the user, the loading flag. */
  datatype Session = Session(storedToken: Option<string>, user: Option<User>, isLoading: bool)

  /** What one transition produces: the new state, its effects, the requests it sent, and the error it re-raises. */
  datatype Outcome = Outcome(session: Session, effects: seq<Effect>, calls: seq<ApiClient.Outgoing>, raised: Option<ClientError>)

  /** The `data` of a login response. */
  datatype LoginData = LoginData(accessToken: Option<string>, user: Option<User>)

  /** The `data` of a register response: the token field is called `token` here. */
  datatype RegisterData = RegisterData(token: Option<string>, user: Option<User>)

  /** The value the provider exposes to its consumers. */
  datatype ContextValue = ContextValue(user: Option<User>, isAuthenticated: bool, isLoading: bool)

  /** The result of `useAuth`: the context, or the message of the error it throws. */
  datatype Hook = Provided(value: ContextValue) | Thrown(message: string)

  const LoginSuccessText := "Logged in successfully!"
  const LoginFallbackText := "Login failed. Please try again."
  const RegisterSuccessText := "Account created successfully!"
  const RegisterFallbackText := "Registration failed. Please try again."
  const LogoutText := "Logged out successfully!"
  const OutsideProviderText := "useAuth must be used within an AuthProvider"

  /** The state on mount: whatever token storage holds, no user, loading. */
  function Boot(storedToken: Option<string>): Session {
    Session(storedToken, None, true)
  }

  /**
   * What `localStorage.setItem` stores for a response field: its text, or
   * the string `"undefined"` when the field is missing.
   */
  function Stored(field: Option<string>): (r: string)
    ensures field.Some? ==> r == field.value
    ensures field.None? ==> r == "undefined" && r != ""
  {
    match field
    case Some(t) => t
    case None => "undefined"
  }

  /** The headers a wrapper's request starts with: register overrides the content type. */
  function HeadersFor(e: Api.Endpoint): ApiClient.Headers {
    if e.Register? then ApiClient.DefaultHeaders()["Content-Type" := "multipart/form-data"]
    else ApiClient.DefaultHeaders()
  }

  /** The request a wrapper sends, after the request interceptor. */
  function Send(e: Api.Endpoint, token: Option<string>): (o: ApiClient.Outgoing)
    ensures o.call == Api.Request(e)
    ensures ApiClient.HasToken(token) ==>
      "Authorization" in o.headers && ApiClient.BearerToken(o.headers["Authorization"]) == Some(token.value)
    ensures !ApiClient.HasToken(token) ==> "Authorization" !in o.headers
  {
    ApiClient.AttachToken(ApiClient.Outgoing(Api.Request(e), HeadersFor(e)), token)
  }

  /**
   * The text a failed login or register shows: the server's `message` if
   * it has a non-empty one, else the fallback.
   */
  function ErrorText(e: ClientError, fallback: string): (r: string)
    ensures (e.Status? && e.message.Some? && e.message.value != "") ==> r == e.message.value
    ensures !(e.Status? && e.message.Some? && e.message.value != "") ==> r == fallback
  {
    if e.Status? && e.message.Some? && e.message.value != "" then e.message.value else fallback
  }

  // ---------------------------------------------------------------------
  // Transitions
  // ---------------------------------------------------------------------

  /**
   * The startup check, run once on mount, with the response interceptor's
   * identity-check test as a parameter. With no usable token it asks
   * nothing; otherwise it requests the current user with the token as
   * bearer and takes the user from the reply, or, on any failure, removes
   * the token. The interceptor shows the network notice when the server
   * was unreachable and, on a 401 it does not recognise as the identity
   * check, the expiry notice and a reload of the root page. Loading ends
   * in every case and nothing is re-raised.
   */
  function StartupCheck(storedToken: Option<string>, server: ServerReply<Envelope<Option<User>>>,
                        isAuthCheck: string -> bool): (r: Outcome)
    ensures !r.session.isLoading && r.raised.None?
    ensures !ApiClient.HasToken(storedToken) ==>
      r.calls == [] && r.effects == [] && r.session == Boot(storedToken).(isLoading := false)
    ensures ApiClient.HasToken(storedToken) ==>
      |r.calls| == 1 && Api.Resolve(r.calls[0].call) == Some(Api.GetCurrentUser) &&
      "Authorization" in r.calls[0].headers &&
      ApiClient.BearerToken(r.calls[0].headers["Authorization"]) == Some(storedToken.value)
    ensures ApiClient.HasToken(storedToken) && server.Answered? ==>
      r.session.user == server.body.data && r.session.storedToken == storedToken && r.effects == []
    ensures ApiClient.HasToken(storedToken) && !server.Answered? ==>
      r.session.user.None? && r.session.storedToken.None? &&
      r.effects == (if server.Unreachable? then [ToastError(ApiClient.NetworkErrorText)]
                    else if server.code == 401 && !isAuthCheck(Api.Path(Api.GetCurrentUser))
                    then [ToastError(ApiClient.SessionExpiredText), Reload("/")]
                    else [])
  {
    var s := Boot(storedToken);
    if !ApiClient.HasToken(storedToken) then
      Outcome(s.(isLoading := false), [], [], None)
    else
      Api.ResolveRequest(Api.GetCurrentUser);
      var call := Send(Api.GetCurrentUser, storedToken);
      var settled := ApiClient.HandleReply(Received(Api.Path(Api.GetCurrentUser), server), storedToken, isAuthCheck);
      match server
      case Answered(body) =>
        Outcome(Session(settled.token, body.data, false), settled.effects, [call], None)
      case _ =>
        Outcome(Session(None, s.user, false), settled.effects, [call], None)
  }

  /**
   * The startup check as the source runs it. The interceptor does not
   * recognise the identity request, so an expired token gets the expiry
   * notice and a reload of the root page, like any other request.
   */
  function CheckAuth(storedToken: Option<string>, server: ServerReply<Envelope<Option<User>>>): (r: Outcome)
    ensures !r.session.isLoading && r.raised.None?
    ensures !ApiClient.HasToken(storedToken) ==> r.calls == [] && r.effects == [] && r.session.user.None?
    ensures ApiClient.HasToken(storedToken) ==> |r.calls| == 1 && Api.Resolve(r.calls[0].call) == Some(Api.GetCurrentUser)
    ensures ApiClient.HasToken(storedToken) && server.Answered? ==>
      r.session.user == server.body.data && r.session.storedToken == storedToken && r.effects == []
    ensures ApiClient.HasToken(storedToken) && !server.Answered? ==>
      r.session.user.None? && r.session.storedToken.None? &&
      r.effects == (if server.Unreachable? then [ToastError(ApiClient.NetworkErrorText)]
                    else if server.code == 401 then [ToastError(ApiClient.SessionExpiredText), Reload("/")]
                    else [])
  {
    ApiClient.IdentityPathLacksAuthFragment();
    StartupCheck(storedToken, server, ApiClient.IsAuthCheckAsWritten)
  }

  /**
   * The startup check as the comment in the interceptor means it: a 401 on
   * the identity request removes the token silently.
   */
  function CheckAuthCorrected(storedToken: Option<string>, server: ServerReply<Envelope<Option<User>>>): (r: Outcome)
    ensures !r.session.isLoading && r.raised.None?
    ensures !ApiClient.HasToken(storedToken) ==> r.calls == [] && r.effects == [] && r.session.user.None?
    ensures ApiClient.HasToken(storedToken) ==> |r.calls| == 1 && Api.Resolve(r.calls[0].call) == Some(Api.GetCurrentUser)
    ensures ApiClient.HasToken(storedToken) && server.Answered? ==>
      r.session.user == server.body.data && r.session.storedToken == storedToken && r.effects == []
    ensures ApiClient.HasToken(storedToken) && !server.Answered? ==>
      r.session.user.None? && r.session.storedToken.None? &&
      r.effects == (if server.Unreachable? then [ToastError(ApiClient.NetworkErrorText)] else [])
  {
    StartupCheck(storedToken, server, ApiClient.IsAuthCheck)
  }

  /**
   * The correction changes nothing but the effects, and those only when a
   * stored token is refused with a 401.
   */
  lemma CorrectionSilencesOnlyStartup401(storedToken: Option<string>, server: ServerReply<Envelope<Option<User>>>)
    ensures CheckAuthCorrected(storedToken, server).session == CheckAuth(storedToken, server).session
    ensures CheckAuthCorrected(storedToken, server).calls == CheckAuth(storedToken, server).calls
    ensures CheckAuthCorrected(storedToken, server).effects != CheckAuth(storedToken, server).effects <==>
      ApiClient.HasToken(storedToken) && server.Refused? && server.code == 401
  {
  }

  /**
   * What the response interceptor does to a failed login or register: a
   * network failure shows its notice; a 401 removes the token, shows the
   * expiry notice and reloads the root page; any other status does
   * nothing.
   */
  lemma FailedWriteIntercepted<T>(e: Api.Endpoint, token: Option<string>, server: ServerReply<T>)
    requires (e.Login? || e.Register?) && !server.Answered?
    ensures ApiClient.OnReplyAsWritten(Received(Api.Path(e), server), token).token ==
      (if server.Refused? && server.code == 401 then None else token)
    ensures ApiClient.OnReplyAsWritten(Received(Api.Path(e), server), token).effects ==
      (if server.Unreachable? then [ToastError(ApiClient.NetworkErrorText)]
       else if server.code == 401 then [ToastError(ApiClient.SessionExpiredText), Reload("/")]
       else [])
  {
    ApiClient.WritePathLacksAuthFragment(e);
  }

  /**
   * Login: posts the credentials; on success stores the response's
   * `accessToken` under the token key, sets the user and announces it. On
   * failure the user is left alone, the token is removed only by a 401 (in
   * the response interceptor, which also shows the expiry notice and
   * reloads), the server's message or the fallback is shown and the error
   * is re-raised. Loading ends in every case.
   */
  function Login(s: Session, email: string, password: string, server: ServerReply<Envelope<LoginData>>): (r: Outcome)
    ensures !r.session.isLoading
    ensures |r.calls| == 1 && Api.Resolve(r.calls[0].call) == Some(Api.Login(email, password))
    ensures server.Answered? ==>
      r.session.storedToken == Some(Stored(server.body.data.accessToken)) &&
      r.session.user == server.body.data.user &&
      r.effects == [ToastSuccess(LoginSuccessText)] && r.raised.None?
    ensures !server.Answered? ==>
      var error := Received(Api.Path(Api.Login(email, password)), server).error;
      r.session.user == s.user &&
      r.session.storedToken == (if server.Refused? && server.code == 401 then None else s.storedToken) &&
      r.effects == ApiClient.OnReplyAsWritten(Received(Api.Path(Api.Login(email, password)), server), s.storedToken).effects
                   + [ToastError(ErrorText(error, LoginFallbackText))] &&
      r.raised == Some(error)
  {
    Api.ResolveRequest(Api.Login(email, password));
    var e := Api.Login(email, password);
    var call := Send(e, s.storedToken);
    var reply := Received(Api.Path(e), server);
    var settled := ApiClient.OnReplyAsWritten(reply, s.storedToken);
    match server
    case Answered(body) =>
      Outcome(Session(Some(Stored(body.data.accessToken)), body.data.user, false),
              [ToastSuccess(LoginSuccessText)], [call], None)
    case _ =>
      FailedWriteIntercepted(e, s.storedToken, server);
      Outcome(Session(settled.token, s.user, false),
              settled.effects + [ToastError(ErrorText(reply.error, LoginFallbackText))], [call], Some(reply.error))
  }

  /**
   * Register: posts the form as multipart data; on success stores the
   * response's `token` field, sets the user and announces it. Failure is
   * handled as for login, with its own fallback text. Loading ends in
   * every case.
   */
  function Register(s: Session, form: FormData, server: ServerReply<Envelope<RegisterData>>): (r: Outcome)
    ensures !r.session.isLoading
    ensures |r.calls| == 1 && Api.Resolve(r.calls[0].call) == Some(Api.Register(form))
    ensures r.calls[0].call.body == Multipart(form) &&
      "Content-Type" in r.calls[0].headers && r.calls[0].headers["Content-Type"] == "multipart/form-data"
    ensures server.Answered? ==>
      r.session.storedToken == Some(Stored(server.body.data.token)) &&
      r.session.user == server.body.data.user &&
      r.effects == [ToastSuccess(RegisterSuccessText)] && r.raised.None?
    ensures !server.Answered? ==>
      var error := Received(Api.Path(Api.Register(form)), server).error;
      r.session.user == s.user &&
      r.session.storedToken == (if server.Refused? && server.code == 401 then None else s.storedToken) &&
      r.effects == ApiClient.OnReplyAsWritten(Received(Api.Path(Api.Register(form)), server), s.storedToken).effects
                   + [ToastError(ErrorText(error, RegisterFallbackText))] &&
      r.raised == Some(error)
  {
    Api.ResolveRequest(Api.Register(form));
    var e := Api.Register(form);
    var call := Send(e, s.storedToken);
    var reply := Received(Api.Path(e), server);
    var settled := ApiClient.OnReplyAsWritten(reply, s.storedToken);
    match server
    case Answered(body) =>
      Outcome(Session(Some(Stored(body.data.token)), body.data.user, false),
              [ToastSuccess(RegisterSuccessText)], [call], None)
    case _ =>
      FailedWriteIntercepted(e, s.storedToken, server);
      Outcome(Session(settled.token, s.user, false),
              settled.effects + [ToastError(ErrorText(reply.error, RegisterFallbackText))], [call], Some(reply.error))
  }

  /** Logout: removes the token and the user with no request, and announces it. */
  function Logout(s: Session): (r: Outcome)
    ensures r.session.storedToken.None? && r.session.user.None?
    ensures r.session.isLoading == s.isLoading
    ensures r.calls == [] && r.raised.None? && r.effects == [ToastSuccess(LogoutText)]
  {
    Outcome(Session(None, None, s.isLoading), [ToastSuccess(LogoutText)], [], None)
  }

  /** The value the provider exposes: `isAuthenticated` is `!!user`. */
  function Value(s: Session): (v: ContextValue)
    ensures v.user == s.user && v.isLoading == s.isLoading
    ensures v.isAuthenticated <==> s.user.Some?
  {
    ContextValue(s.user, s.user.Some?, s.isLoading)
  }

  /** `useAuth`: the provider's value, or an error outside any provider. */
  function UseAuth(context: Option<ContextValue>): (h: Hook)
    ensures context.Some? ==> h == Provided(context.value)
    ensures context.None? ==> h == Thrown(OutsideProviderText)
  {
    match context
    case Some(v) => Provided(v)
    case None => Thrown(OutsideProviderText)
  }

  // ---------------------------------------------------------------------
  // Page reloads and the session invariant
  // ---------------------------------------------------------------------

  /**
   * The state the viewer ends up in: a `Reload` effect throws the page
   * away and mounts the provider again over what storage holds.
   */
  function Settle(o: Outcome): Session {
    if Reloads(o.effects) then Boot(o.session.storedToken) else o.session
  }

  /** Whether a transition's effects load a page. */
  predicate Reloads(effects: seq<Effect>) {
    exists e :: e in effects && e.Reload?
  }

  /** A user in memory always comes with a stored token. */
  predicate Consistent(s: Session) {
    s.user.Some? ==> s.storedToken.Some?
  }

  /** The startup check ends consistent. */
  lemma CheckAuthConsistent(storedToken: Option<string>, server: ServerReply<Envelope<Option<User>>>)
    ensures Consistent(Settle(CheckAuth(storedToken, server)))
  {
  }

  /** Login keeps a consistent session consistent, once any reload has happened. */
  lemma LoginConsistent(s: Session, email: string, password: string, server: ServerReply<Envelope<LoginData>>)
    requires Consistent(s)
    ensures Consistent(Settle(Login(s, email, password, server)))
  {
    var o := Login(s, email, password, server);
    if server.Refused? && server.code == 401 {
      FailedWriteIntercepted(Api.Login(email, password), s.storedToken, server);
      assert o.effects[1].Reload?;
    }
  }

  /** Register keeps a consistent session consistent, once any reload has happened. */
  lemma RegisterConsistent(s: Session, form: FormData, server: ServerReply<Envelope<RegisterData>>)
    requires Consistent(s)
    ensures Consistent(Settle(Register(s, form, server)))
  {
    var o := Register(s, form, server);
    if server.Refused? && server.code == 401 {
      FailedWriteIntercepted(Api.Register(form), s.storedToken, server);
      assert o.effects[1].Reload?;
    }
  }

  /** Logout ends consistent and unauthenticated. */
  lemma LogoutSignsOut(s: Session)
    ensures Consistent(Logout(s).session) && !Value(Logout(s).session).isAuthenticated
  {
  }

  /**
   * An expired session ends signed out: after the reload, the startup
   * check finds no token, asks nothing and leaves no user.
   */
  lemma ReloadEndsSignedOut(o: Outcome, server: ServerReply<Envelope<Option<User>>>)
    requires Reloads(o.effects)
    requires o.session.storedToken.None?
    ensures CheckAuth(Settle(o).storedToken, server).calls == []
    ensures !Value(CheckAuth(Settle(o).storedToken, server).session).isAuthenticated
  {
  }
}
