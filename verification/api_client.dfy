/**
 * The two interceptors of the shared axios instance
 * (`src/services/apiClient.ts`). `localStorage` is reduced to the one slot
 * they use, the stored token; the toast and the `window.location` write
 * become emitted `Effect`s.
 *
 * The response interceptor is meant to stay silent for the startup
 * identity check, but as written it recognises that check by the URL
 * fragment `/auth/me`, which the identity request (`/users/get-current-user`)
 * does not contain. `HandleReply` is therefore parameterised by the test
 * that recognises the identity check: `OnReplyAsWritten` uses the fragment
 * test of the source, `OnReply` the test the comment in the source
 * describes. The session model uses `OnReplyAsWritten`.
 */
module ApiClient {
  import opened Wrappers
  import opened Http
  import opened Text
  import Api

  const ApiUrl := "http://localhost:4000/api/v1"
  /** The `localStorage` key the token is kept under. */
  const TokenKey := "token"
  const NetworkErrorText := "Network error. Please check your connection."
  const SessionExpiredText := "Your session has expired. Please log in again."
  /** The URL fragment the source tests to recognise the identity check. */
  const AuthCheckFragment := "/auth/me"

  /** A stored token that JavaScript treats as true in `if (token)`. */
  predicate HasToken(token: Option<string>) {
    token.Some? && token.value != ""
  }

  // ---------------------------------------------------------------------
  // Request interceptor
  // ---------------------------------------------------------------------

  type Headers = map<string, string>

  /** A request on its way out: the wrapper's call plus its headers. */
  datatype Outgoing = Outgoing(call: Api.Call, headers: Headers)

  /** The instance's default headers. */
  function DefaultHeaders(): Headers {
    map["Content-Type" := "application/json"]
  }

  /** The token a bearer `Authorization` value carries, if it is one. */
  function BearerToken(value: string): Option<string> {
    if |value| >= 7 && value[..7] == "Bearer " then Some(value[7..]) else None
  }

  /**
   * The request interceptor: with a stored token, the request leaves with
   * `Authorization: Bearer <token>`, which reads back as exactly that
   * token; with none, it leaves unchanged. No other header and nothing of
   * the call itself is touched.
   */
  function AttachToken(req: Outgoing, token: Option<string>): (r: Outgoing)
    ensures r.call == req.call
    ensures !HasToken(token) ==> r == req
    ensures HasToken(token) ==>
      "Authorization" in r.headers && BearerToken(r.headers["Authorization"]) == Some(token.value)
    ensures r.headers.Keys == req.headers.Keys + (if HasToken(token) then {"Authorization"} else {})
    ensures forall h :: h in req.headers && h != "Authorization" ==> r.headers[h] == req.headers[h]
  {
    if HasToken(token) then
      var value := "Bearer " + token.value;
      assert value[..7] == "Bearer " && value[7..] == token.value;
      req.(headers := req.headers["Authorization" := value])
    else req
  }

  // ---------------------------------------------------------------------
  // Response interceptor
  // ---------------------------------------------------------------------

  /** What the response interceptor leaves behind after one settled request. */
  datatype Settled<+T> = Settled(reply: Reply<T>, token: Option<string>, effects: seq<Effect>)

  /**
   * The response interceptor, with the identity-check test as a parameter.
   * A success passes through. A network failure shows a notice. A 401
   * removes the stored token and, unless the failing request was the
   * identity check, shows the expiry notice and reloads the root page.
   * Every failure is re-rejected unchanged; nothing but the token slot
   * changes.
   */
  function HandleReply<T>(reply: Reply<T>, token: Option<string>, isAuthCheck: string -> bool): (r: Settled<T>)
    ensures r.reply == reply
    ensures reply.Ok? ==> r.token == token && r.effects == []
    ensures reply.Err? && reply.error.NoResponse? ==>
      r.token == token && r.effects == [ToastError(NetworkErrorText)]
    ensures reply.Err? && reply.error.Status? && reply.error.code == 401 ==>
      r.token.None? &&
      (if isAuthCheck(reply.error.url) then r.effects == []
       else r.effects == [ToastError(SessionExpiredText), Reload("/")])
    ensures reply.Err? && reply.error.Status? && reply.error.code != 401 ==>
      r.token == token && r.effects == []
  {
    match reply
    case Ok(_) => Settled(reply, token, [])
    case Err(NoResponse) => Settled(reply, token, [ToastError(NetworkErrorText)])
    case Err(Status(code, url, _)) =>
      if code == 401 then
        if isAuthCheck(url) then Settled(reply, None, [])
        else Settled(reply, None, [ToastError(SessionExpiredText), Reload("/")])
      else Settled(reply, token, [])
  }

  /** The source's test: the URL contains `/auth/me`. */
  predicate IsAuthCheckAsWritten(url: string) {
    Contains(url, AuthCheckFragment)
  }

  /** The identity check the source means: the request for the current user. */
  predicate IsAuthCheck(url: string) {
    url == Api.Path(Api.GetCurrentUser)
  }

  /**
   * The response interceptor as the source writes it: a 401 is silent
   * exactly when the failing URL contains `/auth/me`.
   */
  function OnReplyAsWritten<T>(reply: Reply<T>, token: Option<string>): (r: Settled<T>)
    ensures reply.Err? && reply.error.Status? && reply.error.code == 401 ==>
      r.token.None? && (r.effects == [] <==> Contains(reply.error.url, AuthCheckFragment))
  {
    HandleReply(reply, token, IsAuthCheckAsWritten)
  }

  /**
   * The response interceptor with the identity check recognised by its
   * path: a 401 is silent exactly on the identity request.
   */
  function OnReply<T>(reply: Reply<T>, token: Option<string>): (r: Settled<T>)
    ensures reply.Err? && reply.error.Status? && reply.error.code == 401 ==>
      r.token.None? && (r.effects == [] <==> reply.error.url == Api.Path(Api.GetCurrentUser))
  {
    HandleReply(reply, token, IsAuthCheck)
  }

  // ---------------------------------------------------------------------
  // Properties
  // ---------------------------------------------------------------------

  /**
   * After the interceptor, no token is stored exactly when none was stored
   * before or the request came back 401, whatever the URL.
   */
  lemma TokenGoneIffUnauthorized<T>(reply: Reply<T>, token: Option<string>, isAuthCheck: string -> bool)
    ensures HandleReply(reply, token, isAuthCheck).token.None? <==>
      (token.None? || (reply.Err? && reply.error.Status? && reply.error.code == 401))
  {
  }

  /** The interceptor never sends the viewer to the root page while a token is still stored. */
  lemma ReloadOnlyWithoutToken<T>(reply: Reply<T>, token: Option<string>, isAuthCheck: string -> bool)
    ensures Reload("/") in HandleReply(reply, token, isAuthCheck).effects ==>
      HandleReply(reply, token, isAuthCheck).token.None?
  {
  }

  /** A URL without the letter `h` cannot contain the `/auth/me` fragment. */
  lemma LacksAuthFragment(url: string)
    requires 'h' !in url
    ensures !IsAuthCheckAsWritten(url)
  {
    assert AuthCheckFragment[4] == 'h';
    if Contains(url, AuthCheckFragment) {
      ContainsChar(url, AuthCheckFragment, 4);
    }
  }

  /** The identity path does not contain the `/auth/me` fragment (it has no `h`). */
  lemma IdentityPathLacksAuthFragment()
    ensures !IsAuthCheckAsWritten(Api.Path(Api.GetCurrentUser))
  {
    Api.IdentityPath();
    LacksAuthFragment(Api.Path(Api.GetCurrentUser));
  }

  /** Neither the login nor the registration path contains the `/auth/me` fragment. */
  lemma WritePathLacksAuthFragment(e: Api.Endpoint)
    requires e.Login? || e.Register?
    ensures !IsAuthCheckAsWritten(Api.Path(e))
  {
    if e.Login? {
      Api.LoginPath(e.email, e.password);
    } else {
      Api.RegisterPath(e.form);
    }
    LacksAuthFragment(Api.Path(e));
  }

  /**
   * As written, a 401 on the startup identity check is treated like any
   * expired session: the expiry notice is shown and the root page reloaded.
   */
  lemma StartupCheckNotSilentAsWritten<T>(token: Option<string>, message: Option<string>)
    ensures OnReplyAsWritten<T>(Err(Status(401, Api.Path(Api.GetCurrentUser), message)), token).effects
      == [ToastError(SessionExpiredText), Reload("/")]
  {
    IdentityPathLacksAuthFragment();
  }

  /** With the identity check recognised by its path, a 401 on it is silent. */
  lemma StartupCheckSilent<T>(token: Option<string>, message: Option<string>)
    ensures OnReply<T>(Err(Status(401, Api.Path(Api.GetCurrentUser), message)), token).effects == []
    ensures OnReply<T>(Err(Status(401, Api.Path(Api.GetCurrentUser), message)), token).token.None?
  {
  }

  /**
   * Every other request still gets the expiry notice and the reload on a
   * 401: the only well-formed endpoint with the identity path is the
   * identity check itself.
   */
  lemma OtherRequestsStillExpire<T>(e: Api.Endpoint, token: Option<string>, message: Option<string>)
    requires Api.WellFormed(e) && e != Api.GetCurrentUser
    ensures OnReply<T>(Err(Status(401, Api.Path(e), message)), token).effects
      == [ToastError(SessionExpiredText), Reload("/")]
  {
    if Api.Path(e) == Api.Path(Api.GetCurrentUser) {
      Api.IdentityPathUnique(e);
    }
  }
}
