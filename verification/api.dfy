/**
 * The request pipeline every API call goes through: the request hook that
 * builds the outgoing headers from the current token, and the response-error
 * hook that tears the session down when the server answers 401. Header names
 * are kept in the lower-case form the `Headers` object normalises them to.
 */
module Api {
  import opened Wrappers
  import opened ApiTypes
  import AuthStore

  const AcceptHeader := "accept"
  const AuthorizationHeader := "authorization"
  const JsonMediaType := "application/json"

  /** The status with which the server rejects missing or invalid credentials. */
  const Unauthorized: ErrorStatus := 401

  /** The login destination a rejected session is sent to. */
  const LoginPath := "/login"

  /** The value of the `Authorization` header for `token`. */
  function Bearer(token: string): (v: string)
    ensures |v| == |token| + 7 && v[..7] == "Bearer " && v[7..] == token
  {
    "Bearer " + token
  }

  /**
   * `onRequest`: copies the caller's headers, sets `Accept` on every request,
   * and sets `Authorization` when (and only when) the session holds a truthy token.
   */
  function OnRequest(headers: map<string, string>, auth: AuthStore.State): (h: map<string, string>)
    ensures AcceptHeader in h && h[AcceptHeader] == JsonMediaType
    ensures AuthStore.IsAuthenticated(auth) ==>
              AuthorizationHeader in h && h[AuthorizationHeader] == Bearer(auth.token.value)
    ensures !AuthStore.IsAuthenticated(auth) ==>
              (AuthorizationHeader in h <==> AuthorizationHeader in headers)
              && (AuthorizationHeader in headers ==> h[AuthorizationHeader] == headers[AuthorizationHeader])
    ensures forall name :: name != AcceptHeader && name != AuthorizationHeader ==>
              (name in h <==> name in headers)
              && (name in headers ==> h[name] == headers[name])
  {
    var withAccept := headers[AcceptHeader := JsonMediaType];
    if AuthStore.IsAuthenticated(auth) then
      withAccept[AuthorizationHeader := Bearer(auth.token.value)]
    else
      withAccept
  }

  /** The outcome of `onResponseError`: the session afterwards and the navigation it starts, if any. */
  datatype Interception = Interception(auth: AuthStore.State, navigation: Option<string>)

  /**
   * `onResponseError`: a 401 clears the session and navigates to the login page;
   * every other status passes through without effect.
   */
  function OnResponseError(auth: AuthStore.State, status: ErrorStatus): (r: Interception)
    ensures status == Unauthorized ==> AuthStore.SignedOut(r.auth) && r.navigation == Some(LoginPath)
    ensures status != Unauthorized ==> r.auth == auth && r.navigation.None?
  {
    if status == Unauthorized then Interception(AuthStore.ClearAuth(auth), Some(LoginPath))
    else Interception(auth, None)
  }

  // ---------------------------------------------------------------------------
  // Lemmas

  /** Without a caller-supplied one, the `Authorization` header is present iff the session is authenticated. */
  lemma AuthorizationIffAuthenticated(headers: map<string, string>, auth: AuthStore.State)
    requires AuthorizationHeader !in headers
    ensures AuthorizationHeader in OnRequest(headers, auth) <==> AuthStore.IsAuthenticated(auth)
  {
  }

  /** The headers of a request depend on the session only through its token. */
  lemma HeadersDependOnlyOnToken(headers: map<string, string>, a: AuthStore.State, b: AuthStore.State)
    requires a.token == b.token
    ensures OnRequest(headers, a) == OnRequest(headers, b)
  {
  }

  /** A signed-out session never sends a bearer credential of its own. */
  lemma NoBearerAfterClear(headers: map<string, string>, auth: AuthStore.State)
    requires AuthorizationHeader !in headers
    ensures AuthorizationHeader !in OnRequest(headers, AuthStore.ClearAuth(auth))
  {
  }

  /** A repeated 401 (two overlapping calls rejected) ends where a single one does. */
  lemma RepeatedUnauthorizedIsHarmless(auth: AuthStore.State)
    ensures OnResponseError(OnResponseError(auth, Unauthorized).auth, Unauthorized).auth
            == OnResponseError(auth, Unauthorized).auth
  {
  }
}
