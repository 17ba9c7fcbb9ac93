/**
 * The client as a whole: the session store, the notification store and the
 * log of navigations started, driven by user actions whose server calls all
 * pass through the request pipeline. Each action's server reply is an input;
 * a rejected reply runs the pipeline's response-error hook before the awaiting
 * store action sees the error.
 */
module Client {
  import opened Wrappers
  import opened ApiTypes
  import AuthStore
  import NotificationStore
  import Api
  import RouteGuard
  import Validators

  /** Both stores and every navigation started so far, oldest first. */
  datatype App = App(auth: AuthStore.State, notifications: NotificationStore.State, navigations: seq<string>)

  /** A freshly loaded client, before `init`, with whatever the browser kept in storage. */
  function Start(storage: Option<string>): (app: App)
    ensures !AuthStore.IsAuthenticated(app.auth) && app.auth.storage == storage
    ensures NotificationStore.Consistent(app.notifications) && app.notifications.items == []
    ensures app.navigations == []
  {
    App(AuthStore.Fresh(storage), NotificationStore.Initial, [])
  }

  /** An awaited API call: the client afterwards and what the caller's `await` yields. */
  datatype Call<T> = Call(app: App, result: Result<T, FetchError>)

  /** `apiFetch`: settles `reply`, running the response-error hook on a rejected one. */
  function ApiFetch<T>(app: App, reply: Reply<T>): (c: Call<T>)
    ensures c.result.Success? <==> reply.Ok?
    ensures reply.Ok? ==> c.result.value == reply.data
    ensures !reply.Ok? ==> c.result == Failure(ErrorOf(reply))
    ensures c.app.notifications == app.notifications
    ensures reply.Rejected? && reply.status == Api.Unauthorized ==>
              AuthStore.SignedOut(c.app.auth) && c.app.navigations == app.navigations + [Api.LoginPath]
    ensures !(reply.Rejected? && reply.status == Api.Unauthorized) ==> c.app == app
  {
    match reply
    case Rejected(status, _) =>
      var hook := Api.OnResponseError(app.auth, status);
      var started := if hook.navigation.Some? then [hook.navigation.value] else [];
      Call(app.(auth := hook.auth, navigations := app.navigations + started), Settled(reply))
    case _ => Call(app, Settled(reply))
  }

  /** The user actions of the client, each with the reply its server call receives. */
  datatype Action =
    | Restore
    | LogIn(login: Reply<ApiResponse<AuthResponse>>)
    | SignUp(registration: Reply<ApiResponse<AuthResponse>>)
    | RefreshProfile(profile: Reply<ApiResponse<User>>)
    | LogOut(logout: Reply<()>)
    | LoadNotifications(page: Reply<PaginatedResponse<Notification>>)
    | ReadNotification(readId: int, read: Reply<()>)
    | ReadAllNotifications(readAll: Reply<()>)
    | DeleteNotification(deleteId: int, delete: Reply<()>)
    | Visit(fullPath: string)

  /** The action's server call was answered with a 401. */
  predicate AnsweredUnauthorized(a: Action) {
    match a
    case Restore => false
    case LogIn(r) => r.Rejected? && r.status == Api.Unauthorized
    case SignUp(r) => r.Rejected? && r.status == Api.Unauthorized
    case RefreshProfile(r) => r.Rejected? && r.status == Api.Unauthorized
    case LogOut(r) => r.Rejected? && r.status == Api.Unauthorized
    case LoadNotifications(r) => r.Rejected? && r.status == Api.Unauthorized
    case ReadNotification(_, r) => r.Rejected? && r.status == Api.Unauthorized
    case ReadAllNotifications(r) => r.Rejected? && r.status == Api.Unauthorized
    case DeleteNotification(_, r) => r.Rejected? && r.status == Api.Unauthorized
    case Visit(_) => false
  }

  /** The action's server call failed (rejected or unreachable). */
  predicate CallFailed(a: Action) {
    match a
    case Restore => false
    case LogIn(r) => !r.Ok?
    case SignUp(r) => !r.Ok?
    case RefreshProfile(r) => !r.Ok?
    case LogOut(r) => !r.Ok?
    case LoadNotifications(r) => !r.Ok?
    case ReadNotification(_, r) => !r.Ok?
    case ReadAllNotifications(r) => !r.Ok?
    case DeleteNotification(_, r) => !r.Ok?
    case Visit(_) => false
  }

  /** The client after an action, and the error the action throws to its caller (if any). */
  datatype Step = Step(app: App, raised: Option<FetchError>)

  /** Performs one action; `json` is the JSON encoding and `encode` the URI-component encoding. */
  function Perform(app: App, json: AuthStore.Json, encode: string -> string, a: Action): (s: Step)
    ensures s.raised.Some? ==> CallFailed(a) && !a.LogOut?
    ensures CallFailed(a) && !a.LogOut? ==> s.raised.Some?
    ensures a.Visit? || a.Restore? ==> s.app.notifications == app.notifications
    ensures a.Visit? ==> s.app.auth == app.auth
  {
    match a
    case Restore =>
      Step(app.(auth := AuthStore.Init(app.auth, json)), None)
    case LogIn(reply) =>
      var c := ApiFetch(app, reply);
      Step(c.app.(auth := AuthStore.Login(c.app.auth, json, c.result)), c.result.Raised())
    case SignUp(reply) =>
      var c := ApiFetch(app, reply);
      Step(c.app.(auth := AuthStore.Register(c.app.auth, json, c.result)), c.result.Raised())
    case RefreshProfile(reply) =>
      var c := ApiFetch(app, reply);
      Step(c.app.(auth := AuthStore.FetchProfile(c.app.auth, json, c.result)), c.result.Raised())
    case LogOut(reply) =>
      var c := ApiFetch(app, reply);
      var out := AuthStore.Logout(c.app.auth, c.result);
      Step(c.app.(auth := out.state, navigations := c.app.navigations + [out.navigation]), None)
    case LoadNotifications(reply) =>
      var c := ApiFetch(app, reply);
      Step(c.app.(notifications := NotificationStore.Fetch(c.app.notifications, c.result)), c.result.Raised())
    case ReadNotification(id, reply) =>
      var c := ApiFetch(app, reply);
      Step(c.app.(notifications := NotificationStore.MarkAsRead(c.app.notifications, id, c.result)), c.result.Raised())
    case ReadAllNotifications(reply) =>
      var c := ApiFetch(app, reply);
      Step(c.app.(notifications := NotificationStore.MarkAllAsRead(c.app.notifications, c.result)), c.result.Raised())
    case DeleteNotification(id, reply) =>
      var c := ApiFetch(app, reply);
      Step(c.app.(notifications := NotificationStore.Remove(c.app.notifications, id, c.result)), c.result.Raised())
    case Visit(fullPath) =>
      match RouteGuard.Guard(app.auth, fullPath, encode)
      case None => Step(app, None)
      case Some(target) => Step(app.(navigations := app.navigations + [target]), None)
  }

  /** Performs the actions in order, ignoring the errors they throw. */
  function Run(app: App, json: AuthStore.Json, encode: string -> string, actions: seq<Action>): App
    decreases |actions|
  {
    if actions == [] then app
    else Run(Perform(app, json, encode, actions[0]).app, json, encode, actions[1..])
  }

  // ---------------------------------------------------------------------------
  // Lemmas

  /** Every action keeps the notification store's cached count in agreement with its list. */
  lemma PerformKeepsCountConsistent(app: App, json: AuthStore.Json, encode: string -> string, a: Action)
    requires NotificationStore.Consistent(app.notifications)
    ensures NotificationStore.Consistent(Perform(app, json, encode, a).app.notifications)
  {
    match a
    case ReadNotification(id, reply) =>
      NotificationStore.MarkAsReadPreservesConsistency(app.notifications, id, Settled(reply));
    case ReadAllNotifications(reply) =>
      NotificationStore.MarkAllAsReadPreservesConsistency(app.notifications, Settled(reply));
    case DeleteNotification(id, reply) =>
      NotificationStore.RemovePreservesConsistency(app.notifications, id, Settled(reply));
    case _ =>
  }

  /** From a fresh start, the cached count is right after any sequence of actions. */
  lemma {:induction false} RunKeepsCountConsistent(app: App, json: AuthStore.Json, encode: string -> string,
                                                   actions: seq<Action>)
    requires NotificationStore.Consistent(app.notifications)
    ensures NotificationStore.Consistent(Run(app, json, encode, actions).notifications)
    decreases |actions|
  {
    if actions != [] {
      PerformKeepsCountConsistent(app, json, encode, actions[0]);
      RunKeepsCountConsistent(Perform(app, json, encode, actions[0]).app, json, encode, actions[1..]);
    }
  }

  /**
   * A 401 on any call tears the session down. Every action but `logout` then
   * records exactly one navigation, to the login page; `logout` records that
   * one and then its own navigation home.
   */
  lemma UnauthorizedTearsDownSession(app: App, json: AuthStore.Json, encode: string -> string, a: Action)
    requires AnsweredUnauthorized(a)
    ensures var s := Perform(app, json, encode, a);
            && AuthStore.SignedOut(s.app.auth)
            && !AuthStore.IsAuthenticated(s.app.auth)
            && s.app.navigations == app.navigations + (if a.LogOut? then [Api.LoginPath, AuthStore.Home] else [Api.LoginPath])
            && (!a.LogOut? ==> s.raised.Some?)
  {
  }

  /** A failure other than 401 changes nothing but what the failing action is defined to do regardless. */
  lemma OtherFailuresCommitNothing(app: App, json: AuthStore.Json, encode: string -> string, a: Action)
    requires CallFailed(a) && !AnsweredUnauthorized(a) && !a.LogOut?
    ensures Perform(app, json, encode, a).app == app
    ensures Perform(app, json, encode, a).raised.Some?
  {
  }

  /** Signed in, then any call answered with a 401: signed out, with one more navigation, to the login page. */
  lemma LoginThenUnauthorized(app: App, json: AuthStore.Json, encode: string -> string,
                              res: ApiResponse<AuthResponse>, next: Action)
    requires res.data.token != ""
    requires AnsweredUnauthorized(next) && !next.LogOut?
    ensures var signedIn := Perform(app, json, encode, LogIn(Ok(res))).app;
            var after := Perform(signedIn, json, encode, next).app;
            && AuthStore.IsAuthenticated(signedIn.auth)
            && AuthStore.SignedOut(after.auth)
            && after.navigations == app.navigations + [Api.LoginPath]
  {
  }

  /** Visiting a protected page redirects exactly when the session is not authenticated, and touches no store. */
  lemma VisitOnlyNavigates(app: App, json: AuthStore.Json, encode: string -> string, fullPath: string)
    ensures var s := Perform(app, json, encode, Visit(fullPath));
            && s.app.auth == app.auth && s.app.notifications == app.notifications
            && (AuthStore.IsAuthenticated(app.auth) ==> s.app.navigations == app.navigations)
            && (!AuthStore.IsAuthenticated(app.auth) ==>
                  s.app.navigations == app.navigations + [RouteGuard.LoginRedirectPrefix + encode(fullPath)])
  {
  }

  /**
   * A login rejected with `{errors: {password: ["invalid"]}}` leaves the client
   * as it was and throws an error from which `{password: "invalid"}` is displayed.
   */
  lemma RejectedLoginReportsFieldErrors(app: App, json: AuthStore.Json, encode: string -> string)
    ensures var body := ErrorBody(Some(map["password" := Messages(["invalid"])]), None);
            var s := Perform(app, json, encode, LogIn(Rejected(422, Some(body))));
            && s.app == app
            && s.raised.Some?
            && Validators.WellFormedPayload(Validators.ErrorPayload(s.raised.value))
            && Validators.ParseApiErrors(s.raised.value) == map["password" := "invalid"]
  {
    var body := ErrorBody(Some(map["password" := Messages(["invalid"])]), None);
    var s := Perform(app, json, encode, LogIn(Rejected(422, Some(body))));
    assert s.raised == Some(FetchError(Some(ErrorResponse(422, Some(body))), Some(body)));
    assert Validators.ParseApiErrors(s.raised.value).Keys == {"password"};
  }
}
