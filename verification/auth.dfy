/**
 * The session store: the bearer token and the signed-in user's profile,
 * persisted under one key of the browser's local storage. The storage entry is
 * part of the state (`storage` holds the raw text saved under that key), server
 * calls are replaced by their settled outcomes, and JSON encoding is a pair of
 * functions supplied by the caller. Client mode (`import.meta.client`) is
 * assumed throughout, so every storage access happens.
 */
module AuthStore {
  import opened Wrappers
  import opened ApiTypes

  /** Token, profile, and the raw text stored under the session key (if any). */
  datatype State = State(token: Option<string>, user: Option<User>, storage: Option<string>)

  /** The state the store starts in, before `init`; storage is whatever the browser kept. */
  function Fresh(storage: Option<string>): (s: State)
    ensures s.token.None? && s.user.None? && s.storage == storage
  {
    State(None, None, storage)
  }

  /** The object `save` serialises: both fields, `null` when absent. */
  datatype SavedRecord = SavedRecord(token: Option<string>, user: Option<User>)

  /**
   * What parsing a stored text can yield: the JSON `null`, on which reading a
   * property throws, or any other value, whose `token` and `user` properties
   * read as `None` when missing or `null`.
   */
  datatype Parsed = ParsedNull | ParsedValue(token: Option<string>, user: Option<User>)

  /** JSON encoding as the store uses it; `parse` yields `None` where `JSON.parse` throws. */
  datatype Json = Json(serialize: SavedRecord -> string, parse: string -> Option<Parsed>)

  /**
   * The assumption made of JSON: parsing what was serialised gives the fields
   * back, and a serialised object is never the empty (falsy) string.
   */
  ghost predicate Faithful(json: Json) {
    forall rec :: json.parse(json.serialize(rec)) == Some(ParsedValue(rec.token, rec.user))
                  && json.serialize(rec) != ""
  }

  // ---------------------------------------------------------------------------
  // Getters

  /** `isAuthenticated`: the token is present and, as JavaScript truthiness demands, non-empty. */
  predicate IsAuthenticated(s: State): (r: bool)
    ensures r ==> !SignedOut(s)
    ensures r <==> s.token.Some? && |s.token.value| > 0
  {
    s.token.Some? && s.token.value != ""
  }

  /** `fullName`: the profile's full name, or the empty string without a profile. */
  function FullName(s: State): (r: string)
    ensures s.user.None? ==> r == ""
    ensures s.user.Some? ==> r == s.user.value.fullName
  {
    match s.user
    case None => ""
    case Some(u) => u.fullName
  }

  /** `avatarUrl`: the profile's image reference, absent without a profile. */
  function AvatarUrl(s: State): (r: Option<string>)
    ensures s.user.None? ==> r.None?
    ensures s.user.Some? ==> r == s.user.value.imageUrl
  {
    match s.user
    case None => None
    case Some(u) => u.imageUrl
  }

  /** The session is gone: no token, no profile, no stored record. */
  predicate SignedOut(s: State) {
    s.token.None? && s.user.None? && s.storage.None?
  }

  // ---------------------------------------------------------------------------
  // Actions

  /**
   * `init`: restores token and profile from the stored record. An absent or
   * empty record is ignored; one that cannot be parsed, or parses to `null`,
   * is deleted and the in-memory session is left as it was.
   */
  function Init(s: State, json: Json): (r: State)
    ensures r.storage == s.storage || r.storage.None?
    ensures s.storage.None? || s.storage == Some("") ==> r == s
    ensures s.storage.Some? && s.storage.value != "" && !Readable(json.parse(s.storage.value)) ==>
              r == s.(storage := None)
    ensures s.storage.Some? && s.storage.value != "" && Readable(json.parse(s.storage.value)) ==>
              && r.storage == s.storage
              && r.token == json.parse(s.storage.value).value.token
              && r.user == json.parse(s.storage.value).value.user
  {
    match s.storage
    case None => s
    case Some(saved) =>
      if saved == "" then s
      else
        match json.parse(saved)
        case None => s.(storage := None)
        case Some(ParsedNull) => s.(storage := None)
        case Some(ParsedValue(token, user)) => s.(token := token, user := user)
  }

  /** A parse result from which `init` can read both fields. */
  predicate Readable(p: Option<Parsed>) {
    p.Some? && p.value.ParsedValue?
  }

  /** `save`: writes the current token and profile through to storage. */
  function Save(s: State, json: Json): (r: State)
    ensures r.token == s.token && r.user == s.user
    ensures r.storage.Some?
    ensures Faithful(json) ==>
              r.storage.value != "" && json.parse(r.storage.value) == Some(ParsedValue(s.token, s.user))
  {
    s.(storage := Some(json.serialize(SavedRecord(s.token, s.user))))
  }

  /** The commit shared by `login` and `register` once the server accepted the request. */
  function Authenticated(s: State, json: Json, auth: AuthResponse): (r: State)
    ensures r.token == Some(auth.token) && r.user == Some(auth.user)
    ensures Faithful(json) ==> Init(r, json) == r
  {
    Save(s.(token := Some(auth.token), user := Some(auth.user)), json)
  }

  /** `login`: on success both token and profile come from the response and are persisted. */
  function Login(s: State, json: Json, reply: Result<ApiResponse<AuthResponse>, FetchError>): (r: State)
    ensures reply.Failure? ==> r == s
    ensures reply.Success? ==>
              && r.token == Some(reply.value.data.token)
              && r.user == Some(reply.value.data.user)
              && r.storage == Some(json.serialize(SavedRecord(r.token, r.user)))
  {
    match reply
    case Failure(_) => s
    case Success(res) => Authenticated(s, json, res.data)
  }

  /** `register`: the same commit as `login`, for a registration request. */
  function Register(s: State, json: Json, reply: Result<ApiResponse<AuthResponse>, FetchError>): (r: State)
    ensures reply.Failure? ==> r == s
    ensures reply.Success? ==>
              && r.token == Some(reply.value.data.token)
              && r.user == Some(reply.value.data.user)
              && r.storage == Some(json.serialize(SavedRecord(r.token, r.user)))
  {
    Login(s, json, reply)
  }

  /** `fetchProfile`: on success only the profile is replaced, then persisted. */
  function FetchProfile(s: State, json: Json, reply: Result<ApiResponse<User>, FetchError>): (r: State)
    ensures reply.Failure? ==> r == s
    ensures reply.Success? ==>
              && r.token == s.token
              && r.user == Some(reply.value.data)
              && r.storage == Some(json.serialize(SavedRecord(s.token, r.user)))
  {
    match reply
    case Failure(_) => s
    case Success(res) => Save(s.(user := Some(res.data)), json)
  }

  /** `clearAuth`: the local invalidation primitive; performs no server call. */
  function ClearAuth(s: State): (r: State)
    ensures SignedOut(r)
    ensures !IsAuthenticated(r) && FullName(r) == ""
  {
    State(None, None, None)
  }

  /** The home destination `logout` navigates to. */
  const Home := "/"

  /** The result of `logout`: the new state and the destination it navigates to. */
  datatype LogoutResult = LogoutResult(state: State, navigation: string)

  /**
   * `logout`: the server call is attempted but its failure is swallowed; the
   * session is always cleared and the client always navigates home.
   */
  function Logout(s: State, reply: Result<(), FetchError>): (r: LogoutResult)
    ensures SignedOut(r.state)
    ensures r.navigation == Home
  {
    LogoutResult(ClearAuth(s), Home)
  }

  // ---------------------------------------------------------------------------
  // Lemmas

  /** Clearing twice is clearing once, and clearing a signed-out session changes nothing. */
  lemma ClearAuthIdempotent(s: State)
    ensures ClearAuth(ClearAuth(s)) == ClearAuth(s)
    ensures ClearAuth(s) == s <==> SignedOut(s)
  {
  }

  /** Saving and then restoring gives back the same token and profile, and keeps the record. */
  lemma SaveThenInit(s: State, json: Json)
    requires Faithful(json)
    ensures Init(Save(s, json), json) == Save(s, json)
    ensures Init(Save(s, json), json).token == s.token
    ensures Init(Save(s, json), json).user == s.user
  {
  }

  /** Restoring twice is restoring once. */
  lemma InitIdempotent(s: State, json: Json)
    ensures Init(Init(s, json), json) == Init(s, json)
  {
  }

  /** A session restored from a fresh start is authenticated exactly when the stored token is truthy. */
  lemma RestoreFromFreshStart(stored: string, json: Json, token: Option<string>, user: Option<User>)
    requires stored != "" && json.parse(stored) == Some(ParsedValue(token, user))
    ensures var r := Init(Fresh(Some(stored)), json);
            && (IsAuthenticated(r) <==> token.Some? && token.value != "")
            && r.user == user
            && r.storage == Some(stored)
  {
  }

  /** A record that cannot be parsed leaves a fresh start signed out, with the key removed. */
  lemma MalformedRecordLeavesSignedOut(stored: string, json: Json)
    requires stored != "" && (json.parse(stored).None? || json.parse(stored) == Some(ParsedNull))
    ensures SignedOut(Init(Fresh(Some(stored)), json))
  {
  }

  /** `logout` ends in the same state whatever the server answered. */
  lemma LogoutIgnoresServer(s: State, a: Result<(), FetchError>, b: Result<(), FetchError>)
    ensures Logout(s, a) == Logout(s, b)
    ensures Logout(s, a).state == ClearAuth(s)
  {
  }

  /** After `login` or `register` succeeds, the session survives a restart. */
  lemma LoginSurvivesRestart(s: State, json: Json, res: ApiResponse<AuthResponse>)
    requires Faithful(json)
    ensures var r := Login(s, json, Success(res));
            var restored := Init(Fresh(r.storage), json);
            restored.token == r.token && restored.user == r.user
  {
  }

  /** After `fetchProfile` succeeds, a restart restores the kept token and the new profile. */
  lemma ProfileSurvivesRestart(s: State, json: Json, res: ApiResponse<User>)
    requires Faithful(json)
    ensures var r := FetchProfile(s, json, Success(res));
            var restored := Init(Fresh(r.storage), json);
            restored.token == s.token && restored.user == Some(res.data)
  {
  }

  /** After `register` succeeds, the session survives a restart. */
  lemma RegisterSurvivesRestart(s: State, json: Json, res: ApiResponse<AuthResponse>)
    requires Faithful(json)
    ensures var r := Register(s, json, Success(res));
            var restored := Init(Fresh(r.storage), json);
            restored.token == Some(res.data.token) && restored.user == Some(res.data.user)
  {
  }

  /**
   * Authentication follows the token alone: a successful login or registration
   * authenticates iff the response's token is non-empty, a profile refresh or
   * a save never changes it, and clearing always ends it.
   */
  lemma AuthenticationFollowsToken(s: State, json: Json, res: ApiResponse<AuthResponse>,
                                   profile: Result<ApiResponse<User>, FetchError>)
    ensures IsAuthenticated(Login(s, json, Success(res))) <==> res.data.token != ""
    ensures IsAuthenticated(Register(s, json, Success(res))) <==> res.data.token != ""
    ensures IsAuthenticated(FetchProfile(s, json, profile)) == IsAuthenticated(s)
    ensures IsAuthenticated(Save(s, json)) == IsAuthenticated(s)
    ensures !IsAuthenticated(ClearAuth(s))
  {
  }

  /** The profile getters follow the profile: a refresh shows the new one, clearing shows none. */
  lemma ProfileGettersFollowUser(s: State, json: Json, res: ApiResponse<User>)
    ensures FullName(FetchProfile(s, json, Success(res))) == res.data.fullName
    ensures AvatarUrl(FetchProfile(s, json, Success(res))) == res.data.imageUrl
    ensures FullName(ClearAuth(s)) == "" && AvatarUrl(ClearAuth(s)).None?
  {
  }
}
