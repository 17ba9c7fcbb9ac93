# Session, notification and validation core of an e-learning web client

This project models, in Dafny, the client-side logic of an e-learning web
front end that talks to a remote REST API:

- the **session store** (`stores/auth.ts`): bearer token and user profile,
  persisted under one local-storage key, with `init`, `save`, `login`,
  `register`, `fetchProfile`, `logout` and `clearAuth`, and the getters
  `isAuthenticated`, `fullName` and `avatarUrl`;
- the **request pipeline** (`composables/useApi.ts`): the request hook that
  sets `Accept` and the bearer `Authorization` header, and the response-error
  hook that clears the session and sends the user to `/login` on a 401;
- the **route guard** (`middleware/auth.ts`): pass, or redirect to
  `/login?redirect=<encoded path>`;
- the **notification store** (`stores/notifications.ts`): the list plus a
  hand-maintained unread count, with `fetch`, `markAsRead`, `markAllAsRead`
  and `remove`;
- the **validators** (`utils/validators.ts`): `isValidEmail`, `isMinLength`,
  `isRequired`, `passwordsMatch` and `parseApiErrors`.

Every store action first awaits its server call and mutates local state only
afterwards, so each action is a pure function of the state and the settled
outcome of that call (`Result<T, FetchError>`). A server reply is an input
(`Reply<T>`: a resolved answer, a rejection with a status from 400 to 599, or no answer);
`Client.ApiFetch` runs the pipeline's response-error hook on it before the
awaiting action sees the error. Local storage is a field of the session state
(the raw text under the session key), JSON encoding is a pair of functions
given by the caller together with the round-trip assumption `Faithful`,
URI-component encoding is a function parameter, and navigations are appended
to a log.

Files: `wrappers.dfy` (Option, Result), `api_types.dfy` (payload shapes from
`types/notification.ts`, `types/user.ts`, `types/api.ts`), `notifications.dfy`,
`auth.dfy`, `api.dfy`, `guard.dfy`, `validators.dfy`, `client.dfy` (the stores,
pipeline and guard composed into one client state, with properties over any
action and any sequence of actions).

Behaviours of the code that are easy to misread, all modelled as written:

- `init` with a malformed record deletes the record but leaves the in-memory
  token and profile as they were; it does not empty them.
- `init` ignores a stored empty string (it is falsy), and treats a record that
  parses to JSON `null` as malformed (reading a property of `null` throws).
- The request hook keeps a caller-supplied `Authorization` header when the
  session has no truthy token; it only ever adds the bearer header.
- A token that is the empty string is non-null yet not authenticated.
- A 401 answer to `login`/`register`/`fetchProfile` clears the session (through
  the pipeline) rather than leaving it unchanged; a 401 answer to `logout`
  starts two navigations, to `/login` and then to `/`.
- The `success` flag of a resolved response envelope is never consulted.
- The fetch layer rejects, and runs the error hook, only for statuses 400 to 599; any other status resolves the call.
- `parseApiErrors` reports an empty map for a present but empty `errors`
  object, and the generic message for an empty `message`.

## Model

| member | source | states |
|---|---|---|
| NotificationStore.Unread | stores/notifications.ts:16 | the filter keeps only unread notifications of the list and every one of them, and is no longer than the list; how many it keeps (one per unread position) is fixed by `NotificationStore.UnreadCountIsPositionCount` |
| NotificationStore.FindIndex | stores/notifications.ts:39 | the result is the first position holding the id, and is absent exactly when no notification has that id |
| NotificationStore.Fetch | stores/notifications.ts:12-17 | on success the list is the response's data and the cached count agrees with it; on a thrown error nothing changes |
| NotificationStore.MarkAsRead | stores/notifications.ts:19-27 | failure, absent id or already-read first match: no change; unread first match: only that item becomes read and the count drops by exactly one |
| NotificationStore.MarkAllAsRead | stores/notifications.ts:29-34 | on success every item is read, with length, order and all other fields kept, and the count is zero; on failure nothing changes |
| NotificationStore.Remove | stores/notifications.ts:36-44 | failure or absent id: no change; otherwise exactly the first match is deleted, the rest keep their order, and the count drops iff that item was unread |
| NotificationStore.UnreadAppend | stores/notifications.ts:16 | the unread filter distributes over concatenation |
| NotificationStore.UnreadCountIsPositionCount | stores/notifications.ts:16 | the length of the unread filter equals the number of positions holding an unread notification |
| NotificationStore.ConsistentMeansCountOfUnread | stores/notifications.ts:16 | the invariant is exactly "cached count equals the number of unread notifications" |
| NotificationStore.InitialIsConsistent | stores/notifications.ts:6-9 | the empty initial store satisfies the invariant |
| NotificationStore.MarkAsReadPreservesConsistency | stores/notifications.ts:19-27 | `markAsRead` keeps the count invariant, whatever status the server answered |
| NotificationStore.MarkAllAsReadPreservesConsistency | stores/notifications.ts:29-34 | `markAllAsRead` keeps the count invariant |
| NotificationStore.RemovePreservesConsistency | stores/notifications.ts:36-44 | `remove` keeps the count invariant |
| NotificationStore.UnreadAfterUpdate | stores/notifications.ts:24-25 | replacing one item changes the unread count by the difference of the read flags |
| NotificationStore.UnreadAfterDelete | stores/notifications.ts:41-42 | deleting one item lowers the unread count by one iff it was unread |
| NotificationStore.NothingUnreadWhenAllRead | stores/notifications.ts:32-33 | a list with every item read has no unread items |
| AuthStore.Fresh | stores/auth.ts:6-9 | the store starts with no token and no profile, storage as the browser kept it |
| AuthStore.IsAuthenticated | stores/auth.ts:12 | authenticated exactly when a token is present and non-empty (JavaScript truthiness), which a signed-out state never is |
| AuthStore.AuthenticationFollowsToken | stores/auth.ts:12 | a successful login or registration authenticates iff the response's token is non-empty; a profile refresh or a save never changes authentication; clearing always ends it |
| AuthStore.FullName | stores/auth.ts:13 | empty without a profile, the profile's full name otherwise |
| AuthStore.AvatarUrl | stores/auth.ts:14 | absent without a profile, the profile's image reference otherwise |
| AuthStore.ProfileGettersFollowUser | stores/auth.ts:13-14 | after a profile refresh `fullName` and `avatarUrl` show the new profile's name and image; after clearing they are empty and absent |
| AuthStore.Init | stores/auth.ts:18-31 | absent or empty record: no change; unparsable or null record: record deleted, token and profile untouched; otherwise token and profile read from the record (missing fields as null), record kept |
| AuthStore.Save | stores/auth.ts:33-40 | token and profile unchanged; the stored record is non-empty and parses back to exactly the current token and profile |
| AuthStore.Authenticated | stores/auth.ts:48-50 | token and profile come from the response, and the resulting state is a fixed point of `init` |
| AuthStore.Login | stores/auth.ts:42-51 | success: token and profile from the response, both persisted; failure: state and storage unchanged |
| AuthStore.Register | stores/auth.ts:53-62 | the same commit-on-success, unchanged-on-failure contract as login |
| AuthStore.FetchProfile | stores/auth.ts:64-69 | success: only the profile is replaced, the token is kept, and both are persisted; failure: unchanged |
| AuthStore.ClearAuth | stores/auth.ts:80-86 | token, profile and stored record are all gone, so the session is unauthenticated with an empty full name |
| AuthStore.Logout | stores/auth.ts:71-78 | always ends signed out and navigating home |
| AuthStore.ClearAuthIdempotent | stores/auth.ts:80-86 | clearing twice equals clearing once, and clearing is a no-op exactly on a signed-out state |
| AuthStore.SaveThenInit | stores/auth.ts:18-40 | under the JSON round-trip assumption, `init` after `save` restores the same token and profile and keeps the record |
| AuthStore.InitIdempotent | stores/auth.ts:18-31 | running `init` twice equals running it once |
| AuthStore.RestoreFromFreshStart | stores/auth.ts:18-31 | from a fresh start, a readable record yields its profile and is authenticated iff its token is truthy |
| AuthStore.MalformedRecordLeavesSignedOut | stores/auth.ts:22-28 | from a fresh start, an unparsable or null record leaves the session signed out with the key removed |
| AuthStore.LogoutIgnoresServer | stores/auth.ts:71-78 | logout's outcome does not depend on the server's answer and equals `clearAuth` |
| AuthStore.ProfileSurvivesRestart | stores/auth.ts:64-69 | after a successful profile refresh, a restart restores the kept token and the new profile |
| AuthStore.RegisterSurvivesRestart | stores/auth.ts:53-62 | after a successful registration, a restart restores the token and profile from the response |
| AuthStore.LoginSurvivesRestart | stores/auth.ts:42-51 | after a successful login, a restart restores the same token and profile from storage |
| Api.Bearer | composables/useApi.ts:13 | the header value is `Bearer ` followed by exactly the token |
| Api.OnRequest | composables/useApi.ts:9-15 | `Accept: application/json` always; bearer header iff the token is truthy; otherwise a caller's `Authorization` is kept as given; every other caller header is preserved |
| Api.OnResponseError | composables/useApi.ts:16-21 | a 401 leaves the session signed out and navigates to `/login`; any other status changes nothing and navigates nowhere |
| Api.AuthorizationIffAuthenticated | composables/useApi.ts:12-14 | without a caller-supplied one, the `Authorization` header is present exactly when the session is authenticated |
| Api.HeadersDependOnlyOnToken | composables/useApi.ts:12-14 | request headers depend on the session only through the token |
| Api.NoBearerAfterClear | composables/useApi.ts:12-14 | after `clearAuth` no bearer header is added |
| Api.RepeatedUnauthorizedIsHarmless | composables/useApi.ts:16-21 | a second 401 leaves the session where the first one did |
| RouteGuard.Guard | middleware/auth.ts:1-7 | no redirect iff authenticated; the redirect is `/login?redirect=` followed by the encoded full path |
| RouteGuard.DecisionIgnoresTarget | middleware/auth.ts:4 | whether the guard redirects depends only on `isAuthenticated`, not on the path |
| RouteGuard.RedirectCarriesTarget | middleware/auth.ts:5 | the encoded path is recovered by stripping the fixed prefix from the redirect |
| Validators.Utf16LengthBounds | utils/validators.ts:6 | a text's UTF-16 length lies between its length and twice it, and equals it for Basic Multilingual Plane text |
| Validators.IsMinLength | utils/validators.ts:5-7 | for Basic Multilingual Plane text `isMinLength` holds iff the length is at least `min`; at least `min` characters always passes |
| Validators.TrimStart | utils/validators.ts:10 | the result is a suffix, everything dropped is white space, and it does not start with white space |
| Validators.TrimEnd | utils/validators.ts:10 | the result is a prefix, everything dropped is white space, and it does not end with white space |
| Validators.Trim | utils/validators.ts:10 | the result is a contiguous slice of the input with only white space outside it, and it neither starts nor ends with white space |
| Validators.IsRequired | utils/validators.ts:9-11 | `isRequired` holds iff the text contains a character that is not white space |
| Validators.PasswordsMatch | utils/validators.ts:13-15 | the entries match iff they have the same length and agree position by position |
| Validators.PasswordsMatchSymmetric | utils/validators.ts:13-15 | the order of the two entries does not matter |
| Validators.PatternGivesShape | utils/validators.ts:2 | every text the pattern matches has no white space, exactly one `@` with something before it, and a `.` after it with a character on each side |
| Validators.ShapeGivesPattern | utils/validators.ts:2 | every text of that shape is matched by the pattern |
| Validators.EmailPatternIsEmailShape | utils/validators.ts:2 | the pattern read literally holds iff the text has no white space, exactly one `@` with something before it, and after it a `.` with a character on each side |
| Validators.IsValidEmail | utils/validators.ts:1-3 | the one-pass scan accepts exactly the texts of that shape |
| Validators.ErrorPayload | utils/validators.ts:21 | the response's decoded body is read in preference to the error's own data |
| Validators.ParseApiErrors | utils/validators.ts:17-35 | with `errors`: exactly its keys, lists collapsed to their first message; else a non-empty `message` under `general`; else the generic message under `general` |
| Validators.ParsedMessagesComeFromServer | utils/validators.ts:23-32 | every reported message was sent by the server or is the generic message |
| Validators.ParsedErrorsEmptyOnlyForEmptyObject | utils/validators.ts:23-27 | the result is empty iff the payload carries an empty `errors` object |
| Client.ApiFetch | composables/useApi.ts:7-22 | the call succeeds iff the reply resolved (status outside 400-599), with its data; otherwise it throws the reply's status and body unchanged; a 401 signs out and appends one navigation to `/login`; anything else leaves the client unchanged |
| Client.Start | stores/notifications.ts:6-9 | a fresh client is unauthenticated, has an empty consistent notification list and no navigations |
| Client.Perform | stores/auth.ts:71-78 | an action other than `logout` throws exactly when its call failed (a 401 included), and `logout` never throws; the guard and `init` leave notifications alone |
| Client.PerformKeepsCountConsistent | stores/notifications.ts:11-45 | every client action, whatever status the server answered, keeps the unread-count invariant |
| Client.RunKeepsCountConsistent | stores/notifications.ts:11-45 | any sequence of actions keeps the unread-count invariant |
| Client.UnauthorizedTearsDownSession | composables/useApi.ts:16-21 | a 401 on any call ends signed out, with exactly one navigation to `/login` (logout adds its own to `/`), and still reaches every caller but logout's |
| Client.RejectedLoginReportsFieldErrors | utils/validators.ts:17-35 | a login rejected with `{errors: {password: ["invalid"]}}` leaves the client unchanged and throws an error displayed as `{password: "invalid"}` |
| Client.OtherFailuresCommitNothing | stores/auth.ts:42-69 | a failure other than 401 changes no store and no navigation, and is thrown to the caller |
| Client.LoginThenUnauthorized | composables/useApi.ts:16-21 | a login followed by any call but logout answered with 401 ends signed out with exactly one navigation to `/login` |
| Client.VisitOnlyNavigates | middleware/auth.ts:1-7 | the guard never touches either store, and records the redirect iff unauthenticated |

## Left out

- HTTP itself (base URL, endpoints, methods, request bodies such as the login credentials and the registration form data): a call is represented only by its reply, which is an input.
- Pinia reactivity and asynchronous interleaving: the model is sequential. Overlapping 401s are covered only by the idempotence of `clearAuth`; the race between a logout's delete and an in-flight login's save is not modelled.
- AuthStore.Login: local storage never fails in the model. In the browser `setItem` can throw (quota exceeded, storage blocked), and then `login`, `register` and `fetchProfile` have already changed token and profile in memory without persisting them, and throw.
- AuthStore.Logout: local storage never fails in the model. If `removeItem` throws inside `clearAuth`, `logout` throws before navigating home, so "always navigates home" holds only while storage works.
- AuthStore.Init: the `getItem` read is assumed to succeed; in the browser it sits outside the `try` and a blocked storage makes `init` throw.
- Local storage keys other than the session key; client mode is assumed, so the server-side-rendering branch (no storage access) is not modelled.
- JSON: `serialize`/`parse` are supplied functions. A stored `token` or `user` of the wrong JSON type cannot be expressed; the model types them as optional string and optional profile.
- `encodeURIComponent` is a supplied function; `navigateTo` is an appended log entry, and the promise the guard returns is not modelled.
- Api.OnRequest: the token and caller header values are taken as they are. The `Headers` object strips leading and trailing tab, space, CR and LF from each value, and throws a TypeError (the request is then never sent and no error hook runs) for a value holding NUL, CR, LF or a code unit above 0xFF; neither the clean-up nor the TypeError is modelled.
- Header names are taken in the lower-case form the `Headers` object normalises them to; case-insensitive merging of caller headers is not modelled.
- ParseApiErrors: requires every list of messages to be non-empty, because for an empty list the source stores `undefined` under the key, which a map of strings cannot hold.
- ParseApiErrors: error values and payloads of arbitrary JavaScript shape (a non-object payload, a non-string message) are not modelled; the payload is the typed error envelope.
- Validators.IsMinLength: `min` is an integer; fractional or NaN bounds, which JavaScript would accept, are not modelled.
- NotificationStore.MarkAsRead: notifications are values, so two list entries that are one shared JavaScript object (flagging one flags both) are not modelled; entries decoded from a response are distinct objects.
- NotificationStore.Fetch: a resolved reply's body is taken to have its declared shape, with a `data` array. A 2xx answer without one (for instance `{success: false, message: …}`, whose `success` flag is never checked, or an HTML fallback page) makes the source assign `undefined` to the list and then throw a TypeError from the filter before the count is recomputed: a partial commit that breaks the count invariant, which the model cannot express. Likewise `fetchProfile` on `{data: null}` stores a null profile.
- Reply: a reply is the final attempt of a request. The fetch layer's single automatic retry of a GET (after no answer or a 408, 409, 425, 429, 500, 502, 503 or 504) is not modelled; a 401 is never retried, so the response-error hook behaves as modelled.
- Client.Run: errors thrown by the actions are dropped, as when every caller catches them.
- The pagination and links of a collection response are carried but never read: the notification store uses only the data.
- The view models for courses, quizzes, payments, enrollments, reviews, certificates, categories and slides, and the framework configuration, have no behaviour and are not part of this model.
