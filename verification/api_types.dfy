/**
 * Shapes of the payloads exchanged with the remote REST API: notifications,
 * users, authentication responses, response envelopes and error envelopes.
 * Only the fields the client logic reads are given meaning; the others are
 * carried so that records compare as wholes.
 */
module ApiTypes {
  import opened Wrappers

  /** The closed set of notification categories. */
  datatype NotificationKind =
    | NotifyInfo | NotifySuccess | NotifyWarning | NotifyError
    | NotifyEnrollment | NotifyCompletion | NotifyReminder

  /** One notification of the signed-in user. */
  datatype Notification = Notification(
    id: int,
    title: string,
    message: string,
    kind: NotificationKind,
    isRead: bool,
    relatedId: Option<int>,
    relatedType: Option<string>,
    createdAt: string
  )

  /** A user profile as the API returns it. */
  datatype User = User(
    id: int,
    username: string,
    email: string,
    fullName: string,
    phone: Option<string>,
    dateOfBirth: Option<string>,
    gender: Option<string>,
    address: Option<string>,
    imageUrl: Option<string>,
    userType: string,
    status: string,
    createdAt: string,
    updatedAt: Option<string>
  )

  /** The body of a successful login or registration. */
  datatype AuthResponse = AuthResponse(user: User, token: string)

  /** The envelope of a single-resource response. */
  datatype ApiResponse<T> = ApiResponse(success: bool, message: Option<string>, data: T)

  datatype Pagination = Pagination(currentPage: int, perPage: int, total: int, totalPages: int)

  datatype Links = Links(first: Option<string>, last: Option<string>, prev: Option<string>, next: Option<string>)

  /** The envelope of a collection response. */
  datatype PaginatedResponse<T> = PaginatedResponse(
    success: bool,
    data: seq<T>,
    pagination: Pagination,
    links: Links
  )

  /** One field's entry in a validation-error envelope: a message or a list of messages. */
  datatype FieldErrors = Message(text: string) | Messages(texts: seq<string>)

  /**
   * The decoded body of an error response. `errors` is `Some` exactly when the
   * body carries an `errors` object (an object is always truthy, even when it
   * has no keys); `message` is `None` when the body has no `message`.
   */
  datatype ErrorBody = ErrorBody(errors: Option<map<string, FieldErrors>>, message: Option<string>)

  /** An HTTP status from 400 to 599: the responses the fetch layer rejects (and runs its error hook on). */
  type ErrorStatus = s: int | 400 <= s < 600 witness 400

  /** The response attached to a rejected request; `body` is the decoded `_data`. */
  datatype ErrorResponse = ErrorResponse(status: ErrorStatus, body: Option<ErrorBody>)

  /**
   * The error an API call throws: `response` is absent when no response arrived
   * (a network failure); `data` is the error's own copy of the decoded body.
   */
  datatype FetchError = FetchError(response: Option<ErrorResponse>, data: Option<ErrorBody>)

  /**
   * What the server finally did with one request, as seen by the fetch layer.
   * The fetch layer retries a GET once after no answer or a 408, 409, 425, 429,
   * 500, 502, 503 or 504; a reply stands for the last attempt. A 401 is never
   * retried, so the response-error hook sees every 401 exactly once.
   */
  datatype Reply<T> =
    | Ok(data: T)                                        // a response with a status below 400 (or 600 and over), decoded
    | Rejected(status: ErrorStatus, body: Option<ErrorBody>)  // a 4xx or 5xx response
    | Unreachable                                        // no response at all

  /** The error a rejected or unreachable reply is thrown as. */
  function ErrorOf<T>(reply: Reply<T>): (e: FetchError)
    requires !reply.Ok?
    ensures reply.Rejected? ==> e.response == Some(ErrorResponse(reply.status, reply.body)) && e.data == reply.body
    ensures reply.Unreachable? ==> e.response.None? && e.data.None?
  {
    match reply
    case Rejected(status, body) => FetchError(Some(ErrorResponse(status, body)), body)
    case Unreachable => FetchError(None, None)
  }

  /** The value an awaited API call settles to. */
  function Settled<T>(reply: Reply<T>): (r: Result<T, FetchError>)
    ensures r.Success? <==> reply.Ok?
    ensures reply.Ok? ==> r.value == reply.data
    ensures !reply.Ok? ==> r.error == ErrorOf(reply)
  {
    if reply.Ok? then Success(reply.data) else Failure(ErrorOf(reply))
  }
}
