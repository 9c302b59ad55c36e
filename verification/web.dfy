/** Vocabulary shared by the server, the backend controllers and the client:
    optional values, handler replies with their HTTP status, and the
    authenticated requester that the (unmodelled) auth middleware provides. */
module Web {

  datatype Option<+T> = None | Some(value: T) {
    function GetOr(default: T): T {
      match this
      case Some(v) => v
      case None => default
    }
  }

  /** Database identifiers and route parameters are strings. */
  type Id = string

  /** The three roles of a user account. */
  datatype Role = UserRole | AuthorRole | AdminRole

  /** `req.user` as the `protect` middleware sets it: the requester's id and role. */
  datatype Requester = Requester(id: Id, role: Role)

  /** What a handler sends back: a status with a payload, or a status with an error text. */
  datatype Reply<+T> = Success(status: int, data: T) | Failure(status: int, message: string)

  const OK := 200
  const CREATED := 201
  const BAD_REQUEST := 400
  const UNAUTHORIZED := 401
  const FORBIDDEN := 403
  const NOT_FOUND := 404
  const SERVER_ERROR := 500

  /** `err.response?.data?.error || fallback`: the server's message when it sent a non-empty one. */
  function ErrorText(serverMessage: Option<string>, fallback: string): (r: string)
    ensures serverMessage.Some? && serverMessage.value != "" ==> r == serverMessage.value
    ensures serverMessage.None? || serverMessage.value == "" ==> r == fallback
  {
    if serverMessage.Some? && serverMessage.value != "" then serverMessage.value else fallback
  }
}
