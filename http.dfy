/** What a route handler hands back to the server: a status with either the
    `{ error }` JSON body or a success body, and the attributes of a cookie set
    on the response. */
module Http {

  datatype Response<T> =
    | ErrorResponse(status: int, error: string)
    | OkResponse(status: int, body: T)
  {
    function Status(): int {
      match this
      case ErrorResponse(s, _) => s
      case OkResponse(s, _) => s
    }
  }

  datatype Cookie = Cookie(
    name: string,
    value: string,
    httpOnly: bool,
    secure: bool,
    sameSite: string,
    maxAge: int,
    path: string)
}
