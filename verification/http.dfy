/** Failures that leave an endpoint as an HTTP error status, outside the response envelope. */
module Http {

  datatype HttpError = HttpError(status: int, detail: string)

  const OK: int := 200
  const BadRequest: int := 400
  const Unauthorized: int := 401
  const InternalServerError: int := 500

  /** Raised by signup when the username is taken. */
  const UserAlreadyExist: HttpError := HttpError(BadRequest, "User Already Exist")

  /** Raised by login on a bad username or password, and when a bearer token does not resolve. */
  const InvalidCredentials: HttpError := HttpError(Unauthorized, "Invalid credentials")

  /** What a lookup of a missing key turns into: the handler indexes `None` and fails. */
  const MissingRecord: HttpError := HttpError(InternalServerError, "Internal Server Error")
}
