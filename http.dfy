/**
 * The errors a handler raises as an HTTPException, and the result of a handler:
 * either the response value or the error.
 */
module Http {

  /** An HTTPException: a status code and its `detail` message. */
  datatype HttpError = HttpError(status: int, detail: string)

  datatype Result<+T> = Ok(value: T) | Err(error: HttpError)

  // Raised by the handlers themselves.
  const Unauthorized := HttpError(401, "Unauthorized")
  const AuthorizationFailed := HttpError(401, "Authorization failed")
  const InvalidPassword := HttpError(401, "Invalid password")
  const CouldNotValidate := HttpError(401, "could not validate user")
  const IncorrectCredentials := HttpError(401, "Incorrect username or password")
  const UsernameExists := HttpError(400, "Username already exists")
  const PostNotFound := HttpError(404, "Post not found")
  const CommentNotFound := HttpError(404, "Comment not found")

  /** The framework's answer to a request whose parameters or body fail validation. */
  const Unprocessable := HttpError(422, "Unprocessable Entity")

  /** The framework's answer to an exception the handler does not catch. */
  const InternalError := HttpError(500, "Internal Server Error")
}
