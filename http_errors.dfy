/** The structured HTTP errors the manifest server and the GitHub hook
    return: a status code, a machine-readable reason, and the arguments the
    error's message template is filled with. Rendering the message text is
    the errors library's business and is not modelled. */
module HttpErrors {

  datatype HttpError = HttpError(code: int, reason: string, detail: seq<string>)

  /** An error as a handler sees it: one built from an error factory, or any
      other error, known by its message. */
  datatype AnyError = Structured(e: HttpError) | Plain(message: string)

  const StatusBadRequest: int := 400
  const StatusUnauthorized: int := 401
  const StatusForbidden: int := 403
  const StatusMethodNotAllowed: int := 405
  const StatusNotAcceptable: int := 406
  const StatusUnprocessableEntity: int := 422
  const StatusInternalServerError: int := 500
}
