/** The JSON error envelope the API handlers answer with, and the datastore error
    object they receive. Only the HTTP status and the `error` code are modelled;
    the Korean `message` text is left out. */
module Api {
  import opened Wrappers

  datatype ApiError = ApiError(status: int, code: string)

  /** The `error` object of a datastore response (only its `code` is read). */
  datatype DbError = DbError(code: string)

  const Unauthorized: ApiError := ApiError(401, "UNAUTHORIZED")
  const InvalidInput: ApiError := ApiError(400, "INVALID_INPUT")
  const InternalError: ApiError := ApiError(500, "INTERNAL_ERROR")

  /** A JavaScript string is truthy unless it is absent or empty. */
  predicate Truthy(s: Option<string>) {
    s.Some? && s.value != ""
  }

}
