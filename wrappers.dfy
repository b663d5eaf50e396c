/** Error values and the Result type that stand for Go's `(value, error)` returns. */
module Wrappers {

  /** The errors the modelled code can return. */
  datatype Error =
    | MissingRepository              // no `--repo` argument and no GITHUB_REPOSITORY value
    | InvalidFormat(repository: string) // the chosen "owner/repo" text does not split into two parts
    | ApiError(message: string)      // an error reported by the GitHub client (rate limit, transport, ...)

  /** The text of the error, as `fmt.Errorf` builds it. */
  function Message(e: Error): string
  {
    match e
    case MissingRepository =>
      "repository name not provided and GITHUB_REPOSITORY environment variable not set"
    case InvalidFormat(r) => "invalid repository name format: " + r
    case ApiError(m) => m
  }

  /** A value together with a possible error: `Err` is Go's non-nil `err`. */
  datatype Result<+T> = Ok(value: T) | Err(error: Error)

  datatype Option<+T> = None | Some(value: T)
}
