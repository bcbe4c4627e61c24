/** Error values shared by the store and the authentication service.

    Go code here returns a (value, error) pair and callers branch on
    errors.Is(err, sentinel). The model keeps both halves of the pair, so
    that the zero value returned beside an error is part of what is stated,
    and describes an error by the sentinel errors.Is would match plus the
    operation names that each fmt.Errorf("%s: %w", op, err) wrapped around
    it. Message text is not modelled. */
module Errors {

  datatype Option<+T> = None | Some(value: T)

  /** The sentinels: storage.ErrUserExists, storage.ErrUserNotFound,
      storage.ErrAppNotFound and auth.ErrInvalidCredentials. Other stands
      for every error that matches none of them (driver, hashing, signing). */
  datatype Kind = UserExists | UserNotFound | AppNotFound | InvalidCredentials | Other

  /** An error chain: the sentinel at its root and the operation names
      wrapped around it, outermost first. */
  datatype Error = Error(kind: Kind, trail: seq<string>)

  /** A Go result pair: the value and, when the call failed, its error. */
  datatype Ret<+T> = Ret(value: T, err: Option<Error>)
  {
    predicate Ok() { err.None? }
  }

  /** fmt.Errorf("%s: %w", op, e): errors.Is still sees e's sentinel. */
  function Wrap(op: string, e: Error): (w: Error)
    ensures w.kind == e.kind
    ensures |w.trail| == |e.trail| + 1 && w.trail[0] == op && w.trail[1..] == e.trail
  {
    Error(e.kind, [op] + e.trail)
  }

  /** A bare sentinel, before anything wraps it. */
  function Sentinel(k: Kind): Error
  {
    Error(k, [])
  }
}
