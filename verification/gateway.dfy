/** Outcomes of calls into the hosted auth/database client. The client itself is
    not modelled: every call a component makes appears as an input value saying
    what the call returned or threw. */
module Gateway {

  import opened Wrappers

  /** An authenticated identity; its contents are opaque to the components. */
  datatype User = User(id: string, email: string)

  /** A value thrown inside a handler. Handlers show `err.message` for an `Error`
      instance and a fixed fallback text for anything else. */
  datatype Thrown = ErrorValue(message: string) | NonErrorValue

  /** `err instanceof Error ? err.message : fallback`. */
  function MessageOr(t: Thrown, fallback: string): string {
    match t
    case ErrorValue(m) => m
    case NonErrorValue => fallback
  }

  /** What `auth.getUser()` did: resolved to `{ data: { user }, error }` (where
      `failed` says whether `error` was set), or threw. */
  datatype UserLookup = Answered(user: Option<User>, failed: bool) | Threw(thrown: Thrown)

  /** The user a lookup yields for callers that treat `error || !user` as "no
      valid session": present only for an error-free answer that names a user. */
  function ResolvedUser(l: UserLookup): (r: Option<User>)
    ensures r.Some? <==> l.Answered? && !l.failed && l.user.Some?
    ensures r.Some? ==> r == l.user
  {
    match l
    case Answered(u, failed) => if failed then None else u
    case Threw(_) => None
  }
}
