/**
 * `restrictTo(...roles)`: the role gate in front of the administrative routes.
 * Its only effect is one call of `next`, with or without an `AppError`.
 */
module Admin {
  import opened Wrappers
  import opened Users
  import Errors

  /** The arguments of the `AppError` handed to `next`. */
  datatype ErrorInfo = ErrorInfo(message: string, statusCode: int)

  /** The single call of `next`: `error` is `None` for a plain `next()`. */
  datatype GateResult = Next(error: Option<ErrorInfo>)

  const NotLoggedIn := ErrorInfo("You are not logged in!", 401)
  const Forbidden := ErrorInfo("You don't have permission to perform this action", 403)

  /** The gate for a request carrying `user` (set by `isAuthenticated`), allowing the given roles. */
  function RestrictTo(roles: seq<string>, user: Option<User>): (r: GateResult)
    ensures r.error.None? <==> user.Some? && user.value.role in roles
    ensures user.None? ==> r.error == Some(NotLoggedIn)
    ensures user.Some? && user.value.role !in roles ==> r.error == Some(Forbidden)
  {
    if user.None? then Next(Some(NotLoggedIn))
    else if user.None? || user.value.role !in roles then Next(Some(Forbidden))
    else Next(None)
  }

  /** Only membership counts: role lists with the same members, in any order or multiplicity, decide alike. */
  lemma OnlyMembershipCounts(roles1: seq<string>, roles2: seq<string>, user: Option<User>)
    requires forall x :: x in roles1 <==> x in roles2
    ensures RestrictTo(roles1, user) == RestrictTo(roles2, user)
  {
  }

  /** With no roles listed, every logged-in user is refused with 403. */
  lemma EmptyRolesRefuseEveryone(user: User)
    ensures RestrictTo([], Some(user)) == Next(Some(Forbidden))
  {
  }

  /** Every refusal is a client error: the `AppError` built from it has status `"fail"`. */
  lemma RefusalsAreFailures(roles: seq<string>, user: Option<User>)
    ensures var r := RestrictTo(roles, user);
      r.error.Some? ==> r.error.value.statusCode in {401, 403} && Errors.Status(r.error.value.statusCode) == "fail"
  {
    Errors.StatusOfHttpCodes();
  }
}
