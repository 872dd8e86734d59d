/** The admin capability (src/models/admin.rs): an `Admin` is only ever made from a
    user whose `is_admin` flag is set. */
module Admins {
  import opened AppErrors
  import Users

  datatype Admin = Admin(user: Users.User)

  /** `Admin::from_request_parts`, given the outcome of extracting the requesting user
      (that extraction is not part of this model). A failed extraction is passed on
      unchanged; an extracted user becomes an `Admin` exactly when it is an admin. */
  function FromRequestParts(extracted: Result<Users.User>): (r: Result<Admin>)
    ensures extracted.Err? ==> r == Err(extracted.error)
    ensures r.Ok? <==> extracted.Ok? && extracted.value.isAdmin
    ensures r.Ok? ==> r.value.user == extracted.value && r.value.user.isAdmin
    ensures extracted.Ok? && !extracted.value.isAdmin ==> r == Err(UnauthorizedError("user is not an admin"))
  {
    match extracted
    case Err(e) => Err(e)
    case Ok(user) => if user.isAdmin then Ok(Admin(user)) else Err(UnauthorizedError("user is not an admin"))
  }

  /** The gate is transparent for admins and opaque to everyone else: a non-admin is
      told only that it is not an admin, whoever it is. */
  lemma NonAdminsLookAlike(u1: Users.User, u2: Users.User)
    requires !u1.isAdmin && !u2.isAdmin
    ensures FromRequestParts(Ok(u1)) == FromRequestParts(Ok(u2))
    ensures IntoResponse(FromRequestParts(Ok(u1)).error) == Response(401, "user is not an admin")
  {
  }
}
