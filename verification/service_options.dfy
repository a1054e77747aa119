/**
 * What every service receives besides its arguments: the caller the API layer
 * attached to the request (`options.currentUser`), and the guard the user
 * and auth services run on it.
 */
module ServiceOptions {
  import opened Wrappers

  /**
   * The current user as far as the services read it. An id or email that is
   * missing is the empty text: both are falsy.
   */
  datatype CurrentUser = CurrentUser(id: string, email: string)

  /**
   * `_validate`: node's `assert` on the current user, then on its id, then on
   * its email, each with its own message.
   */
  function Validate(currentUser: Option<CurrentUser>): (r: Result<CurrentUser>)
    ensures r.Ok? <==> currentUser.Some? && currentUser.value.id != "" && currentUser.value.email != ""
    ensures r.Ok? ==> r.value == currentUser.value
    ensures currentUser.None? ==> r == Err(AssertionError("currentUser is required"))
    ensures currentUser.Some? && currentUser.value.id == "" ==> r == Err(AssertionError("currentUser.id is required"))
    ensures currentUser.Some? && currentUser.value.id != "" && currentUser.value.email == "" ==>
      r == Err(AssertionError("currentUser.email is required"))
  {
    if currentUser.None? then Err(AssertionError("currentUser is required"))
    else if currentUser.value.id == "" then Err(AssertionError("currentUser.id is required"))
    else if currentUser.value.email == "" then Err(AssertionError("currentUser.email is required"))
    else Ok(currentUser.value)
  }
}
