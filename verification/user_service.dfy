/**
 * The user service (src/services/user/userService.ts): the current-user
 * guard, duplicate-email rejection, password hashing, and the batch delete
 * that refuses to delete the caller.
 */
module UserService {
  import opened Wrappers
  import opened QueryUtils
  import opened UserModel
  import opened External
  import opened Database
  import opened ServiceOptions
  import opened UserRepository

  const EmailInUse := "Email Already In Use"
  const CannotDeleteYourself := "You can't delete yourself."

  /** Some stored user's email equals `email`, ignoring case: what `findByEmail` finds. */
  predicate EmailRegistered(users: map<Id, User>, email: string) {
    exists id :: id in users && EqualsIgnoringCase(users[id].email, email)
  }

  /**
   * The lookup before an insert is wider than the unique index: when no user
   * matches the lowered email ignoring case, no user holds the raw email
   * either, so the insert cannot hit a duplicate key.
   */
  lemma LookupCoversTheIndex(users: map<Id, User>, u: User)
    requires !EmailRegistered(users, Lower(u.email))
    ensures !EmailTaken(users, u)
  {
    forall other | other in users && other != u.id ensures users[other].email != u.email {
      LoweredTextComparesTheSame(users[other].email, u.email);
    }
  }

  /**
   * `create`: the guard, `assert(data.email)`, then "Email Already In Use"
   * when the lowered email is registered, then the hash of the password, then
   * the insert of the data with the hash as password; the email is stored as
   * supplied, not lowered. Every error aborts the transaction.
   */
  method Create(env: Env, db: Store, currentUser: Option<CurrentUser>, data: UserData, newId: Id, now: int)
    returns (r: Result<UserView>)
    requires db.Valid() && IsValidObjectId(newId) && newId !in db.users
    modifies db
    ensures db.Valid()
    ensures r.Err? ==> db.Contents() == old(db.Contents())
    ensures Validate(currentUser).Err? ==> r == Validate(currentUser).PropagateFailure()
    ensures Validate(currentUser).Ok? && (data.email.None? || data.email == Some("")) ==>
      r == Err(AssertionError("email is required"))
    ensures (Validate(currentUser).Ok? && data.email.Some? && data.email.value != "" &&
             EmailRegistered(old(db.users), Lower(data.email.value))) ==> r == Err(BadRequest(EmailInUse))
    ensures r.Ok? <==> (Validate(currentUser).Ok? && data.email.Some? && data.email.value != "" &&
                        !EmailRegistered(old(db.users), Lower(data.email.value)) && data.password.Some? &&
                        UserModel.Create(newId, data.(password := Some(env.hash(data.password.value))), now).Ok?)
    ensures r.Ok? ==> (
      var created := UserModel.Create(newId, data.(password := Some(env.hash(data.password.value))), now).value;
      db.Contents() == old(db.Contents()).(users := old(db.users)[newId := created]) &&
      r.value == View(env, db.Contents(), created) &&
      created.email == data.email.value && created.password == Some(env.hash(data.password.value)))
  {
    var snapshot := db.Contents();
    var caller :- Validate(currentUser);
    if data.email.None? || data.email.value == "" {
      return Err(AssertionError("email is required"));
    }
    var email := Lower(data.email.value);
    var existing := FindByEmail(env, db.Contents(), email);
    if existing.Some? {
      return Err(BadRequest(EmailInUse));
    }
    var hashed := Hash(env, data.password);
    if hashed.Err? {
      return hashed.PropagateFailure();
    }
    var record := UserModel.Create(newId, data.(password := Some(hashed.value)), now);
    if record.Ok? {
      LookupCoversTheIndex(db.users, record.value);
    }
    r := UserRepository.Create(env, db, data.(password := Some(hashed.value)), newId, now);
    if r.Err? {
      db.Restore(snapshot);
    }
  }

  /**
   * `{ ...data, ...(hashedPassword && { password: hashedPassword }) }`: a
   * truthy password is replaced by its hash (when the hash is itself
   * non-empty); an empty or missing one passes through, like every other path.
   */
  function WithHashedPassword(env: Env, data: UserData): (d: UserData)
    ensures d.(password := data.password) == data
    ensures data.password.Some? && data.password.value != "" && env.hash(data.password.value) != "" ==>
      d.password == Some(env.hash(data.password.value))
    ensures data.password.None? || data.password == Some("") ==> d == data
  {
    if data.password.Some? && data.password.value != "" && env.hash(data.password.value) != "" then
      data.(password := Some(env.hash(data.password.value)))
    else data
  }

  /**
   * `update`: the guard, then `findById` (so an absent id raises NotFound and
   * the `if (!user)` branch after it never runs), then the update with the
   * password hashed only when one is given. Every error aborts.
   */
  method Update(env: Env, db: Store, currentUser: Option<CurrentUser>, id: string, data: UserData)
    returns (r: Result<UserView>)
    requires db.Valid()
    modifies db
    ensures db.Valid()
    ensures r.Err? ==> db.Contents() == old(db.Contents())
    ensures Validate(currentUser).Err? ==> r == Validate(currentUser).PropagateFailure()
    ensures Validate(currentUser).Ok? && FindOne(old(db.users), id).Err? ==> r == FindOne(old(db.users), id).PropagateFailure()
    ensures r.Ok? ==> (Validate(currentUser).Ok? && id in old(db.users) &&
      UserModel.Update(old(db.users)[id], WithHashedPassword(env, data)).Ok? &&
      db.Contents() == old(db.Contents()).(users := old(db.users)[id :=
        UserModel.Update(old(db.users)[id], WithHashedPassword(env, data)).value]) &&
      r.value == View(env, db.Contents(), db.users[id]))
    ensures (Validate(currentUser).Ok? && FindOne(old(db.users), id).Ok? &&
             UserModel.Update(old(db.users)[id], WithHashedPassword(env, data)).Ok? &&
             !EmailTaken(old(db.users), UserModel.Update(old(db.users)[id], WithHashedPassword(env, data)).value)) ==> r.Ok?
  {
    var snapshot := db.Contents();
    var caller :- Validate(currentUser);
    var user := FindById(env, db.Contents(), id);
    if user.Err? {
      return user.PropagateFailure();
    }
    r := UserRepository.Update(env, db, id, WithHashedPassword(env, data));
    if r.Err? {
      db.Restore(snapshot);
    }
  }

  /** `_isRemovingHimself`: the batch names the caller's own id. */
  predicate IsRemovingHimself(ids: seq<string>, caller: CurrentUser) {
    caller.id in ids
  }

  /**
   * `destroyAll`: the guard, `assert(ids && ids.length)`, the self-deletion
   * refusal before anything is touched, then `findById` and `destroy` for
   * each id in order inside one transaction; the first id not found aborts
   * the whole batch.
   */
  method DestroyAll(env: Env, db: Store, currentUser: Option<CurrentUser>, ids: seq<string>) returns (r: Result<()>)
    requires db.Valid()
    modifies db
    ensures db.Valid()
    ensures r.Err? ==> db.Contents() == old(db.Contents())
    ensures Validate(currentUser).Err? ==> r == Validate(currentUser).PropagateFailure()
    ensures Validate(currentUser).Ok? && ids == [] ==> r == Err(AssertionError("ids is required"))
    ensures Validate(currentUser).Ok? && IsRemovingHimself(ids, currentUser.value) ==>
      r == Err(BadRequest(CannotDeleteYourself))
    ensures Validate(currentUser).Ok? && ids != [] && !IsRemovingHimself(ids, currentUser.value) ==>
      (r.Ok? <==> DeleteEach(old(db.users), ids).Ok?) &&
      (r.Err? ==> r.error == DeleteEach(old(db.users), ids).error)
    ensures r.Ok? ==> db.Contents() == old(db.Contents()).(users := DeleteEach(old(db.users), ids).value)
    ensures r.Ok? && currentUser.value.id in old(db.users) ==> currentUser.value.id in db.users
  {
    var snapshot := db.Contents();
    var caller :- Validate(currentUser);
    if ids == [] {
      return Err(AssertionError("ids is required"));
    }
    if IsRemovingHimself(ids, caller) {
      return Err(BadRequest(CannotDeleteYourself));
    }
    for k := 0 to |ids|
      invariant db.Valid()
      invariant db.Contents() == snapshot.(users := db.users)
      invariant DeleteEach(snapshot.users, ids) == DeleteEach(db.users, ids[k..])
    {
      assert ids[k..][0] == ids[k] && ids[k..][1..] == ids[k + 1..];
      var user := FindById(env, db.Contents(), ids[k]);
      if user.Err? {
        db.Restore(snapshot);
        return user.PropagateFailure();
      }
      var destroyed := UserRepository.Destroy(db, ids[k]);
    }
    assert ids[|ids|..] == [];
    DeleteEachMeaning(snapshot.users, ids);
    return Ok(());
  }
}
