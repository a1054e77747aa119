/**
 * The auth service (src/services/authService.ts): sign-up, sign-in, password
 * change and the caller's own profile.
 */
module AuthService {
  import opened Wrappers
  import opened QueryUtils
  import opened UserModel
  import opened External
  import opened Database
  import opened ServiceOptions
  import opened FileRepository
  import opened UserRepository
  import UserService

  const UnknownCredentials := "Sorry, we don't recognize your credentials"
  const InvalidOldPassword := "The old password is invalid"

  /** What `register` and `login` answer: a token signed over the user's id, and the user. */
  datatype SignedIn = SignedIn(accessToken: string, user: UserView)

  /** The four fields `register` reads from its data. */
  datatype Registration = Registration(name: Option<string>, email: Option<string>, password: Option<string>, role: Option<string>)

  /** What `register` inserts: the name, the hash, the lowered email and the role as supplied. */
  function NewUserData(reg: Registration, hashed: string): (d: UserData)
    requires reg.email.Some?
    ensures d.email == Some(Lower(reg.email.value)) && d.password == Some(hashed)
    ensures d.name == reg.name && d.role == reg.role
    ensures d.(name := None, email := None, password := None, role := None) == UserModel.NoData
  {
    UserModel.NoData.(name := reg.name, password := Some(hashed), email := Some(Lower(reg.email.value)), role := reg.role)
  }

  /**
   * `register`: lowers the email (a missing one is a TypeError), looks it up,
   * hashes the password before refusing a registered email (so a missing
   * password is a HashError even then), inserts the new user and signs a
   * token over its id. The role is whatever the client sent.
   */
  method Register(env: Env, db: Store, reg: Registration, newId: Id, now: int) returns (r: Result<SignedIn>)
    requires db.Valid() && IsValidObjectId(newId) && newId !in db.users
    modifies db
    ensures db.Valid()
    ensures r.Err? ==> db.Contents() == old(db.Contents())
    ensures reg.email.None? ==> r == Err(TypeError)
    ensures reg.email.Some? && reg.password.None? ==> r == Err(HashError)
    ensures (reg.email.Some? && reg.password.Some? &&
             UserService.EmailRegistered(old(db.users), Lower(reg.email.value))) ==> r == Err(BadRequest(UserService.EmailInUse))
    ensures r.Ok? <==> (reg.email.Some? && reg.password.Some? &&
                        !UserService.EmailRegistered(old(db.users), Lower(reg.email.value)) &&
                        UserModel.Create(newId, NewUserData(reg, env.hash(reg.password.value)), now).Ok?)
    ensures r.Ok? ==> (
      var created := UserModel.Create(newId, NewUserData(reg, env.hash(reg.password.value)), now).value;
      db.Contents() == old(db.Contents()).(users := old(db.users)[newId := created]) &&
      r.value == SignedIn(env.sign(newId), View(env, db.Contents(), created)) &&
      created.email == Lower(reg.email.value) && created.role == reg.role.GetOr(Guest) &&
      created.password == Some(env.hash(reg.password.value)))
  {
    var snapshot := db.Contents();
    if reg.email.None? {
      return Err(TypeError);
    }
    var email := Lower(reg.email.value);
    var existing := FindByEmail(env, db.Contents(), email);
    var hashed := Hash(env, reg.password);
    if hashed.Err? {
      return hashed.PropagateFailure();
    }
    if existing.Some? {
      return Err(BadRequest(UserService.EmailInUse));
    }
    var data := NewUserData(reg, hashed.value);
    var record := UserModel.Create(newId, data, now);
    if record.Ok? {
      UserService.LookupCoversTheIndex(db.users, record.value);
      assert Lower(record.value.email) == email by {
        LoweredTextComparesTheSame(reg.email.value, reg.email.value);
      }
    }
    var newUser := UserRepository.Create(env, db, data, newId, now);
    if newUser.Err? {
      db.Restore(snapshot);
      return newUser.PropagateFailure();
    }
    return Ok(SignedIn(env.sign(newUser.value.user.id), newUser.value));
  }

  /**
   * `login`: lowers the email, finds the user ignoring case, reads its stored
   * password and compares; no user, no stored password and a mismatch all
   * fail with the same message. Nothing is written.
   */
  method Login(env: Env, c: Collections, email: Option<string>, password: Option<string>) returns (r: Result<SignedIn>)
    requires KeyedById(c)
    ensures email.None? ==> r == Err(TypeError)
    ensures r.Err? && r.error.BadRequest? ==> r.error.message == UnknownCredentials
    ensures email.Some? && !UserService.EmailRegistered(c.users, email.value) ==> r == Err(BadRequest(UnknownCredentials))
    ensures r.Ok? ==> (email.Some? && password.Some? &&
      exists id :: id in c.users && EqualsIgnoringCase(c.users[id].email, email.value) &&
        c.users[id].password.Some? && c.users[id].password.value != "" &&
        env.compare(password.value, c.users[id].password.value) &&
        r.value == SignedIn(env.sign(id), View(env, c, c.users[id])))
    ensures (email.Some? && password.Some? && UserService.EmailRegistered(c.users, email.value) &&
             forall id :: id in c.users && EqualsIgnoringCase(c.users[id].email, email.value) ==>
               c.users[id].password.Some? && c.users[id].password.value != "" &&
               env.compare(password.value, c.users[id].password.value)) ==> r.Ok?
  {
    if email.None? {
      return Err(TypeError);
    }
    forall id | id in c.users
      ensures EqualsIgnoringCase(c.users[id].email, Lower(email.value)) <==> EqualsIgnoringCase(c.users[id].email, email.value)
    {
      LoweredTextComparesTheSame(c.users[id].email, email.value);
    }
    var user := FindByEmail(env, c, Lower(email.value));
    if user.None? {
      return Err(BadRequest(UnknownCredentials));
    }
    ghost var id :| id in c.users && EqualsIgnoringCase(c.users[id].email, Lower(email.value)) &&
                    user.value == View(env, c, c.users[id]);
    assert user.value.user.id == id;
    var currentPassword := FindPassword(c.users, user.value.user.id);
    if currentPassword.Err? || currentPassword.value.None? || currentPassword.value.value == "" {
      return Err(BadRequest(UnknownCredentials));
    }
    var matches := Compare(env, password, currentPassword.value);
    if matches.Err? {
      return matches.PropagateFailure();
    }
    if !matches.value {
      return Err(BadRequest(UnknownCredentials));
    }
    return Ok(SignedIn(env.sign(user.value.user.id), user.value));
  }

  /**
   * `changePassword`: reads the caller's stored password (null for a caller
   * no longer stored, which bcrypt refuses), refuses a mismatching old
   * password, and stores the hash of the new one. It opens no transaction.
   */
  method ChangePassword(env: Env, db: Store, currentUser: Option<CurrentUser>, oldPassword: Option<string>,
                        newPassword: Option<string>) returns (r: Result<UserView>)
    requires db.Valid()
    modifies db
    ensures db.Valid()
    ensures r.Err? ==> db.Contents() == old(db.Contents())
    ensures currentUser.None? ==> r == Err(TypeError)
    ensures (currentUser.Some? && currentUser.value.id in old(db.users) && IsValidObjectId(currentUser.value.id) &&
             Compare(env, oldPassword, old(db.users)[currentUser.value.id].password) == Ok(false)) ==>
      r == Err(BadRequest(InvalidOldPassword))
    ensures r.Ok? ==> (currentUser.Some? && currentUser.value.id in old(db.users) &&
      var u := old(db.users)[currentUser.value.id];
      Compare(env, oldPassword, u.password) == Ok(true) && newPassword.Some? &&
      db.Contents() == old(db.Contents()).(users := old(db.users)[currentUser.value.id :=
        u.(password := Some(env.hash(newPassword.value)))]) &&
      r.value == View(env, db.Contents(), db.users[currentUser.value.id]))
    ensures (currentUser.Some? && currentUser.value.id in old(db.users) && IsValidObjectId(currentUser.value.id) &&
             Compare(env, oldPassword, old(db.users)[currentUser.value.id].password) == Ok(true) &&
             newPassword.Some?) ==> r.Ok?
  {
    if currentUser.None? {
      return Err(TypeError);
    }
    var id := currentUser.value.id;
    // A caller without an id has the empty id here, which the lookup refuses
    // with a CastError; with an undefined id `findById` finds nothing and the
    // error comes from comparing against a null hash instead. Either way the
    // request fails with nothing changed.
    var currentPassword := FindPassword(db.users, id);
    if currentPassword.Err? {
      return currentPassword.PropagateFailure();
    }
    var matches := Compare(env, oldPassword, currentPassword.value);
    if matches.Err? {
      return matches.PropagateFailure();
    }
    if !matches.value {
      return Err(BadRequest(InvalidOldPassword));
    }
    var hashed := Hash(env, newPassword);
    if hashed.Err? {
      return hashed.PropagateFailure();
    }
    var data := UserModel.NoData.(password := Some(hashed.value));
    assert id in db.users;
    assert UserModel.Update(db.users[id], data) == Ok(db.users[id].(password := Some(hashed.value)));
    r := UserRepository.Update(env, db, id, data);
  }

  /** What `updateProfile` receives: the user paths, and `avatar` as `filterId` reads it. */
  datatype Profile = Profile(fields: UserData, avatar: FileRef)

  /**
   * `updateProfile`: `_validate` is started but not awaited, so it gates
   * nothing; a missing profile fails `assert`; the avatar is replaced by the
   * id of a stored file or null (a missing avatar is a TypeError inside
   * `filterIds`); then the caller is updated, outside the transaction.
   */
  method UpdateProfile(env: Env, db: Store, currentUser: Option<CurrentUser>, profile: Option<Profile>)
    returns (r: Result<bool>)
    requires db.Valid()
    modifies db
    ensures db.Valid()
    ensures r.Err? ==> db.Contents() == old(db.Contents())
    ensures profile.None? ==> r == Err(AssertionError("profile is required"))
    ensures profile.Some? && profile.value.avatar.NullRef? ==> r == Err(TypeError)
    ensures profile.Some? && (RefKey(profile.value.avatar).Err? || !IsValidObjectId(RefKey(profile.value.avatar).value)) ==> r.Err?
    ensures r.Ok? ==> (r.value && currentUser.Some? && profile.Some? && currentUser.value.id in old(db.users) &&
      RefKey(profile.value.avatar).Ok? && IsValidObjectId(RefKey(profile.value.avatar).value) &&
      var key := RefKey(profile.value.avatar).value;
      var data := profile.value.fields.(avatar := Some(if key in old(db.files) then Some(key) else None));
      UserModel.Update(old(db.users)[currentUser.value.id], data).Ok? &&
      db.Contents() == old(db.Contents()).(users := old(db.users)[currentUser.value.id :=
        UserModel.Update(old(db.users)[currentUser.value.id], data).value]) &&
      db.users[currentUser.value.id].avatar == (if key in old(db.files) then Some(key) else None) &&
      (profile.value.fields.password.Some? ==> db.users[currentUser.value.id].password == profile.value.fields.password))
    ensures (profile.Some? && RefKey(profile.value.avatar).Ok? && IsValidObjectId(RefKey(profile.value.avatar).value) &&
             currentUser.Some? && currentUser.value.id in old(db.users) &&
             var key := RefKey(profile.value.avatar).value;
             var data := profile.value.fields.(avatar := Some(if key in old(db.files) then Some(key) else None));
             UserModel.Update(old(db.users)[currentUser.value.id], data).Ok? &&
             !EmailTaken(old(db.users), UserModel.Update(old(db.users)[currentUser.value.id], data).value)) ==> r.Ok?
  {
    if profile.None? {
      return Err(AssertionError("profile is required"));
    }
    var avatar := FilterId(db.files, profile.value.avatar);
    if avatar.Err? {
      return avatar.PropagateFailure();
    }
    if currentUser.None? {
      return Err(TypeError);
    }
    var data := profile.value.fields.(avatar := Some(avatar.value));
    var updated := UserRepository.Update(env, db, currentUser.value.id, data);
    if updated.Err? {
      return updated.PropagateFailure();
    }
    return Ok(true);
  }

  /**
   * `removeProfile`: `_validate` is not awaited; the caller's user is
   * destroyed, outside the transaction, NotFound when it is already gone.
   */
  method RemoveProfile(db: Store, currentUser: Option<CurrentUser>) returns (r: Result<bool>)
    requires db.Valid()
    modifies db
    ensures db.Valid()
    ensures currentUser.None? ==> r == Err(TypeError)
    ensures r.Err? ==> db.Contents() == old(db.Contents())
    ensures currentUser.Some? ==> (r.Ok? <==> currentUser.value.id in old(db.users) && IsValidObjectId(currentUser.value.id))
    ensures currentUser.Some? && r.Err? ==> r.error == FindOne(old(db.users), currentUser.value.id).error
    ensures r.Ok? ==> r.value && db.Contents() == old(db.Contents()).(users := old(db.users) - {currentUser.value.id})
  {
    if currentUser.None? {
      return Err(TypeError);
    }
    var destroyed := UserRepository.Destroy(db, currentUser.value.id);
    if destroyed.Err? {
      return destroyed.PropagateFailure();
    }
    return Ok(true);
  }
}
