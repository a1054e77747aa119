/** The `user` collection's schema. */
module UserModel {
  import opened Wrappers
  import opened QueryUtils
  import opened SchemaTypes

  /** A stored user. `password` holds a hash and is left out of query results unless selected. */
  datatype User = User(
    id: Id,
    name: Option<string>,
    email: string,
    password: Option<string>,
    phoneNumber: Option<string>,
    avatar: Option<Id>,
    birthday: Option<string>,
    cpf: Option<string>,
    status: string,
    role: string,
    province: Option<string>,
    city: Option<string>,
    street: Option<string>,
    zipCode: Option<string>,
    createdAt: int)

  /**
   * A create or update document. `avatar` distinguishes a path left out
   * (`None`) from one set to null (`Some(None)`).
   */
  datatype UserData = UserData(
    name: Option<string>,
    email: Option<string>,
    password: Option<string>,
    phoneNumber: Option<string>,
    avatar: Option<Option<string>>,
    birthday: Option<string>,
    cpf: Option<string>,
    status: Option<string>,
    role: Option<string>,
    province: Option<string>,
    city: Option<string>,
    street: Option<string>,
    zipCode: Option<string>)

  const NoData := UserData(None, None, None, None, None, None, None, None, None, None, None, None, None)

  const Statuses: seq<string> := ["active", "deactive"]
  const Roles: seq<string> := ["guest", "admin"]
  const Guest := "guest"
  const Admin := "admin"

  predicate DataCasts(d: UserData) {
    d.avatar.None? || RefCasts(d.avatar.value)
  }

  /**
   * email required and at most 255 long; name and password at most 255;
   * phoneNumber, birthday, cpf, province, city, street and zipCode at most 63;
   * status and role in their enums.
   */
  predicate DataValidates(d: UserData) {
    IsPresent(d.email) && WithinLength(d.email, 255) &&
    WithinLength(d.name, 255) && WithinLength(d.password, 255) &&
    WithinLength(d.phoneNumber, 63) && WithinLength(d.birthday, 63) && WithinLength(d.cpf, 63) &&
    WithinLength(d.province, 63) && WithinLength(d.city, 63) && WithinLength(d.street, 63) &&
    WithinLength(d.zipCode, 63) &&
    InEnum(d.status, Statuses) && InEnum(d.role, Roles)
  }

  predicate IsValid(u: User) {
    IsValidObjectId(u.id) && u.email != "" && |u.email| <= 255 &&
    WithinLength(u.name, 255) && WithinLength(u.password, 255) &&
    WithinLength(u.phoneNumber, 63) && WithinLength(u.birthday, 63) && WithinLength(u.cpf, 63) &&
    WithinLength(u.province, 63) && WithinLength(u.city, 63) && WithinLength(u.street, 63) &&
    WithinLength(u.zipCode, 63) &&
    u.status in Statuses && u.role in Roles && RefCasts(u.avatar)
  }

  /** `User.create([data])`: status defaults to active and role to guest. */
  function Create(id: Id, d: UserData, now: int): (r: Result<User>)
    requires IsValidObjectId(id)
    ensures r.Ok? <==> DataCasts(d) && DataValidates(d)
    ensures r.Err? ==> r.error == ValidationError
    ensures r.Ok? ==> IsValid(r.value) && r.value.id == id && r.value.createdAt == now
    ensures r.Ok? ==> r.value.email == d.email.value && r.value.password == d.password
    ensures r.Ok? ==> r.value.status == d.status.GetOr("active") && r.value.role == d.role.GetOr(Guest)
  {
    if !(DataCasts(d) && DataValidates(d)) then Err(ValidationError)
    else Ok(User(id, d.name, d.email.value, d.password, d.phoneNumber, d.avatar.GetOr(None),
                 d.birthday, d.cpf, d.status.GetOr("active"), d.role.GetOr(Guest),
                 d.province, d.city, d.street, d.zipCode, now))
  }

  /** `User.updateOne({_id}, data)`: cast, no validators. */
  function Update(u: User, d: UserData): (r: Result<User>)
    ensures r.Ok? <==> DataCasts(d)
    ensures r.Err? ==> r.error == CastError
    ensures r.Ok? ==> r.value.id == u.id && r.value.createdAt == u.createdAt
    ensures r.Ok? && d == NoData ==> r.value == u
  {
    if !DataCasts(d) then Err(CastError)
    else Ok(User(u.id,
      OverwriteOptional(d.name, u.name), Overwrite(d.email, u.email),
      OverwriteOptional(d.password, u.password), OverwriteOptional(d.phoneNumber, u.phoneNumber),
      Overwrite(d.avatar, u.avatar),
      OverwriteOptional(d.birthday, u.birthday), OverwriteOptional(d.cpf, u.cpf),
      Overwrite(d.status, u.status), Overwrite(d.role, u.role),
      OverwriteOptional(d.province, u.province), OverwriteOptional(d.city, u.city),
      OverwriteOptional(d.street, u.street), OverwriteOptional(d.zipCode, u.zipCode),
      u.createdAt))
  }

  /** `select: false`: the password is not part of what a query returns. */
  function WithoutPassword(u: User): (r: User)
    ensures r.password.None? && r.id == u.id && r.email == u.email && r.avatar == u.avatar
  {
    u.(password := None)
  }

  /** The unique index on `email`: on the raw text, so case variants may coexist. */
  ghost predicate UniqueEmails(users: map<Id, User>) {
    forall a, b :: a in users && b in users && a != b ==> users[a].email != users[b].email
  }

  /** Writing `u` under `u.id` would break the unique index. */
  predicate EmailTaken(users: map<Id, User>, u: User) {
    exists other :: other in users && other != u.id && users[other].email == u.email
  }

  lemma WriteKeepsUniqueEmails(users: map<Id, User>, u: User)
    requires UniqueEmails(users) && !EmailTaken(users, u)
    ensures UniqueEmails(users[u.id := u])
  {
  }

  lemma RemoveKeepsUniqueEmails(users: map<Id, User>, id: Id)
    requires UniqueEmails(users)
    ensures UniqueEmails(users - {id})
  {
  }

  /**
   * The index compares the email text as it is: any two users whose emails
   * differ only in case may be stored side by side.
   */
  lemma CaseVariantsCoexist(a: User, b: User)
    requires a.id != b.id && a.email != b.email && Lower(a.email) == Lower(b.email)
    ensures UniqueEmails(map[a.id := a, b.id := b])
  {
  }

  /** Such pairs exist: `A@x.io` and `a@x.io` differ, yet agree once lower-cased. */
  lemma CaseVariantsExist()
    ensures "A@x.io" != "a@x.io" && Lower("A@x.io") == Lower("a@x.io")
  {
  }
}
