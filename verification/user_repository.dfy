/** The repository of the `user` collection (src/database/repositories/userRepository.ts). */
module UserRepository {
  import opened Wrappers
  import opened QueryUtils
  import opened UserModel
  import opened FileModel
  import opened External
  import opened Database
  import opened Ordering
  import opened FileRepository

  /** A user as queries return it: no password, and `avatar` hydrated or null. */
  datatype UserView = UserView(user: User, avatar: Option<FileView>)

  /** `populate('avatar')`: the referenced file, or nothing when the path is empty or dangling. */
  function PopulatedAvatar(files: map<Id, File>, u: User): Attachments {
    if u.avatar.Some? && u.avatar.value in files then OneFile(files[u.avatar.value]) else NoAttachment
  }

  /**
   * `_fillRelationsAndFileDownloadUrls`: null stays null; otherwise `avatar`
   * becomes the first of the cleaned-up attachments, or null.
   */
  function FillRelationsAndFileDownloadUrls(env: Env, files: map<Id, File>, record: Option<User>): (v: Option<UserView>)
    ensures v.None? <==> record.None?
    ensures v.Some? ==> v.value.user == record.value
    ensures v.Some? ==> (v.value.avatar.Some? <==> record.value.avatar.Some? && record.value.avatar.value in files)
    ensures v.Some? && v.value.avatar.Some? ==>
      v.value.avatar.value == FileView(files[record.value.avatar.value], DownloadUrlOf(env, files[record.value.avatar.value]))
  {
    if record.None? then None
    else
      var avatars := CleanupForRelationships(env, PopulatedAvatar(files, record.value));
      Some(UserView(record.value, if avatars.Some? then Some(avatars.value[0]) else None))
  }

  /** What every query answers for a stored user. */
  function View(env: Env, c: Collections, u: User): UserView {
    FillRelationsAndFileDownloadUrls(env, c.files, Some(WithoutPassword(u))).value
  }

  /** No query answer carries a password. */
  lemma ViewsHideThePassword(env: Env, c: Collections, u: User)
    ensures View(env, c, u).user.password.None?
    ensures View(env, c, u).user.id == u.id && View(env, c, u).user.email == u.email
  {
  }

  /** `findById`: `findById(id).populate('avatar')`, NotFound when absent. */
  function FindById(env: Env, c: Collections, id: string): (r: Result<UserView>)
    ensures r.Ok? <==> FindOne(c.users, id).Ok?
    ensures r.Err? ==> r.error == FindOne(c.users, id).error
    ensures r.Ok? ==> r.value == View(env, c, c.users[id])
  {
    var u :- FindOne(c.users, id);
    Ok(View(env, c, u))
  }

  /** `findPassword`: the stored password, null when the user is absent; `findById` fails to cast a text that is no ObjectId. */
  function FindPassword(users: map<Id, User>, id: string): (r: Result<Option<string>>)
    ensures IsValidObjectId(id) <==> r.Ok?
    ensures !IsValidObjectId(id) ==> r == Err(CastError)
    ensures IsValidObjectId(id) && id in users ==> r == Ok(users[id].password)
    ensures r.Ok? && r.value.Some? ==> id in users && users[id].password == r.value
    ensures IsValidObjectId(id) && id !in users ==> r == Ok(None)
  {
    if !IsValidObjectId(id) then Err(CastError)
    else if id !in users then Ok(None)
    else Ok(users[id].password)
  }

  /**
   * The two lookups by id agree on which ids they find; `findById` answers
   * the user without the password, which only `findPassword` gives.
   */
  lemma FindPasswordBesideFindById(env: Env, c: Collections, id: string)
    ensures FindById(env, c, id).Ok? <==> FindPassword(c.users, id).Ok? && id in c.users
    ensures FindById(env, c, id).Ok? ==>
      FindById(env, c, id).value.user.password.None? && FindPassword(c.users, id) == Ok(c.users[id].password)
  {
    if FindById(env, c, id).Ok? {
      ViewsHideThePassword(env, c, c.users[id]);
    }
  }

  /** `{ email: { $regex: ^escaped$, $options: 'i' } }`. */
  predicate EmailMatches(u: User, email: string) {
    RegexWhole(u.email, EscapeRegExp(email))
  }

  /**
   * `findByEmail`: some user whose whole email equals the given one ignoring
   * case (which one, if several, is up to MongoDB), or null.
   */
  method FindByEmail(env: Env, c: Collections, email: string) returns (r: Option<UserView>)
    ensures r.None? <==> forall id :: id in c.users ==> !EqualsIgnoringCase(c.users[id].email, email)
    ensures r.Some? ==> exists id :: id in c.users && EqualsIgnoringCase(c.users[id].email, email) &&
                                     r.value == View(env, c, c.users[id])
  {
    var found := set id | id in c.users && EmailMatches(c.users[id], email);
    forall id | id in c.users
      ensures EmailMatches(c.users[id], email) <==> EqualsIgnoringCase(c.users[id].email, email)
    {
      EscapedSearchIsLiteral(c.users[id].email, email);
    }
    if found == {} {
      forall id | id in c.users ensures !EqualsIgnoringCase(c.users[id].email, email) {
        assert id !in found;
      }
      return None;
    }
    var id :| id in found;
    return Some(View(env, c, c.users[id]));
  }

  /** `findAndCountAll`'s filter; an empty text is a filter that is not given. */
  datatype UserFilter = UserFilter(id: string, name: string, email: string, role: string, status: string, phoneNumber: string)

  /** One element pushed on `criteriaAnd`. */
  datatype Criterion =
    | IdIs(id: Id)
    | NameMatches(pattern: string)
    | EmailContains(pattern: string)
    | RoleIs(role: string)
    | StatusIs(status: string)
    | PhoneNumberIs(phoneNumber: string)

  predicate Satisfies(u: User, c: Criterion) {
    match c
    case IdIs(id) => u.id == id
    case NameMatches(p) => u.name.Some? && RegexContains(u.name.value, p)
    case EmailContains(p) => RegexContains(u.email, p)
    case RoleIs(role) => u.role == role
    case StatusIs(status) => u.status == status
    case PhoneNumberIs(phone) => u.phoneNumber == Some(phone)
  }

  /** `{ $and: criteria }`, or `null` for no criteria: both demand every element. */
  predicate SatisfiesAll(u: User, criteria: seq<Criterion>) {
    forall c :: c in criteria ==> Satisfies(u, c)
  }

  /**
   * What the filter means: each given field narrows the result: id through
   * `uuid`, name and email as literal substrings ignoring case, role, status
   * and phoneNumber exactly.
   */
  predicate MatchesFilter(u: User, f: UserFilter, generated: Id) {
    (f.id == "" || u.id == Uuid(f.id, generated)) &&
    (f.name == "" || (u.name.Some? && ContainsIgnoringCase(u.name.value, f.name))) &&
    (f.email == "" || ContainsIgnoringCase(u.email, f.email)) &&
    (f.role == "" || u.role == f.role) &&
    (f.status == "" || u.status == f.status) &&
    (f.phoneNumber == "" || u.phoneNumber == Some(f.phoneNumber))
  }

  /** The `criteriaAnd.push(...)` sequence of `findAndCountAll`: one criterion per given field, in order. */
  function Criteria(f: UserFilter, generated: Id): (criteria: seq<Criterion>)
    ensures criteria == [] <==> f == UserFilter("", "", "", "", "", "")
  {
    When(f.id != "", IdIs(Uuid(f.id, generated))) +
    When(f.name != "", NameMatches(EscapeRegExp(f.name))) +
    When(f.email != "", EmailContains(EscapeRegExp(f.email))) +
    When(f.role != "", RoleIs(f.role)) +
    When(f.status != "", StatusIs(f.status)) +
    When(f.phoneNumber != "", PhoneNumberIs(f.phoneNumber))
  }

  /** The escaped regular expressions select exactly what the filter means. */
  lemma CriteriaMeanFilter(u: User, f: UserFilter, generated: Id)
    ensures SatisfiesAll(u, Criteria(f, generated)) <==> MatchesFilter(u, f, generated)
  {
    SearchCriteriaMean(u, f.name, f.email);
    var p1 := When(f.id != "", IdIs(Uuid(f.id, generated)));
    var p2 := p1 + When(f.name != "", NameMatches(EscapeRegExp(f.name)));
    var p3 := p2 + When(f.email != "", EmailContains(EscapeRegExp(f.email)));
    var p4 := p3 + When(f.role != "", RoleIs(f.role));
    var p5 := p4 + When(f.status != "", StatusIs(f.status));
    SatisfiesWhen(u, f.id != "", IdIs(Uuid(f.id, generated)));
    SatisfiesAfter(u, p1, f.name != "", NameMatches(EscapeRegExp(f.name)));
    SatisfiesAfter(u, p2, f.email != "", EmailContains(EscapeRegExp(f.email)));
    SatisfiesAfter(u, p3, f.role != "", RoleIs(f.role));
    SatisfiesAfter(u, p4, f.status != "", StatusIs(f.status));
    SatisfiesAfter(u, p5, f.phoneNumber != "", PhoneNumberIs(f.phoneNumber));
  }

  /** The name and email criteria select the literal texts, ignoring case. */
  lemma SearchCriteriaMean(u: User, name: string, email: string)
    ensures Satisfies(u, NameMatches(EscapeRegExp(name))) <==> u.name.Some? && ContainsIgnoringCase(u.name.value, name)
    ensures Satisfies(u, EmailContains(EscapeRegExp(email))) <==> ContainsIgnoringCase(u.email, email)
  {
    if u.name.Some? { EscapedSearchIsLiteral(u.name.value, name); }
    EscapedSearchIsLiteral(u.email, email);
  }

  lemma SatisfiesWhen(u: User, given: bool, c: Criterion)
    ensures SatisfiesAll(u, When(given, c)) <==> !given || Satisfies(u, c)
  {
    if given {
      assert c in When(given, c);
    }
  }

  /** One more optional criterion narrows what the ones before it select. */
  lemma SatisfiesAfter(u: User, prefix: seq<Criterion>, given: bool, c: Criterion)
    ensures SatisfiesAll(u, prefix + When(given, c)) <==> SatisfiesAll(u, prefix) && (!given || Satisfies(u, c))
  {
    SatisfiesWhen(u, given, c);
  }

  /** The sort key of a column; a column the schema lacks sorts every user as missing. */
  function SortKey(column: string): User -> SortValue {
    (u: User) =>
      if column == "_id" then ObjectIdValue(u.id)
      else if column == "createdAt" then Date(u.createdAt)
      else if column == "email" then SortValue.Text(u.email)
      else if column == "name" then (if u.name.Some? then SortValue.Text(u.name.value) else Missing)
      else if column == "role" then SortValue.Text(u.role)
      else if column == "status" then SortValue.Text(u.status)
      else if column == "phoneNumber" then (if u.phoneNumber.Some? then SortValue.Text(u.phoneNumber.value) else Missing)
      else Missing
  }

  function ViewsOf(env: Env, c: Collections, users: seq<User>): (r: seq<UserView>)
    ensures |r| == |users| && forall i :: 0 <= i < |users| ==> r[i] == View(env, c, users[i])
  {
    seq(|users|, i requires 0 <= i < |users| => View(env, c, users[i]))
  }

  /**
   * `findAndCountAll`: the users matching every given filter, sorted, skipped
   * and limited (0 meaning none), and the number of matches under the same
   * criteria.
   */
  method FindAndCountAll(env: Env, c: Collections, f: UserFilter, limit: nat, offset: nat,
                         orderBy: string, generated: Id)
    returns (rows: seq<UserView>, count: nat)
    ensures count == |MatchingIds(c.users, (u: User) => MatchesFilter(u, f, generated))|
    ensures exists found :: (rows == ViewsOf(env, c, found) &&
                             IsQueryAnswer(c.users, (u: User) => MatchesFilter(u, f, generated),
                                           SortKey(SortOrNewestFirst(orderBy).column), DirectionOf(SortOrNewestFirst(orderBy).direction),
                                           offset, limit, found))
  {
    var criteria := Criteria(f, generated);
    forall id | id in c.users ensures SatisfiesAll(c.users[id], criteria) == MatchesFilter(c.users[id], f, generated) {
      CriteriaMeanFilter(c.users[id], f, generated);
    }
    var sort := SortOrNewestFirst(orderBy);
    var found;
    found, count := FindAndCount(c.users, (u: User) => SatisfiesAll(u, criteria),
                                 SortKey(sort.column), DirectionOf(sort.direction), offset, limit);
    EquivalentCriteria(c.users, (u: User) => SatisfiesAll(u, criteria), (u: User) => MatchesFilter(u, f, generated),
                       SortKey(sort.column), DirectionOf(sort.direction), offset, limit, found);
    rows := ViewsOf(env, c, found);
  }

  /** One autocomplete entry: `{ id, label: name, avatar: downloadUrl or null }`. */
  datatype AutocompleteOption = AutocompleteOption(id: Id, labelText: Option<string>, avatar: Option<string>)

  function OptionOf(env: Env, c: Collections, u: User): (o: AutocompleteOption)
    ensures o.id == u.id && o.labelText == u.name
    ensures o.avatar.Some? ==> View(env, c, u).avatar.Some? && o.avatar.value == View(env, c, u).avatar.value.downloadUrl
    ensures View(env, c, u).avatar.Some? && View(env, c, u).avatar.value.downloadUrl != "" ==>
      o.avatar == Some(View(env, c, u).avatar.value.downloadUrl)
  {
    var v := View(env, c, u);
    AutocompleteOption(u.id, u.name,
      if v.avatar.Some? && v.avatar.value.downloadUrl != "" then Some(v.avatar.value.downloadUrl) else None)
  }

  /** The autocomplete search: the id through `uuid`, or name or email as a literal substring. */
  predicate MatchesSearch(u: User, search: string, generated: Id) {
    u.id == Uuid(search, generated) ||
    (u.name.Some? && ContainsIgnoringCase(u.name.value, search)) ||
    ContainsIgnoringCase(u.email, search)
  }

  /**
   * `findAllAutocomplete`: an empty search sends `{ $and: [] }`, which MongoDB
   * refuses; otherwise the matching users in an unspecified order (the sort is
   * on `fullName`, which users lack), at most `limit` of them when it is not 0.
   */
  method FindAllAutocomplete(env: Env, c: Collections, search: string, limit: nat, generated: Id)
    returns (r: Result<seq<AutocompleteOption>>)
    ensures r.Err? <==> search == ""
    ensures r.Err? ==> r.error == QueryRejected
    ensures r.Ok? ==> exists found :: (|r.value| == |found| &&
                                       (forall i :: 0 <= i < |found| ==> r.value[i] == OptionOf(env, c, found[i])) &&
                                       IsQueryAnswer(c.users, (u: User) => MatchesSearch(u, search, generated),
                                                     SortKey("fullName"), Ascending, 0, limit, found))
  {
    if search == "" {
      return Err(QueryRejected);
    }
    var pattern := EscapeRegExp(search);
    var matches := (u: User) =>
      u.id == Uuid(search, generated) ||
      (u.name.Some? && RegexContains(u.name.value, pattern)) || RegexContains(u.email, pattern);
    forall id | id in c.users ensures matches(c.users[id]) == MatchesSearch(c.users[id], search, generated) {
      SearchCriteriaMean(c.users[id], search, search);
    }
    var found, total := FindAndCount(c.users, matches, SortKey("fullName"), Ascending, 0, limit);
    EquivalentCriteria(c.users, matches, (u: User) => MatchesSearch(u, search, generated),
                       SortKey("fullName"), Ascending, 0, limit, found);
    r := Ok(seq(|found|, i requires 0 <= i < |found| => OptionOf(env, c, found[i])));
    assert forall i :: 0 <= i < |found| ==> r.value[i] == OptionOf(env, c, found[i]);
  }

  /**
   * `create`: inserts the validated user, refusing an email already stored
   * (the unique index compares raw text), and answers the re-read user, which
   * has no password.
   */
  method Create(env: Env, db: Store, data: UserData, newId: Id, now: int) returns (r: Result<UserView>)
    requires db.Valid() && IsValidObjectId(newId) && newId !in db.users
    modifies db
    ensures db.Valid()
    ensures r.Err? ==> db.Contents() == old(db.Contents())
    ensures UserModel.Create(newId, data, now).Err? ==> r == Err(ValidationError)
    ensures UserModel.Create(newId, data, now).Ok? && EmailTaken(old(db.users), UserModel.Create(newId, data, now).value)
            ==> r == Err(DuplicateKey)
    ensures r.Ok? ==> (UserModel.Create(newId, data, now).Ok? &&
                       db.Contents() == old(db.Contents()).(users := old(db.users)[newId := UserModel.Create(newId, data, now).value]) &&
                       r.value == View(env, db.Contents(), db.users[newId]) && r.value.user.password.None?)
    ensures UserModel.Create(newId, data, now).Ok? && !EmailTaken(old(db.users), UserModel.Create(newId, data, now).value) ==> r.Ok?
  {
    var record := UserModel.Create(newId, data, now);
    if record.Err? {
      return Err(record.error);
    }
    if EmailTaken(db.users, record.value) {
      return Err(DuplicateKey);
    }
    WriteKeepsUniqueEmails(db.users, record.value);
    db.users := db.users[newId := record.value];
    r := FindById(env, db.Contents(), newId);
  }

  /**
   * `update`: `updateOne` (cast, no validators, the unique email index still
   * enforced; nothing happens for an absent id), then the re-read, which
   * raises NotFound for an absent id.
   */
  method Update(env: Env, db: Store, id: string, data: UserData) returns (r: Result<UserView>)
    requires db.Valid()
    modifies db
    ensures db.Valid()
    ensures r.Err? ==> db.Contents() == old(db.Contents())
    ensures id !in old(db.users) ==> r.Err?
    ensures r.Ok? ==> (id in old(db.users) && UserModel.Update(old(db.users)[id], data).Ok? &&
                       db.Contents() == old(db.Contents()).(users := old(db.users)[id := UserModel.Update(old(db.users)[id], data).value]) &&
                       r.value == View(env, db.Contents(), db.users[id]))
    ensures (id in old(db.users) && UserModel.Update(old(db.users)[id], data).Ok? &&
             !EmailTaken(old(db.users), UserModel.Update(old(db.users)[id], data).value)) ==> r.Ok?
  {
    if !IsValidObjectId(id) {
      return Err(CastError);
    }
    if id in db.users {
      var updated := UserModel.Update(db.users[id], data);
      if updated.Err? {
        return Err(updated.error);
      }
      if EmailTaken(db.users, updated.value) {
        return Err(DuplicateKey);
      }
      WriteKeepsUniqueEmails(db.users, updated.value);
      db.users := db.users[id := updated.value];
    }
    r := FindById(env, db.Contents(), id);
  }

  /** `destroy`: NotFound for an absent id; otherwise exactly that user is removed. */
  method Destroy(db: Store, id: string) returns (r: Result<()>)
    requires db.Valid()
    modifies db
    ensures db.Valid()
    ensures r.Ok? <==> id in old(db.users) && IsValidObjectId(id)
    ensures r.Err? ==> r.error == FindOne(old(db.users), id).error && db.Contents() == old(db.Contents())
    ensures r.Ok? ==> db.Contents() == old(db.Contents()).(users := old(db.users) - {id})
  {
    var found := FindOne(db.users, id);
    if found.Err? {
      return Err(found.error);
    }
    RemoveKeepsUniqueEmails(db.users, id);
    db.users := db.users - {id};
    return Ok(());
  }
}
