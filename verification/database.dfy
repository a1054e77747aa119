/**
 * The MongoDB database as five collections keyed by id, and the two things
 * every repository does with a single id: `findOne({ _id: id })` and
 * `deleteOne({ _id: id })`.
 */
module Database {
  import opened Wrappers
  import opened QueryUtils
  import opened ReservationModel
  import opened PaymentModel
  import opened ConsumptionModel
  import opened UserModel
  import opened FileModel

  datatype Collections = Collections(
    reservations: map<Id, Reservation>,
    payments: map<Id, Payment>,
    consumptions: map<Id, Consumption>,
    users: map<Id, User>,
    files: map<Id, File>)

  /** Every document is stored under its own id, and ids are ObjectIds. */
  ghost predicate KeyedById(c: Collections) {
    (forall id :: id in c.reservations ==> c.reservations[id].id == id && IsValidObjectId(id)) &&
    (forall id :: id in c.payments ==> c.payments[id].id == id && IsValidObjectId(id)) &&
    (forall id :: id in c.consumptions ==> c.consumptions[id].id == id && IsValidObjectId(id)) &&
    (forall id :: id in c.users ==> c.users[id].id == id && IsValidObjectId(id)) &&
    (forall id :: id in c.files ==> c.files[id].id == id && IsValidObjectId(id))
  }

  /** What MongoDB guarantees at all times: ids, and the two unique indexes. */
  ghost predicate Consistent(c: Collections) {
    KeyedById(c) && AtMostOnePending(c.payments) && UniqueEmails(c.users)
  }

  /** The database one request works on. */
  class Store {
    var reservations: map<Id, Reservation>
    var payments: map<Id, Payment>
    var consumptions: map<Id, Consumption>
    var users: map<Id, User>
    var files: map<Id, File>

    function Contents(): Collections
      reads this
    {
      Collections(reservations, payments, consumptions, users, files)
    }

    ghost predicate Valid()
      reads this
    {
      Consistent(Contents())
    }

    constructor ()
      ensures Contents() == Collections(map[], map[], map[], map[], map[])
      ensures Valid()
    {
      reservations, payments, consumptions, users, files := map[], map[], map[], map[], map[];
    }

    /** `abortTransaction`: every write since the snapshot is undone. */
    method Restore(snapshot: Collections)
      modifies this
      ensures Contents() == snapshot
    {
      reservations, payments, consumptions, users, files :=
        snapshot.reservations, snapshot.payments, snapshot.consumptions, snapshot.users, snapshot.files;
    }
  }

  /**
   * `findOne({ _id: id })` followed by the repositories' `if (!record) throw
   * new Error404()`: a text that is not an ObjectId fails to cast first.
   */
  function FindOne<T>(coll: map<Id, T>, id: string): (r: Result<T>)
    ensures r.Ok? <==> id in coll && IsValidObjectId(id)
    ensures r.Ok? ==> r.value == coll[id]
    ensures r.Err? ==> r.error == (if IsValidObjectId(id) then NotFound else CastError)
  {
    if !IsValidObjectId(id) then Err(CastError)
    else if id !in coll then Err(NotFound)
    else Ok(coll[id])
  }

  /** Under the key invariant, a successful lookup finds the document with that id. */
  lemma FindOneFindsThatId(c: Collections, id: string)
    requires KeyedById(c)
    ensures FindOne(c.reservations, id).Ok? ==> FindOne(c.reservations, id).value.id == id
    ensures FindOne(c.payments, id).Ok? ==> FindOne(c.payments, id).value.id == id
    ensures FindOne(c.users, id).Ok? ==> FindOne(c.users, id).value.id == id
    ensures FindOne(c.files, id).Ok? ==> FindOne(c.files, id).value.id == id
    ensures FindOne(c.consumptions, id).Ok? ==> FindOne(c.consumptions, id).value.id == id
  {
  }

  /** An id the store does not hold is NotFound or, when it is no ObjectId at all, a CastError. */
  lemma FindOneMissing<T>(coll: map<Id, T>, id: string)
    requires id !in coll
    ensures FindOne(coll, id).Err?
    ensures IsValidObjectId(id) ==> FindOne(coll, id).error == NotFound
  {
  }

  /** No text occurs twice in `ids`. */
  predicate Distinct(ids: seq<string>) {
    forall i, j :: 0 <= i < j < |ids| ==> ids[i] != ids[j]
  }

  /**
   * A batch `destroy` in a loop: each id is looked up and deleted in turn; the
   * first one that `findOne` does not find raises its error, and the loop
   * stops there.
   */
  function DeleteEach<T>(coll: map<Id, T>, ids: seq<string>): (r: Result<map<Id, T>>)
    ensures r.Err? ==> r.error == NotFound || r.error == CastError
  {
    if ids == [] then Ok(coll)
    else if FindOne(coll, ids[0]).Err? then FindOne(coll, ids[0]).PropagateFailure()
    else DeleteEach(coll - {ids[0]}, ids[1..])
  }

  /**
   * A batch succeeds exactly when every id is an ObjectId that is stored and
   * none is repeated (a repeat is gone by its second turn); it then removes
   * exactly the given ids.
   */
  lemma {:induction false} DeleteEachMeaning<T>(coll: map<Id, T>, ids: seq<string>)
    ensures DeleteEach(coll, ids).Ok? <==>
      (forall i :: 0 <= i < |ids| ==> IsValidObjectId(ids[i]) && ids[i] in coll) && Distinct(ids)
    ensures DeleteEach(coll, ids).Ok? ==> DeleteEach(coll, ids).value == coll - (set i | 0 <= i < |ids| :: ids[i])
  {
    if ids != [] {
      var rest := ids[1..];
      DeleteEachMeaning(coll - {ids[0]}, rest);
      assert forall i :: 1 <= i < |ids| ==> ids[i] == rest[i - 1];
      if DeleteEach(coll, ids).Ok? {
        assert (set i | 0 <= i < |ids| :: ids[i]) == {ids[0]} + (set i | 0 <= i < |rest| :: rest[i]) by {
          forall i | 0 <= i < |rest| ensures rest[i] in (set j | 0 <= j < |ids| :: ids[j]) {
            assert ids[i + 1] == rest[i];
          }
        }
        forall i, j | 0 <= i < j < |ids| ensures ids[i] != ids[j] {
          if i > 0 {
            assert ids[i] == rest[i - 1] && ids[j] == rest[j - 1];
          } else {
            assert ids[j] in coll - {ids[0]};
          }
        }
      }
      if (forall i :: 0 <= i < |ids| ==> IsValidObjectId(ids[i]) && ids[i] in coll) && Distinct(ids) {
        forall i | 0 <= i < |rest| ensures IsValidObjectId(rest[i]) && rest[i] in coll - {ids[0]} {
          assert rest[i] == ids[i + 1];
        }
        forall i, j | 0 <= i < j < |rest| ensures rest[i] != rest[j] {
          assert rest[i] == ids[i + 1] && rest[j] == ids[j + 1];
        }
      }
    }
  }
}
