/** The repository of the `payment` collection (src/database/repositories/paymentRepository.ts). */
module PaymentRepository {
  import opened Wrappers
  import opened QueryUtils
  import opened PaymentModel
  import opened ReservationModel
  import opened Database
  import opened Ordering

  /**
   * `_mapToObject`: null stays null, a record becomes its plain object, which
   * holds exactly the stored paths.
   */
  function MapToObject(record: Option<Payment>): (r: Option<Payment>)
    ensures r.None? <==> record.None?
    ensures r.Some? ==> r.value == record.value
  {
    record
  }

  /** `findById`: NotFound (or CastError) for an absent id, else the plain record. */
  function FindById(payments: map<Id, Payment>, id: string): (r: Result<Payment>)
    ensures r.Ok? <==> IsValidObjectId(id) && id in payments
    ensures r.Ok? ==> r.value == payments[id]
    ensures r.Err? ==> r.error == (if IsValidObjectId(id) then NotFound else CastError)
  {
    var record :- FindOne(payments, id);
    Ok(MapToObject(Some(record)).value)
  }

  /**
   * `create`: inserts the validated payment, which the partial unique index
   * refuses when it is a second pending payment for its user and reservation,
   * and answers it re-read.
   */
  method Create(db: Store, data: PaymentData, newId: Id, now: int) returns (r: Result<Payment>)
    requires db.Valid() && IsValidObjectId(newId) && newId !in db.payments
    modifies db
    ensures db.Valid()
    ensures r.Err? ==> db.Contents() == old(db.Contents())
    ensures PaymentModel.Create(newId, data, now).Err? ==> r == Err(ValidationError)
    ensures (PaymentModel.Create(newId, data, now).Ok? &&
             ClashesWithPending(old(db.payments), PaymentModel.Create(newId, data, now).value)) ==> r == Err(DuplicateKey)
    ensures (PaymentModel.Create(newId, data, now).Ok? &&
             !ClashesWithPending(old(db.payments), PaymentModel.Create(newId, data, now).value)) ==>
      r == PaymentModel.Create(newId, data, now) &&
      db.Contents() == old(db.Contents()).(payments := old(db.payments)[newId := r.value])
  {
    var record := PaymentModel.Create(newId, data, now);
    if record.Err? {
      return Err(record.error);
    }
    if ClashesWithPending(db.payments, record.value) {
      return Err(DuplicateKey);
    }
    WriteKeepsAtMostOnePending(db.payments, record.value);
    db.payments := db.payments[newId := record.value];
    r := FindById(db.payments, newId);
  }

  /**
   * `update`: NotFound (or CastError) for an absent id; otherwise `updateOne`
   * casts the data (no validators), the partial unique index may refuse it,
   * and the payment is answered re-read.
   */
  method Update(db: Store, id: string, data: PaymentData) returns (r: Result<Payment>)
    requires db.Valid()
    modifies db
    ensures db.Valid()
    ensures r.Err? ==> db.Contents() == old(db.Contents())
    ensures FindById(old(db.payments), id).Err? ==> r == FindById(old(db.payments), id)
    ensures FindById(old(db.payments), id).Ok? && PaymentModel.Update(old(db.payments)[id], data).Err? ==>
      r == Err(CastError)
    ensures (FindById(old(db.payments), id).Ok? && PaymentModel.Update(old(db.payments)[id], data).Ok? &&
             ClashesWithPending(old(db.payments), PaymentModel.Update(old(db.payments)[id], data).value)) ==>
      r == Err(DuplicateKey)
    ensures r.Ok? ==> (id in old(db.payments) && r == PaymentModel.Update(old(db.payments)[id], data) &&
                       !ClashesWithPending(old(db.payments), r.value) &&
                       db.Contents() == old(db.Contents()).(payments := old(db.payments)[id := r.value]))
    ensures (FindById(old(db.payments), id).Ok? && PaymentModel.Update(old(db.payments)[id], data).Ok? &&
             !ClashesWithPending(old(db.payments), PaymentModel.Update(old(db.payments)[id], data).value)) ==> r.Ok?
  {
    var found := FindById(db.payments, id);
    if found.Err? {
      return found;
    }
    var updated := PaymentModel.Update(found.value, data);
    if updated.Err? {
      return updated;
    }
    if ClashesWithPending(db.payments, updated.value) {
      return Err(DuplicateKey);
    }
    FindOneFindsThatId(db.Contents(), id);
    WriteKeepsAtMostOnePending(db.payments, updated.value);
    db.payments := db.payments[id := updated.value];
    r := FindById(db.payments, id);
  }

  /** `destroy`: NotFound (or CastError) for an absent id; otherwise exactly that payment is removed. */
  method Destroy(db: Store, id: string) returns (r: Result<()>)
    requires db.Valid()
    modifies db
    ensures db.Valid()
    ensures r.Ok? <==> FindById(old(db.payments), id).Ok?
    ensures r.Err? ==> r.error == FindById(old(db.payments), id).error && db.Contents() == old(db.Contents())
    ensures r.Ok? ==> db.Contents() == old(db.Contents()).(payments := old(db.payments) - {id})
  {
    var found := FindById(db.payments, id);
    if found.Err? {
      return Err(found.error);
    }
    RemoveKeepsAtMostOnePending(db.payments, id);
    db.payments := db.payments - {id};
    return Ok(());
  }

  /** A payment with `reservation` populated: the reservation, or null when the path is empty or dangling. */
  datatype PopulatedPayment = PopulatedPayment(payment: Payment, reservation: Option<Reservation>)

  function Populate(c: Collections, p: Payment): (v: PopulatedPayment)
    ensures v.payment == p
    ensures v.reservation.Some? <==> p.reservation.Some? && p.reservation.value in c.reservations
    ensures v.reservation.Some? ==> v.reservation.value == c.reservations[p.reservation.value]
  {
    PopulatedPayment(p, if p.reservation.Some? && p.reservation.value in c.reservations
                        then Some(c.reservations[p.reservation.value]) else None)
  }

  /**
   * `findByConfirmationId`: a payment whose confirmationId is exactly the
   * given one (which, if several, is up to MongoDB) with its reservation
   * populated, or NotFound when there is none.
   */
  method FindByConfirmationId(c: Collections, confirmationId: string) returns (r: Result<PopulatedPayment>)
    ensures r.Err? <==> forall id :: id in c.payments ==> c.payments[id].confirmationId != Some(confirmationId)
    ensures r.Err? ==> r.error == NotFound
    ensures r.Ok? ==> exists id :: id in c.payments && c.payments[id].confirmationId == Some(confirmationId) &&
                                   r.value == Populate(c, c.payments[id])
  {
    var found := set id | id in c.payments && c.payments[id].confirmationId == Some(confirmationId);
    if found == {} {
      forall id | id in c.payments ensures c.payments[id].confirmationId != Some(confirmationId) {
        assert id !in found;
      }
      return Err(NotFound);
    }
    var id :| id in found;
    return Ok(Populate(c, c.payments[id]));
  }

  /** `findAndCountAll`'s filter; an empty text is a filter that is not given. */
  datatype PaymentFilter = PaymentFilter(id: string, createdBy: string, reservation: string, status: string)

  datatype Criterion = IdIs(id: Id) | CreatedByIs(user: Id) | ReservationIs(reservation: Id) | StatusIs(status: string)

  predicate Satisfies(p: Payment, c: Criterion) {
    match c
    case IdIs(id) => p.id == id
    case CreatedByIs(user) => p.createdBy == Some(user)
    case ReservationIs(reservation) => p.reservation == Some(reservation)
    case StatusIs(status) => p.status == status
  }

  predicate SatisfiesAll(p: Payment, criteria: seq<Criterion>) {
    forall c :: c in criteria ==> Satisfies(p, c)
  }

  /** One criterion per given filter field, in push order. */
  function Criteria(f: PaymentFilter, generated: Id): (criteria: seq<Criterion>)
    ensures criteria == [] <==> f == PaymentFilter("", "", "", "")
  {
    When(f.id != "", IdIs(Uuid(f.id, generated))) +
    When(f.createdBy != "", CreatedByIs(Uuid(f.createdBy, generated))) +
    When(f.reservation != "", ReservationIs(Uuid(f.reservation, generated))) +
    When(f.status != "", StatusIs(f.status))
  }

  /** What the filter means: each given field narrows the result; the references go through `uuid`. */
  predicate MatchesFilter(p: Payment, f: PaymentFilter, generated: Id) {
    (f.id == "" || p.id == Uuid(f.id, generated)) &&
    (f.createdBy == "" || p.createdBy == Some(Uuid(f.createdBy, generated))) &&
    (f.reservation == "" || p.reservation == Some(Uuid(f.reservation, generated))) &&
    (f.status == "" || p.status == f.status)
  }

  lemma SatisfiesWhen(p: Payment, given: bool, c: Criterion)
    ensures SatisfiesAll(p, When(given, c)) <==> !given || Satisfies(p, c)
  {
    if given {
      assert c in When(given, c);
    }
  }

  lemma SatisfiesAllConcat(p: Payment, a: seq<Criterion>, b: seq<Criterion>)
    ensures SatisfiesAll(p, a + b) <==> SatisfiesAll(p, a) && SatisfiesAll(p, b)
  {
  }

  lemma CriteriaMeanFilter(p: Payment, f: PaymentFilter, generated: Id)
    ensures SatisfiesAll(p, Criteria(f, generated)) <==> MatchesFilter(p, f, generated)
  {
    var p1 := When(f.id != "", IdIs(Uuid(f.id, generated)));
    var p2 := When(f.createdBy != "", CreatedByIs(Uuid(f.createdBy, generated)));
    var p3 := When(f.reservation != "", ReservationIs(Uuid(f.reservation, generated)));
    var p4 := When(f.status != "", StatusIs(f.status));
    SatisfiesAllConcat(p, p1, p2);
    SatisfiesAllConcat(p, p1 + p2, p3);
    SatisfiesAllConcat(p, p1 + p2 + p3, p4);
    SatisfiesWhen(p, f.id != "", IdIs(Uuid(f.id, generated)));
    SatisfiesWhen(p, f.createdBy != "", CreatedByIs(Uuid(f.createdBy, generated)));
    SatisfiesWhen(p, f.reservation != "", ReservationIs(Uuid(f.reservation, generated)));
    SatisfiesWhen(p, f.status != "", StatusIs(f.status));
  }

  /**
   * An id filter that is no ObjectId selects nothing, as long as the id `uuid`
   * generates in its place names no stored payment.
   */
  lemma InvalidIdFilterSelectsNothing(c: Collections, f: PaymentFilter, generated: Id)
    requires f.id != "" && !IsValidObjectId(f.id) && generated !in c.payments
    requires KeyedById(c)
    ensures MatchingIds(c.payments, (p: Payment) => MatchesFilter(p, f, generated)) == {}
  {
    UuidOfInvalid(f.id, generated, c.payments.Keys);
    forall id | id in c.payments ensures !MatchesFilter(c.payments[id], f, generated) {
      assert c.payments[id].id == id;
    }
  }

  function SortKey(column: string): Payment -> SortValue {
    (p: Payment) =>
      if column == "_id" then ObjectIdValue(p.id)
      else if column == "createdAt" then Date(p.createdAt)
      else if column == "amount" then Num(p.amount)
      else if column == "status" then SortValue.Text(p.status)
      else if column == "confirmationId" then (if p.confirmationId.Some? then SortValue.Text(p.confirmationId.value) else Missing)
      else if column == "createdBy" then (if p.createdBy.Some? then ObjectIdValue(p.createdBy.value) else Missing)
      else if column == "reservation" then (if p.reservation.Some? then ObjectIdValue(p.reservation.value) else Missing)
      else Missing
  }

  /**
   * `findAndCountAll`: the payments the present filters select, sorted
   * (newest first by default), skipped and limited (0 meaning none), and the
   * count under the same criteria without paging.
   */
  method FindAndCountAll(c: Collections, f: PaymentFilter, limit: nat, offset: nat, orderBy: string, generated: Id)
    returns (rows: seq<Payment>, count: nat)
    ensures count == |MatchingIds(c.payments, (p: Payment) => MatchesFilter(p, f, generated))|
    ensures IsQueryAnswer(c.payments, (p: Payment) => MatchesFilter(p, f, generated),
                          SortKey(SortOrNewestFirst(orderBy).column), DirectionOf(SortOrNewestFirst(orderBy).direction),
                          offset, limit, rows)
  {
    var criteria := Criteria(f, generated);
    forall id | id in c.payments
      ensures SatisfiesAll(c.payments[id], criteria) == MatchesFilter(c.payments[id], f, generated)
    {
      CriteriaMeanFilter(c.payments[id], f, generated);
    }
    var sort := SortOrNewestFirst(orderBy);
    rows, count := FindAndCount(c.payments, (p: Payment) => SatisfiesAll(p, criteria),
                                SortKey(sort.column), DirectionOf(sort.direction), offset, limit);
    EquivalentCriteria(c.payments, (p: Payment) => SatisfiesAll(p, criteria),
                       (p: Payment) => MatchesFilter(p, f, generated),
                       SortKey(sort.column), DirectionOf(sort.direction), offset, limit, rows);
  }
}
