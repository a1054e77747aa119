/** The repository of the `reservation` collection (src/database/repositories/reservationRepository.ts). */
module ReservationRepository {
  import opened Wrappers
  import opened QueryUtils
  import opened ReservationConsumptionSchema
  import opened ReservationModel
  import opened ConsumptionModel
  import opened FileModel
  import opened UserModel
  import opened External
  import opened Database
  import opened Ordering
  import FileRepository
  import UserRepository
  import ConsumptionRepository

  /** A line item with `consumption` populated: the consumption, or null when the path is empty or dangling. */
  datatype LineItemView = LineItemView(consumption: Option<Consumption>, quantity: Option<int>)

  /**
   * A reservation as queries return it: the stored record, its populated line
   * items, its stored documents with download URLs, and its creator (with
   * avatar, without password) or null.
   */
  datatype ReservationView = ReservationView(
    reservation: Reservation,
    consumptions: seq<LineItemView>,
    documents: seq<FileRepository.FileView>,
    createdBy: Option<UserRepository.UserView>)

  /** `populate('consumptions.consumption')` on one line item. */
  function PopulateItem(consumptions: map<Id, Consumption>, item: LineItem): LineItemView {
    LineItemView(if item.consumption.Some? && item.consumption.value in consumptions
                 then Some(consumptions[item.consumption.value]) else None,
                 item.quantity)
  }

  /** The document references `populate('documents')` resolves, in order; dangling ones are dropped. */
  function StoredDocuments(files: map<Id, File>, ids: seq<Id>): (r: seq<Id>)
    ensures |r| <= |ids|
    ensures forall i :: 0 <= i < |r| ==> r[i] in files && r[i] in ids
    ensures forall id :: id in ids && id in files ==> id in r
  {
    if ids == [] then []
    else
      var rest := StoredDocuments(files, ids[..|ids| - 1]);
      var last := ids[|ids| - 1];
      assert ids == ids[..|ids| - 1] + [last];
      if last in files then rest + [last] else rest
  }

  /**
   * `_mapToObject`: null stays null; otherwise `documents` becomes the stored
   * documents with their download URLs (an empty list, never null) and
   * `createdBy` the hydrated creator or null.
   */
  function MapToObject(env: Env, c: Collections, record: Option<Reservation>): (v: Option<ReservationView>)
    ensures v.None? <==> record.None?
    ensures v.Some? ==> v.value.reservation == record.value
    ensures v.Some? ==> |v.value.consumptions| == |record.value.consumptions|
    ensures v.Some? ==> forall i :: 0 <= i < |v.value.consumptions| ==>
      v.value.consumptions[i] == PopulateItem(c.consumptions, record.value.consumptions[i])
    ensures v.Some? ==> |v.value.documents| == |StoredDocuments(c.files, record.value.documents)|
    ensures v.Some? ==> forall i :: 0 <= i < |v.value.documents| ==>
      v.value.documents[i].file == c.files[StoredDocuments(c.files, record.value.documents)[i]]
    ensures v.Some? ==> (v.value.createdBy.Some? <==> record.value.createdBy.Some? && record.value.createdBy.value in c.users)
  {
    if record.None? then None
    else
      var r := record.value;
      var docIds := StoredDocuments(c.files, r.documents);
      var documents := FileRepository.CleanupForRelationships(
        env, FileRepository.FileList(seq(|docIds|, i requires 0 <= i < |docIds| => c.files[docIds[i]])));
      var createdBy := if r.createdBy.Some? && r.createdBy.value in c.users
                       then Some(UserRepository.View(env, c, c.users[r.createdBy.value])) else None;
      Some(ReservationView(
        r,
        seq(|r.consumptions|, i requires 0 <= i < |r.consumptions| => PopulateItem(c.consumptions, r.consumptions[i])),
        if documents.Some? then documents.value else [],
        createdBy))
  }

  function View(env: Env, c: Collections, r: Reservation): (v: ReservationView)
    ensures v.reservation == r && |v.consumptions| == |r.consumptions|
    ensures forall i :: 0 <= i < |r.consumptions| ==> v.consumptions[i] == PopulateItem(c.consumptions, r.consumptions[i])
  {
    MapToObject(env, c, Some(r)).value
  }

  /** Hydration reads consumptions, files and users only: writing reservations does not change it. */
  lemma ViewIgnoresReservations(env: Env, c: Collections, r: Reservation, reservations: map<Id, Reservation>)
    ensures View(env, c.(reservations := reservations), r) == View(env, c, r)
  {
    var c' := c.(reservations := reservations);
    assert c'.files == c.files && c'.users == c.users && c'.consumptions == c.consumptions;
    if r.createdBy.Some? && r.createdBy.value in c.users {
      assert UserRepository.View(env, c', c.users[r.createdBy.value]) == UserRepository.View(env, c, c.users[r.createdBy.value]);
    }
  }

  /** `findById`: NotFound (or CastError) for an absent id, else the hydrated reservation. */
  function FindById(env: Env, c: Collections, id: string): (r: Result<ReservationView>)
    ensures r.Ok? <==> FindOne(c.reservations, id).Ok?
    ensures r.Err? ==> r.error == FindOne(c.reservations, id).error
    ensures r.Ok? ==> r.value == View(env, c, c.reservations[id])
  {
    var record :- FindOne(c.reservations, id);
    Ok(View(env, c, record))
  }

  // ---------------------------------------------------------------------
  // updateTotalCost
  // ---------------------------------------------------------------------

  /** A line item whose consumption is stored, so that its cost can be looked up. */
  predicate Resolves(consumptions: map<Id, Consumption>, item: LineItem) {
    item.consumption.Some? && item.consumption.value in consumptions
  }

  /** price × quantity, a missing quantity counting as 0. */
  function ItemCost(consumptions: map<Id, Consumption>, item: LineItem): int
    requires Resolves(consumptions, item)
  {
    consumptions[item.consumption.value].price * item.quantity.GetOr(0)
  }

  /**
   * The cost of a list of line items: the sum of their costs, or a CastError
   * when one of them does not resolve (it is looked up by the empty id).
   */
  function TotalCost(consumptions: map<Id, Consumption>, items: seq<LineItem>): (r: Result<int>)
    ensures r.Ok? <==> forall i :: 0 <= i < |items| ==> Resolves(consumptions, items[i])
    ensures r.Err? ==> r.error == CastError
  {
    if items == [] then Ok(0)
    else
      var last := items[|items| - 1];
      var rest := TotalCost(consumptions, items[..|items| - 1]);
      if rest.Err? then rest
      else if !Resolves(consumptions, last) then Err(CastError)
      else Ok(rest.value + ItemCost(consumptions, last))
  }

  /** No line items cost 0. */
  lemma NoItemsCostNothing(consumptions: map<Id, Consumption>)
    ensures TotalCost(consumptions, []) == Ok(0)
  {
  }

  /** Appending a resolved item adds its cost. */
  lemma {:induction false} TotalCostAppend(consumptions: map<Id, Consumption>, items: seq<LineItem>, item: LineItem)
    requires TotalCost(consumptions, items).Ok? && Resolves(consumptions, item)
    ensures TotalCost(consumptions, items + [item]) == Ok(TotalCost(consumptions, items).value + ItemCost(consumptions, item))
  {
    assert (items + [item])[..|items|] == items;
  }

  /** The cost of two lists one after the other is the sum of their costs. */
  lemma {:induction false} TotalCostConcat(consumptions: map<Id, Consumption>, a: seq<LineItem>, b: seq<LineItem>)
    requires TotalCost(consumptions, a).Ok? && TotalCost(consumptions, b).Ok?
    ensures TotalCost(consumptions, a + b) == Ok(TotalCost(consumptions, a).value + TotalCost(consumptions, b).value)
    decreases |b|
  {
    if b == [] {
      assert a + b == a;
    } else {
      var init := b[..|b| - 1];
      var last := b[|b| - 1];
      assert a + b == (a + init) + [last];
      assert b == init + [last];
      TotalCostConcat(consumptions, a, init);
      TotalCostAppend(consumptions, a + init, last);
      TotalCostAppend(consumptions, init, last);
    }
  }

  /** A line item whose consumption is missing or gone makes the whole computation fail instead of counting 0. */
  lemma DanglingItemRaises(consumptions: map<Id, Consumption>, items: seq<LineItem>, i: nat)
    requires i < |items| && !Resolves(consumptions, items[i])
    ensures TotalCost(consumptions, items) == Err(CastError)
  {
  }

  /** The cost depends on the consumptions' current prices, not on any cost stored before. */
  lemma CostIgnoresStoredCost(consumptions: map<Id, Consumption>, r: Reservation, cost: int)
    ensures TotalCost(consumptions, r.(cost := cost).consumptions) == TotalCost(consumptions, r.consumptions)
  {
  }

  /**
   * What `updateOne({_id}, reservation)` stores when `reservation` is the
   * hydrated object with `cost` set: populated references cast back to their
   * ids, so dangling documents are dropped and a dangling creator becomes null.
   */
  function WriteBack(v: ReservationView, total: int): Reservation {
    v.reservation.(
      cost := total,
      documents := seq(|v.documents|, i requires 0 <= i < |v.documents| => v.documents[i].file.id),
      createdBy := if v.createdBy.Some? then Some(v.createdBy.value.user.id) else None)
  }

  /** The write-back keeps every path except cost, the stored documents and the stored creator. */
  lemma WriteBackEffect(env: Env, c: Collections, r: Reservation, total: int)
    requires KeyedById(c)
    ensures WriteBack(View(env, c, r), total) ==
      r.(cost := total,
         documents := StoredDocuments(c.files, r.documents),
         createdBy := if r.createdBy.Some? && r.createdBy.value in c.users then r.createdBy else None)
  {
    var v := View(env, c, r);
    var ids := StoredDocuments(c.files, r.documents);
    assert |v.documents| == |ids|;
    forall i | 0 <= i < |ids| ensures v.documents[i].file.id == ids[i] {
      assert ids[i] in c.files;
    }
  }

  /**
   * The loop of `updateTotalCost`: each populated line item's consumption is
   * fetched again by its id, or by the empty id when it did not populate,
   * which fails to cast; the total adds price × quantity.
   */
  method SumLineItems(c: Collections, lines: seq<LineItemView>, ghost items: seq<LineItem>) returns (r: Result<int>)
    requires KeyedById(c)
    requires |lines| == |items| && forall i :: 0 <= i < |items| ==> lines[i] == PopulateItem(c.consumptions, items[i])
    ensures r == TotalCost(c.consumptions, items)
  {
    var totalCost := 0;
    for i := 0 to |lines|
      invariant TotalCost(c.consumptions, items[..i]) == Ok(totalCost)
    {
      var line := lines[i];
      var key := if line.consumption.Some? then line.consumption.value.id else "";
      assert key == if Resolves(c.consumptions, items[i]) then items[i].consumption.value else "";
      var consumption := ConsumptionRepository.FindById(c.consumptions, key);
      if consumption.Err? {
        DanglingItemRaises(c.consumptions, items, i);
        return Err(consumption.error);
      }
      totalCost := totalCost + consumption.value.price * line.quantity.GetOr(0);
      assert items[..i + 1] == items[..i] + [items[i]];
      TotalCostAppend(c.consumptions, items[..i], items[i]);
    }
    assert items[..|items|] == items;
    return Ok(totalCost);
  }

  /**
   * `updateTotalCost`: reads the hydrated reservation, looks up every line
   * item's consumption by its populated id (the empty id when it did not
   * populate, which fails to cast), sums price × quantity and writes the
   * hydrated object back with that cost.
   */
  method UpdateTotalCost(env: Env, db: Store, reservationId: string) returns (r: Result<()>)
    requires db.Valid()
    modifies db
    ensures db.Valid()
    ensures r.Err? ==> db.Contents() == old(db.Contents())
    ensures FindOne(old(db.reservations), reservationId).Err? ==> r == FindOne(old(db.reservations), reservationId).PropagateFailure()
    ensures FindOne(old(db.reservations), reservationId).Ok? ==>
      (r.Ok? <==> TotalCost(old(db.consumptions), old(db.reservations)[reservationId].consumptions).Ok?)
    ensures r.Err? && FindOne(old(db.reservations), reservationId).Ok? ==> r.error == CastError
    ensures r.Ok? ==> (reservationId in old(db.reservations) &&
                       TotalCost(old(db.consumptions), old(db.reservations)[reservationId].consumptions).Ok? &&
                       db.Contents() == old(db.Contents()).(reservations := old(db.reservations)[reservationId :=
                         Costed(env, old(db.Contents()), old(db.reservations)[reservationId])]))
  {
    var c := db.Contents();
    var found := FindById(env, c, reservationId);
    if found.Err? {
      return found.PropagateFailure();
    }
    var reservation := found.value;
    var total := SumLineItems(c, reservation.consumptions, reservation.reservation.consumptions);
    if total.Err? {
      return total.PropagateFailure();
    }
    db.reservations := db.reservations[reservationId := WriteBack(reservation, total.value)];
    return Ok(());
  }

  // ---------------------------------------------------------------------
  // create, update, destroy
  // ---------------------------------------------------------------------

  /** The record `create` and `update` leave behind once the cost is computed. */
  function Costed(env: Env, c: Collections, r: Reservation): Reservation
    requires TotalCost(c.consumptions, r.consumptions).Ok?
  {
    WriteBack(View(env, c, r), TotalCost(c.consumptions, r.consumptions).value)
  }

  /**
   * `create`: inserts the validated reservation, recomputes its cost (any
   * cost in the data is overridden) and answers it re-read. A line item that
   * does not resolve fails the cost computation after the insert, which stays.
   */
  method Create(env: Env, db: Store, data: ReservationData, newId: Id, now: int) returns (r: Result<ReservationView>)
    requires db.Valid() && IsValidObjectId(newId) && newId !in db.reservations
    modifies db
    ensures db.Valid()
    ensures var created := ReservationModel.Create(newId, data, now);
      created.Err? ==> r == Err(ValidationError) && db.Contents() == old(db.Contents())
    ensures var created := ReservationModel.Create(newId, data, now);
      created.Ok? && TotalCost(old(db.consumptions), created.value.consumptions).Err? ==>
        r == Err(CastError) &&
        db.Contents() == old(db.Contents()).(reservations := old(db.reservations)[newId := created.value])
    ensures var created := ReservationModel.Create(newId, data, now);
      created.Ok? && TotalCost(old(db.consumptions), created.value.consumptions).Ok? ==>
        db.Contents() == old(db.Contents()).(reservations := old(db.reservations)[newId :=
          Costed(env, old(db.Contents()), created.value)]) &&
        r == Ok(View(env, db.Contents(), db.reservations[newId])) &&
        r.value.reservation.cost == TotalCost(old(db.consumptions), created.value.consumptions).value
  {
    ghost var c0 := db.Contents();
    var record := ReservationModel.Create(newId, data, now);
    if record.Err? {
      return Err(record.error);
    }
    db.reservations := db.reservations[newId := record.value];
    ghost var c1 := db.Contents();
    assert c1 == c0.(reservations := c0.reservations[newId := record.value]);
    var costed := UpdateTotalCost(env, db, newId);
    if costed.Err? {
      return Err(costed.error);
    }
    CostedAfterInsert(env, c0, newId, record.value);
    r := FindById(env, db.Contents(), newId);
  }

  /** Costing a record just written under an id reads what costing it before the write reads, and overwrites the write. */
  lemma CostedAfterInsert(env: Env, c0: Collections, newId: Id, record: Reservation)
    requires TotalCost(c0.consumptions, record.consumptions).Ok?
    ensures var c1 := c0.(reservations := c0.reservations[newId := record]);
            Costed(env, c1, record) == Costed(env, c0, record) &&
            c1.reservations[newId := Costed(env, c0, record)] == c0.reservations[newId := Costed(env, c0, record)]
  {
    ViewIgnoresReservations(env, c0, record, c0.reservations[newId := record]);
  }

  /**
   * `update`: NotFound (or CastError) for an absent id; otherwise the data is
   * cast and applied without validators, the cost is recomputed (overriding
   * any cost in the data) and the reservation is answered re-read.
   */
  method Update(env: Env, db: Store, id: string, data: ReservationData) returns (r: Result<ReservationView>)
    requires db.Valid()
    modifies db
    ensures db.Valid()
    ensures FindOne(old(db.reservations), id).Err? ==>
      r == FindOne(old(db.reservations), id).PropagateFailure() && db.Contents() == old(db.Contents())
    ensures FindOne(old(db.reservations), id).Ok? && ReservationModel.Update(old(db.reservations)[id], data).Err? ==>
      r == Err(CastError) && db.Contents() == old(db.Contents())
    ensures FindOne(old(db.reservations), id).Ok? && ReservationModel.Update(old(db.reservations)[id], data).Ok? &&
            TotalCost(old(db.consumptions), ReservationModel.Update(old(db.reservations)[id], data).value.consumptions).Err? ==>
      r == Err(CastError) &&
      db.Contents() == old(db.Contents()).(reservations := old(db.reservations)[id := ReservationModel.Update(old(db.reservations)[id], data).value])
    ensures r.Ok? ==> (id in old(db.reservations) && ReservationModel.Update(old(db.reservations)[id], data).Ok? &&
      TotalCost(old(db.consumptions), ReservationModel.Update(old(db.reservations)[id], data).value.consumptions).Ok? &&
      db.Contents() == old(db.Contents()).(reservations := old(db.reservations)[id :=
        Costed(env, old(db.Contents()), ReservationModel.Update(old(db.reservations)[id], data).value)]) &&
      r == Ok(View(env, db.Contents(), db.reservations[id])) &&
      r.value.reservation.cost == TotalCost(old(db.consumptions), ReservationModel.Update(old(db.reservations)[id], data).value.consumptions).value)
    ensures (FindOne(old(db.reservations), id).Ok? && ReservationModel.Update(old(db.reservations)[id], data).Ok? &&
             TotalCost(old(db.consumptions), ReservationModel.Update(old(db.reservations)[id], data).value.consumptions).Ok?) ==> r.Ok?
  {
    var found := FindOne(db.reservations, id);
    if found.Err? {
      return found.PropagateFailure();
    }
    var updated := ReservationModel.Update(found.value, data);
    if updated.Err? {
      return updated.PropagateFailure();
    }
    ghost var c0 := db.Contents();
    FindOneFindsThatId(c0, id);
    db.reservations := db.reservations[id := updated.value];
    ghost var c1 := db.Contents();
    assert c1 == c0.(reservations := c0.reservations[id := updated.value]);
    var costed := UpdateTotalCost(env, db, id);
    if costed.Err? {
      return Err(costed.error);
    }
    CostedAfterInsert(env, c0, id, updated.value);
    r := FindById(env, db.Contents(), id);
  }

  /** `destroy`: NotFound (or CastError) for an absent id; otherwise exactly that reservation is removed. */
  method Destroy(db: Store, id: string) returns (r: Result<()>)
    requires db.Valid()
    modifies db
    ensures db.Valid()
    ensures r.Ok? <==> FindOne(old(db.reservations), id).Ok?
    ensures r.Err? ==> r.error == FindOne(old(db.reservations), id).error && db.Contents() == old(db.Contents())
    ensures r.Ok? ==> db.Contents() == old(db.Contents()).(reservations := old(db.reservations) - {id})
  {
    var found := FindOne(db.reservations, id);
    if found.Err? {
      return Err(found.error);
    }
    db.reservations := db.reservations - {id};
    return Ok(());
  }

  // ---------------------------------------------------------------------
  // findAndCountAll, findAllAutocomplete
  // ---------------------------------------------------------------------

  /** `findAndCountAll`'s filter; an empty text is a filter that is not given. */
  datatype ReservationFilter = ReservationFilter(id: string, createdBy: string, status: string)

  datatype Criterion = IdIs(id: Id) | CreatedByIs(user: Id) | StatusIs(status: string)

  predicate Satisfies(r: Reservation, c: Criterion) {
    match c
    case IdIs(id) => r.id == id
    case CreatedByIs(user) => r.createdBy == Some(user)
    case StatusIs(status) => r.status == status
  }

  predicate SatisfiesAll(r: Reservation, criteria: seq<Criterion>) {
    forall c :: c in criteria ==> Satisfies(r, c)
  }

  /** One criterion per given filter field, in push order. */
  function Criteria(f: ReservationFilter, generated: Id): (criteria: seq<Criterion>)
    ensures criteria == [] <==> f == ReservationFilter("", "", "")
  {
    When(f.id != "", IdIs(Uuid(f.id, generated))) +
    When(f.createdBy != "", CreatedByIs(Uuid(f.createdBy, generated))) +
    When(f.status != "", StatusIs(f.status))
  }

  /** What the filter means: each given field narrows the result; id and creator go through `uuid`. */
  predicate MatchesFilter(r: Reservation, f: ReservationFilter, generated: Id) {
    (f.id == "" || r.id == Uuid(f.id, generated)) &&
    (f.createdBy == "" || r.createdBy == Some(Uuid(f.createdBy, generated))) &&
    (f.status == "" || r.status == f.status)
  }

  lemma CriteriaMeanFilter(r: Reservation, f: ReservationFilter, generated: Id)
    ensures SatisfiesAll(r, Criteria(f, generated)) <==> MatchesFilter(r, f, generated)
  {
    var p1 := When(f.id != "", IdIs(Uuid(f.id, generated)));
    var p2 := When(f.createdBy != "", CreatedByIs(Uuid(f.createdBy, generated)));
    var p3 := When(f.status != "", StatusIs(f.status));
    assert Criteria(f, generated) == p1 + p2 + p3;
    if f.id != "" { assert IdIs(Uuid(f.id, generated)) in p1 + p2 + p3; }
    if f.createdBy != "" { assert CreatedByIs(Uuid(f.createdBy, generated)) in p1 + p2 + p3; }
    if f.status != "" { assert StatusIs(f.status) in p1 + p2 + p3; }
  }

  /** With no filter given, every reservation is listed. */
  lemma EmptyFilterMatchesAll(r: Reservation, generated: Id)
    ensures MatchesFilter(r, ReservationFilter("", "", ""), generated)
  {
  }

  function SortKey(column: string): Reservation -> SortValue {
    (r: Reservation) =>
      if column == "_id" then ObjectIdValue(r.id)
      else if column == "createdAt" then Date(r.createdAt)
      else if column == "cost" then Num(r.cost)
      else if column == "status" then SortValue.Text(r.status)
      else if column == "name" then (if r.name.Some? then SortValue.Text(r.name.value) else Missing)
      else if column == "email" then (if r.email.Some? then SortValue.Text(r.email.value) else Missing)
      else if column == "createdBy" then (if r.createdBy.Some? then ObjectIdValue(r.createdBy.value) else Missing)
      else Missing
  }

  function ViewsOf(env: Env, c: Collections, rs: seq<Reservation>): (v: seq<ReservationView>)
    ensures |v| == |rs| && forall i :: 0 <= i < |rs| ==> v[i] == View(env, c, rs[i])
  {
    seq(|rs|, i requires 0 <= i < |rs| => View(env, c, rs[i]))
  }

  /**
   * `findAndCountAll`: the reservations the present filters select, hydrated,
   * sorted (newest first by default), skipped and limited (0 meaning none),
   * and the count under the same criteria without paging.
   */
  method FindAndCountAll(env: Env, c: Collections, f: ReservationFilter, limit: nat, offset: nat,
                         orderBy: string, generated: Id)
    returns (rows: seq<ReservationView>, count: nat)
    ensures count == |MatchingIds(c.reservations, (r: Reservation) => MatchesFilter(r, f, generated))|
    ensures exists found :: (rows == ViewsOf(env, c, found) &&
                             IsQueryAnswer(c.reservations, (r: Reservation) => MatchesFilter(r, f, generated),
                                           SortKey(SortOrNewestFirst(orderBy).column),
                                           DirectionOf(SortOrNewestFirst(orderBy).direction), offset, limit, found))
  {
    var criteria := Criteria(f, generated);
    forall id | id in c.reservations
      ensures SatisfiesAll(c.reservations[id], criteria) == MatchesFilter(c.reservations[id], f, generated)
    {
      CriteriaMeanFilter(c.reservations[id], f, generated);
    }
    var sort := SortOrNewestFirst(orderBy);
    var found;
    found, count := FindAndCount(c.reservations, (r: Reservation) => SatisfiesAll(r, criteria),
                                 SortKey(sort.column), DirectionOf(sort.direction), offset, limit);
    EquivalentCriteria(c.reservations, (r: Reservation) => SatisfiesAll(r, criteria),
                       (r: Reservation) => MatchesFilter(r, f, generated),
                       SortKey(sort.column), DirectionOf(sort.direction), offset, limit, found);
    rows := ViewsOf(env, c, found);
  }

  /** One autocomplete entry: `{ id, label: name }`. */
  datatype AutocompleteOption = AutocompleteOption(id: Id, labelText: Option<string>)

  /** The autocomplete search: none given matches all; else the id through `uuid`, or the name as a literal substring. */
  predicate MatchesSearch(r: Reservation, search: string, generated: Id) {
    search == "" || r.id == Uuid(search, generated) ||
    (r.name.Some? && ContainsIgnoringCase(r.name.value, search))
  }

  /**
   * `findAllAutocomplete`: the matching reservations, at most `limit` of them
   * when it is not 0, in an unspecified order (the sort is on `title`, which
   * reservations lack), each as its id and name.
   */
  method FindAllAutocomplete(c: Collections, search: string, limit: nat, generated: Id)
    returns (options: seq<AutocompleteOption>)
    ensures exists found: seq<Reservation> :: (|options| == |found| &&
                             (forall i :: 0 <= i < |found| ==> options[i] == AutocompleteOption(found[i].id, found[i].name)) &&
                             IsQueryAnswer(c.reservations, (r: Reservation) => MatchesSearch(r, search, generated),
                                           SortKey("title"), Ascending, 0, limit, found))
  {
    var pattern := EscapeRegExp(search);
    var matches := (r: Reservation) =>
      search == "" || r.id == Uuid(search, generated) || (r.name.Some? && RegexContains(r.name.value, pattern));
    forall id | id in c.reservations ensures matches(c.reservations[id]) == MatchesSearch(c.reservations[id], search, generated) {
      EscapedNameSearch(c.reservations[id], search, generated);
    }
    var found: seq<Reservation>, total := FindAndCount(c.reservations, matches, SortKey("title"), Ascending, 0, limit);
    EquivalentCriteria(c.reservations, matches, (r: Reservation) => MatchesSearch(r, search, generated),
                       SortKey("title"), Ascending, 0, limit, found);
    options := seq(|found|, (i: int) requires 0 <= i < |found| => AutocompleteOption(found[i].id, found[i].name));
    assert forall i :: 0 <= i < |found| ==> options[i] == AutocompleteOption(found[i].id, found[i].name);
  }

  /** The escaped name pattern of the autocomplete search selects what the search means. */
  lemma EscapedNameSearch(r: Reservation, search: string, generated: Id)
    ensures (search == "" || r.id == Uuid(search, generated) ||
             (r.name.Some? && RegexContains(r.name.value, EscapeRegExp(search)))) == MatchesSearch(r, search, generated)
  {
    if r.name.Some? { EscapedSearchIsLiteral(r.name.value, search); }
  }
}
