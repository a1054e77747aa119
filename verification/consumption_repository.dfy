/** The repository of the `consumption` collection (src/database/repositories/consumptionRepository.ts). */
module ConsumptionRepository {
  import opened Wrappers
  import opened QueryUtils
  import opened ConsumptionModel
  import opened Database
  import opened Ordering

  /** `findById`: NotFound for an absent id, else the plain record. */
  function FindById(consumptions: map<Id, Consumption>, id: string): (r: Result<Consumption>)
    ensures r.Ok? <==> IsValidObjectId(id) && id in consumptions
    ensures r.Ok? ==> r.value == consumptions[id]
    ensures r.Err? ==> r.error == (if IsValidObjectId(id) then NotFound else CastError)
  {
    FindOne(consumptions, id)
  }

  /**
   * `create`: stamps `createdBy` with the caller's id, inserts the validated
   * record (the schema drops the stamp) and answers it re-read.
   */
  method Create(db: Store, data: ConsumptionData, currentUser: Id, newId: Id, now: int) returns (r: Result<Consumption>)
    requires db.Valid() && IsValidObjectId(newId) && newId !in db.consumptions
    modifies db
    ensures db.Valid()
    ensures ConsumptionModel.Create(newId, data, now).Err? ==>
      r == Err(ValidationError) && db.Contents() == old(db.Contents())
    ensures ConsumptionModel.Create(newId, data, now).Ok? ==>
      r == ConsumptionModel.Create(newId, data, now) &&
      db.Contents() == old(db.Contents()).(consumptions := old(db.consumptions)[newId := r.value])
  {
    var stamped := data.(createdBy := Some(currentUser));
    StampsAreDropped(newId, data, now, Some(currentUser));
    var record := ConsumptionModel.Create(newId, stamped, now);
    if record.Err? {
      return Err(record.error);
    }
    db.consumptions := db.consumptions[newId := record.value];
    r := FindById(db.consumptions, newId);
  }

  /**
   * `update`: NotFound (or CastError) for an absent id; otherwise the data,
   * stamped with `updatedBy`, is applied without validators, and the record
   * is answered re-read.
   */
  method Update(db: Store, id: string, data: ConsumptionData, currentUser: Id) returns (r: Result<Consumption>)
    requires db.Valid()
    modifies db
    ensures db.Valid()
    ensures r.Err? <==> FindById(old(db.consumptions), id).Err?
    ensures r.Err? ==> r == FindById(old(db.consumptions), id) && db.Contents() == old(db.Contents())
    ensures r.Ok? ==> r.value == ConsumptionModel.Update(old(db.consumptions)[id], data) &&
                      db.Contents() == old(db.Contents()).(consumptions := old(db.consumptions)[id := r.value])
  {
    var found := FindById(db.consumptions, id);
    if found.Err? {
      return found;
    }
    var stamped := data.(updatedBy := Some(currentUser));
    db.consumptions := db.consumptions[id := ConsumptionModel.Update(found.value, stamped)];
    r := FindById(db.consumptions, id);
  }

  /** `destroy`: NotFound (or CastError) for an absent id; otherwise exactly that record is removed. */
  method Destroy(db: Store, id: string) returns (r: Result<()>)
    requires db.Valid()
    modifies db
    ensures db.Valid()
    ensures r.Ok? <==> FindById(old(db.consumptions), id).Ok?
    ensures r.Err? ==> r.error == FindById(old(db.consumptions), id).error && db.Contents() == old(db.Contents())
    ensures r.Ok? ==> db.Contents() == old(db.Contents()).(consumptions := old(db.consumptions) - {id})
  {
    var found := FindById(db.consumptions, id);
    if found.Err? {
      return Err(found.error);
    }
    db.consumptions := db.consumptions - {id};
    return Ok(());
  }

  /**
   * `findAndCountAll`'s filter. An empty `id` or `status` is not given;
   * `name` is read only when `status` is given, and may be undefined.
   */
  datatype ConsumptionFilter = ConsumptionFilter(id: string, status: string, name: Option<string>)

  datatype Criterion = IdIs(id: Id) | NameEquals(name: Option<string>)

  /** `{ name: { $eq: undefined } }` is cast to `$eq: null`, which matches a missing name. */
  predicate Satisfies(x: Consumption, c: Criterion) {
    match c
    case IdIs(id) => x.id == id
    case NameEquals(name) => x.name == name
  }

  predicate SatisfiesAll(x: Consumption, criteria: seq<Criterion>) {
    forall c :: c in criteria ==> Satisfies(x, c)
  }

  /** One criterion per given filter field, in push order; a given `status` pushes a criterion on `name`. */
  function Criteria(f: ConsumptionFilter, generated: Id): (criteria: seq<Criterion>)
    ensures criteria == [] <==> f.id == "" && f.status == ""
  {
    When(f.id != "", IdIs(Uuid(f.id, generated))) + When(f.status != "", NameEquals(f.name))
  }

  /**
   * What the filter selects: the id through `uuid` when given and, when a
   * status is given, the consumptions whose name is `f.name`; no consumption
   * has a status, so the status value itself selects nothing.
   */
  predicate MatchesFilter(x: Consumption, f: ConsumptionFilter, generated: Id) {
    (f.id == "" || x.id == Uuid(f.id, generated)) &&
    (f.status == "" || x.name == f.name)
  }

  lemma CriteriaMeanFilter(x: Consumption, f: ConsumptionFilter, generated: Id)
    ensures SatisfiesAll(x, Criteria(f, generated)) <==> MatchesFilter(x, f, generated)
  {
    var p1 := When(f.id != "", IdIs(Uuid(f.id, generated)));
    var p2 := When(f.status != "", NameEquals(f.name));
    if f.id != "" { assert IdIs(Uuid(f.id, generated)) in p1 + p2; }
    if f.status != "" { assert NameEquals(f.name) in p1 + p2; }
  }

  /** The status value is never compared: two filters differing only in it select the same. */
  lemma StatusValueIsIgnored(x: Consumption, f: ConsumptionFilter, generated: Id, other: string)
    requires f.status != "" && other != ""
    ensures SatisfiesAll(x, Criteria(f, generated)) <==> SatisfiesAll(x, Criteria(f.(status := other), generated))
  {
    CriteriaMeanFilter(x, f, generated);
    CriteriaMeanFilter(x, f.(status := other), generated);
  }

  /** A name alone, without a status, filters nothing. */
  lemma NameAloneIsIgnored(x: Consumption, name: string, generated: Id)
    ensures SatisfiesAll(x, Criteria(ConsumptionFilter("", "", Some(name)), generated))
  {
    assert Criteria(ConsumptionFilter("", "", Some(name)), generated) == [];
  }

  function SortKey(column: string): Consumption -> SortValue {
    (x: Consumption) =>
      if column == "_id" then ObjectIdValue(x.id)
      else if column == "createdAt" then Date(x.createdAt)
      else if column == "name" then (if x.name.Some? then SortValue.Text(x.name.value) else Missing)
      else if column == "description" then (if x.description.Some? then SortValue.Text(x.description.value) else Missing)
      else if column == "price" then Num(x.price)
      else Missing
  }

  /**
   * `findAndCountAll`: the consumptions the present filters select, sorted
   * (newest first by default), skipped and limited (0 meaning none), and the
   * count under the same criteria without paging.
   */
  method FindAndCountAll(c: Collections, f: ConsumptionFilter, limit: nat, offset: nat, orderBy: string, generated: Id)
    returns (rows: seq<Consumption>, count: nat)
    ensures count == |MatchingIds(c.consumptions, (x: Consumption) => MatchesFilter(x, f, generated))|
    ensures IsQueryAnswer(c.consumptions, (x: Consumption) => MatchesFilter(x, f, generated),
                          SortKey(SortOrNewestFirst(orderBy).column), DirectionOf(SortOrNewestFirst(orderBy).direction),
                          offset, limit, rows)
  {
    var criteria := Criteria(f, generated);
    forall id | id in c.consumptions
      ensures SatisfiesAll(c.consumptions[id], criteria) == MatchesFilter(c.consumptions[id], f, generated)
    {
      CriteriaMeanFilter(c.consumptions[id], f, generated);
    }
    var sort := SortOrNewestFirst(orderBy);
    rows, count := FindAndCount(c.consumptions, (x: Consumption) => SatisfiesAll(x, criteria),
                                SortKey(sort.column), DirectionOf(sort.direction), offset, limit);
    EquivalentCriteria(c.consumptions, (x: Consumption) => SatisfiesAll(x, criteria),
                       (x: Consumption) => MatchesFilter(x, f, generated),
                       SortKey(sort.column), DirectionOf(sort.direction), offset, limit, rows);
  }
}
