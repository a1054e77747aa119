/** The `consumption` collection's schema. */
module ConsumptionModel {
  import opened Wrappers
  import opened QueryUtils
  import opened SchemaTypes

  /** A stored consumption; price is a JavaScript number, modelled as an integer. */
  datatype Consumption = Consumption(
    id: Id,
    name: Option<string>,
    description: Option<string>,
    price: int,
    createdAt: int)

  /**
   * A create or update document. The repository adds `createdBy` and
   * `updatedBy`, which the schema does not declare.
   */
  datatype ConsumptionData = ConsumptionData(
    name: Option<string>,
    description: Option<string>,
    price: Option<int>,
    createdBy: Option<string>,
    updatedBy: Option<string>)

  const NoData := ConsumptionData(None, None, None, None, None)

  /** name at most 63 long, description at most 256. */
  predicate DataValidates(d: ConsumptionData) {
    WithinLength(d.name, 63) && WithinLength(d.description, 256)
  }

  predicate IsValid(c: Consumption) {
    IsValidObjectId(c.id) && WithinLength(c.name, 63) && WithinLength(c.description, 256)
  }

  /**
   * `Consumption.create([data])`: price defaults to 0; the undeclared
   * `createdBy` and `updatedBy` are dropped by the strict schema.
   */
  function Create(id: Id, d: ConsumptionData, now: int): (r: Result<Consumption>)
    requires IsValidObjectId(id)
    ensures r.Ok? <==> DataValidates(d)
    ensures r.Err? ==> r.error == ValidationError
    ensures r.Ok? ==> IsValid(r.value) && r.value.id == id && r.value.createdAt == now
    ensures r.Ok? ==> r.value.price == d.price.GetOr(0) && r.value.name == d.name
  {
    if !DataValidates(d) then Err(ValidationError)
    else Ok(Consumption(id, d.name, d.description, d.price.GetOr(0), now))
  }

  /** `Consumption.updateOne({_id}, data)`: no validators, undeclared paths dropped. */
  function Update(c: Consumption, d: ConsumptionData): (u: Consumption)
    ensures u.id == c.id && u.createdAt == c.createdAt
    ensures d.price.Some? ==> u.price == d.price.value
    ensures d.price.None? ==> u.price == c.price
  {
    Consumption(c.id, OverwriteOptional(d.name, c.name),
                OverwriteOptional(d.description, c.description),
                Overwrite(d.price, c.price), c.createdAt)
  }

  /** What a create stores does not depend on the stamps. */
  lemma StampsAreDropped(id: Id, d: ConsumptionData, now: int, stamp: Option<string>)
    requires IsValidObjectId(id)
    ensures Create(id, d.(createdBy := stamp, updatedBy := stamp), now) == Create(id, d, now)
    ensures Update(Consumption(id, None, None, 0, now), d.(createdBy := stamp, updatedBy := stamp))
         == Update(Consumption(id, None, None, 0, now), d)
  {
  }
}
