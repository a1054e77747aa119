/** The `reservation` collection's schema. */
module ReservationModel {
  import opened Wrappers
  import opened QueryUtils
  import opened SchemaTypes
  import opened ReservationConsumptionSchema

  /** A stored reservation. `id` is the hex text of `_id`; `createdAt` comes from `timestamps`. */
  datatype Reservation = Reservation(
    id: Id,
    name: Option<string>,
    email: Option<string>,
    cpf: Option<string>,
    province: Option<string>,
    city: Option<string>,
    street: Option<string>,
    zipCode: Option<string>,
    consumptions: seq<LineItem>,
    documents: seq<Id>,
    createdBy: Option<Id>,
    status: string,
    cost: int,
    createdAt: int)

  /** A create or update document; `None` is a path the document does not name. */
  datatype ReservationData = ReservationData(
    name: Option<string>,
    email: Option<string>,
    cpf: Option<string>,
    province: Option<string>,
    city: Option<string>,
    street: Option<string>,
    zipCode: Option<string>,
    consumptions: Option<seq<LineItem>>,
    documents: Option<seq<string>>,
    createdBy: Option<string>,
    status: Option<string>,
    cost: Option<int>)

  const NoData := ReservationData(None, None, None, None, None, None, None, None, None, None, None, None)

  const Statuses: seq<string> := ["checkin", "checkout"]
  const DefaultStatus := "checkin"

  /** Every reference path casts to an ObjectId. */
  predicate DataCasts(d: ReservationData) {
    LineItemsCast(d.consumptions.GetOr([])) && RefsCast(d.documents) && RefCasts(d.createdBy)
  }

  /**
   * The validators a create runs: email required and at most 255 long; name and
   * cpf at most 255; province, street and zipCode at most 63; status in the
   * enum. City has no limit: its option is spelled `maxlenght`.
   */
  predicate DataValidates(d: ReservationData) {
    IsPresent(d.email) && WithinLength(d.email, 255) &&
    WithinLength(d.name, 255) && WithinLength(d.cpf, 255) &&
    WithinLength(d.province, 63) && WithinLength(d.street, 63) && WithinLength(d.zipCode, 63) &&
    InEnum(d.status, Statuses)
  }

  /** A reservation that the schema's validators accept. */
  predicate IsValid(r: Reservation) {
    IsValidObjectId(r.id) &&
    IsPresent(r.email) && WithinLength(r.email, 255) &&
    WithinLength(r.name, 255) && WithinLength(r.cpf, 255) &&
    WithinLength(r.province, 63) && WithinLength(r.street, 63) && WithinLength(r.zipCode, 63) &&
    r.status in Statuses &&
    LineItemsCast(r.consumptions) &&
    (forall i :: 0 <= i < |r.documents| ==> IsValidObjectId(r.documents[i])) &&
    RefCasts(r.createdBy)
  }

  /**
   * `Reservation.create([data])`: casting or a validator failing is a
   * ValidationError; otherwise the record holds the data, status defaults to
   * checkin and cost to 0.
   */
  function Create(id: Id, d: ReservationData, now: int): (r: Result<Reservation>)
    requires IsValidObjectId(id)
    ensures r.Ok? <==> DataCasts(d) && DataValidates(d)
    ensures r.Err? ==> r.error == ValidationError
    ensures r.Ok? ==> IsValid(r.value) && r.value.id == id && r.value.createdAt == now
    ensures r.Ok? ==> r.value.status == d.status.GetOr(DefaultStatus) && r.value.cost == d.cost.GetOr(0)
    ensures r.Ok? ==> r.value.consumptions == d.consumptions.GetOr([]) && r.value.documents == d.documents.GetOr([])
  {
    if !(DataCasts(d) && DataValidates(d)) then Err(ValidationError)
    else Ok(Reservation(id, d.name, d.email, d.cpf, d.province, d.city, d.street, d.zipCode,
                        d.consumptions.GetOr([]), d.documents.GetOr([]), d.createdBy,
                        d.status.GetOr(DefaultStatus), d.cost.GetOr(0), now))
  }

  /**
   * `Reservation.updateOne({_id}, data)`: references are still cast (a
   * CastError otherwise), but no validator runs; named paths are overwritten.
   */
  function Update(r: Reservation, d: ReservationData): (u: Result<Reservation>)
    ensures u.Ok? <==> DataCasts(d)
    ensures u.Err? ==> u.error == CastError
    ensures u.Ok? ==> u.value.id == r.id && u.value.createdAt == r.createdAt
    ensures u.Ok? && d == NoData ==> u.value == r
  {
    if !DataCasts(d) then Err(CastError)
    else Ok(Reservation(
      r.id,
      OverwriteOptional(d.name, r.name), OverwriteOptional(d.email, r.email),
      OverwriteOptional(d.cpf, r.cpf), OverwriteOptional(d.province, r.province),
      OverwriteOptional(d.city, r.city), OverwriteOptional(d.street, r.street),
      OverwriteOptional(d.zipCode, r.zipCode),
      Overwrite(d.consumptions, r.consumptions), Overwrite(d.documents, r.documents),
      OverwriteOptional(d.createdBy, r.createdBy),
      Overwrite(d.status, r.status), Overwrite(d.cost, r.cost), r.createdAt))
  }

  /** The city has no length limit: setting it never changes whether data validates. */
  lemma CityIsUnbounded(d: ReservationData, city: string)
    ensures DataValidates(d.(city := Some(city))) <==> DataValidates(d)
  {
  }

  /** A province longer than 63 characters is refused, whatever the rest of the data. */
  lemma ProvinceIsBounded(d: ReservationData, province: string)
    requires |province| > 63
    ensures !DataValidates(d.(province := Some(province)))
  {
  }

  /** An update may store a status outside the enum, since validators do not run. */
  lemma UpdateSkipsValidators(r: Reservation)
    requires IsValid(r)
    ensures Update(r, NoData.(status := Some("archived"))).Ok?
    ensures !IsValid(Update(r, NoData.(status := Some("archived"))).value)
  {
    assert "archived" != "checkin" && "archived" != "checkout";
  }

  /** Setting the status to checkout keeps a valid reservation valid. */
  lemma CheckoutKeepsValid(r: Reservation)
    requires IsValid(r)
    ensures Update(r, NoData.(status := Some("checkout"))).Ok?
    ensures IsValid(Update(r, NoData.(status := Some("checkout"))).value)
  {
  }
}
