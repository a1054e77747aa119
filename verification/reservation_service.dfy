/**
 * The reservation service (src/services/reservationService.ts): the
 * repository's writes inside one transaction each, which an error aborts.
 */
module ReservationService {
  import opened Wrappers
  import opened QueryUtils
  import opened ReservationModel
  import opened External
  import opened Database
  import opened ServiceOptions
  import opened ReservationRepository

  /** `{ ...data, createdBy: currentUser.id }`: the caller's id replaces any creator in the data. */
  function Stamped(data: ReservationData, currentUser: CurrentUser): (d: ReservationData)
    ensures d.createdBy == Some(currentUser.id)
    ensures d.(createdBy := data.createdBy) == data
  {
    data.(createdBy := Some(currentUser.id))
  }

  /**
   * `create`: reading `currentUser.id` without a current user is a TypeError;
   * otherwise the repository creates the stamped reservation, and every error
   * aborts the transaction, so a failed create leaves the store as it was
   * (the record the repository inserted before its cost failed included).
   */
  method Create(env: Env, db: Store, currentUser: Option<CurrentUser>, data: ReservationData, newId: Id, now: int)
    returns (r: Result<ReservationView>)
    requires db.Valid() && IsValidObjectId(newId) && newId !in db.reservations
    modifies db
    ensures db.Valid()
    ensures r.Err? ==> db.Contents() == old(db.Contents())
    ensures currentUser.None? ==> r == Err(TypeError)
    ensures currentUser.Some? ==>
      var created := ReservationModel.Create(newId, Stamped(data, currentUser.value), now);
      (created.Err? ==> r == Err(ValidationError)) &&
      (created.Ok? ==> (r.Ok? <==> TotalCost(old(db.consumptions), created.value.consumptions).Ok?))
    ensures r.Ok? ==> (currentUser.Some? &&
      var created := ReservationModel.Create(newId, Stamped(data, currentUser.value), now);
      created.Ok? && TotalCost(old(db.consumptions), created.value.consumptions).Ok? &&
      db.Contents() == old(db.Contents()).(reservations := old(db.reservations)[newId :=
        Costed(env, old(db.Contents()), created.value)]) &&
      r == Ok(View(env, db.Contents(), db.reservations[newId])))
    ensures r.Ok? ==>
      r.value.reservation.createdBy == (if currentUser.value.id in old(db.users) then Some(currentUser.value.id) else None)
  {
    var snapshot := db.Contents();
    if currentUser.None? {
      return Err(TypeError);
    }
    var stamped := Stamped(data, currentUser.value);
    r := ReservationRepository.Create(env, db, stamped, newId, now);
    if r.Err? {
      db.Restore(snapshot);
      return;
    }
    var created := ReservationModel.Create(newId, stamped, now).value;
    WriteBackEffect(env, snapshot, created, TotalCost(snapshot.consumptions, created.consumptions).value);
  }

  /**
   * `update`: the repository's update inside a transaction; an error aborts,
   * so a failed update (a line item that does not resolve included) changes
   * nothing.
   */
  method Update(env: Env, db: Store, id: string, data: ReservationData) returns (r: Result<ReservationView>)
    requires db.Valid()
    modifies db
    ensures db.Valid()
    ensures r.Err? ==> db.Contents() == old(db.Contents())
    ensures FindOne(old(db.reservations), id).Err? ==> r == FindOne(old(db.reservations), id).PropagateFailure()
    ensures FindOne(old(db.reservations), id).Ok? ==>
      var updated := ReservationModel.Update(old(db.reservations)[id], data);
      (updated.Err? ==> r == Err(CastError)) &&
      (updated.Ok? ==> (r.Ok? <==> TotalCost(old(db.consumptions), updated.value.consumptions).Ok?))
    ensures r.Ok? ==> (id in old(db.reservations) &&
      var updated := ReservationModel.Update(old(db.reservations)[id], data);
      updated.Ok? && TotalCost(old(db.consumptions), updated.value.consumptions).Ok? &&
      db.Contents() == old(db.Contents()).(reservations := old(db.reservations)[id :=
        Costed(env, old(db.Contents()), updated.value)]) &&
      r == Ok(View(env, db.Contents(), db.reservations[id])) &&
      r.value.reservation.cost == TotalCost(old(db.consumptions), updated.value.consumptions).value)
  {
    var snapshot := db.Contents();
    r := ReservationRepository.Update(env, db, id, data);
    if r.Err? {
      db.Restore(snapshot);
    }
  }

  /**
   * `destroyAll`: destroys the ids in order inside one transaction; the first
   * id that is not found raises and aborts, so either every reservation of
   * the batch is gone or none is.
   */
  method DestroyAll(db: Store, ids: seq<string>) returns (r: Result<()>)
    requires db.Valid()
    modifies db
    ensures db.Valid()
    ensures r.Err? <==> DeleteEach(old(db.reservations), ids).Err?
    ensures r.Err? ==> r.error == DeleteEach(old(db.reservations), ids).error && db.Contents() == old(db.Contents())
    ensures r.Ok? ==> db.Contents() == old(db.Contents()).(reservations := DeleteEach(old(db.reservations), ids).value)
  {
    var snapshot := db.Contents();
    for k := 0 to |ids|
      invariant db.Valid()
      invariant db.Contents() == snapshot.(reservations := db.reservations)
      invariant DeleteEach(snapshot.reservations, ids) == DeleteEach(db.reservations, ids[k..])
    {
      assert ids[k..][0] == ids[k] && ids[k..][1..] == ids[k + 1..];
      var destroyed := ReservationRepository.Destroy(db, ids[k]);
      if destroyed.Err? {
        db.Restore(snapshot);
        return destroyed;
      }
    }
    assert ids[|ids|..] == [];
    return Ok(());
  }

}
