/**
 * The payment service (src/services/paymentService.ts): the checkout of the
 * caller's latest check-in reservation through Stripe, and the webhook that
 * settles a payment.
 */
module PaymentService {
  import opened Wrappers
  import opened QueryUtils
  import opened ConsumptionModel
  import opened ReservationConsumptionSchema
  import opened ReservationModel
  import opened PaymentModel
  import opened External
  import opened Database
  import opened Ordering
  import opened ServiceOptions
  import opened ReservationRepository
  import PaymentRepository

  // ---------------------------------------------------------------------
  // generateRandomString
  // ---------------------------------------------------------------------

  const Alphabet := "ABCDEFGHIJKLMNOPQRSTUVWXYZabcdefghijklmnopqrstuvwxyz0123456789"

  /** The length of a confirmation id. */
  const ConfirmationIdLength := 60

  /** `Math.floor(Math.random() * characters.length)`: one draw is an index into the alphabet. */
  predicate AreDraws(draws: seq<int>) {
    forall i :: 0 <= i < |draws| ==> 0 <= draws[i] < |Alphabet|
  }

  /** The text a sequence of draws spells. */
  function Spelled(draws: seq<int>): (s: string)
    requires AreDraws(draws)
    ensures |s| == |draws|
    ensures forall i :: 0 <= i < |s| ==> s[i] in Alphabet
  {
    seq(|draws|, i requires 0 <= i < |draws| => Alphabet[draws[i]])
  }

  /**
   * `generateRandomString(length)`: one draw per character. The randomness
   * is the sequence of draws the caller supplies.
   */
  method GenerateRandomString(length: nat, draws: seq<int>) returns (result: string)
    requires |draws| >= length && AreDraws(draws)
    ensures result == Spelled(draws[..length])
  {
    result := "";
    for i := 0 to length
      invariant result == Spelled(draws[..i])
    {
      result := result + [Alphabet[draws[i]]];
    }
  }

  // ---------------------------------------------------------------------
  // getTotalPrice
  // ---------------------------------------------------------------------

  /** `(consumption?.consumption?.price ?? 0) * (consumption?.quantity ?? 0)`. */
  function LinePrice(line: LineItemView): int {
    (if line.consumption.Some? then line.consumption.value.price else 0) * line.quantity.GetOr(0)
  }

  /** The sum of the line prices. */
  function PriceSum(lines: seq<LineItemView>): int {
    if lines == [] then 0 else PriceSum(lines[..|lines| - 1]) + LinePrice(lines[|lines| - 1])
  }

  /** `getTotalPrice(reservation)`: the sum of its line prices; no reservation costs 0. */
  method GetTotalPrice(reservation: Option<ReservationView>) returns (totalPrice: int)
    ensures reservation.None? ==> totalPrice == 0
    ensures reservation.Some? ==> totalPrice == PriceSum(reservation.value.consumptions)
  {
    totalPrice := 0;
    if reservation.None? {
      return;
    }
    var lines := reservation.value.consumptions;
    for i := 0 to |lines|
      invariant totalPrice == PriceSum(lines[..i])
    {
      assert lines[..i + 1][..i] == lines[..i];
      totalPrice := totalPrice + LinePrice(lines[i]);
    }
    assert lines[..|lines|] == lines;
  }

  /**
   * Where every line item resolves, the price of the hydrated line items is
   * the cost `updateTotalCost` computes from the same consumptions.
   */
  lemma {:induction false} PriceIsTheCost(consumptions: map<Id, Consumption>, items: seq<LineItem>, lines: seq<LineItemView>)
    requires |lines| == |items| && forall i :: 0 <= i < |items| ==> lines[i] == PopulateItem(consumptions, items[i])
    requires TotalCost(consumptions, items).Ok?
    ensures PriceSum(lines) == TotalCost(consumptions, items).value
    decreases |items|
  {
    if items != [] {
      var n := |items| - 1;
      assert TotalCost(consumptions, items[..n]).Ok? by {
        forall i | 0 <= i < n ensures Resolves(consumptions, items[..n][i]) {
          assert items[..n][i] == items[i];
        }
      }
      PriceIsTheCost(consumptions, items[..n], lines[..n]);
      assert items == items[..n] + [items[n]];
      TotalCostAppend(consumptions, items[..n], items[n]);
    }
  }

  /** A line item that does not resolve counts 0 in the price, where it makes the cost fail. */
  lemma DanglingItemIsFree(consumptions: map<Id, Consumption>, item: LineItem)
    requires !Resolves(consumptions, item)
    ensures LinePrice(PopulateItem(consumptions, item)) == 0
    ensures TotalCost(consumptions, [item]).Err?
  {
  }

  // ---------------------------------------------------------------------
  // The caller's latest check-in reservation
  // ---------------------------------------------------------------------

  /** `{ createdBy: currentUser.id || '', status: 'checkin' }`. */
  function CheckinFilter(caller: CurrentUser): ReservationFilter {
    ReservationFilter("", caller.id, "checkin")
  }

  /** One of the caller's check-in reservations, such that no other was created after it. */
  ghost predicate IsLatestCheckinId(c: Collections, caller: CurrentUser, generated: Id, id: Id) {
    id in c.reservations && ReservationRepository.MatchesFilter(c.reservations[id], CheckinFilter(caller), generated) &&
    forall other :: other in c.reservations && ReservationRepository.MatchesFilter(c.reservations[other], CheckinFilter(caller), generated) ==>
      c.reservations[other].createdAt <= c.reservations[id].createdAt
  }

  /**
   * `latest` is the first row of the check-in query: null when the caller has
   * no check-in reservation, else the hydrated latest one.
   */
  ghost predicate IsLatestCheckin(env: Env, c: Collections, caller: CurrentUser, generated: Id, latest: Option<ReservationView>) {
    (latest.None? <==> MatchingIds(c.reservations, (r: Reservation) => ReservationRepository.MatchesFilter(r, CheckinFilter(caller), generated)) == {}) &&
    (latest.Some? ==> exists id :: IsLatestCheckinId(c, caller, generated, id) && latest.value == View(env, c, c.reservations[id]))
  }

  /** The first row of the check-in query, newest first, is a latest check-in reservation. */
  lemma FirstCheckinIsLatest(c: Collections, caller: CurrentUser, generated: Id, found: seq<Reservation>)
    requires IsQueryAnswer(c.reservations, (r: Reservation) => ReservationRepository.MatchesFilter(r, CheckinFilter(caller), generated),
                           ReservationRepository.SortKey("createdAt"), Descending, 0, 0, found)
    requires found != []
    ensures exists id :: IsLatestCheckinId(c, caller, generated, id) && found[0] == c.reservations[id]
  {
    var checkin := (r: Reservation) => ReservationRepository.MatchesFilter(r, CheckinFilter(caller), generated);
    var key := ReservationRepository.SortKey("createdAt");
    FirstOfUnpagedAnswer(c.reservations, checkin, key, Descending, found);
    var id :| id in c.reservations && checkin(c.reservations[id]) && found[0] == c.reservations[id];
    forall other | other in c.reservations && checkin(c.reservations[other])
      ensures c.reservations[other].createdAt <= c.reservations[id].createdAt
    {
      assert key(c.reservations[other]) == Date(c.reservations[other].createdAt);
      assert key(found[0]) == Date(found[0].createdAt);
    }
    assert IsLatestCheckinId(c, caller, generated, id);
  }

  /** `findAndCountAll` of the caller's check-in reservations, newest first, and its first row. */
  method LatestCheckin(env: Env, c: Collections, caller: CurrentUser, generated: Id) returns (latest: Option<ReservationView>)
    ensures IsLatestCheckin(env, c, caller, generated, latest)
  {
    var rows, count := ReservationRepository.FindAndCountAll(env, c, CheckinFilter(caller), 0, 0, "", generated);
    if count == 0 {
      return None;
    }
    ghost var checkin := (r: Reservation) => ReservationRepository.MatchesFilter(r, CheckinFilter(caller), generated);
    ghost var found: seq<Reservation> :| rows == ViewsOf(env, c, found) &&
      IsQueryAnswer(c.reservations, checkin, ReservationRepository.SortKey("createdAt"), Descending, 0, 0, found);
    UnpagedAnswerIsComplete(c.reservations, checkin, ReservationRepository.SortKey("createdAt"), Descending, found);
    FirstCheckinIsLatest(c, caller, generated, found);
    latest := Some(rows[0]);
  }

  // ---------------------------------------------------------------------
  // create
  // ---------------------------------------------------------------------

  /**
   * What `create` inserts: the given data, created by the caller, for the
   * latest check-in reservation (`''` when there is none), with a fresh
   * confirmation id and that reservation's total price as amount.
   */
  function Draft(data: PaymentData, caller: CurrentUser, latest: Option<ReservationView>, confirmationId: string): PaymentData {
    data.(createdBy := Some(caller.id),
          reservation := Some(if latest.Some? then latest.value.reservation.id else ""),
          confirmationId := Some(confirmationId),
          amount := Some(if latest.Some? then PriceSum(latest.value.consumptions) else 0))
  }

  /**
   * The outcome of inserting `draft` as `newId`: a ValidationError when it
   * does not cast or validate, a DuplicateKey when the partial unique index
   * refuses it (both leave the store as it was), else the store gains it.
   */
  ghost predicate Inserted(c0: Collections, c1: Collections, draft: PaymentData, newId: Id, now: int, r: Result<Payment>)
    requires IsValidObjectId(newId)
  {
    match PaymentModel.Create(newId, draft, now)
    case Err(_) => r == Err(ValidationError) && c1 == c0
    case Ok(p) =>
      if ClashesWithPending(c0.payments, p) then r == Err(DuplicateKey) && c1 == c0
      else r == Ok(p) && c1 == c0.(payments := c0.payments[newId := p])
  }

  /**
   * `create(data)`: a payment for the caller's latest check-in reservation,
   * inside a transaction. `{ rows: record, count: 1 }` is answered as the
   * record itself.
   */
  method Create(env: Env, db: Store, currentUser: Option<CurrentUser>, data: PaymentData, newId: Id, now: int,
                generated: Id, draws: seq<int>) returns (r: Result<Payment>)
    requires db.Valid() && IsValidObjectId(newId) && newId !in db.payments
    requires |draws| >= ConfirmationIdLength && AreDraws(draws)
    modifies db
    ensures db.Valid()
    ensures r.Err? ==> db.Contents() == old(db.Contents())
    ensures currentUser.None? ==> r == Err(TypeError)
    ensures currentUser.Some? ==>
      exists latest :: IsLatestCheckin(env, old(db.Contents()), currentUser.value, generated, latest) &&
        Inserted(old(db.Contents()), db.Contents(), Draft(data, currentUser.value, latest, Spelled(draws[..ConfirmationIdLength])),
                 newId, now, r)
  {
    if currentUser.None? {
      return Err(TypeError);
    }
    var snapshot := db.Contents();
    var caller := currentUser.value;
    var latest := LatestCheckin(env, db.Contents(), caller, generated);
    var confirmationId := GenerateRandomString(ConfirmationIdLength, draws);
    var amount := GetTotalPrice(latest);
    var draft := data.(createdBy := Some(caller.id),
                       reservation := Some(if latest.Some? then latest.value.reservation.id else ""),
                       confirmationId := Some(confirmationId),
                       amount := Some(amount));
    assert draft == Draft(data, caller, latest, Spelled(draws[..ConfirmationIdLength]));
    r := PaymentRepository.Create(db, draft, newId, now);
    assert Inserted(snapshot, db.Contents(), draft, newId, now, r);
  }

  /** Without a check-in reservation, `create` casts `''` as the reservation and fails. */
  lemma NoCheckinFailsToCreate(env: Env, c0: Collections, c1: Collections, data: PaymentData, caller: CurrentUser,
                               latest: Option<ReservationView>, confirmationId: string, newId: Id, now: int, r: Result<Payment>)
    requires IsValidObjectId(newId)
    requires latest.None?
    requires Inserted(c0, c1, Draft(data, caller, latest, confirmationId), newId, now, r)
    ensures r == Err(ValidationError) && c1 == c0
  {
    assert !IsValidObjectId("");
  }

  /**
   * A created payment belongs to the caller and to a latest check-in
   * reservation, costs that reservation's price and carries the confirmation id.
   */
  lemma CreatedPayment(env: Env, c0: Collections, c1: Collections, data: PaymentData, caller: CurrentUser, generated: Id,
                       latest: Option<ReservationView>, confirmationId: string, newId: Id, now: int, r: Result<Payment>)
    requires KeyedById(c0) && IsValidObjectId(newId)
    requires IsLatestCheckin(env, c0, caller, generated, latest)
    requires Inserted(c0, c1, Draft(data, caller, latest, confirmationId), newId, now, r)
    requires r.Ok?
    ensures r.value.id == newId && r.value.status == data.status.GetOr(Pending)
    ensures r.value.createdBy == Some(caller.id) && r.value.confirmationId == Some(confirmationId)
    ensures exists rid :: IsLatestCheckinId(c0, caller, generated, rid) && r.value.reservation == Some(rid) &&
                          r.value.amount == PriceSum(View(env, c0, c0.reservations[rid]).consumptions)
    ensures c1 == c0.(payments := c0.payments[newId := r.value])
  {
    if latest.None? {
      NoCheckinFailsToCreate(env, c0, c1, data, caller, latest, confirmationId, newId, now, r);
    } else {
      var rid :| IsLatestCheckinId(c0, caller, generated, rid) && latest.value == View(env, c0, c0.reservations[rid]);
      assert latest.value.reservation.id == rid;
    }
  }

  // ---------------------------------------------------------------------
  // findLatestReservation
  // ---------------------------------------------------------------------

  /** The answer of `findLatestReservation`: `{ status: false, message }` or `{ status: true, client_secret }`. */
  datatype Checkout = Unavailable(message: string) | Ready(clientSecret: string)

  const NoReservationAvailable := "No reservation is available now"
  const AlreadyPaid := "The payment is already completed successfully"

  /** `pid` is a payment the query `{ reservation: rid, createdBy: caller.id, status }` selects. */
  ghost predicate IsPaymentFor(c: Collections, caller: CurrentUser, generated: Id, rid: Id, status: string, pid: Id) {
    pid in c.payments &&
    PaymentRepository.MatchesFilter(c.payments[pid], PaymentRepository.PaymentFilter("", caller.id, rid, status), generated)
  }

  /** `findAndCountAll` of the caller's payments for a reservation in one status: none, or its first row. */
  method FirstPaymentFor(c: Collections, caller: CurrentUser, generated: Id, rid: Id, status: string) returns (first: Option<Payment>)
    ensures first.None? <==> forall pid :: pid in c.payments ==> !IsPaymentFor(c, caller, generated, rid, status, pid)
    ensures first.Some? ==> exists pid :: IsPaymentFor(c, caller, generated, rid, status, pid) && first.value == c.payments[pid]
  {
    var f := PaymentRepository.PaymentFilter("", caller.id, rid, status);
    var rows, count := PaymentRepository.FindAndCountAll(c, f, 0, 0, "", generated);
    ghost var matches := (p: Payment) => PaymentRepository.MatchesFilter(p, f, generated);
    if count == 0 {
      assert MatchingIds(c.payments, matches) == {};
      forall pid | pid in c.payments ensures !IsPaymentFor(c, caller, generated, rid, status, pid) {
        assert pid !in MatchingIds(c.payments, matches);
      }
      return None;
    }
    UnpagedAnswerIsComplete(c.payments, matches, PaymentRepository.SortKey("createdAt"), Descending, rows);
    FirstOfUnpagedAnswer(c.payments, matches, PaymentRepository.SortKey("createdAt"), Descending, rows);
    first := Some(rows[0]);
  }

  /** The Stripe payment intent for `p` (its amount in cents, in reais, tagged with its confirmation id) answers `secret`. */
  predicate IsChargeFor(env: Env, p: Payment, secret: string) {
    var intent := env.paymentIntent(p.amount * 100, "brl", p.confirmationId);
    intent.Ok? && secret == intent.value.GetOr("")
  }

  /** The caller has a check-in reservation. */
  ghost predicate HasCheckin(c: Collections, caller: CurrentUser, generated: Id) {
    MatchingIds(c.reservations, (x: Reservation) => ReservationRepository.MatchesFilter(x, CheckinFilter(caller), generated)) != {}
  }

  /** A latest check-in reservation of the caller has a successful payment. */
  ghost predicate IsPaid(c: Collections, caller: CurrentUser, generated: Id) {
    exists rid, pid :: IsLatestCheckinId(c, caller, generated, rid) && IsPaymentFor(c, caller, generated, rid, Success, pid)
  }

  /**
   * `secret` is what Stripe answers for the pending payment, with a
   * confirmation id, of a latest check-in reservation that has no successful
   * payment.
   */
  ghost predicate IsCheckoutOf(env: Env, c: Collections, caller: CurrentUser, generated: Id, secret: string) {
    exists rid, pid :: IsLatestCheckinId(c, caller, generated, rid) &&
      (forall q :: q in c.payments ==> !IsPaymentFor(c, caller, generated, rid, Success, q)) &&
      IsPaymentFor(c, caller, generated, rid, Pending, pid) &&
      c.payments[pid].confirmationId.Some? && c.payments[pid].confirmationId.value != "" &&
      IsChargeFor(env, c.payments[pid], secret)
  }

  /** The caller has some payment. */
  ghost predicate HasPayment(c: Collections, caller: CurrentUser, generated: Id) {
    exists pid :: pid in c.payments &&
      PaymentRepository.MatchesFilter(c.payments[pid], PaymentRepository.PaymentFilter("", caller.id, "", ""), generated)
  }

  /** The store after `create` inserted a pending payment as `newId`. */
  ghost predicate GainedPending(c0: Collections, c1: Collections, newId: Id) {
    exists p: Payment :: p.status == Pending && c1 == c0.(payments := c0.payments[newId := p])
  }

  /** A payment `create({})` inserted is pending. */
  lemma CreatedIsPending(env: Env, c0: Collections, c1: Collections, caller: CurrentUser, generated: Id,
                         confirmationId: string, newId: Id, now: int, r: Result<Payment>)
    requires IsValidObjectId(newId) && r.Ok?
    requires exists latest :: (IsLatestCheckin(env, c0, caller, generated, latest) &&
      Inserted(c0, c1, Draft(PaymentModel.NoData, caller, latest, confirmationId), newId, now, r))
    ensures GainedPending(c0, c1, newId)
  {
    var latest :| IsLatestCheckin(env, c0, caller, generated, latest) &&
      Inserted(c0, c1, Draft(PaymentModel.NoData, caller, latest, confirmationId), newId, now, r);
    assert r.value.status == Pending;
  }

  /** A payment Stripe can be asked to charge: it carries a confirmation id. */
  predicate Usable(p: Payment) {
    p.confirmationId.Some? && p.confirmationId.value != ""
  }

  /** Under the partial unique index, a caller with an id has at most one pending payment for a reservation. */
  lemma PendingPaymentIsUnique(c: Collections, caller: CurrentUser, generated: Id, rid: Id, a: Id, b: Id)
    requires AtMostOnePending(c.payments) && caller.id != "" && rid != ""
    requires IsPaymentFor(c, caller, generated, rid, Pending, a) && IsPaymentFor(c, caller, generated, rid, Pending, b)
    ensures a == b
  {
    var f := PaymentRepository.PaymentFilter("", caller.id, rid, Pending);
    assert PaymentRepository.MatchesFilter(c.payments[a], f, generated) && PaymentRepository.MatchesFilter(c.payments[b], f, generated);
    assert IndexKey(c.payments[a]) == IndexKey(c.payments[b]);
  }

  /**
   * The answer once Stripe is asked to charge `p`: the client secret (`''`
   * when Stripe gives none), or Stripe's error.
   */
  predicate ChargeAnswers(env: Env, p: Payment, r: Result<Checkout>) {
    var intent := env.paymentIntent(p.amount * 100, "brl", p.confirmationId);
    r == if intent.Ok? then Ok(Ready(intent.value.GetOr(""))) else Err(intent.error)
  }

  /**
   * `result = await this.create({})` followed by `result.rows[0]`: the error
   * of `create` when it fails, with the store as it was; otherwise the
   * payment is inserted and reading `rows` of the record throws a TypeError.
   */
  ghost predicate CreateThenTypeError(env: Env, c0: Collections, c1: Collections, caller: CurrentUser, generated: Id,
                                      newId: Id, now: int, draws: seq<int>, r: Result<Checkout>)
    requires IsValidObjectId(newId) && |draws| >= ConfirmationIdLength && AreDraws(draws)
  {
    exists latest: Option<ReservationView>, created: Result<Payment> ::
      IsLatestCheckin(env, c0, caller, generated, latest) &&
      Inserted(c0, c1, Draft(PaymentModel.NoData, caller, latest, Spelled(draws[..ConfirmationIdLength])), newId, now, created) &&
      r == (if created.Ok? then Err(TypeError) else Err(created.error))
  }

  /**
   * What `findLatestReservation` does once `rid` is its reservation, taking
   * the first row of each payment query: a successful payment answers
   * "already completed" and changes nothing; otherwise the first pending
   * payment, when it has a confirmation id, is charged through Stripe;
   * when there is no pending payment, or the first has no confirmation id,
   * `create({})` runs and its answer has no `rows[0]`.
   */
  ghost predicate CheckoutOutcome(env: Env, c0: Collections, c1: Collections, caller: CurrentUser, generated: Id, rid: Id,
                                  newId: Id, now: int, draws: seq<int>, r: Result<Checkout>)
    requires IsValidObjectId(newId) && |draws| >= ConfirmationIdLength && AreDraws(draws)
  {
    if exists pid :: IsPaymentFor(c0, caller, generated, rid, Success, pid) then
      r == Ok(Unavailable(AlreadyPaid)) && c1 == c0
    else if forall pid :: pid in c0.payments ==> !IsPaymentFor(c0, caller, generated, rid, Pending, pid) then
      CreateThenTypeError(env, c0, c1, caller, generated, newId, now, draws, r)
    else
      exists pid :: IsPaymentFor(c0, caller, generated, rid, Pending, pid) &&
        if Usable(c0.payments[pid]) then c1 == c0 && ChargeAnswers(env, c0.payments[pid], r)
        else CreateThenTypeError(env, c0, c1, caller, generated, newId, now, draws, r)
  }

  /**
   * With the partial unique index, the choice of the first pending row is
   * no choice: the one pending payment is charged when it has a
   * confirmation id, and otherwise `create({})` runs.
   */
  lemma PendingPaymentDecides(env: Env, c0: Collections, c1: Collections, caller: CurrentUser, generated: Id, rid: Id,
                              newId: Id, now: int, draws: seq<int>, r: Result<Checkout>, pid: Id)
    requires IsValidObjectId(newId) && |draws| >= ConfirmationIdLength && AreDraws(draws)
    requires AtMostOnePending(c0.payments) && caller.id != "" && rid != ""
    requires CheckoutOutcome(env, c0, c1, caller, generated, rid, newId, now, draws, r)
    requires !exists q :: IsPaymentFor(c0, caller, generated, rid, Success, q)
    requires IsPaymentFor(c0, caller, generated, rid, Pending, pid)
    ensures Usable(c0.payments[pid]) ==> c1 == c0 && ChargeAnswers(env, c0.payments[pid], r)
    ensures !Usable(c0.payments[pid]) ==> CreateThenTypeError(env, c0, c1, caller, generated, newId, now, draws, r)
  {
    var q :| IsPaymentFor(c0, caller, generated, rid, Pending, q) &&
      if Usable(c0.payments[q]) then c1 == c0 && ChargeAnswers(env, c0.payments[q], r)
      else CreateThenTypeError(env, c0, c1, caller, generated, newId, now, draws, r);
    PendingPaymentIsUnique(c0, caller, generated, rid, pid, q);
  }

  /** What the two payment queries of `findLatestReservation` find for a reservation. */
  datatype PaymentLookup = PaidFor | NoUsablePending | UsablePending(payment: Payment)

  /**
   * The caller's successful payments for `rid` and, when there is none, the
   * first pending one, usable when it has a confirmation id.
   */
  method LookUpPayments(c: Collections, caller: CurrentUser, generated: Id, rid: Id) returns (found: PaymentLookup)
    ensures found == PaidFor <==> exists pid :: IsPaymentFor(c, caller, generated, rid, Success, pid)
    ensures found.UsablePending? ==>
      exists pid :: IsPaymentFor(c, caller, generated, rid, Pending, pid) && found.payment == c.payments[pid] && Usable(found.payment)
    ensures found == NoUsablePending ==>
      (forall pid :: pid in c.payments ==> !IsPaymentFor(c, caller, generated, rid, Pending, pid)) ||
      (exists pid :: IsPaymentFor(c, caller, generated, rid, Pending, pid) && !Usable(c.payments[pid]))
    ensures found != NoUsablePending ==> HasPayment(c, caller, generated)
  {
    var paid := FirstPaymentFor(c, caller, generated, rid, Success);
    if paid.Some? {
      ghost var pid :| IsPaymentFor(c, caller, generated, rid, Success, pid) && paid.value == c.payments[pid];
      assert HasPayment(c, caller, generated) by {
        assert pid in c.payments &&
          PaymentRepository.MatchesFilter(c.payments[pid], PaymentRepository.PaymentFilter("", caller.id, "", ""), generated);
      }
      return PaidFor;
    }
    var pending := FirstPaymentFor(c, caller, generated, rid, Pending);
    if pending.None? || !Usable(pending.value) {
      return NoUsablePending;
    }
    ghost var pid :| IsPaymentFor(c, caller, generated, rid, Pending, pid) && pending.value == c.payments[pid];
    assert HasPayment(c, caller, generated) by {
      assert pid in c.payments &&
        PaymentRepository.MatchesFilter(c.payments[pid], PaymentRepository.PaymentFilter("", caller.id, "", ""), generated);
    }
    found := UsablePending(pending.value);
  }

  /**
   * `findLatestReservation()` from the payment queries on: `rid` is the
   * caller's latest check-in reservation.
   */
  method CheckoutOf(env: Env, db: Store, caller: CurrentUser, rid: Id, newId: Id, now: int,
                    generated: Id, draws: seq<int>) returns (r: Result<Checkout>)
    requires db.Valid() && IsValidObjectId(newId) && newId !in db.payments
    requires |draws| >= ConfirmationIdLength && AreDraws(draws)
    requires IsLatestCheckinId(db.Contents(), caller, generated, rid)
    modifies db
    ensures db.Valid()
    ensures CheckoutOutcome(env, old(db.Contents()), db.Contents(), caller, generated, rid, newId, now, draws, r)
    ensures r == Ok(Unavailable(AlreadyPaid)) <==> exists pid :: IsPaymentFor(old(db.Contents()), caller, generated, rid, Success, pid)
    ensures r != Ok(Unavailable(NoReservationAvailable))
    ensures r.Ok? ==> db.Contents() == old(db.Contents())
    ensures r.Err? ==> (db.Contents() == old(db.Contents()) ||
                        (r == Err(TypeError) && GainedPending(old(db.Contents()), db.Contents(), newId)))
    ensures r == Ok(Unavailable(AlreadyPaid)) ==> IsPaid(old(db.Contents()), caller, generated)
    ensures r.Ok? && r.value.Ready? ==> IsCheckoutOf(env, old(db.Contents()), caller, generated, r.value.clientSecret)
    ensures !HasPayment(old(db.Contents()), caller, generated) ==> r.Err?
  {
    ghost var c0 := db.Contents();
    var found := LookUpPayments(db.Contents(), caller, generated, rid);
    if found == PaidFor {
      return Ok(Unavailable(AlreadyPaid));
    }
    if found == NoUsablePending {
      r := CreateInsteadOfPending(env, db, caller, newId, now, generated, draws);
      NoUsablePendingOutcome(env, c0, db.Contents(), caller, generated, rid, newId, now, draws, r);
      return;
    }
    var payment := found.payment;
    var intent := env.paymentIntent(payment.amount * 100, "brl", payment.confirmationId);
    if intent.Err? {
      r := Err(intent.error);
    } else {
      r := Ok(Ready(intent.value.GetOr("")));
      assert IsChargeFor(env, payment, r.value.clientSecret);
    }
    ghost var pid :| IsPaymentFor(c0, caller, generated, rid, Pending, pid) && payment == c0.payments[pid] && Usable(payment);
    assert ChargeAnswers(env, c0.payments[pid], r);
  }

  /**
   * `result = await this.create({})` followed by reading `result.rows[0]`:
   * the insert's error, or a TypeError after the pending payment is stored.
   */
  method CreateInsteadOfPending(env: Env, db: Store, caller: CurrentUser, newId: Id, now: int,
                                generated: Id, draws: seq<int>) returns (r: Result<Checkout>)
    requires db.Valid() && IsValidObjectId(newId) && newId !in db.payments
    requires |draws| >= ConfirmationIdLength && AreDraws(draws)
    modifies db
    ensures db.Valid()
    ensures CreateThenTypeError(env, old(db.Contents()), db.Contents(), caller, generated, newId, now, draws, r)
    ensures r.Err?
    ensures db.Contents() == old(db.Contents()) ||
            (r == Err(TypeError) && GainedPending(old(db.Contents()), db.Contents(), newId))
  {
    ghost var c0 := db.Contents();
    var created := Create(env, db, Some(caller), PaymentModel.NoData, newId, now, generated, draws);
    if created.Err? {
      r := Err(created.error);
    } else {
      CreatedIsPending(env, c0, db.Contents(), caller, generated, Spelled(draws[..ConfirmationIdLength]), newId, now, created);
      r := Err(TypeError);
    }
    CreateAnswersTypeError(env, c0, db.Contents(), caller, generated, newId, now, draws, created);
  }

  /** The outcome when the payment queries find no pending payment with a confirmation id. */
  lemma NoUsablePendingOutcome(env: Env, c0: Collections, c1: Collections, caller: CurrentUser, generated: Id, rid: Id,
                               newId: Id, now: int, draws: seq<int>, r: Result<Checkout>)
    requires IsValidObjectId(newId) && |draws| >= ConfirmationIdLength && AreDraws(draws)
    requires !exists pid :: IsPaymentFor(c0, caller, generated, rid, Success, pid)
    requires (forall pid :: pid in c0.payments ==> !IsPaymentFor(c0, caller, generated, rid, Pending, pid)) ||
             (exists pid :: IsPaymentFor(c0, caller, generated, rid, Pending, pid) && !Usable(c0.payments[pid]))
    requires CreateThenTypeError(env, c0, c1, caller, generated, newId, now, draws, r)
    ensures CheckoutOutcome(env, c0, c1, caller, generated, rid, newId, now, draws, r)
  {
  }

  /** The answer of `create({})`, read as `rows[0]`. */
  lemma CreateAnswersTypeError(env: Env, c0: Collections, c1: Collections, caller: CurrentUser, generated: Id,
                               newId: Id, now: int, draws: seq<int>, created: Result<Payment>)
    requires IsValidObjectId(newId) && |draws| >= ConfirmationIdLength && AreDraws(draws)
    requires exists latest :: IsLatestCheckin(env, c0, caller, generated, latest) &&
               Inserted(c0, c1, Draft(PaymentModel.NoData, caller, latest, Spelled(draws[..ConfirmationIdLength])), newId, now, created)
    ensures CreateThenTypeError(env, c0, c1, caller, generated, newId, now, draws,
                                if created.Ok? then Err(TypeError) else Err(created.error))
  {
  }

  /**
   * `findLatestReservation()`: the client secret for paying the caller's
   * latest check-in reservation. When that reservation has no pending
   * payment, or one without a confirmation id, a payment is created, and the
   * answer of `create` has no `rows[0]`: reading it throws, after the insert
   * (no transaction undoes it).
   */
  method FindLatestReservation(env: Env, db: Store, currentUser: Option<CurrentUser>, newId: Id, now: int,
                               generated: Id, draws: seq<int>) returns (r: Result<Checkout>)
    requires db.Valid() && IsValidObjectId(newId) && newId !in db.payments
    requires |draws| >= ConfirmationIdLength && AreDraws(draws)
    modifies db
    ensures db.Valid()
    ensures currentUser.None? ==> r == Err(TypeError)
    ensures currentUser.Some? ==>
      (r == Ok(Unavailable(NoReservationAvailable)) <==> !HasCheckin(old(db.Contents()), currentUser.value, generated))
    ensures currentUser.Some? && HasCheckin(old(db.Contents()), currentUser.value, generated) ==>
      exists rid :: IsLatestCheckinId(old(db.Contents()), currentUser.value, generated, rid) &&
        CheckoutOutcome(env, old(db.Contents()), db.Contents(), currentUser.value, generated, rid, newId, now, draws, r)
    ensures r.Ok? ==> db.Contents() == old(db.Contents())
    ensures r.Err? ==> (db.Contents() == old(db.Contents()) ||
                        (r == Err(TypeError) && GainedPending(old(db.Contents()), db.Contents(), newId)))
    ensures r == Ok(Unavailable(AlreadyPaid)) ==> currentUser.Some? && IsPaid(old(db.Contents()), currentUser.value, generated)
    ensures r.Ok? && r.value.Ready? ==>
      currentUser.Some? && IsCheckoutOf(env, old(db.Contents()), currentUser.value, generated, r.value.clientSecret)
    ensures (currentUser.Some? && HasCheckin(old(db.Contents()), currentUser.value, generated) &&
             !HasPayment(old(db.Contents()), currentUser.value, generated)) ==> r.Err?
  {
    if currentUser.None? {
      return Err(TypeError);
    }
    ghost var c0 := db.Contents();
    var caller := currentUser.value;
    var latest := LatestCheckin(env, db.Contents(), caller, generated);
    if latest.None? {
      return Ok(Unavailable(NoReservationAvailable));
    }
    ghost var id :| IsLatestCheckinId(c0, caller, generated, id) && latest.value == View(env, c0, c0.reservations[id]);
    assert latest.value.reservation.id == id;
    r := CheckoutOf(env, db, caller, latest.value.reservation.id, newId, now, generated, draws);
  }

  // ---------------------------------------------------------------------
  // handlePaymentIntentCompleted and callback
  // ---------------------------------------------------------------------

  /** `intent.metadata`, when present, and its `confirmationId`. */
  datatype Metadata = Metadata(confirmationId: Option<string>)
  datatype Intent = Intent(metadata: Option<Metadata>)

  /** `intent.metadata.confirmationId || ''`, read only when the metadata is present. */
  function ConfirmationIdOf(intent: Intent): string {
    if intent.metadata.None? then "" else intent.metadata.value.confirmationId.GetOr("")
  }

  function SettledStatus(success: bool): string {
    if success then Success else Failed
  }

  /** The store once payment `pid` is settled. */
  function SettledIn(c: Collections, pid: Id, success: bool): Collections
    requires pid in c.payments
  {
    c.(payments := c.payments[pid := c.payments[pid].(status := SettledStatus(success))])
  }

  /**
   * Settling payment `pid`: its status becomes success or failed; on success
   * its reservation (null when the payment's reference does not populate,
   * which throws) is updated to checkout, its cost recomputed, or a
   * CastError after the status is written when a line item does not
   * resolve. Each write stands on its own: a failure undoes none of the
   * earlier ones.
   */
  ghost predicate SettlesPayment(env: Env, c0: Collections, c1: Collections, pid: Id, success: bool, r: Result<()>)
    requires pid in c0.payments
  {
    var p := c0.payments[pid];
    var settled := SettledIn(c0, pid, success);
    if !success then r == Ok(()) && c1 == settled
    else if p.reservation.None? || p.reservation.value !in c0.reservations then r == Err(TypeError) && c1 == settled
    else
      var rid := p.reservation.value;
      var checkedOut := ReservationModel.Update(c0.reservations[rid], ReservationModel.NoData.(status := Some("checkout")));
      checkedOut.Ok? &&
      if TotalCost(c0.consumptions, checkedOut.value.consumptions).Ok? then
        r == Ok(()) && c1 == settled.(reservations := c0.reservations[rid := Costed(env, settled, checkedOut.value)])
      else
        r == Err(CastError) && c1 == settled.(reservations := c0.reservations[rid := checkedOut.value])
  }

  /**
   * What `handlePaymentIntentCompleted` does: nothing without a confirmation
   * id, NotFound when no payment carries it, else it settles one payment
   * that carries it.
   */
  ghost predicate Handled(env: Env, c0: Collections, c1: Collections, intent: Intent, success: bool, r: Result<()>) {
    var confirmationId := ConfirmationIdOf(intent);
    if confirmationId == "" then r == Ok(()) && c1 == c0
    else if forall pid :: pid in c0.payments ==> c0.payments[pid].confirmationId != Some(confirmationId) then
      r == Err(NotFound) && c1 == c0
    else
      exists pid :: pid in c0.payments && c0.payments[pid].confirmationId == Some(confirmationId) &&
                    SettlesPayment(env, c0, c1, pid, success, r)
  }

  /** `handlePaymentIntentCompleted(intent, status)`, outside any transaction. */
  method HandlePaymentIntentCompleted(env: Env, db: Store, intent: Intent, success: bool) returns (r: Result<()>)
    requires db.Valid()
    modifies db
    ensures db.Valid()
    ensures Handled(env, old(db.Contents()), db.Contents(), intent, success, r)
  {
    ghost var c0 := db.Contents();
    if intent.metadata.None? {
      return Ok(());
    }
    var confirmationId := intent.metadata.value.confirmationId.GetOr("");
    if confirmationId == "" {
      return Ok(());
    }
    var found := PaymentRepository.FindByConfirmationId(db.Contents(), confirmationId);
    if found.Err? {
      return Err(found.error);
    }
    var payment := found.value;
    ghost var pid :| pid in c0.payments && c0.payments[pid].confirmationId == Some(confirmationId) &&
      payment == PaymentRepository.Populate(c0, c0.payments[pid]);
    StatusUpdate(c0.payments[pid], SettledStatus(success));
    SettledPaymentsNeverClash(c0.payments, c0.payments[pid].(status := SettledStatus(success)));
    assert payment.payment.id == pid;
    var settled := PaymentRepository.Update(db, payment.payment.id, PaymentModel.NoData.(status := Some(SettledStatus(success))));
    assert settled.Ok?;
    assert db.Contents() == SettledIn(c0, pid, success);
    if !success {
      return Ok(());
    }
    if payment.reservation.None? {
      return Err(TypeError);
    }
    var checkedOut := ReservationRepository.Update(env, db, payment.reservation.value.id,
                                                   ReservationModel.NoData.(status := Some("checkout")));
    if checkedOut.Err? {
      return Err(checkedOut.error);
    }
    return Ok(());
  }

  /** Whatever the outcome, settling writes the payment's status and touches no other payment. */
  lemma SettlementIsRecorded(env: Env, c0: Collections, c1: Collections, pid: Id, success: bool, r: Result<()>)
    requires pid in c0.payments && SettlesPayment(env, c0, c1, pid, success, r)
    ensures c1.payments == c0.payments[pid := c0.payments[pid].(status := SettledStatus(success))]
    ensures c1.consumptions == c0.consumptions && c1.users == c0.users && c1.files == c0.files
    ensures !success ==> r == Ok(()) && c1.reservations == c0.reservations
  {
  }

  /**
   * A successful settlement checks the payment's reservation out at the
   * cost of its line items, and leaves every other reservation as it was.
   */
  lemma SuccessChecksOut(env: Env, c0: Collections, c1: Collections, pid: Id, r: Result<()>)
    requires pid in c0.payments && SettlesPayment(env, c0, c1, pid, true, r) && r.Ok?
    ensures c0.payments[pid].reservation.Some? && c0.payments[pid].reservation.value in c0.reservations
    ensures (var rid := c0.payments[pid].reservation.value;
             rid in c1.reservations && c1.reservations[rid].status == "checkout" &&
             TotalCost(c0.consumptions, c0.reservations[rid].consumptions).Ok? &&
             c1.reservations[rid].cost == TotalCost(c0.consumptions, c0.reservations[rid].consumptions).value &&
             forall other :: other in c0.reservations && other != rid ==> other in c1.reservations && c1.reservations[other] == c0.reservations[other])
  {
    var rid := c0.payments[pid].reservation.value;
    var checkedOut := ReservationModel.Update(c0.reservations[rid], ReservationModel.NoData.(status := Some("checkout")));
    assert checkedOut.value.consumptions == c0.reservations[rid].consumptions;
    assert View(env, SettledIn(c0, pid, true), checkedOut.value).reservation == checkedOut.value;
  }

  const ChargeSucceeded := "charge.succeeded"
  const PaymentMethodAttached := "payment_method.attached"
  const PaymentIntentFailed := "payment_intent.payment_failed"

  /** A Stripe event: its `type` and, when present, `data` with its `object` (the payment intent). */
  datatype EventData = EventData(intent: Option<Intent>)
  datatype Event = Event(kind: string, data: Option<EventData>)

  /**
   * `callback(event)`: a succeeded charge settles its payment as success, a
   * failed payment intent as failed; an attached payment method reads the
   * event's object and does nothing with it; any other event is ignored.
   * The answer is `{ recevied: true }`.
   */
  method Callback(env: Env, db: Store, event: Event) returns (r: Result<bool>)
    requires db.Valid()
    modifies db
    ensures db.Valid()
    ensures event.kind != ChargeSucceeded && event.kind != PaymentIntentFailed ==> db.Contents() == old(db.Contents())
    ensures event.kind == PaymentMethodAttached ==> r == (if event.data.None? then Err(TypeError) else Ok(true))
    ensures (event.kind != ChargeSucceeded && event.kind != PaymentIntentFailed && event.kind != PaymentMethodAttached) ==>
      r == Ok(true)
    ensures ((event.kind == ChargeSucceeded || event.kind == PaymentIntentFailed) &&
             (event.data.None? || event.data.value.intent.None?)) ==>
      r == Err(TypeError) && db.Contents() == old(db.Contents())
    ensures ((event.kind == ChargeSucceeded || event.kind == PaymentIntentFailed) &&
             event.data.Some? && event.data.value.intent.Some?) ==>
      exists h :: Handled(env, old(db.Contents()), db.Contents(), event.data.value.intent.value, event.kind == ChargeSucceeded, h) &&
                  r == (if h.Ok? then Ok(true) else Err(h.error))
  {
    if event.kind == ChargeSucceeded || event.kind == PaymentIntentFailed {
      if event.data.None? || event.data.value.intent.None? {
        return Err(TypeError);
      }
      var handled := HandlePaymentIntentCompleted(env, db, event.data.value.intent.value, event.kind == ChargeSucceeded);
      if handled.Err? {
        return Err(handled.error);
      }
    } else if event.kind == PaymentMethodAttached {
      if event.data.None? {
        return Err(TypeError);
      }
    }
    return Ok(true);
  }
}
