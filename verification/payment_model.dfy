/** The `payment` collection's schema and its partial unique index. */
module PaymentModel {
  import opened Wrappers
  import opened QueryUtils
  import opened SchemaTypes

  datatype Payment = Payment(
    id: Id,
    confirmationId: Option<string>,
    reservation: Option<Id>,
    createdBy: Option<Id>,
    amount: int,
    status: string,
    createdAt: int)

  datatype PaymentData = PaymentData(
    confirmationId: Option<string>,
    reservation: Option<string>,
    createdBy: Option<string>,
    amount: Option<int>,
    status: Option<string>)

  const NoData := PaymentData(None, None, None, None, None)

  const Statuses: seq<string> := ["pending", "success", "failed"]
  const Pending := "pending"
  const Success := "success"
  const Failed := "failed"

  predicate DataCasts(d: PaymentData) {
    RefCasts(d.reservation) && RefCasts(d.createdBy)
  }

  /** confirmationId at most 63 long; status in the enum. */
  predicate DataValidates(d: PaymentData) {
    WithinLength(d.confirmationId, 63) && InEnum(d.status, Statuses)
  }

  predicate IsValid(p: Payment) {
    IsValidObjectId(p.id) && WithinLength(p.confirmationId, 63) && p.status in Statuses &&
    RefCasts(p.reservation) && RefCasts(p.createdBy)
  }

  /** `Payment.create([data])`: status defaults to pending and amount to 0. */
  function Create(id: Id, d: PaymentData, now: int): (r: Result<Payment>)
    requires IsValidObjectId(id)
    ensures r.Ok? <==> DataCasts(d) && DataValidates(d)
    ensures r.Err? ==> r.error == ValidationError
    ensures r.Ok? ==> IsValid(r.value) && r.value.id == id && r.value.createdAt == now
    ensures r.Ok? ==> r.value.status == d.status.GetOr(Pending) && r.value.amount == d.amount.GetOr(0)
    ensures r.Ok? ==> r.value.reservation == d.reservation && r.value.createdBy == d.createdBy
  {
    if !(DataCasts(d) && DataValidates(d)) then Err(ValidationError)
    else Ok(Payment(id, d.confirmationId, d.reservation, d.createdBy, d.amount.GetOr(0),
                    d.status.GetOr(Pending), now))
  }

  /** `Payment.updateOne({_id}, data)`: cast, no validators. */
  function Update(p: Payment, d: PaymentData): (u: Result<Payment>)
    ensures u.Ok? <==> DataCasts(d)
    ensures u.Err? ==> u.error == CastError
    ensures u.Ok? ==> u.value.id == p.id && u.value.createdAt == p.createdAt
    ensures u.Ok? && d == NoData ==> u.value == p
  {
    if !DataCasts(d) then Err(CastError)
    else Ok(Payment(p.id,
      OverwriteOptional(d.confirmationId, p.confirmationId),
      OverwriteOptional(d.reservation, p.reservation),
      OverwriteOptional(d.createdBy, p.createdBy),
      Overwrite(d.amount, p.amount), Overwrite(d.status, p.status), p.createdAt))
  }

  /** Changing only the status keeps everything else. */
  lemma StatusUpdate(p: Payment, status: string)
    ensures Update(p, NoData.(status := Some(status))) == Ok(p.(status := status))
  {
  }

  /** The key of the index `{createdBy: 1, reservation: 1}`; an absent path indexes as null. */
  function IndexKey(p: Payment): (Option<Id>, Option<Id>) {
    (p.createdBy, p.reservation)
  }

  /** The partial unique index: among pending payments, no two share the key. */
  ghost predicate AtMostOnePending(payments: map<Id, Payment>) {
    forall a, b ::
      (a in payments && b in payments && a != b &&
       payments[a].status == Pending && payments[b].status == Pending) ==>
      IndexKey(payments[a]) != IndexKey(payments[b])
  }

  /** Writing `p` under `p.id` would break the index. */
  predicate ClashesWithPending(payments: map<Id, Payment>, p: Payment) {
    p.status == Pending &&
    exists q :: q in payments && q != p.id && payments[q].status == Pending && IndexKey(payments[q]) == IndexKey(p)
  }

  /** The index holds after a write that it accepts. */
  lemma WriteKeepsAtMostOnePending(payments: map<Id, Payment>, p: Payment)
    requires AtMostOnePending(payments) && !ClashesWithPending(payments, p)
    ensures AtMostOnePending(payments[p.id := p])
  {
  }

  /** A second pending payment for the same user and reservation is refused. */
  lemma SecondPendingClashes(payments: map<Id, Payment>, first: Id, p: Payment)
    requires first in payments && first != p.id
    requires payments[first].status == Pending && p.status == Pending
    requires IndexKey(payments[first]) == IndexKey(p)
    ensures ClashesWithPending(payments, p)
  {
  }

  /** Only pending payments are indexed: any number may succeed or fail for one key. */
  lemma SettledPaymentsNeverClash(payments: map<Id, Payment>, p: Payment)
    requires p.status != Pending
    ensures !ClashesWithPending(payments, p)
  {
  }

  /** Removing payments keeps the index. */
  lemma RemoveKeepsAtMostOnePending(payments: map<Id, Payment>, id: Id)
    requires AtMostOnePending(payments)
    ensures AtMostOnePending(payments - {id})
  {
  }
}
