/** The sub-schema of one reservation line item (`consumptions[i]`). */
module ReservationConsumptionSchema {
  import opened Wrappers
  import opened QueryUtils
  import opened SchemaTypes

  /**
   * A reference to a consumption and a quantity. Neither is required, and the
   * quantity has no default: its option is spelled `defaut`, which Mongoose
   * ignores.
   */
  datatype LineItem = LineItem(consumption: Option<Id>, quantity: Option<int>)

  predicate LineItemsCast(items: seq<LineItem>) {
    forall i :: 0 <= i < |items| ==> RefCasts(items[i].consumption)
  }

  /** Casting line items: every reference must be an ObjectId; nothing is defaulted. */
  function CastLineItems(items: seq<LineItem>): (r: Result<seq<LineItem>>)
    ensures r.Ok? <==> LineItemsCast(items)
    ensures r.Ok? ==> r.value == items
    ensures r.Err? ==> exists i :: 0 <= i < |items| && !RefCasts(items[i].consumption)
  {
    if LineItemsCast(items) then Ok(items) else Err(ValidationError)
  }

  const SomeObjectId: Id := "5f0c9b1e2d3a4c5b6e7f8091"

  /** An entry may be stored with neither a reference nor a quantity. */
  lemma EmptyLineItemIsStored()
    ensures CastLineItems([LineItem(None, None)]) == Ok([LineItem(None, None)])
  {
  }

  /** A quantity left out stays out: no default of 0 is filled in. */
  lemma QuantityHasNoDefault()
    ensures IsValidObjectId(SomeObjectId)
    ensures CastLineItems([LineItem(Some(SomeObjectId), None)]).Ok?
    ensures CastLineItems([LineItem(Some(SomeObjectId), None)]).value[0].quantity.None?
  {
    assert forall i :: 0 <= i < |SomeObjectId| ==> IsHexDigit(SomeObjectId[i]);
  }
}
