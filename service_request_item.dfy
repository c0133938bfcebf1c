/** One line of a service request: a catalogue service, a quantity and its
    estimated and final unit prices. A mutable bean with two derived totals. */
module ServiceRequestItems {
  import opened Common

  /** A Java `int`. */
  newtype Int32 = x: int | -0x8000_0000 <= x < 0x8000_0000

  /** The value of every field of an item. */
  datatype ItemRecord = ItemRecord(
    id: Option<Id>,
    serviceRequestId: Option<Id>,
    serviceId: Option<Id>,
    quantity: Int32,
    priceEstimated: Option<Cents>,
    priceFinal: Option<Cents>,
    source: Option<string>,
    isApproved: bool)

  /** A unit price times a quantity; no price, no total. BigDecimal arithmetic is exact. */
  function LineTotal(price: Option<Cents>, quantity: Int32): (r: Option<Cents>)
    ensures r.None? <==> price.None?
    ensures price.Some? ==> r.value == price.value * quantity as int
  {
    match price
    case None => None
    case Some(p) => Some(p * quantity as int)
  }

  /** Nothing ordered, nothing owed: a priced line of quantity 0 totals 0. */
  lemma LineTotalOfNothing(price: Option<Cents>)
    ensures price.Some? ==> LineTotal(price, 0) == Some(0)
  {
  }

  /** A line's total splits along its quantity: it is additive in the quantity. */
  lemma LineTotalAdditive(price: Cents, q1: Int32, q2: Int32)
    requires -0x8000_0000 <= q1 as int + q2 as int < 0x8000_0000
    ensures LineTotal(Some(price), q1 + q2).value == LineTotal(Some(price), q1).value + LineTotal(Some(price), q2).value
  {
  }

  class ServiceRequestItem {
    var id: Option<Id>
    var serviceRequestId: Option<Id>
    var serviceId: Option<Id>
    var quantity: Int32
    var priceEstimated: Option<Cents>
    var priceFinal: Option<Cents>
    var source: Option<string>
    var isApproved: bool

    function Snapshot(): ItemRecord
      reads this
    {
      ItemRecord(id, serviceRequestId, serviceId, quantity, priceEstimated, priceFinal, source, isApproved)
    }

    /** The no-argument constructor: references null, quantity 0, not approved. */
    constructor Blank()
      ensures Snapshot() == ItemRecord(None, None, None, 0, None, None, None, false)
    {
      id, serviceRequestId, serviceId := None, None, None;
      quantity, priceEstimated, priceFinal := 0, None, None;
      source, isApproved := None, false;
    }

    /** The eight-argument constructor stores every argument in its field. */
    constructor (id: Option<Id>, serviceRequestId: Option<Id>, serviceId: Option<Id>, quantity: Int32,
                 priceEstimated: Option<Cents>, priceFinal: Option<Cents>, source: Option<string>, isApproved: bool)
      ensures Snapshot() == ItemRecord(id, serviceRequestId, serviceId, quantity, priceEstimated, priceFinal, source, isApproved)
    {
      this.id, this.serviceRequestId, this.serviceId := id, serviceRequestId, serviceId;
      this.quantity, this.priceEstimated, this.priceFinal := quantity, priceEstimated, priceFinal;
      this.source, this.isApproved := source, isApproved;
    }

    method SetId(v: Option<Id>)
      modifies this
      ensures Snapshot() == old(Snapshot()).(id := v)
    {
      id := v;
    }

    method SetServiceRequestId(v: Option<Id>)
      modifies this
      ensures Snapshot() == old(Snapshot()).(serviceRequestId := v)
    {
      serviceRequestId := v;
    }

    method SetServiceId(v: Option<Id>)
      modifies this
      ensures Snapshot() == old(Snapshot()).(serviceId := v)
    {
      serviceId := v;
    }

    method SetQuantity(v: Int32)
      modifies this
      ensures Snapshot() == old(Snapshot()).(quantity := v)
    {
      quantity := v;
    }

    method SetPriceEstimated(v: Option<Cents>)
      modifies this
      ensures Snapshot() == old(Snapshot()).(priceEstimated := v)
    {
      priceEstimated := v;
    }

    method SetPriceFinal(v: Option<Cents>)
      modifies this
      ensures Snapshot() == old(Snapshot()).(priceFinal := v)
    {
      priceFinal := v;
    }

    method SetSource(v: Option<string>)
      modifies this
      ensures Snapshot() == old(Snapshot()).(source := v)
    {
      source := v;
    }

    method SetApproved(v: bool)
      modifies this
      ensures Snapshot() == old(Snapshot()).(isApproved := v)
    {
      isApproved := v;
    }

    /** getTotalEstimated: null without an estimated price, else price × quantity. */
    function TotalEstimated(): (r: Option<Cents>)
      reads this
      ensures r.None? <==> priceEstimated.None?
      ensures r.Some? ==> r.value == priceEstimated.value * quantity as int
    {
      LineTotal(priceEstimated, quantity)
    }

    /** getTotalFinal: null without a final price, else price × quantity. */
    function TotalFinal(): (r: Option<Cents>)
      reads this
      ensures r.None? <==> priceFinal.None?
      ensures r.Some? ==> r.value == priceFinal.value * quantity as int
    {
      LineTotal(priceFinal, quantity)
    }
  }
}
