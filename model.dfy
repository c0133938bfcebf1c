/** The entities of the application. Records the backend stores are values;
    ServiceRequest, whose setters the screens and services call, is a class. */
module Model {
  import opened Common
  import opened Sequences

  /** A user account. AuthService builds users without id or password. */
  datatype User = User(
    id: Option<Id>,
    username: string,
    password: Option<string>,
    role: string,
    fullName: Option<string>,
    email: string)

  /** A client's vehicle; `fullInfo` is the display text Vehicle.getFullInfo() returns. */
  datatype Vehicle = Vehicle(
    id: Option<Id>,
    clientId: Option<Id>,
    make: string,
    model: string,
    year: int,
    licensePlate: Option<string>,
    fullInfo: string)

  /** The value of a ServiceRequest: nine persisted fields and three display fields. */
  datatype RequestRecord = RequestRecord(
    id: Option<Id>,
    clientId: Option<Id>,
    vehicleId: Option<Id>,
    shopId: Option<Id>,
    mechanicId: Option<Id>,
    status: Option<string>,
    totalPriceEstimated: Option<Cents>,
    totalPriceFinal: Option<Cents>,
    createdAt: Option<Timestamp>,
    clientName: Option<string>,
    vehicleInfo: Option<string>,
    serviceDescription: Option<string>)

  /** An entry of the append-only audit trail of a request's status changes. */
  datatype StatusUpdate = StatusUpdate(
    id: Option<Id>,
    serviceRequestId: Option<Id>,
    status: Option<string>,
    note: Option<string>,
    createdBy: Option<Id>,
    createdAt: Option<Timestamp>)

  datatype PaymentStatus = PaymentPending | PaymentCompleted | PaymentFailed

  /** A payment; `createdDay` is the local date of its creation time. */
  datatype Payment = Payment(
    id: Option<Id>,
    serviceRequestId: Option<Id>,
    amount: Cents,
    status: PaymentStatus,
    createdDay: Option<Day>)

  // The request statuses the screens and services use.
  const Pending := "Pending"
  const InProgress := "In Progress"
  const Completed := "Completed"
  const Rejected := "Rejected"
  const Cancelled := "Cancelled"

  /** A request with every field null. */
  const BlankRequest := RequestRecord(None, None, None, None, None, None, None, None, None, None, None, None)

  /** Descending order of creation time; a missing time sorts first, as in
      PostgreSQL's default for descending order. */
  predicate NewerOrSame(a: Option<Timestamp>, b: Option<Timestamp>)
  {
    match (a, b)
    case (None, _) => true
    case (Some(_), None) => false
    case (Some(x), Some(y)) => x >= y
  }

  /** ORDER BY created_at DESC on service requests. */
  predicate RequestNewerOrSame(a: RequestRecord, b: RequestRecord)
  {
    NewerOrSame(a.createdAt, b.createdAt)
  }

  /** ORDER BY created_at DESC on status updates. */
  predicate UpdateNewerOrSame(a: StatusUpdate, b: StatusUpdate)
  {
    NewerOrSame(a.createdAt, b.createdAt)
  }

  /** Both orders are comparators the backend can sort by: total and transitive. */
  lemma NewestFirstIsPreorder()
    ensures TotalPreorder(RequestNewerOrSame)
    ensures TotalPreorder(UpdateNewerOrSame)
  {
  }

  /** Mutable service request, as the screens hold it. */
  class ServiceRequest {
    var id: Option<Id>
    var clientId: Option<Id>
    var vehicleId: Option<Id>
    var shopId: Option<Id>
    var mechanicId: Option<Id>
    var status: Option<string>
    var totalPriceEstimated: Option<Cents>
    var totalPriceFinal: Option<Cents>
    var createdAt: Option<Timestamp>
    // display fields, filled in by the screens
    var clientName: Option<string>
    var vehicleInfo: Option<string>
    var serviceDescription: Option<string>

    /** The current value of every field. */
    function Snapshot(): RequestRecord
      reads this
    {
      RequestRecord(id, clientId, vehicleId, shopId, mechanicId, status,
        totalPriceEstimated, totalPriceFinal, createdAt,
        clientName, vehicleInfo, serviceDescription)
    }

    /** The no-argument constructor: every field null. */
    constructor Blank()
      ensures Snapshot() == BlankRequest
    {
      id, clientId, vehicleId, shopId, mechanicId := None, None, None, None, None;
      status, totalPriceEstimated, totalPriceFinal, createdAt := None, None, None, None;
      clientName, vehicleInfo, serviceDescription := None, None, None;
    }

    /** The nine-argument constructor: the persisted fields; display fields stay null. */
    constructor (id: Option<Id>, clientId: Option<Id>, vehicleId: Option<Id>, shopId: Option<Id>,
                 mechanicId: Option<Id>, status: Option<string>, totalPriceEstimated: Option<Cents>,
                 totalPriceFinal: Option<Cents>, createdAt: Option<Timestamp>)
      ensures Snapshot() == RequestRecord(id, clientId, vehicleId, shopId, mechanicId, status,
                                          totalPriceEstimated, totalPriceFinal, createdAt, None, None, None)
    {
      this.id, this.clientId, this.vehicleId, this.shopId := id, clientId, vehicleId, shopId;
      this.mechanicId, this.status := mechanicId, status;
      this.totalPriceEstimated, this.totalPriceFinal, this.createdAt := totalPriceEstimated, totalPriceFinal, createdAt;
      clientName, vehicleInfo, serviceDescription := None, None, None;
    }

    method SetId(v: Option<Id>)
      modifies this
      ensures Snapshot() == old(Snapshot()).(id := v)
    {
      id := v;
    }

    method SetClientId(v: Option<Id>)
      modifies this
      ensures Snapshot() == old(Snapshot()).(clientId := v)
    {
      clientId := v;
    }

    method SetVehicleId(v: Option<Id>)
      modifies this
      ensures Snapshot() == old(Snapshot()).(vehicleId := v)
    {
      vehicleId := v;
    }

    method SetShopId(v: Option<Id>)
      modifies this
      ensures Snapshot() == old(Snapshot()).(shopId := v)
    {
      shopId := v;
    }

    method SetMechanicId(v: Option<Id>)
      modifies this
      ensures Snapshot() == old(Snapshot()).(mechanicId := v)
    {
      mechanicId := v;
    }

    method SetStatus(v: Option<string>)
      modifies this
      ensures Snapshot() == old(Snapshot()).(status := v)
    {
      status := v;
    }

    method SetTotalPriceEstimated(v: Option<Cents>)
      modifies this
      ensures Snapshot() == old(Snapshot()).(totalPriceEstimated := v)
    {
      totalPriceEstimated := v;
    }

    method SetTotalPriceFinal(v: Option<Cents>)
      modifies this
      ensures Snapshot() == old(Snapshot()).(totalPriceFinal := v)
    {
      totalPriceFinal := v;
    }

    method SetCreatedAt(v: Option<Timestamp>)
      modifies this
      ensures Snapshot() == old(Snapshot()).(createdAt := v)
    {
      createdAt := v;
    }

    method SetClientName(v: Option<string>)
      modifies this
      ensures Snapshot() == old(Snapshot()).(clientName := v)
    {
      clientName := v;
    }

    method SetVehicleInfo(v: Option<string>)
      modifies this
      ensures Snapshot() == old(Snapshot()).(vehicleInfo := v)
    {
      vehicleInfo := v;
    }

    method SetServiceDescription(v: Option<string>)
      modifies this
      ensures Snapshot() == old(Snapshot()).(serviceDescription := v)
    {
      serviceDescription := v;
    }
  }

  /** A fresh object holding `rec`: the no-argument constructor followed by one
      setter per field, as the JSON mapper fills a bean. */
  method Materialize(rec: RequestRecord) returns (o: ServiceRequest)
    ensures fresh(o) && o.Snapshot() == rec
  {
    o := new ServiceRequest.Blank();
    o.SetId(rec.id);
    o.SetClientId(rec.clientId);
    o.SetVehicleId(rec.vehicleId);
    o.SetShopId(rec.shopId);
    o.SetMechanicId(rec.mechanicId);
    o.SetStatus(rec.status);
    o.SetTotalPriceEstimated(rec.totalPriceEstimated);
    o.SetTotalPriceFinal(rec.totalPriceFinal);
    o.SetCreatedAt(rec.createdAt);
    o.SetClientName(rec.clientName);
    o.SetVehicleInfo(rec.vehicleInfo);
    o.SetServiceDescription(rec.serviceDescription);
  }

  /** The values of a list of request objects. */
  function Snapshots(rs: seq<ServiceRequest>): (r: seq<RequestRecord>)
    reads set o | o in rs
    ensures |r| == |rs| && forall i | 0 <= i < |rs| :: r[i] == rs[i].Snapshot()
  {
    seq(|rs|, i reads set o | o in rs requires 0 <= i < |rs| => rs[i].Snapshot())
  }

  /** Stream.filter over request objects, by a condition on their current values. */
  function RequestsWhere(rs: seq<ServiceRequest>, p: RequestRecord -> bool): (r: seq<ServiceRequest>)
    reads set o | o in rs
    ensures forall o | o in r :: o in rs && p(o.Snapshot())
    ensures forall o | o in rs && p(o.Snapshot()) :: o in r
  {
    if rs == [] then []
    else
      var rest := RequestsWhere(rs[1..], p);
      assert rs == [rs[0]] + rs[1..];
      if p(rs[0].Snapshot()) then [rs[0]] + rest else rest
  }

  /** Snapshots of a list taken apart at its head. */
  lemma SnapshotsCons(o: ServiceRequest, rest: seq<ServiceRequest>)
    ensures Snapshots([o] + rest) == [o.Snapshot()] + Snapshots(rest)
  {
    var l, r := Snapshots([o] + rest), [o.Snapshot()] + Snapshots(rest);
    assert |l| == |r|;
    forall i | 0 <= i < |l| ensures l[i] == r[i] {
      if i > 0 {
        assert ([o] + rest)[i] == rest[i - 1];
      }
    }
  }

  /** The values of the objects kept are the values the record-level filter keeps. */
  lemma {:induction false} RequestsWhereSnapshots(rs: seq<ServiceRequest>, p: RequestRecord -> bool)
    ensures Snapshots(RequestsWhere(rs, p)) == Filter(Snapshots(rs), p)
    decreases |rs|
  {
    if rs != [] {
      var rest := RequestsWhere(rs[1..], p);
      RequestsWhereSnapshots(rs[1..], p);
      assert rs == [rs[0]] + rs[1..];
      SnapshotsCons(rs[0], rs[1..]);
      var ss := Snapshots(rs);
      assert ss == [rs[0].Snapshot()] + Snapshots(rs[1..]);
      assert ss[1..] == Snapshots(rs[1..]);
      if p(rs[0].Snapshot()) {
        SnapshotsCons(rs[0], rest);
      }
    }
  }

  /** The objects kept keep their order: the result is a subsequence. */
  lemma {:induction false} RequestsWhereKeepsOrder(rs: seq<ServiceRequest>, p: RequestRecord -> bool)
    ensures IsSubsequence(RequestsWhere(rs, p), rs)
    decreases |rs|
  {
    if rs != [] {
      var rest := RequestsWhere(rs[1..], p);
      RequestsWhereKeepsOrder(rs[1..], p);
      if p(rs[0].Snapshot()) {
        assert ([rs[0]] + rest)[1..] == rest;
      } else {
        SubsequenceOfTail(rest, rs);
      }
    }
  }

  /** The objects kept are those whose values the record-level filter keeps, in order. */
  lemma RequestsWhereIsFilter(rs: seq<ServiceRequest>, p: RequestRecord -> bool)
    ensures Snapshots(RequestsWhere(rs, p)) == Filter(Snapshots(rs), p)
    ensures IsSubsequence(RequestsWhere(rs, p), rs)
  {
    RequestsWhereSnapshots(rs, p);
    RequestsWhereKeepsOrder(rs, p);
  }

  /** A condition every object meets keeps the whole list, in order. */
  lemma {:induction false} RequestsWhereKeepsAll(rs: seq<ServiceRequest>, p: RequestRecord -> bool)
    requires forall o | o in rs :: p(o.Snapshot())
    ensures RequestsWhere(rs, p) == rs
    decreases |rs|
  {
    if rs != [] {
      RequestsWhereKeepsAll(rs[1..], p);
      assert rs == [rs[0]] + rs[1..];
    }
  }
}
