/** ServiceRequestService: the queries and updates of the service_requests
    collection, on top of the generic store. */
module RequestService {
  import opened Common
  import opened Sequences
  import opened Model
  import opened Repository

  class ServiceRequestService {
    /** The service_requests collection. */
    var table: Table<RequestRecord>

    /** The store is well formed and each record carries the id it is stored under. */
    ghost predicate Valid()
      reads this
    {
      && Repository.Valid(table)
      && forall k | k in table.rows :: table.rows[k].id == Some(k)
    }

    constructor (t: Table<RequestRecord>)
      requires Repository.Valid(t) && forall k | k in t.rows :: t.rows[k].id == Some(k)
      ensures Valid() && table == t
    {
      table := t;
    }

    /** getByClientId: the requests of one client. */
    function GetByClientId(clientId: Id): (r: seq<RequestRecord>)
      reads this
      requires Valid()
      ensures forall x :: x in r <==> x in All(table) && x.clientId == Some(clientId)
    {
      FindBy(table, (x: RequestRecord) => x.clientId == Some(clientId))
    }

    /** getByClientName: the requests carrying this client name. */
    function GetByClientName(clientName: string): (r: seq<RequestRecord>)
      reads this
      requires Valid()
      ensures forall x :: x in r <==> x in All(table) && x.clientName == Some(clientName)
    {
      FindBy(table, (x: RequestRecord) => x.clientName == Some(clientName))
    }

    /** getByMechanicId: the requests assigned to one mechanic. */
    function GetByMechanicId(mechanicId: Id): (r: seq<RequestRecord>)
      reads this
      requires Valid()
      ensures forall x :: x in r <==> x in All(table) && x.mechanicId == Some(mechanicId)
    {
      FindBy(table, (x: RequestRecord) => x.mechanicId == Some(mechanicId))
    }

    /** getByShopId: the requests of one shop. */
    function GetByShopId(shopId: Id): (r: seq<RequestRecord>)
      reads this
      requires Valid()
      ensures forall x :: x in r <==> x in All(table) && x.shopId == Some(shopId)
    {
      FindBy(table, (x: RequestRecord) => x.shopId == Some(shopId))
    }

    /** getByStatus: the requests whose status is exactly `status`. */
    function GetByStatus(status: string): (r: seq<RequestRecord>)
      reads this
      requires Valid()
      ensures forall x :: x in r <==> x in All(table) && x.status == Some(status)
    {
      FindBy(table, (x: RequestRecord) => x.status == Some(status))
    }

    /** getByDateRange: the requests created between `start` and `end`, both included. */
    function GetByDateRange(start: Timestamp, end: Timestamp): (r: seq<RequestRecord>)
      reads this
      requires Valid()
      ensures forall x :: x in r <==> x in All(table) && x.createdAt.Some? && start <= x.createdAt.value <= end
    {
      FindBy(table, (x: RequestRecord) => x.createdAt.Some? && start <= x.createdAt.value <= end)
    }

    function GetPendingRequests(): (r: seq<RequestRecord>)
      reads this
      requires Valid()
      ensures r == GetByStatus(Pending)
    {
      GetByStatus("Pending")
    }

    function GetInProgressRequests(): (r: seq<RequestRecord>)
      reads this
      requires Valid()
      ensures r == GetByStatus(InProgress)
    {
      GetByStatus("In Progress")
    }

    function GetCompletedRequests(): (r: seq<RequestRecord>)
      reads this
      requires Valid()
      ensures r == GetByStatus(Completed)
    {
      GetByStatus("Completed")
    }

    /** Every filter returns its matches in storage order. */
    lemma FiltersKeepStorageOrder(status: string)
      requires Valid()
      ensures IsSubsequence(GetByStatus(status), All(table))
    {
      FilterIsSubsequence(All(table), (x: RequestRecord) => x.status == Some(status));
    }

    /** getRecentRequests(limit): the requests newest first (a missing creation
        time first), cut to `limit`; a negative limit makes Stream.limit throw. */
    function GetRecentRequests(limit: int): (r: Result<seq<RequestRecord>>)
      reads this
      requires Valid()
      ensures limit < 0 <==> r.Failure?
      ensures limit < 0 ==> r.error == NegativeLimit(limit)
      ensures r.Success? ==> |r.value| == Min(limit, |All(table)|)
      ensures r.Success? ==> SortedBy(r.value, RequestNewerOrSame)
      ensures r.Success? ==> multiset(r.value) <= multiset(All(table))
      ensures r.Success? ==> forall x, y | x in r.value && y in multiset(All(table)) - multiset(r.value) :: RequestNewerOrSame(x, y)
    {
      if limit < 0 then Failure(NegativeLimit(limit))
      else
        NewestFirstIsPreorder();
        TopOfSorted(All(table), RequestNewerOrSame, limit);
        Success(Take(SortBy(All(table), RequestNewerOrSame), limit))
    }

    /** assignMechanic: load the request, set its mechanic and the status
        In Progress whatever the status was, write it back. */
    method AssignMechanic(requestId: Id, mechanicId: Option<Id>) returns (r: Result<ServiceRequest>)
      requires Valid()
      modifies this
      ensures Valid()
      ensures requestId !in old(table.rows) ==>
        r == Failure(IllegalArgument("Service request not found")) && table == old(table)
      ensures requestId in old(table.rows) ==>
        var updated := old(table.rows[requestId]).(mechanicId := mechanicId, status := Some(InProgress));
        && table == Replace(old(table), requestId, updated)
        && r.Success? && fresh(r.value) && r.value.Snapshot() == updated
    {
      var found := Get(table, requestId);
      if found.None? {
        return Failure(IllegalArgument("Service request not found"));
      }
      var request := Materialize(found.value);
      request.SetMechanicId(mechanicId);
      request.SetStatus(Some(InProgress));
      table := Replace(table, requestId, request.Snapshot());
      r := Success(request);
    }

    /** updateStatus: load the request, set its status, write it back. */
    method UpdateStatus(requestId: Id, status: Option<string>) returns (r: Result<ServiceRequest>)
      requires Valid()
      modifies this
      ensures Valid()
      ensures requestId !in old(table.rows) ==>
        r == Failure(IllegalArgument("Service request not found")) && table == old(table)
      ensures requestId in old(table.rows) ==>
        var updated := old(table.rows[requestId]).(status := status);
        && table == Replace(old(table), requestId, updated)
        && r.Success? && fresh(r.value) && r.value.Snapshot() == updated
    {
      var found := Get(table, requestId);
      if found.None? {
        return Failure(IllegalArgument("Service request not found"));
      }
      var request := Materialize(found.value);
      request.SetStatus(status);
      table := Replace(table, requestId, request.Snapshot());
      r := Success(request);
    }
  }

  /** After assignMechanic, reading the request back gives the new mechanic and
      In Progress (even for a Completed request), every other field as before,
      and every other request as before. */
  lemma AssignMechanicReadBack(t: Table<RequestRecord>, requestId: Id, mechanicId: Option<Id>, other: Id)
    requires Repository.Valid(t) && requestId in t.rows
    ensures var after := Replace(t, requestId, t.rows[requestId].(mechanicId := mechanicId, status := Some(InProgress)));
      && Get(after, requestId).value.status == Some(InProgress)
      && Get(after, requestId).value.mechanicId == mechanicId
      && Get(after, requestId).value == t.rows[requestId].(mechanicId := mechanicId, status := Some(InProgress))
      && (other != requestId ==> Get(after, other) == Get(t, other))
  {
    GetAfterReplace(t, requestId, t.rows[requestId].(mechanicId := mechanicId, status := Some(InProgress)), other);
  }
}
