/** ServiceStatusUpdateService: the audit trail of a request's status changes. */
module StatusTrail {
  import opened Common
  import opened Sequences
  import opened Model
  import opened Repository

  /** The condition of belonging to one request, as the backend's equality filter. */
  function ForRequest(serviceRequestId: Id): StatusUpdate -> bool
  {
    (u: StatusUpdate) => u.serviceRequestId == Some(serviceRequestId)
  }

  class ServiceStatusUpdateService {
    /** The service_status_updates collection. */
    var table: Table<StatusUpdate>

    /** The store is well formed and each update carries the id it is stored under. */
    ghost predicate Valid()
      reads this
    {
      && Repository.Valid(table)
      && forall k | k in table.rows :: table.rows[k].id == Some(k)
    }

    constructor (t: Table<StatusUpdate>)
      requires Repository.Valid(t) && forall k | k in t.rows :: t.rows[k].id == Some(k)
      ensures Valid() && table == t
    {
      table := t;
    }

    /** getByServiceRequestId: the updates of one request, newest first. */
    function GetByServiceRequestId(serviceRequestId: Id): (r: seq<StatusUpdate>)
      reads this
      requires Valid()
      ensures SortedBy(r, UpdateNewerOrSame)
      ensures multiset(r) == multiset(FindBy(table, ForRequest(serviceRequestId)))
      ensures forall u | u in r :: u in All(table) && u.serviceRequestId == Some(serviceRequestId)
    {
      NewestFirstIsPreorder();
      var mine := FindBy(table, ForRequest(serviceRequestId));
      var r := FilterAndOrder(table, ForRequest(serviceRequestId), UpdateNewerOrSame);
      assert forall u | u in r :: u in mine by {
        forall u | u in r ensures u in mine {
          assert u in multiset(r);
        }
      }
      r
    }

    /** getLatestUpdate: at most one update, the head of the newest-first list. */
    function GetLatestUpdate(serviceRequestId: Id): (r: seq<StatusUpdate>)
      reads this
      requires Valid()
      ensures |r| <= 1
      ensures r == [] <==> GetByServiceRequestId(serviceRequestId) == []
      ensures r != [] ==> r[0] == GetByServiceRequestId(serviceRequestId)[0]
    {
      Take(GetByServiceRequestId(serviceRequestId), 1)
    }

    /** Every stored update of a request is on its newest-first list. */
    lemma InTrail(serviceRequestId: Id, u: StatusUpdate)
      requires Valid()
      requires u in All(table) && u.serviceRequestId == Some(serviceRequestId)
      ensures u in GetByServiceRequestId(serviceRequestId)
    {
      var mine := FindBy(table, ForRequest(serviceRequestId));
      assert ForRequest(serviceRequestId)(u);
      assert u in mine;
      assert u in multiset(GetByServiceRequestId(serviceRequestId));
    }

    /** The latest update is at least as new as every update of its request,
        and there is none exactly when the request has no update. */
    lemma LatestIsNewest(serviceRequestId: Id)
      requires Valid()
      ensures GetLatestUpdate(serviceRequestId) == [] <==>
        forall u | u in All(table) :: u.serviceRequestId != Some(serviceRequestId)
      ensures GetLatestUpdate(serviceRequestId) != [] ==>
        forall u | u in All(table) && u.serviceRequestId == Some(serviceRequestId) ::
          UpdateNewerOrSame(GetLatestUpdate(serviceRequestId)[0], u)
    {
      var all := GetByServiceRequestId(serviceRequestId);
      if all == [] {
        forall u | u in All(table) ensures u.serviceRequestId != Some(serviceRequestId) {
          if u.serviceRequestId == Some(serviceRequestId) {
            InTrail(serviceRequestId, u);
          }
        }
      } else {
        assert all[0] in all;
        NewestFirstIsPreorder();
        HeadPrecedesAll(all, UpdateNewerOrSame);
        forall u | u in All(table) && u.serviceRequestId == Some(serviceRequestId)
          ensures UpdateNewerOrSame(all[0], u)
        {
          InTrail(serviceRequestId, u);
          assert u in multiset(all);
        }
      }
    }

    /** getByStatus: the updates whose status is exactly `status`. */
    function GetByStatus(status: string): (r: seq<StatusUpdate>)
      reads this
      requires Valid()
      ensures forall u :: u in r <==> u in All(table) && u.status == Some(status)
    {
      FindBy(table, (u: StatusUpdate) => u.status == Some(status))
    }

    /** getByCreatedBy: the updates written by one user. */
    function GetByCreatedBy(userId: Id): (r: seq<StatusUpdate>)
      reads this
      requires Valid()
      ensures forall u :: u in r <==> u in All(table) && u.createdBy == Some(userId)
    {
      FindBy(table, (u: StatusUpdate) => u.createdBy == Some(userId))
    }

    /** createStatusUpdate: store the given fields unchanged, without checking
        that the request exists; the backend assigns the id and the time. */
    method CreateStatusUpdate(serviceRequestId: Option<Id>, status: Option<string>, note: Option<string>,
                              createdBy: Option<Id>, newId: Id, now: Timestamp) returns (r: StatusUpdate)
      requires Valid() && newId !in table.rows
      modifies this
      ensures Valid()
      ensures r == StatusUpdate(Some(newId), serviceRequestId, status, note, createdBy, Some(now))
      ensures table == Insert(old(table), newId, r)
    {
      r := StatusUpdate(Some(newId), serviceRequestId, status, note, createdBy, Some(now));
      table := Insert(table, newId, r);
    }
  }
}
