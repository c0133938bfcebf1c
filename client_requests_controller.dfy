/** The client's "my requests" screen: loads the client's requests and
    vehicles, fills in each request's vehicle text, and filters the list by
    status, vehicle and a search over the service description. */
module ClientRequestsScreen {
  import opened Common
  import opened Sequences
  import opened Model
  import opened Repository
  import opened RequestService
  import opened VehicleRegistry

  const AllStatuses := "All Statuses"
  const AllVehicles := "All Vehicles"
  const UnknownVehicle := "Unknown Vehicle"

  /** The search text as the filter uses it: trimmed, then lower-cased. The
      key holds no upper-case ASCII letter, and it is empty exactly when the
      text is all blanks. */
  function SearchKey(text: string): (r: string)
    ensures |r| <= |text|
    ensures forall i | 0 <= i < |r| :: !('A' <= r[i] <= 'Z')
    ensures r == [] <==> Blank(text)
  {
    TrimEmptyIffBlank(text);
    Lower(Trim(text))
  }

  /** The key is the lower-case form of the text stripped of its blank ends,
      whichever way that stripped form is found. */
  lemma SearchKeyOfTrimmed(text: string)
    ensures forall t | TrimOf(text, t) :: SearchKey(text) == Lower(t)
  {
    TrimIsTheTrimOf(text);
  }

  /** handleApplyFilter's condition on one request. A status filter other than
      "All Statuses" must equal the status exactly; a vehicle filter other than
      "All Vehicles" must equal the vehicle text, which must be present; a
      non-empty search key must occur in the lower-cased description, which
      must be present. */
  predicate PassesFilter(r: RequestRecord, statusFilter: Option<string>, vehicleFilter: Option<string>, key: string)
  {
    && (statusFilter == None || statusFilter == Some(AllStatuses) || r.status == statusFilter)
    && (vehicleFilter == None || vehicleFilter == Some(AllVehicles) || r.vehicleInfo == vehicleFilter)
    && (key == [] || (r.serviceDescription.Some? && Contains(Lower(r.serviceDescription.value), key)))
  }

  function FilterOf(statusFilter: Option<string>, vehicleFilter: Option<string>, key: string): RequestRecord -> bool
  {
    (r: RequestRecord) => PassesFilter(r, statusFilter, vehicleFilter, key)
  }

  /** The cleared filters ("All Statuses", "All Vehicles", no text) let every request through. */
  lemma ClearedFiltersPassAll(r: RequestRecord)
    ensures PassesFilter(r, Some(AllStatuses), Some(AllVehicles), SearchKey(""))
  {
  }

  /** Filtering a list of request objects by the cleared controls keeps it whole. */
  lemma ClearedFilterKeepsAll(rs: seq<ServiceRequest>)
    ensures RequestsWhere(rs, FilterOf(Some(AllStatuses), Some(AllVehicles), SearchKey(""))) == rs
  {
    var cleared := FilterOf(Some(AllStatuses), Some(AllVehicles), SearchKey(""));
    forall o | o in rs ensures cleared(o.Snapshot()) {
      ClearedFiltersPassAll(o.Snapshot());
    }
    RequestsWhereKeepsAll(rs, cleared);
  }

  /** A search key made only of blanks imposes nothing. */
  lemma BlankSearchImposesNothing(text: string)
    requires forall i | 0 <= i < |text| :: IsTrimmed(text[i])
    ensures SearchKey(text) == []
  {
  }

  /** enrichRequestWithVehicleInfo on a value: without a vehicle id nothing
      changes; otherwise the vehicle text becomes the vehicle's full info,
      or "Unknown Vehicle" when the lookup finds nothing. */
  function Enriched(r: RequestRecord, vehicles: Table<Vehicle>): (e: RequestRecord)
    ensures r.vehicleId.None? ==> e == r
    ensures r.vehicleId.Some? && r.vehicleId.value in vehicles.rows ==>
      e == r.(vehicleInfo := Some(vehicles.rows[r.vehicleId.value].fullInfo))
    ensures r.vehicleId.Some? && r.vehicleId.value !in vehicles.rows ==>
      e == r.(vehicleInfo := Some(UnknownVehicle))
  {
    match r.vehicleId
    case None => r
    case Some(id) =>
      match Get(vehicles, id)
      case Some(v) => r.(vehicleInfo := Some(v.fullInfo))
      case None => r.(vehicleInfo := Some(UnknownVehicle))
  }

  /** Enriching twice is enriching once: the lookup key, the vehicle id, is never changed. */
  lemma EnrichedIdempotent(r: RequestRecord, vehicles: Table<Vehicle>)
    ensures Enriched(Enriched(r, vehicles), vehicles) == Enriched(r, vehicles)
    ensures Enriched(r, vehicles) == r.(vehicleInfo := Enriched(r, vehicles).vehicleInfo)
  {
  }

  /** enrichRequestWithVehicleInfo: update one request object in place. */
  method Enrich(request: ServiceRequest, vehicles: Table<Vehicle>)
    modifies request
    ensures request.Snapshot() == Enriched(old(request.Snapshot()), vehicles)
  {
    if request.vehicleId.Some? {
      var vehicle := Get(vehicles, request.vehicleId.value);
      if vehicle.Some? {
        request.SetVehicleInfo(Some(vehicle.value.fullInfo));
      } else {
        request.SetVehicleInfo(Some(UnknownVehicle));
      }
    }
  }

  /** The enrichment loop over a list of request objects. An object listed
      twice is enriched twice, to the same effect. */
  method EnrichAll(requests: seq<ServiceRequest>, vehicles: Table<Vehicle>)
    modifies set o | o in requests
    ensures forall o | o in requests :: o.Snapshot() == Enriched(old(o.Snapshot()), vehicles)
  {
    for i := 0 to |requests|
      invariant forall o | o in requests ::
        o.Snapshot() == if o in requests[..i] then Enriched(old(o.Snapshot()), vehicles) else old(o.Snapshot())
    {
      var o := requests[i];
      EnrichedIdempotent(old(o.Snapshot()), vehicles);
      Enrich(o, vehicles);
      assert requests[..i + 1] == requests[..i] + [o];
    }
    assert requests[..|requests|] == requests;
  }

  /** A fresh object for each record, as the backend's JSON list is read. */
  method MaterializeAll(records: seq<RequestRecord>) returns (objects: seq<ServiceRequest>)
    ensures Snapshots(objects) == records
    ensures forall o | o in objects :: fresh(o)
    ensures forall i, j | 0 <= i < j < |objects| :: objects[i] != objects[j]
  {
    objects := [];
    for i := 0 to |records|
      invariant |objects| == i
      invariant forall k | 0 <= k < i :: fresh(objects[k]) && objects[k].Snapshot() == records[k]
      invariant forall k, l | 0 <= k < l < i :: objects[k] != objects[l]
    {
      var o := Materialize(records[i]);
      objects := objects + [o];
    }
  }

  /** The fetched records as fresh request objects, each enriched with its vehicle text. */
  method LoadEnriched(records: seq<RequestRecord>, vehicles: Table<Vehicle>) returns (objects: seq<ServiceRequest>)
    ensures |objects| == |records|
    ensures forall i | 0 <= i < |objects| :: fresh(objects[i]) && objects[i].Snapshot() == Enriched(records[i], vehicles)
  {
    objects := MaterializeAll(records);
    assert forall i | 0 <= i < |objects| :: objects[i].Snapshot() == records[i];
    label loaded:
    EnrichAll(objects, vehicles);
    forall i | 0 <= i < |objects| ensures fresh(objects[i]) && objects[i].Snapshot() == Enriched(records[i], vehicles) {
      assert objects[i] in objects;
      assert old@loaded(objects[i].Snapshot()) == records[i];
    }
  }

  class ClientRequestsController {
    var requestService: ServiceRequestService
    var vehicleService: VehicleService
    /** The client's requests; null until loaded. */
    var allRequests: Option<seq<ServiceRequest>>
    /** The client's vehicles. */
    var userVehicles: seq<Vehicle>
    /** The choices of the vehicle filter: "All Vehicles", then each vehicle's full info. */
    var vehicleOptions: seq<string>
    /** The rows the table shows. */
    var shown: seq<ServiceRequest>
    // the filter controls
    var statusFilter: Option<string>
    var vehicleFilter: Option<string>
    var searchText: string

    ghost predicate Valid()
      reads this, requestService, vehicleService
    {
      requestService.Valid() && vehicleService.Valid()
    }

    constructor (requestService: ServiceRequestService, vehicleService: VehicleService)
      requires requestService.Valid() && vehicleService.Valid()
      ensures Valid() && this.requestService == requestService && this.vehicleService == vehicleService
      ensures allRequests == None && shown == [] && userVehicles == [] && vehicleOptions == [AllVehicles]
      ensures statusFilter == Some(AllStatuses) && vehicleFilter == Some(AllVehicles) && searchText == ""
    {
      this.requestService, this.vehicleService := requestService, vehicleService;
      allRequests, shown, userVehicles, vehicleOptions := None, [], [], [AllVehicles];
      statusFilter, vehicleFilter, searchText := Some(AllStatuses), Some(AllVehicles), "";
    }

    /** The requests the current filter controls let through, in list order. */
    function Matching(requests: seq<ServiceRequest>): (r: seq<ServiceRequest>)
      reads this, set o | o in requests
      ensures forall o | o in r :: o in requests && PassesFilter(o.Snapshot(), statusFilter, vehicleFilter, SearchKey(searchText))
      ensures forall o | o in requests && PassesFilter(o.Snapshot(), statusFilter, vehicleFilter, SearchKey(searchText)) :: o in r
    {
      RequestsWhere(requests, FilterOf(statusFilter, vehicleFilter, SearchKey(searchText)))
    }

    /** With the controls cleared, every request matches, in list order. */
    lemma ClearedMatchesAll(requests: seq<ServiceRequest>)
      requires statusFilter == Some(AllStatuses) && vehicleFilter == Some(AllVehicles) && searchText == ""
      ensures Matching(requests) == requests
    {
      ClearedFilterKeepsAll(requests);
    }

    /** loadClientRequests: with nobody logged in, nothing is loaded. Otherwise
        the client's vehicles and requests are fetched, every request is
        enriched with its vehicle text, and all of them are shown; the vehicle
        filter lists the client's vehicles and is reset to "All Vehicles". A
        user without an id is refused by the backend, and nothing is loaded. */
    method LoadClientRequests(currentUser: Option<User>)
      requires Valid()
      modifies this
      ensures Valid() && requestService == old(requestService) && vehicleService == old(vehicleService)
      ensures statusFilter == old(statusFilter) && searchText == old(searchText)
      ensures currentUser.None? || currentUser.value.id.None? ==>
        && allRequests == old(allRequests) && shown == old(shown) && userVehicles == old(userVehicles)
        && vehicleOptions == old(vehicleOptions) && vehicleFilter == old(vehicleFilter)
      ensures currentUser.Some? && currentUser.value.id.Some? ==>
        var clientId := currentUser.value.id.value;
        && userVehicles == vehicleService.GetByClientId(clientId)
        && |vehicleOptions| == |userVehicles| + 1 && vehicleOptions[0] == AllVehicles
        && (forall i | 0 <= i < |userVehicles| :: vehicleOptions[i + 1] == userVehicles[i].fullInfo)
        && vehicleFilter == Some(AllVehicles)
        && allRequests.Some? && shown == allRequests.value
        && |allRequests.value| == |requestService.GetByClientId(clientId)|
        && forall i | 0 <= i < |allRequests.value| ::
             fresh(allRequests.value[i])
             && allRequests.value[i].Snapshot() == Enriched(requestService.GetByClientId(clientId)[i], vehicleService.table)
    {
      if currentUser.None? || currentUser.value.id.None? {
        return;
      }
      var clientId := currentUser.value.id.value;
      userVehicles := vehicleService.GetByClientId(clientId);
      UpdateVehicleFilter();
      var objects := LoadEnriched(requestService.GetByClientId(clientId), vehicleService.table);
      allRequests := Some(objects);
      shown := objects;
    }

    /** updateVehicleFilter: one choice per vehicle after "All Vehicles", which is selected. */
    method UpdateVehicleFilter()
      modifies this
      ensures |vehicleOptions| == |userVehicles| + 1 && vehicleOptions[0] == AllVehicles
      ensures forall i | 0 <= i < |userVehicles| :: vehicleOptions[i + 1] == userVehicles[i].fullInfo
      ensures vehicleFilter == Some(AllVehicles)
      ensures allRequests == old(allRequests) && shown == old(shown) && userVehicles == old(userVehicles)
      ensures requestService == old(requestService) && vehicleService == old(vehicleService)
      ensures statusFilter == old(statusFilter) && searchText == old(searchText)
    {
      var options := [AllVehicles];
      for i := 0 to |userVehicles|
        invariant |options| == i + 1 && options[0] == AllVehicles
        invariant forall k | 0 <= k < i :: options[k + 1] == userVehicles[k].fullInfo
      {
        options := options + [userVehicles[i].fullInfo];
      }
      vehicleOptions, vehicleFilter := options, Some(AllVehicles);
    }

    /** handleApplyFilter: nothing to do without requests; otherwise show the
        requests that pass the filter controls. */
    method ApplyFilter()
      modifies this
      ensures allRequests == old(allRequests) && userVehicles == old(userVehicles) && vehicleOptions == old(vehicleOptions)
      ensures requestService == old(requestService) && vehicleService == old(vehicleService)
      ensures statusFilter == old(statusFilter) && vehicleFilter == old(vehicleFilter) && searchText == old(searchText)
      ensures allRequests.None? || allRequests.value == [] ==> shown == old(shown)
      ensures allRequests.Some? && allRequests.value != [] ==>
        shown == Matching(allRequests.value) && IsSubsequence(shown, allRequests.value)
    {
      if allRequests.None? || allRequests.value == [] {
        return;
      }
      var key := SearchKey(searchText);
      RequestsWhereIsFilter(allRequests.value, FilterOf(statusFilter, vehicleFilter, key));
      shown := RequestsWhere(allRequests.value, FilterOf(statusFilter, vehicleFilter, key));
    }

    /** handleClearFilter: reset the controls and show every loaded request,
        which is also what applying the cleared filters shows. */
    method ClearFilter()
      modifies this
      ensures allRequests == old(allRequests) && userVehicles == old(userVehicles) && vehicleOptions == old(vehicleOptions)
      ensures requestService == old(requestService) && vehicleService == old(vehicleService)
      ensures statusFilter == Some(AllStatuses) && vehicleFilter == Some(AllVehicles) && searchText == ""
      ensures allRequests.None? ==> shown == old(shown)
      ensures allRequests.Some? ==> shown == allRequests.value && shown == Matching(allRequests.value)
    {
      statusFilter, vehicleFilter, searchText := Some(AllStatuses), Some(AllVehicles), "";
      if allRequests.Some? {
        shown := allRequests.value;
        ClearedMatchesAll(shown);
      }
    }
  }
}
