# Car-Servicinator-3000, modelled in Dafny

This project models the logic inside Car-Servicinator-3000, a JavaFX app for a car-repair shop. The app keeps clients, vehicles and service requests. A request moves from Pending through In Progress to Completed, or is Rejected. An administrator sees revenue analytics.

The model covers four parts:

- **The entity services.** `ServiceRequestService`, `UserService`, `VehicleService` and `ServiceStatusUpdateService` are built on a generic store. The store's REST primitives (`get`, `create`, `update`, `findBy`, `existsBy`, `filterAndOrder`) belong to a base class outside the model. Here they are pure functions over `Table<T>`: the record under each id, plus the order in which a full fetch returns them (`repository.dfy`). Each service is a class whose `table` field its create and update methods reassign.
- **The in-memory stores.** These are `DataService` and its seeded data, and the fixed demo logins of `AuthService`. `DataService` holds lists of accounts and of request objects, and appends to them in place.
- **The entities.** `ServiceRequest` and `ServiceRequestItem` are mutable beans. They are modelled as classes with one setter per field, and each class has a `Snapshot()` of its current value. Users, vehicles, status updates and payments are values.
- **The screens' logic.**
  - The mechanic's screen: a search filter and three guarded status buttons, plus the lifecycle those buttons allow (`lifecycle.dfy`).
  - The client's request list: a filter, vehicle enrichment, and clearing the filter.
  - The administrator's analytics: totals, active count, average ticket, status breakdown, revenue by service and by mechanic, a seven-day trend, and two top-ten rankings.

Values are modelled as follows:

- Amounts are whole cents.
- Payment dates are day numbers.
- Request and update times are whole seconds.
- Identifiers are 36-character UUID texts.
- A Java `null` becomes `None`.
- The identifiers, creation times and "today" that the backend or the clock supply are parameters.

## Model

| member | source | states |
|---|---|---|
| Model.ServiceRequest.Blank | src/main/java/com/example/programminggroupproject/model/ServiceRequest.java:22-23 | the no-argument constructor leaves all twelve fields null |
| Model.ServiceRequest.constructor | src/main/java/com/example/programminggroupproject/model/ServiceRequest.java:25-37 | each of the nine arguments lands in its own field; the three display fields stay null |
| Model.ServiceRequest.SetId | src/main/java/com/example/programminggroupproject/model/ServiceRequest.java:43-45 | only `id` changes, to the argument |
| Model.ServiceRequest.SetClientId | src/main/java/com/example/programminggroupproject/model/ServiceRequest.java:51-53 | only `clientId` changes |
| Model.ServiceRequest.SetVehicleId | src/main/java/com/example/programminggroupproject/model/ServiceRequest.java:59-61 | only `vehicleId` changes |
| Model.ServiceRequest.SetShopId | src/main/java/com/example/programminggroupproject/model/ServiceRequest.java:67-69 | only `shopId` changes |
| Model.ServiceRequest.SetMechanicId | src/main/java/com/example/programminggroupproject/model/ServiceRequest.java:75-77 | only `mechanicId` changes |
| Model.ServiceRequest.SetStatus | src/main/java/com/example/programminggroupproject/model/ServiceRequest.java:83-85 | only `status` changes |
| Model.ServiceRequest.SetTotalPriceEstimated | src/main/java/com/example/programminggroupproject/model/ServiceRequest.java:91-93 | only the estimated total changes |
| Model.ServiceRequest.SetTotalPriceFinal | src/main/java/com/example/programminggroupproject/model/ServiceRequest.java:99-101 | only the final total changes |
| Model.ServiceRequest.SetCreatedAt | src/main/java/com/example/programminggroupproject/model/ServiceRequest.java:107-109 | only `createdAt` changes |
| Model.ServiceRequest.SetClientName | src/main/java/com/example/programminggroupproject/model/ServiceRequest.java:119-121 | only the display field `clientName` changes |
| Model.ServiceRequest.SetVehicleInfo | src/main/java/com/example/programminggroupproject/model/ServiceRequest.java:127-129 | only the display field `vehicleInfo` changes |
| Model.ServiceRequest.SetServiceDescription | src/main/java/com/example/programminggroupproject/model/ServiceRequest.java:135-137 | only the display field `serviceDescription` changes |
| Model.NewestFirstIsPreorder | src/main/java/com/example/programminggroupproject/service/ServiceRequestService.java:159 | ordering by `created_at` descending is a total, transitive comparison, for requests and for status updates; a missing time sorts first |
| ServiceRequestItems.LineTotal | src/main/java/com/example/programminggroupproject/model/ServiceRequestItem.java:97-106 | a line total is null exactly when the unit price is null; otherwise it is price × quantity |
| ServiceRequestItems.LineTotalOfNothing | src/main/java/com/example/programminggroupproject/model/ServiceRequestItem.java:99 | a priced line of quantity 0 totals 0 |
| ServiceRequestItems.LineTotalAdditive | src/main/java/com/example/programminggroupproject/model/ServiceRequestItem.java:97-100 | the total of quantity q1 + q2 is the sum of the totals of q1 and q2 |
| ServiceRequestItems.ServiceRequestItem.Blank | src/main/java/com/example/programminggroupproject/model/ServiceRequestItem.java:16 | the default item: references and prices null, quantity 0, not approved |
| ServiceRequestItems.ServiceRequestItem.constructor | src/main/java/com/example/programminggroupproject/model/ServiceRequestItem.java:18-29 | each of the eight arguments lands in its own field |
| ServiceRequestItems.ServiceRequestItem.SetId | src/main/java/com/example/programminggroupproject/model/ServiceRequestItem.java:36-38 | only `id` changes |
| ServiceRequestItems.ServiceRequestItem.SetServiceRequestId | src/main/java/com/example/programminggroupproject/model/ServiceRequestItem.java:44-46 | only `serviceRequestId` changes |
| ServiceRequestItems.ServiceRequestItem.SetServiceId | src/main/java/com/example/programminggroupproject/model/ServiceRequestItem.java:52-54 | only `serviceId` changes |
| ServiceRequestItems.ServiceRequestItem.SetQuantity | src/main/java/com/example/programminggroupproject/model/ServiceRequestItem.java:60-62 | only `quantity` changes |
| ServiceRequestItems.ServiceRequestItem.SetPriceEstimated | src/main/java/com/example/programminggroupproject/model/ServiceRequestItem.java:68-70 | only `priceEstimated` changes |
| ServiceRequestItems.ServiceRequestItem.SetPriceFinal | src/main/java/com/example/programminggroupproject/model/ServiceRequestItem.java:76-78 | only `priceFinal` changes |
| ServiceRequestItems.ServiceRequestItem.SetSource | src/main/java/com/example/programminggroupproject/model/ServiceRequestItem.java:84-86 | only `source` changes |
| ServiceRequestItems.ServiceRequestItem.SetApproved | src/main/java/com/example/programminggroupproject/model/ServiceRequestItem.java:92-94 | only `isApproved` changes |
| ServiceRequestItems.ServiceRequestItem.TotalEstimated | src/main/java/com/example/programminggroupproject/model/ServiceRequestItem.java:97-100 | null exactly when the estimated price is null; otherwise that price × quantity |
| ServiceRequestItems.ServiceRequestItem.TotalFinal | src/main/java/com/example/programminggroupproject/model/ServiceRequestItem.java:103-106 | null exactly when the final price is null; otherwise that price × quantity |
| Repository.All | src/main/java/com/example/programminggroupproject/controller/AdminController.java:61 | a full fetch returns every stored record once, in storage order |
| Repository.Get | src/main/java/com/example/programminggroupproject/service/ServiceRequestService.java:121-122 | `get(id)` is present exactly when a record is stored under `id`, and is that record |
| Repository.Insert | src/main/java/com/example/programminggroupproject/service/UserService.java:113 | `create` stores the record under the new id, changes no other id, keeps the store well formed, and appends the record to the full fetch |
| Repository.Replace | src/main/java/com/example/programminggroupproject/service/ServiceRequestService.java:127 | `update` keeps the ids and the storage order, and replaces only the record under `id` |
| Repository.GetAfterInsert | src/main/java/com/example/programminggroupproject/service/ServiceStatusUpdateService.java:83 | after `create`, `get` of the new id returns the new record, and every other id is unchanged |
| Repository.GetAfterReplace | src/main/java/com/example/programminggroupproject/service/ServiceRequestService.java:127 | after `update`, `get` returns the new record (last write wins), and every other id is unchanged |
| Repository.FindBy | src/main/java/com/example/programminggroupproject/service/ServiceRequestService.java:40-42 | `findBy` returns exactly the stored records that satisfy the condition |
| Repository.FindOneBy | src/main/java/com/example/programminggroupproject/service/VehicleService.java:48-50 | `findOneBy` returns a stored record that satisfies the condition, if it returns one |
| Repository.NotFoundNowhere | src/main/java/com/example/programminggroupproject/service/VehicleService.java:57-59 | when `existsBy` is false, no stored record satisfies the condition |
| Repository.ExistsIffFound | src/main/java/com/example/programminggroupproject/service/VehicleService.java:48-59 | `existsBy` holds exactly when `findOneBy` finds a record |
| Repository.FilterAndOrder | src/main/java/com/example/programminggroupproject/service/ServiceStatusUpdateService.java:38-40 | `filterAndOrder` returns the matching records, sorted: a permutation of the `findBy` result |
| RequestService.ServiceRequestService.GetByClientId | src/main/java/com/example/programminggroupproject/service/ServiceRequestService.java:40-42 | exactly the stored requests whose client id equals the argument |
| RequestService.ServiceRequestService.GetByClientName | src/main/java/com/example/programminggroupproject/service/ServiceRequestService.java:49-51 | exactly the requests whose client name equals the argument |
| RequestService.ServiceRequestService.GetByMechanicId | src/main/java/com/example/programminggroupproject/service/ServiceRequestService.java:58-60 | exactly the requests assigned to that mechanic |
| RequestService.ServiceRequestService.GetByShopId | src/main/java/com/example/programminggroupproject/service/ServiceRequestService.java:67-69 | exactly the requests of that shop |
| RequestService.ServiceRequestService.GetByStatus | src/main/java/com/example/programminggroupproject/service/ServiceRequestService.java:76-78 | exactly the requests whose status equals the argument, case-sensitively |
| RequestService.ServiceRequestService.GetByDateRange | src/main/java/com/example/programminggroupproject/service/ServiceRequestService.java:86-88 | exactly the requests whose creation time lies in [start, end], both ends included; a request without a time never matches |
| RequestService.ServiceRequestService.GetPendingRequests | src/main/java/com/example/programminggroupproject/service/ServiceRequestService.java:94-96 | the same list as `getByStatus("Pending")` |
| RequestService.ServiceRequestService.GetInProgressRequests | src/main/java/com/example/programminggroupproject/service/ServiceRequestService.java:102-104 | the same list as `getByStatus("In Progress")` |
| RequestService.ServiceRequestService.GetCompletedRequests | src/main/java/com/example/programminggroupproject/service/ServiceRequestService.java:110-112 | the same list as `getByStatus("Completed")` |
| RequestService.ServiceRequestService.FiltersKeepStorageOrder | src/main/java/com/example/programminggroupproject/service/ServiceRequestService.java:76-78 | a status query returns its matches in storage order |
| RequestService.ServiceRequestService.GetRecentRequests | src/main/java/com/example/programminggroupproject/service/ServiceRequestService.java:158-163 | a negative limit fails (`Stream.limit` throws). Otherwise the result has min(limit, count) requests, newest first, drawn from the store, and none left out is newer than one kept |
| RequestService.ServiceRequestService.AssignMechanic | src/main/java/com/example/programminggroupproject/service/ServiceRequestService.java:120-128 | an absent id fails with "Service request not found" and writes nothing. Otherwise the stored request gets the mechanic and status In Progress, whatever its status was; nothing else changes, and the updated object is returned |
| RequestService.AssignMechanicReadBack | src/main/java/com/example/programminggroupproject/service/ServiceRequestService.java:120-128 | reading the request back after the assignment gives the new mechanic and In Progress, even for a Completed request; other requests read as before |
| RequestService.ServiceRequestService.UpdateStatus | src/main/java/com/example/programminggroupproject/service/ServiceRequestService.java:136-142 | an absent id fails and writes nothing; otherwise only the status changes, to exactly the argument |
| Accounts.FindCredentials | src/main/java/com/example/programminggroupproject/service/DataService.java:57-61 | a user found is in the list and has both credentials; the only failure is the null-password dereference |
| Accounts.FindCredentialsIsFindFirst | src/main/java/com/example/programminggroupproject/service/DataService.java:57-61 | the check fails exactly when an account with this username and no password comes before any match; otherwise the result is `findFirst` of the accounts holding both credentials |
| UserAccounts.UserService.Authenticate | src/main/java/com/example/programminggroupproject/service/UserService.java:39-51 | a user found is stored and has both credentials; a null stored password fails as "Authentication failed" with the null dereference as cause |
| UserAccounts.UserService.AuthenticateIsFirstMatch | src/main/java/com/example/programminggroupproject/service/UserService.java:43-47 | on success the answer is the first stored account holding this username and password |
| UserAccounts.UserService.FindByUsername | src/main/java/com/example/programminggroupproject/service/UserService.java:58-60 | an account found is stored and has this username |
| UserAccounts.UserService.FindByEmail | src/main/java/com/example/programminggroupproject/service/UserService.java:67-69 | an account found is stored and has this email |
| UserAccounts.UserService.GetUsersByRole | src/main/java/com/example/programminggroupproject/service/UserService.java:76-78 | exactly the accounts whose role equals the argument |
| UserAccounts.UserService.ExistsIffFindable | src/main/java/com/example/programminggroupproject/service/UserService.java:85-96 | `usernameExists` holds exactly when `findByUsername` finds an account, and likewise for email |
| UserAccounts.UserService.RegisterUser | src/main/java/com/example/programminggroupproject/service/UserService.java:104-114 | a taken username fails first, then a taken email, both writing nothing. Otherwise exactly one account is created and returned. Unique usernames and emails stay unique |
| UserAccounts.InsertKeepsAccounts | src/main/java/com/example/programminggroupproject/service/UserService.java:104-114 | creating an account under its own id, with a username and email not on file, keeps every account under its own id and keeps usernames and emails unique |
| VehicleRegistry.VehicleService.GetByClientId | src/main/java/com/example/programminggroupproject/service/VehicleService.java:39-41 | exactly the vehicles of that client |
| VehicleRegistry.VehicleService.FindByLicensePlate | src/main/java/com/example/programminggroupproject/service/VehicleService.java:48-50 | a vehicle found is stored and has this plate |
| VehicleRegistry.VehicleService.PlateExistsIffFindable | src/main/java/com/example/programminggroupproject/service/VehicleService.java:48-59 | `licensePlateExists` holds exactly when `findByLicensePlate` finds a vehicle |
| VehicleRegistry.VehicleService.GetByMake | src/main/java/com/example/programminggroupproject/service/VehicleService.java:66-68 | exactly the vehicles of that make |
| VehicleRegistry.VehicleService.GetByModel | src/main/java/com/example/programminggroupproject/service/VehicleService.java:75-77 | exactly the vehicles of that model |
| VehicleRegistry.VehicleService.GetByYear | src/main/java/com/example/programminggroupproject/service/VehicleService.java:84-86 | exactly the vehicles of that year |
| VehicleRegistry.VehicleService.GetByYearRange | src/main/java/com/example/programminggroupproject/service/VehicleService.java:94-96 | exactly the vehicles built from the start year to the end year, both included |
| VehicleRegistry.VehicleService.RegisterVehicle | src/main/java/com/example/programminggroupproject/service/VehicleService.java:113-121 | a non-empty plate already on file fails with "License plate already exists" and writes nothing. A null or empty plate skips the check. Otherwise exactly one vehicle is created. Unique non-empty plates stay unique |
| VehicleRegistry.InsertKeepsRegistry | src/main/java/com/example/programminggroupproject/service/VehicleService.java:113-121 | creating a vehicle under its own id, with an empty plate or one not on file, keeps every vehicle under its own id and keeps non-empty plates unique |
| StatusTrail.ServiceStatusUpdateService.GetByServiceRequestId | src/main/java/com/example/programminggroupproject/service/ServiceStatusUpdateService.java:38-40 | only updates of that request, newest first, each stored one exactly once |
| StatusTrail.ServiceStatusUpdateService.InTrail | src/main/java/com/example/programminggroupproject/service/ServiceStatusUpdateService.java:38-40 | every stored update of a request is on that request's newest-first list |
| StatusTrail.ServiceStatusUpdateService.GetLatestUpdate | src/main/java/com/example/programminggroupproject/service/ServiceStatusUpdateService.java:65-70 | at most one update; empty exactly when the request has none; otherwise the head of `getByServiceRequestId` |
| StatusTrail.ServiceStatusUpdateService.LatestIsNewest | src/main/java/com/example/programminggroupproject/service/ServiceStatusUpdateService.java:65-70 | the latest update is at least as new as every update of its request; there is none exactly when no stored update belongs to the request |
| StatusTrail.ServiceStatusUpdateService.GetByStatus | src/main/java/com/example/programminggroupproject/service/ServiceStatusUpdateService.java:47-49 | exactly the updates whose status equals the argument |
| StatusTrail.ServiceStatusUpdateService.GetByCreatedBy | src/main/java/com/example/programminggroupproject/service/ServiceStatusUpdateService.java:56-58 | exactly the updates written by that user |
| StatusTrail.ServiceStatusUpdateService.CreateStatusUpdate | src/main/java/com/example/programminggroupproject/service/ServiceStatusUpdateService.java:80-84 | the request id, status, note and author are stored unchanged, with no check that the request exists; one record is added |
| DemoLogins.Authenticate | src/main/java/com/example/programminggroupproject/service/AuthService.java:7-21 | a user exactly for the three fixed pairs, otherwise null. The user's username and role are the input username; it has no id and no password |
| DemoLogins.PasswordBelongsToItsUser | src/main/java/com/example/programminggroupproject/service/AuthService.java:10-18 | an accepted password is its own username followed by "123", matched case-sensitively, so client/admin123 is refused |
| MemoryStore.AppendFreeUsername | src/main/java/com/example/programminggroupproject/service/DataService.java:63-68 | appending an account whose username is free keeps usernames distinct |
| MemoryStore.MockUsers | src/main/java/com/example/programminggroupproject/service/DataService.java:32-34 | three seeded accounts with distinct usernames |
| MemoryStore.MockAccountsMatchDemoLogins | src/main/java/com/example/programminggroupproject/service/DataService.java:32-34 | the seeded accounts never fail the credential check, and they accept exactly the pairs `AuthService` accepts |
| MemoryStore.MockRequest | src/main/java/com/example/programminggroupproject/service/DataService.java:37-44 | a fresh request with the given id, vehicle text, description, status and time, client "Client User", every other field null |
| MemoryStore.DataService.constructor | src/main/java/com/example/programminggroupproject/service/DataService.java:17-54 | three seeded accounts, then two distinct fresh requests (ids 1 and 2, Pending a day old and In Progress five hours old) |
| MemoryStore.DataService.Authenticate | src/main/java/com/example/programminggroupproject/service/DataService.java:57-61 | a user found is in the list and has both credentials; a matching account without a password throws |
| MemoryStore.DataService.RegisterUser | src/main/java/com/example/programminggroupproject/service/DataService.java:63-69 | false and no change when the username is taken; otherwise the account is appended, the answer is true, and distinct usernames stay distinct |
| MemoryStore.DataService.GetAllUsers | src/main/java/com/example/programminggroupproject/service/DataService.java:71-73 | a copy equal to the account list |
| MemoryStore.DataService.AddServiceRequest | src/main/java/com/example/programminggroupproject/service/DataService.java:76-78 | the request is appended with no check; accounts unchanged |
| MemoryStore.DataService.GetAllServiceRequests | src/main/java/com/example/programminggroupproject/service/DataService.java:80-82 | a copy equal to the request list |
| MemoryStore.DataService.GetServiceRequestsByMechanic | src/main/java/com/example/programminggroupproject/service/DataService.java:84-87 | the argument is ignored; every request |
| MemoryStore.DataService.GetServiceRequestsByClient | src/main/java/com/example/programminggroupproject/service/DataService.java:89-93 | exactly the requests whose client name is present and equal to the argument |
| MemoryStore.DataService.ByClientKeepsOrder | src/main/java/com/example/programminggroupproject/service/DataService.java:89-93 | those requests keep list order |
| Lifecycle.RunFixesNonActive | src/main/java/com/example/programminggroupproject/controller/MechanicController.java:85-109 | no sequence of button presses changes Completed, Rejected, Cancelled, null or any other status outside Pending and In Progress |
| Lifecycle.RunFromInProgress | src/main/java/com/example/programminggroupproject/controller/MechanicController.java:103-109 | from In Progress, presses end in In Progress or Completed, and in Completed exactly when Complete was pressed |
| Lifecycle.RunFromPending | src/main/java/com/example/programminggroupproject/controller/MechanicController.java:85-109 | from Pending, presses end in one of the four lifecycle statuses; Completed only after an Accept followed later by a Complete |
| MechanicScreen.SearchIgnoresCase | src/main/java/com/example/programminggroupproject/controller/MechanicController.java:67-77 | the search is case-insensitive: lower-casing the typed text changes no answer |
| MechanicScreen.SearchNarrows | src/main/java/com/example/programminggroupproject/controller/MechanicController.java:63-78 | a request shown for a longer text is shown for any prefix of it |
| MechanicScreen.MechanicController.constructor | src/main/java/com/example/programminggroupproject/controller/MechanicController.java:56-59 | all requests are loaded, the search is empty, nothing is selected |
| MechanicScreen.MechanicController.Visible | src/main/java/com/example/programminggroupproject/controller/MechanicController.java:63-78 | the rows shown are exactly the loaded requests whose client name or vehicle text contains the search, case-insensitively |
| MechanicScreen.MechanicController.VisibleIsOrderedSublist | src/main/java/com/example/programminggroupproject/controller/MechanicController.java:59-66 | the rows keep load order, and a null or empty search shows every request |
| MechanicScreen.MechanicController.SetSearchText | src/main/java/com/example/programminggroupproject/controller/MechanicController.java:62-63 | a new text replaces the search; nothing else changes |
| MechanicScreen.MechanicController.Select | src/main/java/com/example/programminggroupproject/controller/MechanicController.java:86 | the selection becomes a loaded request or none |
| MechanicScreen.MechanicController.HandleAccept | src/main/java/com/example/programminggroupproject/controller/MechanicController.java:85-91 | a selected request that is exactly Pending becomes In Progress. Only its status changes; any other status, no selection and every other request are left alone |
| MechanicScreen.MechanicController.HandleReject | src/main/java/com/example/programminggroupproject/controller/MechanicController.java:94-100 | a selected request that is exactly Pending becomes Rejected; nothing else changes |
| MechanicScreen.MechanicController.HandleComplete | src/main/java/com/example/programminggroupproject/controller/MechanicController.java:103-109 | a selected request that is exactly In Progress becomes Completed; nothing else changes |
| Common.TrimIsTrimOf | src/main/java/com/example/programminggroupproject/controller/ClientRequestsController.java:187 | `trim()` leaves the text with its blank ends (characters up to U+0020) removed: the text is blanks, then the result, then blanks, and the result neither starts nor ends with a blank |
| Common.TrimOfUnique | src/main/java/com/example/programminggroupproject/controller/ClientRequestsController.java:187 | a text has exactly one such trimmed form, so the description above fixes what `trim()` returns |
| ClientRequestsScreen.SearchKey | src/main/java/com/example/programminggroupproject/controller/ClientRequestsController.java:187 | the key holds no upper-case ASCII letter, is no longer than the text, and is empty exactly when the text is all blanks |
| ClientRequestsScreen.SearchKeyOfTrimmed | src/main/java/com/example/programminggroupproject/controller/ClientRequestsController.java:187 | the key is the lower-case form of the text's trimmed form |
| ClientRequestsScreen.ClearedFiltersPassAll | src/main/java/com/example/programminggroupproject/controller/ClientRequestsController.java:237-245 | "All Statuses", "All Vehicles" and an empty text let every request through |
| ClientRequestsScreen.BlankSearchImposesNothing | src/main/java/com/example/programminggroupproject/controller/ClientRequestsController.java:187 | a search of blanks only trims to the empty key, which filters nothing |
| ClientRequestsScreen.Enriched | src/main/java/com/example/programminggroupproject/controller/ClientRequestsController.java:140-149 | without a vehicle id the request is unchanged. With one, the vehicle text becomes the vehicle's full info when the lookup finds it, and "Unknown Vehicle" when it does not |
| ClientRequestsScreen.EnrichedIdempotent | src/main/java/com/example/programminggroupproject/controller/ClientRequestsController.java:140-149 | enriching twice is enriching once, and only the vehicle text ever changes |
| ClientRequestsScreen.Enrich | src/main/java/com/example/programminggroupproject/controller/ClientRequestsController.java:140-149 | the request object's new value is its enriched old value |
| ClientRequestsScreen.EnrichAll | src/main/java/com/example/programminggroupproject/controller/ClientRequestsController.java:119-121 | after the loop every listed object holds its enriched old value, even one listed twice |
| ClientRequestsScreen.LoadEnriched | src/main/java/com/example/programminggroupproject/controller/ClientRequestsController.java:116-121 | one fresh object per fetched record, in order, each holding its record enriched with the vehicle text |
| ClientRequestsScreen.ClientRequestsController.constructor | src/main/java/com/example/programminggroupproject/controller/ClientRequestsController.java:82-96 | filters start at "All Statuses", "All Vehicles" and no text; no requests are loaded yet |
| ClientRequestsScreen.ClientRequestsController.Matching | src/main/java/com/example/programminggroupproject/controller/ClientRequestsController.java:190-218 | exactly the requests passing the status, vehicle and description conditions |
| ClientRequestsScreen.ClientRequestsController.LoadClientRequests | src/main/java/com/example/programminggroupproject/controller/ClientRequestsController.java:102-135 | without a user nothing changes. Otherwise the client's vehicles are loaded, and one fresh, enriched object per request of the client is loaded and shown |
| ClientRequestsScreen.ClientRequestsController.UpdateVehicleFilter | src/main/java/com/example/programminggroupproject/controller/ClientRequestsController.java:154-163 | the vehicle choices are "All Vehicles" and then each vehicle's full info in order; "All Vehicles" is selected |
| ClientRequestsScreen.ClientRequestsController.ApplyFilter | src/main/java/com/example/programminggroupproject/controller/ClientRequestsController.java:177-228 | with no requests nothing changes; otherwise the shown rows are the matching requests, an order-preserving sublist |
| ClientRequestsScreen.ClientRequestsController.ClearFilter | src/main/java/com/example/programminggroupproject/controller/ClientRequestsController.java:237-249 | the controls are reset, and the loaded list is shown, which is also what the reset filter matches |
| ClientRequestsScreen.ClearedFilterKeepsAll | src/main/java/com/example/programminggroupproject/controller/ClientRequestsController.java:237-249 | filtering with the cleared controls keeps the whole list, in order |
| ClientRequestsScreen.ClientRequestsController.ClearedMatchesAll | src/main/java/com/example/programminggroupproject/controller/ClientRequestsController.java:237-249 | once the controls are cleared, the matching requests are exactly the list given |
| Analytics.MechanicNames | src/main/java/com/example/programminggroupproject/controller/AdminController.java:81-86 | every named id belongs to an account whose role is "mechanic" in any letter case |
| Analytics.MechanicNamesFirstWins | src/main/java/com/example/programminggroupproject/controller/AdminController.java:81-86 | an id is named exactly when such a mechanic carries it. Its name is the first such mechanic's full name, or "Unknown Mechanic" |
| Analytics.TotalRevenueSnoc | src/main/java/com/example/programminggroupproject/controller/AdminController.java:90 | the total grows by exactly each payment's amount |
| Analytics.ActiveAndClosedPartition | src/main/java/com/example/programminggroupproject/controller/AdminController.java:97-100 | active and closed ("Completed"/"Cancelled" in any case) counts add up to all requests; a null status is active |
| Analytics.DivHalfUp | src/main/java/com/example/programminggroupproject/controller/AdminController.java:105-108 | the quotient is within half a unit of a/b; a tie rounds away from zero |
| Analytics.AverageTicket | src/main/java/com/example/programminggroupproject/controller/AdminController.java:104-112 | 0 with no payments (no division); otherwise within half a cent of total ÷ count, a tie rounded away from zero (HALF_UP) |
| Analytics.StatusCountsSum | src/main/java/com/example/programminggroupproject/controller/AdminController.java:115-118 | the category counts add up to the number of requests |
| Analytics.StatusCountsPerKey | src/main/java/com/example/programminggroupproject/controller/AdminController.java:115-118 | a category (a null status counting as "Unknown") appears exactly when some request falls in it, with the number that do |
| Analytics.RequestIndex | src/main/java/com/example/programminggroupproject/controller/AdminController.java:129-130 | with distinct ids, each request is found under its own id, and only requests are found |
| Analytics.ServiceKey | src/main/java/com/example/programminggroupproject/controller/AdminController.java:139-141 | the description when it is present and non-empty, else "Unknown Service"; never empty |
| Analytics.ServiceRevenueTotal | src/main/java/com/example/programminggroupproject/controller/AdminController.java:132-142 | revenue by service adds up to the total of exactly the payments whose request id is present and known |
| Analytics.ServiceRevenueIsSum | src/main/java/com/example/programminggroupproject/controller/AdminController.java:132-142 | each service's revenue is the total of exactly the payments whose known request is booked under it (its description, or "Unknown Service"); a service without one has no entry |
| Analytics.MechanicRevenueIsSum | src/main/java/com/example/programminggroupproject/controller/AdminController.java:145-148 | each mechanic's revenue is the total of exactly the payments whose known request has that mechanic; a mechanic without one has no entry |
| Analytics.RevenueBreakdown | src/main/java/com/example/programminggroupproject/controller/AdminController.java:132-151 | the loop's two maps equal revenue by service and revenue by mechanic |
| Analytics.AmountAtLeastIsPreorder | src/main/java/com/example/programminggroupproject/controller/AdminController.java:157 | ordering by amount, largest first, is a total, transitive comparison |
| Analytics.MapEntries | src/main/java/com/example/programminggroupproject/controller/AdminController.java:156 | every entry of the map exactly once, in an unspecified order |
| Analytics.TopTen | src/main/java/com/example/programminggroupproject/controller/AdminController.java:156-158 | min(10, size) entries of the map under distinct keys, largest first. No entry left out is larger than one kept, and a map of at most 10 entries is kept whole |
| Analytics.RankedIsTopRanking | src/main/java/com/example/programminggroupproject/controller/AdminController.java:156-158 | sorting every entry of a map once by amount and keeping ten gives distinct entries of the map, largest first, none smaller than an entry left out |
| Analytics.Truncate | src/main/java/com/example/programminggroupproject/controller/AdminController.java:160-162 | a label of at most 20 characters is kept; a longer one becomes its first 17 characters and "...", exactly 20 long |
| Analytics.TruncateLabels | src/main/java/com/example/programminggroupproject/controller/AdminController.java:159-164 | each bar keeps its amount and gets its truncated label |
| Analytics.ServiceRanking | src/main/java/com/example/programminggroupproject/controller/AdminController.java:156-164 | the ten service bars, or one per service when there are fewer, largest first, each a service's revenue under its label cut to 20 characters. A service whose bar is missing earned no more than any bar shown, and the bars are a top-ten ranking of distinct services with the labels cut |
| Analytics.TruncatedRanking | src/main/java/com/example/programminggroupproject/controller/AdminController.java:156-164 | cutting the labels of a top-ten ranking of the services gives that chart |
| Analytics.DaySumSnoc | src/main/java/com/example/programminggroupproject/controller/AdminController.java:180-187 | a payment adds to the day it is dated and to no other; an undated one adds to none |
| Analytics.DailyTrend | src/main/java/com/example/programminggroupproject/controller/AdminController.java:170-193 | seven buckets, today-6 to today in ascending order, each the revenue dated that day; other payments are ignored |
| Analytics.MechanicDisplay | src/main/java/com/example/programminggroupproject/controller/AdminController.java:205-216 | every mechanic with revenue appears under its name or "Mechanic " plus its id's first 8 characters, with a revenue it earned. Every known name appears. A zero entry is only ever a known mechanic's name that no earning mechanic uses as its label |
| Analytics.MechanicRanking | src/main/java/com/example/programminggroupproject/controller/AdminController.java:205-223 | at most 10 bars under distinct labels, largest first, and a top-ten ranking of the chart data of every mechanic. Each bar is an earning mechanic's revenue, or 0 under a known mechanic's name that no earner uses. Fewer than 10 bars means every earning mechanic and every known name is shown |
| Analytics.ChartRanking | src/main/java/com/example/programminggroupproject/controller/AdminController.java:218-223 | a top-ten ranking of the chart data of every mechanic is that chart, labels distinct and every bar accounted for |
| Analytics.LoadAnalytics | src/main/java/com/example/programminggroupproject/controller/AdminController.java:59-223 | the report holds total, count, active count, average, category counts and the seven-day trend. The service ranking is the chart of Analytics.ServiceRanking over revenue by service: the ten largest services, largest first, labels cut. The mechanic ranking is the chart of Analytics.MechanicRanking over revenue by mechanic and the known names |

## Left out

- UI wiring: FXML loading, table columns, labels, charts, message texts, navigation and every `handleBack`. `LoginController`, `DashboardController` and `ClientController` are not part of this model.
- Formatting: currency text ("€%.2f") and "MM-dd" date labels. The model keeps the numbers.
- The REST transport under the services: HTTP, JSON mapping, and the `BaseSupabaseService` primitives. These are modelled as the pure functions of `repository.dfy`. The JSON mapper filling a bean is `Model.Materialize`.
- Backend-generated values (the id and creation time of a created record) and the clock (`LocalDate.now()`, `LocalDateTime.now()`) are parameters.
- The synchronized lazy singletons (`getInstance`), and races between check-then-create and concurrent updates.
- `MechanicShopService` is not part of this model: every method only delegates to the base class.
- The text searches (`searchRequests`, `searchUsers`, `searchVehicles`, `searchByNote`) delegate to base-class search primitives. Their semantics are not shown, so they are not modelled.
- `PaymentService.calculateTotal` and `getCompletedPayments` are not shown. The total is modelled as the sum of the amounts, and the completed payments are an input list.
- Money is whole cents. `Payment.amount` is a `double` in the source and a `BigDecimal` in the analytics; floating point is not modelled.
- Identifiers are one UUID text type. The source mixes `Long` ids in the entities with `UUID` ids in the services. The seeded requests 1 and 2 use the UUID texts ending in 01 and 02.
- Lower-casing covers ASCII letters only, not Java's full `toLowerCase`.
- `Vehicle.getFullInfo()` is not shown; it is a field of the vehicle value.
- A `null` username, password or search argument passed to a service is not modelled: arguments are non-null strings.
- `User.username`, `role` and `email`, and `Vehicle.make` and `model`, are plain strings, so a stored record with any of these null is not modelled. The other stored fields may be null.
- MemoryStore.DataService.RegisterUser: a user whose username is null is not modelled. The source stores one, because it dereferences only the stored usernames (DataService.java:64). After that, `authenticate` throws a NullPointerException at DataService.java:59 unless an earlier account holds both the username and the password, which `Accounts.FindCredentials` does not capture.
- MemoryStore.DataService.GetServiceRequestsByMechanic: the source returns the store's own list, not a copy (DataService.java:84-87), so a caller that adds or removes an element changes the store. The model answers the list as a value, so this aliasing is not captured.
- Analytics.Truncate: Java's `length()` and `substring` count UTF-16 code units, while a Dafny string counts Unicode scalar values. A label holding characters outside the Basic Multilingual Plane may be cut by the source and kept whole by the model, or cut at a different place.
- StatusTrail.ServiceStatusUpdateService.CreateStatusUpdate: ServiceStatusUpdateService.java:82 calls a 4-argument `ServiceStatusUpdate` constructor that the source does not declare (ServiceStatusUpdate.java:14-16 has only the no-argument and 6-argument ones). The model assumes it stores its four arguments and leaves the id and the time to the backend.
- RequestService.ServiceRequestService.GetRecentRequests: the backend filter `id >= 0` (ServiceRequestService.java:159) is dropped. The base class and the schema are not part of this model; the model keeps every stored request, and what `id >= 0` does with UUID ids (possibly a backend error) is not captured.
- Model.NewestFirstIsPreorder, RequestService.ServiceRequestService.GetRecentRequests, StatusTrail.ServiceStatusUpdateService.GetByServiceRequestId: a missing creation time sorts first in newest-first order. This follows PostgreSQL's default for descending order; the base class that builds the query is not part of this model, so where it really puts a null time is not known.
- ClientRequestsScreen.ClientRequestsController.LoadClientRequests: a logged-in user without an id is treated as refused by the backend, so nothing loads. The backend's answer to a null id is not shown. The request service's exceptions are not modelled.
- Analytics.LoadAnalytics: `toMap` throws on duplicate request ids, so distinct request ids are a precondition. HashMap iteration order is arbitrary, so which of several equal amounts make a top-ten cut is not specified.
- Analytics.MechanicDisplay: when two earning mechanics share a label, which amount stays depends on map iteration order, so only "an amount one of them earned" is stated.
- Neither `assignMechanic` nor `updateStatus` checks the request's current status or the new status text. The model follows the code: `RequestService.AssignMechanicReadBack` shows a Completed request reopened as In Progress.
