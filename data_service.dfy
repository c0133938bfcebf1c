/** DataService: the in-memory store of the first screens — a list of
    accounts and a list of request objects, both appended in place. */
module MemoryStore {
  import opened Common
  import opened Sequences
  import opened Model
  import opened Accounts
  import DemoLogins

  /** `name` is the username of some account in `users`. */
  predicate UsernameTaken(users: seq<User>, name: string)
  {
    exists i | 0 <= i < |users| :: users[i].username == name
  }

  /** No two accounts share a username. */
  predicate DistinctUsernames(users: seq<User>)
  {
    forall i, j | 0 <= i < j < |users| :: users[i].username != users[j].username
  }

  /** Appending an account whose username is free keeps usernames distinct. */
  lemma AppendFreeUsername(users: seq<User>, user: User)
    requires DistinctUsernames(users) && !UsernameTaken(users, user.username)
    ensures DistinctUsernames(users + [user])
  {
    var s := users + [user];
    forall i, j | 0 <= i < j < |s| ensures s[i].username != s[j].username {
      if j == |users| {
        assert s[i] == users[i];
      } else {
        assert s[i] == users[i] && s[j] == users[j];
      }
    }
  }

  /** The condition of carrying this client name. */
  function ForClient(clientName: string): RequestRecord -> bool
  {
    (rec: RequestRecord) => rec.clientName == Some(clientName)
  }

  /** The three accounts the store starts with: username, password, role, name, email. */
  function MockUsers(): (r: seq<User>)
    ensures |r| == 3 && DistinctUsernames(r)
  {
    [ User(None, "client", Some("client123"), "client", Some("Client User"), "client@example.com"),
      User(None, "mechanic", Some("mechanic123"), "mechanic", Some("Mechanic User"), "mechanic@example.com"),
      User(None, "admin", Some("admin123"), "admin", Some("Admin User"), "admin@example.com") ]
  }

  /** The ids 1 and 2 the mock requests are given, in the model's id form. */
  const RequestOne: Id := "00000000-0000-0000-0000-000000000001"
  const RequestTwo: Id := "00000000-0000-0000-0000-000000000002"

  /** The first mock request: pending, created a day before `now`. */
  function MockRequestOne(now: Timestamp): RequestRecord
  {
    BlankRequest.(id := Some(RequestOne), clientName := Some("Client User"),
      vehicleInfo := Some("Toyota Corolla - ABC123"),
      serviceDescription := Some("Oil & Filters, General check-up"),
      status := Some(Pending), createdAt := Some(now - 24 * 3600))
  }

  /** The second mock request: in progress, created five hours before `now`. */
  function MockRequestTwo(now: Timestamp): RequestRecord
  {
    BlankRequest.(id := Some(RequestTwo), clientName := Some("Client User"),
      vehicleInfo := Some("Honda Civic - XYZ789"),
      serviceDescription := Some("Brakes"),
      status := Some(InProgress), createdAt := Some(now - 5 * 3600))
  }

  /** The store's seeded accounts accept exactly the three demo logins. */
  lemma MockAccountsMatchDemoLogins(username: string, password: string)
    ensures FindCredentials(MockUsers(), username, password).Success?
    ensures FindCredentials(MockUsers(), username, password).value.Some? <==>
      DemoLogins.Authenticate(username, password).Some?
  {
    var users := MockUsers();
    assert users[1..][1..][1..] == [];
  }

  /** One mock request as initializeMockData builds it: the no-argument
      constructor, then the id, client name, vehicle text, description,
      status and creation time, one setter each. */
  method MockRequest(id: Id, vehicleInfo: string, description: string, status: string, createdAt: Timestamp)
    returns (o: ServiceRequest)
    ensures fresh(o)
    ensures o.Snapshot() == BlankRequest.(id := Some(id), clientName := Some("Client User"),
      vehicleInfo := Some(vehicleInfo), serviceDescription := Some(description),
      status := Some(status), createdAt := Some(createdAt))
  {
    o := new ServiceRequest.Blank();
    o.SetId(Some(id));
    o.SetClientName(Some("Client User"));
    o.SetVehicleInfo(Some(vehicleInfo));
    o.SetServiceDescription(Some(description));
    o.SetStatus(Some(status));
    o.SetCreatedAt(Some(createdAt));
  }

  class DataService {
    var users: seq<User>
    var serviceRequests: seq<ServiceRequest>

    /** The private constructor: empty lists, then initializeMockData with the
        clock reading `now`. */
    constructor (now: Timestamp)
      ensures users == MockUsers()
      ensures |serviceRequests| == 2 && serviceRequests[0] != serviceRequests[1]
      ensures fresh(serviceRequests[0]) && fresh(serviceRequests[1])
      ensures Snapshots(serviceRequests) == [MockRequestOne(now), MockRequestTwo(now)]
    {
      users := MockUsers();
      var first := MockRequest(RequestOne, "Toyota Corolla - ABC123", "Oil & Filters, General check-up",
                               Pending, now - 24 * 3600);
      var second := MockRequest(RequestTwo, "Honda Civic - XYZ789", "Brakes", InProgress, now - 5 * 3600);
      serviceRequests := [first, second];
    }

    /** authenticate: the first account whose username and password both equal
        the arguments; a matching account without a password throws. */
    function Authenticate(username: string, password: string): (r: Result<Option<User>>)
      reads this
      ensures r.Success? && r.value.Some? ==> r.value.value in users && HasCredentials(r.value.value, username, password)
      ensures r.Failure? ==> r.error == NullPointer
    {
      FindCredentials(users, username, password)
    }

    /** registerUser: false and no change when the username is taken;
        otherwise the account is appended and the answer is true. */
    method RegisterUser(user: User) returns (ok: bool)
      modifies this
      ensures ok == !UsernameTaken(old(users), user.username)
      ensures users == if ok then old(users) + [user] else old(users)
      ensures serviceRequests == old(serviceRequests)
      ensures DistinctUsernames(old(users)) ==> DistinctUsernames(users)
    {
      if exists i | 0 <= i < |users| :: users[i].username == user.username {
        return false;
      }
      if DistinctUsernames(users) {
        AppendFreeUsername(users, user);
      }
      users := users + [user];
      ok := true;
    }

    /** getAllUsers: a copy of the account list. */
    method GetAllUsers() returns (r: seq<User>)
      ensures r == users
    {
      r := users;
    }

    /** addServiceRequest: append, with no check of any kind. */
    method AddServiceRequest(request: ServiceRequest)
      modifies this
      ensures serviceRequests == old(serviceRequests) + [request]
      ensures users == old(users)
    {
      serviceRequests := serviceRequests + [request];
    }

    /** getAllServiceRequests: a copy of the request list, sharing its objects. */
    method GetAllServiceRequests() returns (r: seq<ServiceRequest>)
      ensures r == serviceRequests
    {
      r := serviceRequests;
    }

    /** getServiceRequestsByMechanic: the argument is ignored; every request. */
    method GetServiceRequestsByMechanic(mechanicUsername: string) returns (r: seq<ServiceRequest>)
      ensures r == serviceRequests
    {
      r := serviceRequests;
    }

    /** getServiceRequestsByClient: the requests whose client name is present
        and equal to the argument, in list order. */
    function GetServiceRequestsByClient(clientName: string): (r: seq<ServiceRequest>)
      reads this, set o | o in serviceRequests
      ensures forall o | o in r :: o in serviceRequests && o.clientName == Some(clientName)
      ensures forall o | o in serviceRequests && o.clientName == Some(clientName) :: o in r
    {
      RequestsWhere(serviceRequests, ForClient(clientName))
    }

    /** The client's requests keep list order. */
    lemma ByClientKeepsOrder(clientName: string)
      ensures IsSubsequence(GetServiceRequestsByClient(clientName), serviceRequests)
    {
      RequestsWhereIsFilter(serviceRequests, ForClient(clientName));
    }
  }
}
