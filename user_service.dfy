/** UserService: account lookups and registration on the users collection. */
module UserAccounts {
  import opened Common
  import opened Sequences
  import opened Model
  import opened Repository
  import opened Accounts

  /** No two stored accounts share a username or an email. */
  ghost predicate AccountsUnique(t: Table<User>)
  {
    forall k1, k2 | k1 in t.rows && k2 in t.rows && k1 != k2 ::
      t.rows[k1].username != t.rows[k2].username && t.rows[k1].email != t.rows[k2].email
  }

  /** Each stored account carries the id it is stored under. */
  ghost predicate IdsMatch(t: Table<User>)
  {
    forall k | k in t.rows :: t.rows[k].id == Some(k)
  }

  /** Creating an account under its own id, whose username and email are not
      on file, keeps ids matching and accounts unique. */
  lemma InsertKeepsAccounts(t: Table<User>, id: Id, u: User)
    requires Repository.Valid(t) && id !in t.rows && u.id == Some(id)
    requires forall k | k in t.rows :: t.rows[k].username != u.username && t.rows[k].email != u.email
    ensures IdsMatch(t) ==> IdsMatch(Insert(t, id, u))
    ensures AccountsUnique(t) ==> AccountsUnique(Insert(t, id, u))
  {
    assert Insert(t, id, u).rows == t.rows[id := u];
  }

  class UserService {
    /** The users collection. */
    var table: Table<User>

    /** The store is well formed and each account carries the id it is stored under. */
    ghost predicate Valid()
      reads this
    {
      Repository.Valid(table) && IdsMatch(table)
    }

    /** No two stored accounts share a username or an email. */
    ghost predicate UniqueAccounts()
      reads this
    {
      AccountsUnique(table)
    }

    constructor (t: Table<User>)
      requires Repository.Valid(t) && forall k | k in t.rows :: t.rows[k].id == Some(k)
      ensures Valid() && table == t
    {
      table := t;
    }

    /** authenticate: the accounts with this username, then the first whose
        password equals `password`. A null stored password throws, and the
        method rethrows it as "Authentication failed". */
    function Authenticate(username: string, password: string): (r: Result<Option<User>>)
      reads this
      requires Valid()
      ensures r.Success? && r.value.Some? ==> r.value.value in All(table) && HasCredentials(r.value.value, username, password)
      ensures r.Failure? ==> r.error == Runtime("Authentication failed", NullPointer)
    {
      var candidates := FindBy(table, Named(username));
      match FindCredentials(candidates, username, password)
      case Success(found) => Success(found)
      case Failure(cause) => Failure(Runtime("Authentication failed", cause))
    }

    /** Authentication finds the first stored account holding both credentials,
        unless an account with this username and no password comes first. */
    lemma AuthenticateIsFirstMatch(username: string, password: string)
      requires Valid()
      ensures Authenticate(username, password).Success? ==>
        Authenticate(username, password).value == FindFirst(All(table), Holding(username, password))
    {
      var candidates := FindBy(table, Named(username));
      FindCredentialsIsFindFirst(candidates, username, password);
      FindFirstIsHeadOfFilter(candidates, Holding(username, password));
      FindFirstIsHeadOfFilter(All(table), Holding(username, password));
      FilterNarrowed(All(table), Named(username), Holding(username, password));
    }

    /** findByUsername: the first account with this username. */
    function FindByUsername(username: string): (r: Option<User>)
      reads this
      requires Valid()
      ensures r.Some? ==> r.value in All(table) && r.value.username == username
    {
      FindOneBy(table, (u: User) => u.username == username)
    }

    /** findByEmail: the first account with this email. */
    function FindByEmail(email: string): (r: Option<User>)
      reads this
      requires Valid()
      ensures r.Some? ==> r.value in All(table) && r.value.email == email
    {
      FindOneBy(table, (u: User) => u.email == email)
    }

    /** getUsersByRole: the accounts whose role is exactly `role`. */
    function GetUsersByRole(role: string): (r: seq<User>)
      reads this
      requires Valid()
      ensures forall u :: u in r <==> u in All(table) && u.role == role
    {
      FindBy(table, (u: User) => u.role == role)
    }

    predicate UsernameExists(username: string)
      reads this
      requires Valid()
    {
      ExistsBy(table, (u: User) => u.username == username)
    }

    predicate EmailExists(email: string)
      reads this
      requires Valid()
    {
      ExistsBy(table, (u: User) => u.email == email)
    }

    /** usernameExists and emailExists agree with findByUsername and findByEmail. */
    lemma ExistsIffFindable(username: string, email: string)
      requires Valid()
      ensures UsernameExists(username) <==> FindByUsername(username).Some?
      ensures EmailExists(email) <==> FindByEmail(email).Some?
    {
      ExistsIffFound(table, (u: User) => u.username == username);
      ExistsIffFound(table, (u: User) => u.email == email);
    }

    /** registerUser: refuse a taken username, then a taken email; otherwise
        create the account under the id the backend assigns. */
    method RegisterUser(user: User, newId: Id) returns (r: Result<User>)
      requires Valid() && newId !in table.rows
      modifies this
      ensures Valid()
      ensures old(UsernameExists(user.username)) ==>
        r == Failure(IllegalArgument("Username already exists")) && table == old(table)
      ensures !old(UsernameExists(user.username)) && old(EmailExists(user.email)) ==>
        r == Failure(IllegalArgument("Email already exists")) && table == old(table)
      ensures !old(UsernameExists(user.username)) && !old(EmailExists(user.email)) ==>
        && r == Success(user.(id := Some(newId)))
        && table == Insert(old(table), newId, user.(id := Some(newId)))
      ensures old(UniqueAccounts()) ==> UniqueAccounts()
    {
      if UsernameExists(user.username) {
        return Failure(IllegalArgument("Username already exists"));
      }
      if EmailExists(user.email) {
        return Failure(IllegalArgument("Email already exists"));
      }
      var created := user.(id := Some(newId));
      NotFoundNowhere(table, (u: User) => u.username == user.username);
      NotFoundNowhere(table, (u: User) => u.email == user.email);
      InsertKeepsAccounts(table, newId, created);
      table := Insert(table, newId, created);
      r := Success(created);
    }
  }
}
