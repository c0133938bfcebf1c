/** The credential check both account stores perform: walk the accounts in
    order and take the first whose username and password both match. */
module Accounts {
  import opened Common
  import opened Sequences
  import opened Model

  /** `u` has exactly this username and this stored password. */
  predicate HasCredentials(u: User, username: string, password: string)
  {
    u.username == username && u.password == Some(password)
  }

  /** The condition of holding these credentials, as a stream filter. */
  function Holding(username: string, password: string): User -> bool
  {
    (u: User) => HasCredentials(u, username, password)
  }

  /** The condition of having this username, as the backend's equality filter. */
  function Named(username: string): User -> bool
  {
    (u: User) => u.username == username
  }

  /** The first account with this username and password, compared exactly.
      Comparing against a missing stored password dereferences null: the walk
      stops with a NullPointerException at the first account with this
      username and no password. */
  function FindCredentials(users: seq<User>, username: string, password: string): (r: Result<Option<User>>)
    ensures r.Success? && r.value.Some? ==> r.value.value in users && HasCredentials(r.value.value, username, password)
    ensures r.Failure? ==> r.error == NullPointer
    decreases |users|
  {
    if users == [] then Success(None)
    else if users[0].username != username then FindCredentials(users[1..], username, password)
    else if users[0].password.None? then Failure(NullPointer)
    else if users[0].password.value == password then Success(Some(users[0]))
    else FindCredentials(users[1..], username, password)
  }

  /** An account with this username and no password stops the walk at `i`:
      no account before it holds the credentials. */
  ghost predicate StopsAt(users: seq<User>, i: int, username: string, password: string)
    requires 0 <= i < |users|
  {
    && users[i].username == username && users[i].password == None
    && forall j | 0 <= j < i :: !HasCredentials(users[j], username, password)
  }

  /** The walk fails exactly when it is stopped somewhere. */
  lemma {:induction false} FindCredentialsFails(users: seq<User>, username: string, password: string)
    ensures FindCredentials(users, username, password).Failure? <==>
      exists i | 0 <= i < |users| :: StopsAt(users, i, username, password)
    decreases |users|
  {
    if users != [] {
      var u, rest := users[0], users[1..];
      FindCredentialsFails(rest, username, password);
      if u.username == username && u.password.None? {
        assert StopsAt(users, 0, username, password);
      } else if HasCredentials(u, username, password) {
        forall i | 0 <= i < |users| ensures !StopsAt(users, i, username, password) {
          if i != 0 {
            assert HasCredentials(users[0], username, password);
          }
        }
      } else {
        forall i | 0 <= i < |rest| ensures StopsAt(rest, i, username, password) <==> StopsAt(users, i + 1, username, password) {
          assert users[i + 1] == rest[i];
          assert forall j | 0 < j < i + 1 :: users[j] == rest[j - 1];
        }
        if exists i | 0 <= i < |users| :: StopsAt(users, i, username, password) {
          var i :| 0 <= i < |users| && StopsAt(users, i, username, password);
          assert i != 0;
          assert StopsAt(rest, i - 1, username, password);
        }
      }
    }
  }

  /** A walk that does not fail answers as findFirst over the accounts holding the credentials. */
  lemma {:induction false} FindCredentialsFindsFirst(users: seq<User>, username: string, password: string)
    ensures FindCredentials(users, username, password).Success? ==>
      FindCredentials(users, username, password).value == FindFirst(users, Holding(username, password))
    decreases |users|
  {
    if users != [] {
      FindCredentialsFindsFirst(users[1..], username, password);
      var holding := Holding(username, password);
      assert holding(users[0]) == HasCredentials(users[0], username, password);
      assert FindFirst(users, holding) == if holding(users[0]) then Some(users[0]) else FindFirst(users[1..], holding);
    }
  }

  /** The walk fails exactly when an account with this username and no
      password comes before any match; otherwise it is findFirst. */
  lemma FindCredentialsIsFindFirst(users: seq<User>, username: string, password: string)
    ensures FindCredentials(users, username, password).Failure? <==>
      exists i | 0 <= i < |users| ::
        && users[i].username == username && users[i].password == None
        && forall j | 0 <= j < i :: !HasCredentials(users[j], username, password)
    ensures FindCredentials(users, username, password).Success? ==>
      FindCredentials(users, username, password).value == FindFirst(users, Holding(username, password))
  {
    FindCredentialsFails(users, username, password);
    FindCredentialsFindsFirst(users, username, password);
  }
}
