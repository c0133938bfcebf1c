/** AuthService: the fixed demo logins, one per role. */
module DemoLogins {
  import opened Common
  import opened Model

  /** The user AuthService builds for a role: no id and no password, the role
      doubling as the username. */
  function DemoUser(role: string, fullName: string): User
  {
    User(None, role, None, role, Some(fullName), role + "@example.com")
  }

  /** authenticate(username, password): one of three exact pairs, or null. */
  function Authenticate(username: string, password: string): (r: Option<User>)
    ensures r.Some? <==>
      (username, password) in {("client", "client123"), ("mechanic", "mechanic123"), ("admin", "admin123")}
    ensures r.Some? ==> r.value.username == username && r.value.role == username
    ensures r.Some? ==> r.value.id == None && r.value.password == None
  {
    if username == "client" && password == "client123" then Some(DemoUser("client", "Client User"))
    else if username == "mechanic" && password == "mechanic123" then Some(DemoUser("mechanic", "Mechanic User"))
    else if username == "admin" && password == "admin123" then Some(DemoUser("admin", "Admin User"))
    else None
  }

  /** A password opens only its own account, and matching is case-sensitive:
      each accepted password is the username followed by "123". */
  lemma PasswordBelongsToItsUser(username: string, password: string)
    requires Authenticate(username, password).Some?
    ensures password == username + "123"
    ensures Authenticate(username, password).value.email == username + "@example.com"
  {
  }
}
