/** `authenticateUser` of lib/auth.js: a lookup in a fixed credential table. The
    random number behind the session id and the login time are parameters. */
module Auth {
  import opened Js

  datatype Credential = Credential(username: string, password: string, role: string)

  /** The built-in accounts. */
  const ValidCredentials: seq<Credential> := [
    Credential("admin", "admin123", "admin"),
    Credential("user", "user123", "user"),
    Credential("demo", "demo123", "user")
  ]

  const InvalidLogin: string := "Invalid username or password"

  datatype User = User(id: string, username: string, role: string, loginTime: string)

  datatype AuthResult = Authenticated(user: User) | Refused(error: string)

  predicate Matches(c: Credential, username: string, password: string) {
    c.username == username && c.password == password
  }

  /** `Array.prototype.find`: the position of the first entry matching both
      username and password. */
  function FindCredential(table: seq<Credential>, username: string, password: string): (r: Option<nat>)
    ensures r.Some? ==> r.value < |table| && Matches(table[r.value], username, password)
                        && forall j :: 0 <= j < r.value ==> !Matches(table[j], username, password)
    ensures r.None? ==> forall j :: 0 <= j < |table| ==> !Matches(table[j], username, password)
  {
    if table == [] then None
    else if Matches(table[0], username, password) then Some(0)
    else
      var rest := FindCredential(table[1..], username, password);
      if rest.Some? then Some(rest.value + 1) else None
  }

  /** `'user_' + Math.floor(random * 10000)` for a `Math.random()` value. */
  function SessionId(random: real): (id: string)
    requires 0.0 <= random < 1.0
    ensures |id| > 5 && id[..5] == "user_"
    ensures forall i :: 5 <= i < |id| ==> '0' <= id[i] <= '9'
    ensures DecimalValue(id[5..]) <= 9999
  {
    var n := (random * 10000.0).Floor;
    DecimalRoundTrip(n);
    var id := "user_" + NatToDecimal(n);
    assert id[5..] == NatToDecimal(n);
    id
  }

  /** The handler: success exactly when some entry matches; the user gets that
      entry's name and role. */
  function AuthenticateUser(username: string, password: string, random: real, loginTime: string): (res: AuthResult)
    requires 0.0 <= random < 1.0
    ensures res.Authenticated? <==>
              exists i :: 0 <= i < |ValidCredentials| && Matches(ValidCredentials[i], username, password)
    ensures res.Authenticated? ==>
              && res.user.username == username
              && (exists i :: 0 <= i < |ValidCredentials| && Matches(ValidCredentials[i], username, password)
                              && res.user.role == ValidCredentials[i].role)
              && res.user.loginTime == loginTime
              && res.user.id == SessionId(random)
    ensures res.Refused? ==> res.error == InvalidLogin
  {
    var found := FindCredential(ValidCredentials, username, password);
    if found.Some? then
      var c := ValidCredentials[found.value];
      Authenticated(User(SessionId(random), c.username, c.role, loginTime))
    else
      Refused(InvalidLogin)
  }

  /** Three accounts, with distinct names, and only `admin` has the admin role. */
  lemma CredentialTable()
    ensures |ValidCredentials| == 3
    ensures forall i, j :: 0 <= i < j < |ValidCredentials| ==> ValidCredentials[i].username != ValidCredentials[j].username
    ensures forall i :: 0 <= i < |ValidCredentials| ==>
              (ValidCredentials[i].role == "admin" <==> ValidCredentials[i].username == "admin")
  {
  }

  /** A signed-in user has the admin role exactly when they signed in as admin. */
  lemma AdminRoleOnlyForAdmin(username: string, password: string, random: real, loginTime: string)
    requires 0.0 <= random < 1.0
    requires AuthenticateUser(username, password, random, loginTime).Authenticated?
    ensures AuthenticateUser(username, password, random, loginTime).user.role == "admin" <==> username == "admin"
  {
    CredentialTable();
  }

  /** The right password is needed: a known name with another password is refused. */
  lemma WrongPasswordRefused(random: real, loginTime: string)
    requires 0.0 <= random < 1.0
    ensures AuthenticateUser("admin", "user123", random, loginTime) == Refused(InvalidLogin)
    ensures AuthenticateUser("admin", "admin123", random, loginTime).Authenticated?
  {
    assert Matches(ValidCredentials[0], "admin", "admin123");
  }
}
