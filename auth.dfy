/**
 * The control tower's sign-in: the credentials provider's `authorize`,
 * the `jwt` and `session` callbacks that carry the user's role from the
 * stored document into the token and then into the session, and the
 * configured sign-in page. NextAuth's own token and cookie handling is
 * not modelled; a sign-in runs `authorize`, then `jwt` with the user.
 */
module Auth {
  import opened Wrappers
  import opened UserModel

  /** The configured sign-in page. */
  const SIGN_IN_PAGE := "/login"

  datatype Credentials = Credentials(email: string, password: string)

  /** What `authorize` hands NextAuth: id, email, name and role, and no password. */
  datatype Identity = Identity(id: string, email: string, name: string, role: string)

  /** `User.findOne({email})`: the first document with that email. */
  function FindByEmail(users: seq<UserDoc>, email: string): (r: Option<UserDoc>)
    ensures r.Some? ==> r.value in users && r.value.email == email
    ensures r.None? <==> forall u :: u in users ==> u.email != email
    ensures r.Some? ==> exists i :: (0 <= i < |users| && users[i] == r.value
      && forall j :: 0 <= j < i ==> users[j].email != email)
  {
    if users == [] then None
    else if users[0].email == email then Some(users[0])
    else
      var rest := FindByEmail(users[1..], email);
      assert rest.Some? ==> exists i :: (0 <= i < |users| && users[i] == rest.value
        && forall j :: 0 <= j < i ==> users[j].email != email) by {
        if rest.Some? {
          var k :| 0 <= k < |users[1..]| && users[1..][k] == rest.value
            && forall j :: 0 <= j < k ==> users[1..][j].email != email;
          forall j | 0 <= j < k + 1 ensures users[j].email != email {
            if j > 0 { assert users[j] == users[1..][j - 1]; }
          }
          assert users[k + 1] == rest.value;
        }
      }
      rest
  }

  /** `authorize`: look the user up by email, compare the password with the stored hash. */
  function Authorize(users: seq<UserDoc>, bcrypt: Bcrypt, creds: Credentials): Option<Identity> {
    var user := FindByEmail(users, creds.email);
    if user.None? then None
    else if !bcrypt.compare(creds.password, user.value.password) then None
    else Some(Identity(IdToString(user.value.id), user.value.email, user.value.name, RoleName(user.value.role)))
  }

  /**
   * `authorize` returns null when no user has the email or the password
   * does not match that user's hash, and otherwise exactly that user's id
   * (as text), email, name and role.
   */
  lemma AuthorizeRules(users: seq<UserDoc>, bcrypt: Bcrypt, creds: Credentials)
    ensures (forall u :: u in users ==> u.email != creds.email) ==> Authorize(users, bcrypt, creds) == None
    ensures Authorize(users, bcrypt, creds).Some? <==>
      exists u :: u in users && u.email == creds.email && u == FindByEmail(users, creds.email).value
        && bcrypt.compare(creds.password, u.password)
    ensures Authorize(users, bcrypt, creds).Some? ==>
      var u := FindByEmail(users, creds.email).value;
      Authorize(users, bcrypt, creds).value == Identity(IdToString(u.id), u.email, u.name, RoleName(u.role))
  {
  }

  /** Two collections that agree on ids, emails and hashes, whatever the names and roles. */
  predicate SameLogins(a: seq<UserDoc>, b: seq<UserDoc>) {
    |a| == |b| && forall i :: 0 <= i < |a| ==> a[i].id == b[i].id && a[i].email == b[i].email && a[i].password == b[i].password
  }

  /**
   * Lookup is by email only: names and roles play no part in whether, or
   * as whom, the credentials are accepted.
   */
  lemma {:induction false} NamesAndRolesIgnored(a: seq<UserDoc>, b: seq<UserDoc>, bcrypt: Bcrypt, creds: Credentials)
    requires SameLogins(a, b)
    ensures Authorize(a, bcrypt, creds).Some? <==> Authorize(b, bcrypt, creds).Some?
    ensures Authorize(a, bcrypt, creds).Some? ==> Authorize(a, bcrypt, creds).value.id == Authorize(b, bcrypt, creds).value.id
  {
    if a != [] && a[0].email != creds.email {
      assert SameLogins(a[1..], b[1..]) by {
        assert forall i :: 0 <= i < |a[1..]| ==> a[1..][i] == a[i + 1] && b[1..][i] == b[i + 1];
      }
      NamesAndRolesIgnored(a[1..], b[1..], bcrypt, creds);
    }
  }

  /** The JWT's role claim. */
  class Token {
    var role: Option<string>

    constructor(role: Option<string>)
      ensures this.role == role
    {
      this.role := role;
    }

    /** The `jwt` callback: a sign-in passes the user, whose role is written into the token. */
    method Jwt(user: Option<Identity>)
      modifies this`role
      ensures role == JwtRole(old(role), user)
    {
      if user.Some? {
        role := Some(user.value.role);
      }
    }
  }

  /** The token's role after the `jwt` callback. */
  function JwtRole(role: Option<string>, user: Option<Identity>): Option<string> {
    if user.Some? then Some(user.value.role) else role
  }

  datatype SessionUser = SessionUser(name: string, email: string, role: Option<string>)

  /** The session object handed to the `session` callback. */
  class Session {
    var user: Option<SessionUser>

    constructor(user: Option<SessionUser>)
      ensures this.user == user
    {
      this.user := user;
    }

    /** The `session` callback: copies the token's role onto `session.user`, when there is one. */
    method Refresh(token: Token)
      modifies this`user
      ensures user == SessionAfter(old(user), token.role)
    {
      if user.Some? {
        user := Some(user.value.(role := token.role));
      }
    }
  }

  /** `session.user` after the `session` callback. */
  function SessionAfter(user: Option<SessionUser>, tokenRole: Option<string>): Option<SessionUser> {
    if user.Some? then Some(user.value.(role := tokenRole)) else None
  }

  /**
   * The callbacks: with a user the token's role becomes the user's role;
   * without one the token keeps its role, so later requests preserve it;
   * the session copies the token's role when it has a user and is left
   * as it is otherwise.
   */
  lemma CallbackRules(role: Option<string>, ident: Identity, user: Option<SessionUser>)
    ensures JwtRole(role, Some(ident)) == Some(ident.role)
    ensures JwtRole(role, None) == role
    ensures JwtRole(JwtRole(role, Some(ident)), None) == Some(ident.role)
    ensures user.Some? ==>
      && SessionAfter(user, role).value.role == role
      && SessionAfter(user, role).value.name == user.value.name
      && SessionAfter(user, role).value.email == user.value.email
    ensures user.None? ==> SessionAfter(user, role) == None
  {
  }

  /**
   * A signed-in user's session carries the role stored in their document:
   * authorize, then the jwt callback with that user, then any number of
   * token refreshes without a user, then the session callback.
   */
  lemma SignedInRoleIsStored(users: seq<UserDoc>, bcrypt: Bcrypt, creds: Credentials, role: Option<string>, refreshes: nat, user: SessionUser)
    requires Authorize(users, bcrypt, creds).Some?
    ensures var stored := FindByEmail(users, creds.email).value;
      SessionAfter(Some(user), Refreshed(JwtRole(role, Authorize(users, bcrypt, creds)), refreshes)).value.role == Some(RoleName(stored.role))
  {
    var ident := Authorize(users, bcrypt, creds).value;
    RefreshKeepsRole(JwtRole(role, Some(ident)), refreshes);
  }

  /** The token after `n` further requests, each running `jwt` without a user. */
  function Refreshed(role: Option<string>, n: nat): Option<string> {
    if n == 0 then role else JwtRole(Refreshed(role, n - 1), None)
  }

  lemma {:induction false} RefreshKeepsRole(role: Option<string>, n: nat)
    ensures Refreshed(role, n) == role
  {
    if n > 0 {
      RefreshKeepsRole(role, n - 1);
    }
  }

  /** What `signIn("credentials", {redirect: false})` resolves to: an error exactly when authorize refuses. */
  datatype SignInResponse = SignInResponse(error: Option<string>)

  const CREDENTIALS_SIGNIN := "CredentialsSignin"

  function SignIn(users: seq<UserDoc>, bcrypt: Bcrypt, creds: Credentials): (r: SignInResponse)
    ensures r.error.Some? <==> Authorize(users, bcrypt, creds).None?
  {
    if Authorize(users, bcrypt, creds).None? then SignInResponse(Some(CREDENTIALS_SIGNIN))
    else SignInResponse(None)
  }
}
