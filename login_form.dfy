/**
 * The login form: a role tab, email and password fields and a loading
 * flag, a submit handler that asks for a credentials sign-in without a
 * redirect, and the handling of its result: an alert on error, otherwise
 * a navigation chosen by the tab that was selected when the form was
 * submitted (not by the stored role) and a refresh. The router, alerts and refreshes are recorded as logs.
 */
module LoginForm {
  import opened Wrappers
  import opened Text
  import opened UserModel
  import opened Auth
  import opened AccessGuard

  const ALERT := "Access Denied: Invalid Credentials"

  /** The tab selected when the form first renders. */
  const INITIAL_ROLE := "admin"

  /** `signIn("credentials", {email, password, redirect: false})`. */
  datatype SignInRequest = SignInRequest(provider: string, email: string, password: string, redirect: bool)

  /**
   * Whether a submission reaches the handler and what it sends: the
   * button is disabled while loading, and the browser refuses to submit
   * while a required field is empty.
   */
  function Submission(loading: bool, email: string, password: string): (r: Option<SignInRequest>)
    ensures r.Some? <==> !loading && email != "" && password != ""
    ensures r.Some? ==>
      && r.value.provider == "credentials" && !r.value.redirect
      && r.value.email == email && r.value.password == password
  {
    if loading || email == "" || password == "" then None
    else Some(SignInRequest("credentials", email, password, false))
  }

  /** `result?.error`: no result, or an empty error, is not a failure. */
  predicate Failed(result: Option<SignInResponse>) {
    result.Some? && result.value.error.Some? && result.value.error.value != ""
  }

  /** Where the form navigates once the sign-in resolves: nowhere on error, else by tab. */
  function Destination(tab: string, result: Option<SignInResponse>): Option<string> {
    if Failed(result) then None
    else if tab == "admin" then Some("/admin")
    else Some("/")
  }

  /** The submit button's text. */
  function ButtonLabel(loading: bool, tab: string): string {
    if loading then "Authenticating..." else "Login as " + tab
  }

  /**
   * The label names the selected tab: two tabs give two labels, and the
   * loading text is none of them.
   */
  lemma ButtonLabelShowsTab(tab: string, other: string)
    ensures ButtonLabel(false, tab) == ButtonLabel(false, other) ==> tab == other
    ensures ButtonLabel(true, tab) != ButtonLabel(false, other)
  {
    var prefix := "Login as ";
    if ButtonLabel(false, tab) == ButtonLabel(false, other) {
      assert tab == (prefix + tab)[|prefix|..];
      assert other == (prefix + other)[|prefix|..];
    }
    assert ButtonLabel(true, tab)[0] == 'A';
    assert ButtonLabel(false, other)[0] == 'L';
  }

  /**
   * A failed sign-in goes nowhere; a successful one goes to "/admin" when
   * the selected tab is "admin" and to "/" for either other tab.
   */
  lemma DestinationRules(tab: string, result: Option<SignInResponse>)
    requires tab in ROLES
    ensures Destination(tab, result).None? <==> Failed(result)
    ensures !Failed(result) && tab == "admin" ==> Destination(tab, result) == Some("/admin")
    ensures !Failed(result) && tab != "admin" ==> Destination(tab, result) == Some("/") && tab in ["investigator", "viewer"]
  {
  }

  /**
   * End to end: credentials that authorize lead, by the tab alone, to
   * "/admin" or "/"; whoever picked the "admin" tab without the stored
   * role "admin" is then turned back to "/" by the middleware, while the
   * other tabs always land; credentials that do not authorize navigate
   * nowhere.
   */
  lemma TabDecidesLanding(users: seq<UserDoc>, bcrypt: Bcrypt, creds: Credentials, tab: string,
                          tokenRole: Option<string>, user: SessionUser)
    requires tab in ROLES
    ensures Authorize(users, bcrypt, creds).None? ==> Destination(tab, Some(SignIn(users, bcrypt, creds))) == None
    ensures Authorize(users, bcrypt, creds).Some? ==>
      var stored := FindByEmail(users, creds.email).value;
      var session := Some(AuthSession(SessionAfter(Some(user), JwtRole(tokenRole, Authorize(users, bcrypt, creds)))));
      var landing := Destination(tab, Some(SignIn(users, bcrypt, creds)));
      && landing == Some(if tab == "admin" then "/admin" else "/")
      && (Route(landing.value, session) == Next <==> tab != "admin" || stored.role == Admin)
      && (tab == "admin" && stored.role != Admin ==> Route(landing.value, session) == Redirect("/"))
  {
    if Authorize(users, bcrypt, creds).Some? {
      var landing := Destination(tab, Some(SignIn(users, bcrypt, creds)));
      var session := Some(AuthSession(SessionAfter(Some(user), JwtRole(tokenRole, Authorize(users, bcrypt, creds)))));
      if tab == "admin" {
        assert StartsWith(landing.value, "/admin");
        AdminPathsMatched(landing.value, session);
      } else {
        assert !StartsWith(landing.value, "/admin");
        assert Matched(landing.value) by {
          forall p | p in EXCLUDED
            ensures !PatternPrefix(p, landing.value[1..])
          {
          }
        }
      }
    }
  }

  /** The form's React state, and the logs of what it asks the browser to do. */
  class LoginFormState {
    var role: string
    var email: string
    var password: string
    var loading: bool
    var alerts: seq<string>
    var navigations: seq<string>
    var refreshes: nat
    /** The tab the pending submit's handler closed over; the tabs stay clickable while it waits. */
    var submittedRole: string

    constructor()
      ensures role == INITIAL_ROLE && email == "" && password == "" && !loading
      ensures submittedRole == INITIAL_ROLE
      ensures alerts == [] && navigations == [] && refreshes == 0
    {
      role := INITIAL_ROLE;
      email := "";
      password := "";
      loading := false;
      alerts := [];
      navigations := [];
      refreshes := 0;
      submittedRole := INITIAL_ROLE;
    }

    /** A click on the i-th role tab. */
    method SelectRole(i: nat)
      requires i < |ROLES|
      modifies this`role
      ensures role == ROLES[i]
    {
      role := ROLES[i];
    }

    method SetEmail(value: string)
      modifies this`email
      ensures email == value
    {
      email := value;
    }

    method SetPassword(value: string)
      modifies this`password
      ensures password == value
    {
      password := value;
    }

    /** `disabled={loading}`. */
    function SubmitDisabled(): bool
      reads this
    {
      loading
    }

    /**
     * The submit: when the form lets it through, sets `loading`, returns the
     * sign-in request and fixes the tab its handler will navigate by.
     */
    method Submit() returns (request: Option<SignInRequest>)
      modifies this`loading, this`submittedRole
      ensures request == Submission(old(loading), email, password)
      ensures loading == (old(loading) || request.Some?)
      ensures submittedRole == if request.Some? then role else old(submittedRole)
    {
      request := Submission(loading, email, password);
      if request.Some? {
        loading := true;
        submittedRole := role;
      }
    }

    /**
     * The awaited result: on error an alert and `loading` back to false;
     * otherwise one navigation to the destination of the tab selected at
     * submit time, whatever tab is selected now, and a refresh, with
     * `loading` left as it was, so the button stays disabled.
     */
    method Resolve(result: Option<SignInResponse>)
      modifies this`loading, this`alerts, this`navigations, this`refreshes
      ensures Failed(result) ==>
        && alerts == old(alerts) + [ALERT] && !loading
        && navigations == old(navigations) && refreshes == old(refreshes)
      ensures !Failed(result) ==>
        && alerts == old(alerts) && loading == old(loading)
        && navigations == old(navigations) + [Destination(submittedRole, result).value] && refreshes == old(refreshes) + 1
    {
      if Failed(result) {
        alerts := alerts + [ALERT];
        loading := false;
        return;
      }
      if submittedRole == "admin" {
        navigations := navigations + ["/admin"];
      } else {
        navigations := navigations + ["/"];
      }
      refreshes := refreshes + 1;
    }
  }
}
