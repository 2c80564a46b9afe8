/** Properties that span more than one request: each method restores a
    session from an arbitrary stored state, runs the handlers in order and
    states what the browser sees. */
module Flows {
  import opened Php
  import opened Helpers
  import opened Platform
  import Registration
  import Authentication

  /** Registering and then logging in with the same form succeeds: the stored
      password is hash(sanitize(p)) and login verifies sanitize(p) against it.
      The login redirects before the page renders, so the success message the
      registration left is still pending. */
  method RegisterThenLogin(stored: map<string, string>, uid: Option<int>, post: Form,
                           users: seq<User>, p: Primitives, newId: int)
    returns (registered: Outcome, loggedIn: Outcome, sessionUser: Option<int>, pending: Option<string>)
    requires Sound(p)
    requires !IsEmpty(post, "name") && Truthy(Sanitize(post["name"]))
    requires !IsEmpty(post, "email") && Truthy(Sanitize(post["email"]))
    requires p.isValidEmail(Sanitize(post["email"]))
    requires Registration.PasswordAccepted(post)
    requires forall u :: u in users ==> u.email != Sanitize(post["email"])
    ensures registered == Redirect("login.php")
    ensures loggedIn == Redirect("dashboard.php")
    ensures sessionUser == Some(newId)
    ensures pending == Some(Registration.Registered)
  {
    var session := new Session.Restore(stored, uid);
    var insert;
    registered, insert := Registration.Register(session, true, post, p, true);
    var row := insert.value;
    // the store appends the row and assigns it its id
    var created := User(newId, row.name, row.email, row.password);
    FetchAppended(users, created);
    loggedIn := Authentication.Login(session, true, post, users + [created], p, true);
    sessionUser := session.userId;
    pending := Lookup(session.flash, "success");
  }

  /** As written, register.php inserts a user whose email failed validation
      and reports success. That account can never log in: any login form
      whose sanitised email is the stored one is rejected by validation
      before any lookup, whatever the table holds and execute returns. */
  method InvalidEmailReachesInsert(stored: map<string, string>, post: Form, login: Form, users: seq<User>,
                                   p: Primitives, newId: int, executeOk: bool)
    returns (registered: Outcome, insert: Option<NewUser>, flashed: Option<string>,
             loggedIn: Outcome, sessionUser: Option<int>)
    requires Sound(p)
    requires !IsEmpty(post, "name") && Truthy(Sanitize(post["name"]))
    requires !IsEmpty(post, "email") && Truthy(Sanitize(post["email"]))
    requires !p.isValidEmail(Sanitize(post["email"]))
    requires Registration.PasswordAccepted(post)
    requires !IsEmpty(login, "email") && Sanitize(login["email"]) == Sanitize(post["email"])
    ensures registered == Redirect("login.php")
    ensures insert.Some? && !p.isValidEmail(insert.value.email)
    ensures flashed == Some(Registration.Registered)
    ensures loggedIn.Render? && EmailField in loggedIn.errors
    ensures loggedIn.errors[EmailField] == Authentication.EmailInvalid
    ensures sessionUser == None
  {
    var session := new Session.Restore(stored, None);
    registered, insert := Registration.Register(session, true, post, p, true);
    flashed := Lookup(session.flash, "success");
    var row := insert.value;
    var created := User(newId, row.name, row.email, row.password);
    loggedIn := Authentication.Login(session, true, login, users + [created], p, executeOk);
    sessionUser := session.userId;
  }

  /** With the corrected guard every account that registration creates can
      log in with the form that created it (given a fresh email). */
  method ValidatedRegistrationCanLogIn(stored: map<string, string>, post: Form, users: seq<User>,
                                       p: Primitives, newId: int)
    returns (registered: Outcome, insert: Option<NewUser>, loggedIn: Outcome, sessionUser: Option<int>)
    requires Sound(p)
    requires !IsEmpty(post, "email") ==> forall u :: u in users ==> u.email != Sanitize(post["email"])
    ensures registered.Redirect? <==> insert.Some?
    ensures insert.Some? ==> loggedIn == Redirect("dashboard.php") && sessionUser == Some(newId)
  {
    var session := new Session.Restore(stored, None);
    registered, insert := Registration.RegisterValidated(session, true, post, p, true);
    loggedIn := Render(map[], None);
    sessionUser := None;
    if insert.Some? {
      var row := insert.value;
      var created := User(newId, row.name, row.email, row.password);
      FetchAppended(users, created);
      loggedIn := Authentication.Login(session, true, post, users + [created], p, true);
      sessionUser := session.userId;
    }
  }

  /** A name of white space only passes the empty() check, so it gets no
      error message, but it sanitises to "" and no user is inserted: the form
      comes back without saying why. */
  method BlankNameSilentlyRejected(stored: map<string, string>, post: Form, p: Primitives, executeOk: bool)
    returns (outcome: Outcome, insert: Option<NewUser>)
    requires "name" in post && post["name"] != []
    requires forall k :: 0 <= k < |post["name"]| ==> IsTrimSpace(post["name"][k])
    ensures insert == None && outcome.Render? && NameField !in outcome.errors
  {
    var name := post["name"];
    assert IsTrimSpace(name[0]);
    assert !IsEmpty(post, "name") by { assert name != "0" by { assert name[0] != '0'; } }
    SanitizeBlank(name);
    assert !Registration.AttemptsInsert(post, p);
    var session := new Session.Restore(stored, None);
    outcome, insert := Registration.Register(session, true, post, p, executeOk);
  }

  /** The two handlers, written separately with their own literals, validate
      the email and the password the same way and with the same messages:
      the bags Registration.RegistrationErrors and Authentication.FieldErrors
      agree on both keys. Registration hashes exactly the value login later
      passes to password_verify(). */
  method ValidationRulesAgree(post: Form, p: Primitives)
    returns (registerErrors: ErrorBag, loginErrors: ErrorBag, stored: string, checked: string)
    ensures (EmailField in registerErrors) == (EmailField in loginErrors)
    ensures EmailField in loginErrors ==> registerErrors[EmailField] == loginErrors[EmailField]
    ensures (PasswordField in registerErrors) == (PasswordField in loginErrors)
    ensures PasswordField in loginErrors ==> registerErrors[PasswordField] == loginErrors[PasswordField]
    ensures PasswordField !in loginErrors ==> stored == p.passwordHash(checked)
  {
    var name, email;
    registerErrors, name, email, stored := Registration.ValidateRegistration(post, p);
    var email';
    loginErrors, email', checked := Authentication.ValidateLogin(post, p);
  }

  /** Enumeration resistance: an unknown email and a wrong password for a
      known one produce the very same page and leave the session alone. */
  method UnknownEmailLikeWrongPassword(stored: map<string, string>, uid: Option<int>, post: Form,
                                       unknown: seq<User>, known: seq<User>, p: Primitives)
    returns (a: Outcome, b: Outcome, aUser: Option<int>, bUser: Option<int>)
    requires Authentication.FieldsAccepted(post, p)
    requires Fetch(unknown, Sanitize(post["email"])).None?
    requires Fetch(known, Sanitize(post["email"])).Some?
    requires !p.passwordVerify(Sanitize(post["password"]), Fetch(known, Sanitize(post["email"])).value.password)
    ensures a == b && a.Render? && a.errors == map[AuthError := Authentication.InvalidCredentials]
    ensures aUser == uid && bUser == uid
  {
    var first := new Session.Restore(stored, uid);
    a := Authentication.Login(first, true, post, unknown, p, true);
    var second := new Session.Restore(stored, uid);
    b := Authentication.Login(second, true, post, known, p, true);
    aUser, bUser := first.userId, second.userId;
  }

  /** A validation error means no lookup happens: the page does not depend on
      the users table or on the database at all, no auth_error is set, and
      no one is logged in. */
  method ValidationErrorSkipsLookup(stored: map<string, string>, uid: Option<int>, post: Form,
                                    users1: seq<User>, ok1: bool, users2: seq<User>, ok2: bool, p: Primitives)
    returns (a: Outcome, b: Outcome, aUser: Option<int>, bUser: Option<int>)
    requires !Authentication.FieldsAccepted(post, p)
    ensures a == b && a.Render? && AuthError !in a.errors
    ensures aUser == uid && bUser == uid
  {
    var first := new Session.Restore(stored, uid);
    a := Authentication.Login(first, true, post, users1, p, ok1);
    var second := new Session.Restore(stored, uid);
    b := Authentication.Login(second, true, post, users2, p, ok2);
    aUser, bUser := first.userId, second.userId;
  }
}
