/** Model of login.php: the POST handling (lines 24-67) and the flash read
    while the page renders (line 102). */
module Authentication {
  import opened Php
  import opened Helpers
  import opened Platform

  // login.php writes its own message literals; they happen to equal
  // register.php's, which Flows.ValidationRulesAgree shows.
  const EmailRequired: string := "Please provide an email address"
  const EmailInvalid: string := "Please provide a valid email address"
  const PasswordRequired: string := "Please provide a password"
  const PasswordTooShort: string := "Password must be at least 8 characters"
  const InvalidCredentials: string := "Invalid email or password"
  const StoreError: string := "An error occurred. Please try again"

  /** The minimum number of bytes strlen() must report for a password (line 40). */
  const MinPasswordLength: nat := 8

  /** The password field is present, non-empty and long enough, checked on
      the raw submitted value (lines 38-40). */
  predicate PasswordAccepted(post: Form) {
    !IsEmpty(post, "password") && |post["password"]| >= MinPasswordLength
  }

  /** Both fields pass validation. */
  predicate FieldsAccepted(post: Form, p: Primitives) {
    !IsEmpty(post, "email") && p.isValidEmail(Sanitize(post["email"])) && PasswordAccepted(post)
  }

  /** The error bag lines 28-44 leave for this form, key by key. */
  function FieldErrors(post: Form, p: Primitives): (errors: ErrorBag)
    ensures errors == map[] <==> FieldsAccepted(post, p)
    ensures errors.Keys <= {EmailField, PasswordField}
    ensures EmailField in errors <==> IsEmpty(post, "email") || !p.isValidEmail(Sanitize(post["email"]))
    ensures EmailField in errors ==>
      errors[EmailField] == if IsEmpty(post, "email") then EmailRequired else EmailInvalid
    ensures PasswordField in errors <==> !PasswordAccepted(post)
    ensures PasswordField in errors ==>
      errors[PasswordField] ==
        if IsEmpty(post, "password") then PasswordRequired else PasswordTooShort
  {
    var email := if IsEmpty(post, "email") then map[EmailField := EmailRequired]
                 else if !p.isValidEmail(Sanitize(post["email"])) then map[EmailField := EmailInvalid]
                 else map[];
    var errors := if IsEmpty(post, "password") then email[PasswordField := PasswordRequired]
                  else if |post["password"]| < MinPasswordLength then email[PasswordField := PasswordTooShort]
                  else email;
    assert !FieldsAccepted(post, p) ==> EmailField in errors || PasswordField in errors;
    errors
  }

  /** Lines 28-44: the email and password checks, each adding at most one
      message to the error bag; $email and $password hold the sanitised
      values once their checks pass. */
  method ValidateLogin(post: Form, p: Primitives)
    returns (errors: ErrorBag, email: string, password: string)
    ensures errors == FieldErrors(post, p)
    ensures email == if IsEmpty(post, "email") then "" else Sanitize(post["email"])
    ensures password == if PasswordAccepted(post) then Sanitize(post["password"]) else ""
  {
    errors := map[];
    email, password := "", "";

    if IsEmpty(post, "email") {
      errors := map[EmailField := EmailRequired];
    } else {
      email := Sanitize(post["email"]);
      if !p.isValidEmail(email) {
        errors := map[EmailField := EmailInvalid];
      }
    }
    assert errors == if IsEmpty(post, "email") then map[EmailField := EmailRequired]
                     else if !p.isValidEmail(Sanitize(post["email"])) then map[EmailField := EmailInvalid]
                     else map[];

    if IsEmpty(post, "password") {
      errors := errors[PasswordField := PasswordRequired];
    } else if |post["password"]| < MinPasswordLength {
      errors := errors[PasswordField := PasswordTooShort];
    } else {
      password := Sanitize(post["password"]);
    }
  }

  /** The credentials match: the first row for the sanitised email exists and
      its hash verifies against the sanitised password. */
  predicate Matches(post: Form, users: seq<User>, p: Primitives)
    requires FieldsAccepted(post, p)
  {
    var user := Fetch(users, Sanitize(post["email"]));
    user.Some? && p.passwordVerify(Sanitize(post["password"]), user.value.password)
  }

  /** Lines 53-65, reached only when validation passed: the lookup by exact
      email, then password_verify(). An unknown email and a wrong password
      end the same way. `executeOk` is what $stmt->execute() returns. */
  method Authenticate(users: seq<User>, email: string, password: string, p: Primitives, executeOk: bool)
    returns (user: Option<User>, error: Option<string>)
    ensures user.Some? <==>
      executeOk && Fetch(users, email).Some? && p.passwordVerify(password, Fetch(users, email).value.password)
    ensures user.Some? ==> user == Fetch(users, email) && error == None
    ensures user.None? ==> error == Some(if executeOk then InvalidCredentials else StoreError)
  {
    user, error := None, None;
    if executeOk {
      var found := Fetch(users, email);
      if found.Some? && p.passwordVerify(password, found.value.password) {
        user := found;
      } else {
        error := Some(InvalidCredentials);
      }
    } else {
      error := Some(StoreError);
    }
  }

  /** The POST block (lines 24-67). When the login succeeds `loggedIn` is
      true and the session holds the user's id; the handler then sends the
      redirect and exits (lines 58-59). Otherwise `errors` is the bag the page
      renders and the session is unchanged. */
  method HandlePost(session: Session, post: Form, users: seq<User>, p: Primitives, executeOk: bool)
    returns (errors: ErrorBag, loggedIn: bool)
    modifies session
    ensures session.flash == old(session.flash)
    ensures loggedIn <==> FieldsAccepted(post, p) && executeOk && Matches(post, users, p)
    ensures loggedIn ==> session.userId == Some(Fetch(users, Sanitize(post["email"])).value.id)
    ensures !loggedIn ==> session.userId == old(session.userId)
    ensures !loggedIn && FieldsAccepted(post, p) ==>
      errors == map[AuthError := if executeOk then InvalidCredentials else StoreError]
    ensures !FieldsAccepted(post, p) ==> errors == FieldErrors(post, p)
  {
    var email, password;
    errors, email, password := ValidateLogin(post, p);
    loggedIn := false;
    if errors == map[] {
      assert email == Sanitize(post["email"]) && password == Sanitize(post["password"]);
      var user, error := Authenticate(users, email, password, p, executeOk);
      assert user.Some? <==> executeOk && Matches(post, users, p);
      if user.Some? {
        session.userId := Some(user.value.id);
        loggedIn := true;
      } else {
        errors := errors[AuthError := error.value];
      }
    }
  }

  /** One request to login.php. A successful login exits before the page
      renders; every other outcome renders the page, and rendering consumes
      flash['success'] (line 102); the banner shows only a truthy message
      (line 103). */
  method Login(session: Session, isPost: bool, post: Form, users: seq<User>, p: Primitives, executeOk: bool)
    returns (outcome: Outcome)
    modifies session
    ensures outcome.Redirect? <==> isPost && FieldsAccepted(post, p) && executeOk && Matches(post, users, p)
    ensures outcome.Redirect? ==> outcome.location == "dashboard.php"
    ensures outcome.Redirect? ==> session.userId == Some(Fetch(users, Sanitize(post["email"])).value.id)
    ensures outcome.Redirect? ==> session.flash == old(session.flash)
    ensures outcome.Render? ==> session.userId == old(session.userId)
    ensures outcome.Render? ==> session.flash == old(session.flash) - {"success"}
    ensures outcome.Render? ==>
      outcome.banner == if TruthyOption(Lookup(old(session.flash), "success")) then Lookup(old(session.flash), "success") else None
    ensures outcome.Render? && isPost && FieldsAccepted(post, p) ==>
      outcome.errors == map[AuthError := if executeOk then InvalidCredentials else StoreError]
    ensures outcome.Render? && isPost && !FieldsAccepted(post, p) ==> outcome.errors == FieldErrors(post, p)
    ensures !isPost ==> outcome.Render? && outcome.errors == map[]
  {
    var errors: ErrorBag := map[];
    if isPost {
      var loggedIn;
      errors, loggedIn := HandlePost(session, post, users, p, executeOk);
      if loggedIn {
        return Redirect("dashboard.php");
      }
    }
    var message := session.Flash("success", None);
    outcome := Render(errors, if TruthyOption(message) then message else None);
  }
}
