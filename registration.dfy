/** Model of the POST handling of register.php (lines 27-78). */
module Registration {
  import opened Php
  import opened Helpers
  import opened Platform

  const NameRequired: string := "Please provide a name"
  const EmailRequired: string := "Please provide an email address"
  const EmailInvalid: string := "Please provide a valid email address"
  const PasswordRequired: string := "Please provide a password"
  const PasswordTooShort: string := "Password must be at least 8 characters"
  const StoreError: string := "An error occurred. Please try again"
  const Registered: string := "You have successfully registered. Please log in to continue"

  /** The minimum number of bytes strlen() must report for a password. */
  const MinPasswordLength: nat := 8

  /** The password field is present, non-empty and long enough (checked on the
      raw submitted value, before sanitising). */
  predicate PasswordAccepted(post: Form) {
    !IsEmpty(post, "password") && |post["password"]| >= MinPasswordLength
  }

  /** The condition at line 59, restated on the submitted form: the sanitised
      name and email and the password hash are all truthy. It does not
      mention the email's validity. */
  predicate AttemptsInsert(post: Form, p: Primitives) {
    && !IsEmpty(post, "name") && Truthy(Sanitize(post["name"]))
    && !IsEmpty(post, "email") && Truthy(Sanitize(post["email"]))
    && PasswordAccepted(post) && Truthy(p.passwordHash(Sanitize(post["password"])))
  }

  /** All three checks of lines 31-57 pass. */
  predicate RegistrationAccepted(post: Form, p: Primitives) {
    !IsEmpty(post, "name") && !IsEmpty(post, "email") && p.isValidEmail(Sanitize(post["email"]))
    && PasswordAccepted(post)
  }

  /** The error bag lines 31-57 leave for this form, key by key. */
  function RegistrationErrors(post: Form, p: Primitives): (errors: ErrorBag)
    ensures errors == map[] <==> RegistrationAccepted(post, p)
    ensures errors.Keys <= {NameField, EmailField, PasswordField}
    ensures NameField in errors <==> IsEmpty(post, "name")
    ensures NameField in errors ==> errors[NameField] == NameRequired
    ensures EmailField in errors <==> IsEmpty(post, "email") || !p.isValidEmail(Sanitize(post["email"]))
    ensures EmailField in errors ==>
      errors[EmailField] == if IsEmpty(post, "email") then EmailRequired else EmailInvalid
    ensures PasswordField in errors <==> !PasswordAccepted(post)
    ensures PasswordField in errors ==>
      errors[PasswordField] == if IsEmpty(post, "password") then PasswordRequired else PasswordTooShort
  {
    var name := if IsEmpty(post, "name") then map[NameField := NameRequired] else map[];
    var email := if IsEmpty(post, "email") then name[EmailField := EmailRequired]
                 else if !p.isValidEmail(Sanitize(post["email"])) then name[EmailField := EmailInvalid]
                 else name;
    var errors := if IsEmpty(post, "password") then email[PasswordField := PasswordRequired]
                  else if |post["password"]| < MinPasswordLength then email[PasswordField := PasswordTooShort]
                  else email;
    assert !RegistrationAccepted(post, p) ==>
      NameField in errors || EmailField in errors || PasswordField in errors;
    errors
  }

  /** Lines 31-57: the three fields are validated one after the other, each
      adding at most one message to the error bag, and $name, $email and
      $password are overwritten as the checks pass. */
  method ValidateRegistration(post: Form, p: Primitives)
    returns (errors: ErrorBag, name: string, email: string, password: string)
    ensures errors == RegistrationErrors(post, p)
    ensures name == if IsEmpty(post, "name") then "" else Sanitize(post["name"])
    ensures email == if IsEmpty(post, "email") then "" else Sanitize(post["email"])
    ensures password == if PasswordAccepted(post) then p.passwordHash(Sanitize(post["password"])) else ""
  {
    errors := map[];
    name, email, password := "", "", "";

    if IsEmpty(post, "name") {
      errors := map[NameField := NameRequired];
    } else {
      name := Sanitize(post["name"]);
    }
    ghost var afterName := errors;

    if IsEmpty(post, "email") {
      errors := errors[EmailField := EmailRequired];
    } else {
      email := Sanitize(post["email"]);
      if !p.isValidEmail(email) {
        errors := errors[EmailField := EmailInvalid];
      }
    }
    assert errors == if IsEmpty(post, "email") then afterName[EmailField := EmailRequired]
                     else if !p.isValidEmail(Sanitize(post["email"])) then afterName[EmailField := EmailInvalid]
                     else afterName;

    if IsEmpty(post, "password") {
      errors := errors[PasswordField := PasswordRequired];
    } else if |post["password"]| < MinPasswordLength {
      errors := errors[PasswordField := PasswordTooShort];
    } else {
      password := Sanitize(post["password"]);
      password := p.passwordHash(password);
    }
  }

  /** The values ValidateRegistration keeps are all truthy exactly when the
      form satisfies AttemptsInsert: line 59's test read on the form. */
  lemma GuardIsAttemptsInsert(post: Form, p: Primitives, name: string, email: string, password: string)
    requires name == if IsEmpty(post, "name") then "" else Sanitize(post["name"])
    requires email == if IsEmpty(post, "email") then "" else Sanitize(post["email"])
    requires password == if PasswordAccepted(post) then p.passwordHash(Sanitize(post["password"])) else ""
    ensures Truthy(name) && Truthy(email) && Truthy(password) <==> AttemptsInsert(post, p)
    ensures AttemptsInsert(post, p) ==>
      name == Sanitize(post["name"]) && email == Sanitize(post["email"])
      && password == p.passwordHash(Sanitize(post["password"]))
  {
  }

  /** The row line 59's INSERT binds for a form that satisfies AttemptsInsert. */
  predicate IsRowFor(row: NewUser, post: Form, p: Primitives)
    requires AttemptsInsert(post, p)
  {
    && row.name == Sanitize(post["name"])
    && row.email == Sanitize(post["email"])
    && row.password == p.passwordHash(Sanitize(post["password"]))
  }

  /** Lines 31-77 as written, for a POST: validate, insert when the kept
      values are truthy, and on success leave the flash message.
      `registered` means the handler redirects to login.php. */
  method HandlePost(session: Session, post: Form, p: Primitives, executeOk: bool)
    returns (errors: ErrorBag, insert: Option<NewUser>, registered: bool)
    modifies session
    ensures session.userId == old(session.userId)
    ensures insert.Some? <==> AttemptsInsert(post, p)
    ensures insert.Some? ==> IsRowFor(insert.value, post, p)
    ensures registered <==> insert.Some? && executeOk
    ensures registered ==> session.flash == old(session.flash)["success" := Registered]
    ensures !registered ==> session.flash == old(session.flash)
    ensures !registered ==>
      errors == if insert.Some? then RegistrationErrors(post, p)[AuthError := StoreError] else RegistrationErrors(post, p)
  {
    var name, email, password;
    errors, name, email, password := ValidateRegistration(post, p);
    GuardIsAttemptsInsert(post, p, name, email, password);
    insert, registered := None, false;
    if Truthy(name) && Truthy(email) && Truthy(password) {
      insert := Some(NewUser(name, email, password));
      if executeOk {
        var _ := session.Flash("success", Some(Registered));
        registered := true;
      } else {
        errors := errors[AuthError := StoreError];
      }
    }
  }

  /** register.php as written (lines 27-78). `executeOk` is what
      $stmt->execute() returns; with PDO::ERRMODE_EXCEPTION set in db.php a
      failing execute throws instead, so its false branch is unreachable in
      the deployed program. `insert` is the row bound to the INSERT, if one
      was attempted. */
  method Register(session: Session, isPost: bool, post: Form, p: Primitives, executeOk: bool)
    returns (outcome: Outcome, insert: Option<NewUser>)
    modifies session
    ensures session.userId == old(session.userId)
    ensures insert.Some? <==> isPost && AttemptsInsert(post, p)
    ensures insert.Some? ==> insert.value.name == Sanitize(post["name"])
    ensures insert.Some? ==> insert.value.email == Sanitize(post["email"])
    ensures insert.Some? ==> insert.value.password == p.passwordHash(Sanitize(post["password"]))
    ensures insert.Some? && Sound(p) && !BcryptShaped(post["password"]) ==> insert.value.password != post["password"]
    ensures outcome.Redirect? <==> insert.Some? && executeOk
    ensures outcome.Redirect? ==>
      outcome.location == "login.php" && session.flash == old(session.flash)["success" := Registered]
    ensures outcome.Render? ==> session.flash == old(session.flash) && outcome.banner == None
    ensures outcome.Render? ==> outcome.errors.Keys <= {NameField, EmailField, PasswordField, AuthError}
    ensures outcome.Render? ==> (AuthError in outcome.errors <==> insert.Some?)
    ensures outcome.Render? && insert.Some? ==> outcome.errors[AuthError] == StoreError
    ensures outcome.Render? && isPost ==> (NameField in outcome.errors <==> IsEmpty(post, "name"))
    ensures outcome.Render? && isPost ==>
      (EmailField in outcome.errors <==> IsEmpty(post, "email") || !p.isValidEmail(Sanitize(post["email"])))
    ensures outcome.Render? && isPost ==> (PasswordField in outcome.errors <==> !PasswordAccepted(post))
    ensures outcome.Render? && isPost ==>
      outcome.errors == if insert.Some? then RegistrationErrors(post, p)[AuthError := StoreError]
                        else RegistrationErrors(post, p)
    ensures !isPost ==> outcome == Render(map[], None)
  {
    var errors: ErrorBag := map[];
    insert := None;
    if isPost {
      var registered;
      errors, insert, registered := HandlePost(session, post, p, executeOk);
      if registered {
        return Redirect("login.php"), insert;
      }
    }
    outcome := Render(errors, None);
  }

  /** Lines 31-77 with the insert guarded as evidently intended: the values
      must be truthy, as before, and the error bag empty. */
  method HandlePostValidated(session: Session, post: Form, p: Primitives, executeOk: bool)
    returns (errors: ErrorBag, insert: Option<NewUser>, registered: bool)
    modifies session
    ensures session.userId == old(session.userId)
    ensures insert.Some? <==> AttemptsInsert(post, p) && RegistrationAccepted(post, p)
    ensures insert.Some? ==> IsRowFor(insert.value, post, p)
    ensures registered <==> insert.Some? && executeOk
    ensures registered ==> session.flash == old(session.flash)["success" := Registered]
    ensures !registered ==> session.flash == old(session.flash)
    ensures !registered ==>
      errors == if insert.Some? then map[AuthError := StoreError] else RegistrationErrors(post, p)
  {
    var name, email, password;
    errors, name, email, password := ValidateRegistration(post, p);
    GuardIsAttemptsInsert(post, p, name, email, password);
    insert, registered := None, false;
    if errors == map[] && Truthy(name) && Truthy(email) && Truthy(password) {
      insert := Some(NewUser(name, email, password));
      if executeOk {
        var _ := session.Flash("success", Some(Registered));
        registered := true;
      } else {
        errors := errors[AuthError := StoreError];
      }
    }
  }

  /** register.php with the corrected guard. */
  method RegisterValidated(session: Session, isPost: bool, post: Form, p: Primitives, executeOk: bool)
    returns (outcome: Outcome, insert: Option<NewUser>)
    modifies session
    ensures session.userId == old(session.userId)
    ensures insert.Some? <==> isPost && AttemptsInsert(post, p) && p.isValidEmail(Sanitize(post["email"]))
    ensures insert.Some? ==> insert.value.name == Sanitize(post["name"])
    ensures insert.Some? ==> insert.value.email == Sanitize(post["email"]) && p.isValidEmail(insert.value.email)
    ensures insert.Some? ==> insert.value.password == p.passwordHash(Sanitize(post["password"]))
    ensures insert.Some? && Sound(p) && !BcryptShaped(post["password"]) ==> insert.value.password != post["password"]
    ensures outcome.Redirect? <==> insert.Some? && executeOk
    ensures outcome.Redirect? ==>
      outcome.location == "login.php" && session.flash == old(session.flash)["success" := Registered]
    ensures outcome.Render? ==> session.flash == old(session.flash) && outcome.banner == None
    ensures outcome.Render? ==> (AuthError in outcome.errors <==> insert.Some?)
    ensures outcome.Render? && insert.Some? ==> outcome.errors == map[AuthError := StoreError]
    ensures outcome.Render? && isPost && insert.None? ==> outcome.errors == RegistrationErrors(post, p)
  {
    var errors: ErrorBag := map[];
    insert := None;
    if isPost {
      var registered;
      errors, insert, registered := HandlePostValidated(session, post, p, executeOk);
      if registered {
        return Redirect("login.php"), insert;
      }
    }
    outcome := Render(errors, None);
  }
}
