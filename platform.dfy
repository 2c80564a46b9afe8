/** What the handlers take from their environment: the `users` table and the
    PHP library routines whose internals are not part of this model. */
module Platform {
  import opened Php

  /** The keys of a handler's error bag ($errors): 'name', 'email',
      'password' and 'auth_error'. */
  datatype Field = NameField | EmailField | PasswordField | AuthError

  type ErrorBag = map<Field, string>

  /** How a request ends: a `Location:` redirect, or the page rendered with
      its error bag and the flash message shown above the form (if any). */
  datatype Outcome =
    | Redirect(location: string)
    | Render(errors: ErrorBag, banner: Option<string>)

  /** A row of the `users` table. */
  datatype User = User(id: int, name: string, email: string, password: string)

  /** The values bound to the INSERT statement's parameters. */
  datatype NewUser = NewUser(name: string, email: string, password: string)

  /** password_hash(·, PASSWORD_DEFAULT), password_verify(·, ·) and
      filter_var(·, FILTER_VALIDATE_EMAIL), as functions the caller supplies.
      The random salt password_hash() draws is folded into `passwordHash`. */
  datatype Primitives = Primitives(
    passwordHash: string -> string,
    passwordVerify: (string, string) -> bool,
    isValidEmail: string -> bool)

  /** A string in the shape of a bcrypt hash, as PASSWORD_DEFAULT produces. */
  predicate BcryptShaped(s: string) {
    |s| >= 4 && s[..4] == "$2y$"
  }

  /** What PHP documents of the two password routines: a hash verifies
      against the password it was made from, and a hash is a "$2y$..."
      string, so never "" or "0". */
  ghost predicate Sound(p: Primitives) {
    (forall x :: p.passwordVerify(x, p.passwordHash(x)))
    && (forall x :: BcryptShaped(p.passwordHash(x)))
  }

  /** A bcrypt-shaped hash is at least four characters long, so it is never
      "" or "0": under Sound every hash is truthy. */
  lemma SoundHashTruthy(p: Primitives, x: string)
    requires Sound(p)
    ensures Truthy(p.passwordHash(x))
  {
    assert BcryptShaped(p.passwordHash(x));
  }

  /** `SELECT * FROM users WHERE email = :email` followed by one fetch():
      the first row, in insertion order, whose email is exactly `email`, or
      false. */
  function Fetch(users: seq<User>, email: string): (r: Option<User>)
    ensures r.Some? ==> r.value in users && r.value.email == email
    ensures r.None? <==> forall u :: u in users ==> u.email != email
  {
    if users == [] then None
    else if users[0].email == email then Some(users[0])
    else Fetch(users[1..], email)
  }

  /** Fetch returns the row at the first index with that email. */
  lemma {:induction false} FetchFirst(users: seq<User>, email: string, k: nat)
    requires k < |users| && users[k].email == email
    requires forall j :: 0 <= j < k ==> users[j].email != email
    ensures Fetch(users, email) == Some(users[k])
  {
    if k > 0 {
      FetchFirst(users[1..], email, k - 1);
    }
  }

  /** A row appended for an email no earlier row has is the one Fetch finds. */
  lemma FetchAppended(users: seq<User>, u: User)
    requires forall v :: v in users ==> v.email != u.email
    ensures Fetch(users + [u], u.email) == Some(u)
  {
    var all := users + [u];
    forall j | 0 <= j < |users| ensures all[j].email != u.email {
      assert all[j] == users[j];
    }
    FetchFirst(all, u.email, |users|);
  }
}
