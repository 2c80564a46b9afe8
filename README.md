# Veronica authentication, modelled in Dafny

Veronica is a small PHP application that lets visitors register, log in and
log out. A request to `register.php` validates a name, an email address and a
password, inserts a row into the `users` table and leaves a one-time "success"
message in the session. A request to `login.php` validates the email and the
password, looks the user up by email, compares the password with the stored
hash, and puts the user's id into the session. Both pages escape what they
echo back with the `sanitize()` helper. `flash()` keeps read-once messages
in the session.

This project models that logic:

- `php.dfy` (module `Php`): PHP's null, the truthiness of strings, `empty()`
  on a form field.
- `helpers.dfy` (module `Helpers`): `sanitize()` as the composition of
  `trim`, `stripslashes` and `htmlspecialchars`, each its own function. It
  also holds the session as a class whose `Flash` method is `flash()`, and
  the flash store's laws, each proved on a session restored from any stored
  state.
- `platform.dfy` (module `Platform`): the `users` table as a sequence of rows,
  the `SELECT ... WHERE email = :email` plus `fetch()` as "first matching
  row", the error-bag keys, the outcome of a request (redirect or rendered
  page), and the library routines the handlers call (`password_hash`,
  `password_verify`, `filter_var`) as functions the caller supplies.
- `registration.dfy` (module `Registration`): register.php's POST block, as
  written and with the insert guard corrected (see Findings).
- `authentication.dfy` (module `Authentication`): login.php's POST block and
  the flash read made while the page renders.
- `logout.dfy` (module `Logout`): logout.php.
- `flows.dfy` (module `Flows`): properties that span requests. These are
  register then log in, enumeration resistance, no lookup after a
  validation error, and the consequences of the insert guard.

Choices the source leaves open are fixed as follows:

- `htmlspecialchars` uses PHP 8.1's default flags (`ENT_QUOTES | ENT_SUBSTITUTE | ENT_HTML401`).
  It escapes `& " ' < >`, and `'` becomes `&#039;`.
- `trim` strips its default set: space, tab, LF, CR, NUL and vertical tab.
- `stripslashes` follows PHP. A backslash is dropped and the next character
  kept, `\0` becomes NUL, and a lone trailing backslash disappears. It only
  un-quotes backslash escapes and does nothing for SQL safety; the queries are
  protected by binding every value as a prepared-statement parameter.
- `fetch()` returns the first matching row in insertion order. The query has
  no `ORDER BY`, so this is the order SQLite scans the table in; it matters
  only if two rows share an email. The table's schema is not part of this
  model, so whether the store forbids duplicate emails is left open.
- One `char` stands for one byte, so `strlen` is the sequence length.

`$_SERVER['REQUEST_METHOD'] === 'POST'` is the `isPost` parameter, and `$_POST`
is a map from field names to strings. What `$stmt->execute()` returns is the
`executeOk` parameter. db.php sets `PDO::ERRMODE_EXCEPTION`, so a failing
execute really throws, and the `else` branches at register.php:75-77 and
login.php:63-64 cannot be reached in the deployed program. The id that the
store assigns to a new row is a parameter of the flows that need it.

## Model

| member | source | states |
|---|---|---|
| Helpers.TrimLeft | helpers.php:4 | what is left is a suffix of the input, everything cut off is trim white space, and what is left does not start with it |
| Helpers.TrimRight | helpers.php:4 | the same at the end: a prefix remains, only white space is cut, and the rest does not end with it |
| Helpers.Trim | helpers.php:4 | trim's result is no longer than its input and has no trim white space at either end |
| Helpers.TrimInfix | helpers.php:4 | trim's result is the infix of the input at some offset, and every character before and after that infix is trim white space |
| Helpers.TrimIdentity | helpers.php:4 | trim keeps a string that has no white space at either end |
| Helpers.StripSlashes | helpers.php:4 | stripslashes never makes a string longer |
| Helpers.StripSlashesIdentity | helpers.php:4 | stripslashes keeps a string without backslashes |
| Helpers.StripSlashesRoundTrip | helpers.php:4 | stripslashes undoes addslashes: stripslashes(addslashes(s)) is s for every s |
| Helpers.EscapeChar | helpers.php:4 | defines one character's replacement: a character other than `& " ' < >` is kept as it is, each of those five becomes an entity `&...;`, and no replacement contains `<`, `>`, `"` or `'` |
| Helpers.HtmlSpecialChars | helpers.php:4 | htmlspecialchars never shortens its input, and keeps its length exactly when the input has none of `& " ' < >`; its other laws are the lemmas below |
| Helpers.HtmlSpecialCharsNoMarkup | helpers.php:4 | the escaped text contains no `<`, `>`, `"` or `'` |
| Helpers.HtmlSpecialCharsLeadingAmpersand | helpers.php:4 | before text with no special character, only the leading `&` changes, to `&amp;` |
| Helpers.HtmlSpecialCharsIdentity | helpers.php:4 | escaping changes nothing in a string without `& " ' < >` |
| Helpers.EscapeCharDecodes | helpers.php:4 | each character's entity decodes back to that character and leaves what follows to decode |
| Helpers.HtmlSpecialCharsRoundTrip | helpers.php:4 | escaping loses no information: decoding the entities gives the input back |
| Helpers.Sanitize | helpers.php:2-5 | sanitize is htmlspecialchars(stripslashes(trim(data))), and its output never contains `<`, `>`, `"` or `'` for any input; the lemmas below state when it is the identity and what it does to blanks and `&` |
| Helpers.SanitizeIdentity | helpers.php:2-5 | sanitize is the identity on a string with no edge white space, no backslash and none of `& < > " '` |
| Helpers.SanitizeBlank | helpers.php:2-5 | a white space only string sanitises to "" |
| Helpers.SanitizeOnlyEscapes | helpers.php:2-5 | on a string without edge white space or backslashes, sanitize is exactly htmlspecialchars |
| Helpers.SanitizeLeadingAmpersand | helpers.php:2-5 | for plain text t (no special character, no backslash, no trailing white space), sanitize("&" + t) is "&amp;" + t |
| Helpers.SanitizeNotIdempotent | helpers.php:2-5 | sanitize is not idempotent: for every such t, sanitizing "&" + t twice gives "&amp;amp;" + t, which differs from sanitizing it once |
| Helpers.SanitizeEdgeSpaceSurvives | helpers.php:2-5 | trim runs before stripslashes, so sanitize("\\ x") is " x" and keeps a leading space |
| Helpers.Session.Restore | register.php:2 | session_start restores the stored flash slots and user id unchanged |
| Helpers.Session.Flash | helpers.php:16-28 | a truthy message is stored under the key, nothing else changes, and null is returned; otherwise the entry under the key is returned and removed, or null is returned and nothing changes |
| Helpers.Session.Destroy | logout.php:5-8 | after unset/session_destroy no flash slot and no user id remain |
| Helpers.FlashReadOnce | helpers.php:19-26 | write then two reads return null, the message, then null; only that slot is gone afterwards and the user id is untouched |
| Helpers.FlashWriteOnly | helpers.php:19-20 | a truthy write sets exactly that slot, keeps every other slot and the user id, and returns null |
| Helpers.FlashReadAbsent | helpers.php:23-28 | reading an absent slot returns null and leaves the session unchanged |
| Helpers.FlashOverwrite | helpers.php:20 | two writes and a read return the second message |
| Helpers.FlashFalsyReads | helpers.php:19-26 | a falsy message ("" or "0") consumes and returns the existing entry instead of storing anything |
| Platform.Fetch | login.php:49-54 | the fetched row is in the table and has exactly that email; nothing is fetched iff no row has it |
| Platform.FetchFirst | login.php:49-54 | the row fetched is the first row with that email |
| Platform.FetchAppended | login.php:49-54 | a row appended for an email no earlier row has is the one fetched |
| Php.Truthy | register.php:59 | defines PHP's truthiness of a string, as `if ($name && ...)` and `if ($message)` (helpers.php:19) use it: neither "" nor "0"; the flash laws and Registration.Register's guard are stated with it |
| Php.IsEmpty | register.php:31 | defines `empty($_POST[key])`: the key is absent or its value is not truthy; every field-presence iff in Registration.RegistrationErrors and Authentication.FieldErrors is stated with it |
| Registration.PasswordAccepted | register.php:48-50 | defines the password check: present, not empty, and strlen of the raw value at least 8; Registration.RegistrationErrors states that the password message is set exactly when it fails |
| Registration.RegistrationAccepted | register.php:31-57 | defines "all three checks pass": name and email not empty, the sanitised email valid, the password accepted; Registration.RegistrationErrors states that the bag is empty exactly then |
| Registration.RegistrationErrors | register.php:31-57 | the bag is empty exactly when the form is accepted; keys within name/email/password; a name message iff empty(name); an email message iff the email is missing or its sanitised value invalid, with the message fixed by which; a password message iff the password is not accepted, with the message fixed by which |
| Registration.AttemptsInsert | register.php:59 | defines the insert guard on the submitted form: name and email present with truthy sanitised values, the password accepted and its hash truthy; Registration.Register states that an insert happens exactly when it holds |
| Registration.ValidateRegistration | register.php:31-57 | the bag built step by step is Registration.RegistrationErrors of the form; the values kept are sanitize(name), sanitize(email) and the hash of sanitize(password), or "" where a check failed |
| Registration.GuardIsAttemptsInsert | register.php:59 | the kept values are all truthy exactly when the form satisfies Registration.AttemptsInsert, and then they are the sanitised name and email and the hash |
| Registration.HandlePost | register.php:31-77 | a POST inserts iff Registration.AttemptsInsert holds, binding exactly sanitize(name), sanitize(email) and password_hash(sanitize(password)); it registers iff the insert executes, and then only flash['success'] changes; otherwise the flash is untouched and the bag is the validation bag, plus auth_error when the execute failed |
| Registration.HandlePostValidated | register.php:31-77 | the same with the corrected guard: it inserts iff the guard holds and the form passes validation, and a failed execute leaves exactly the auth_error message |
| Registration.Register | register.php:27-78 | an insert is attempted iff the sanitised name and email and the hash are truthy, regardless of errors; the row binds sanitize(name), sanitize(email) and password_hash(sanitize(password)), and with a sound hash the stored password differs from the submitted one unless that is itself bcrypt-shaped; success stores the success flash and redirects to login.php; every rendered POST shows exactly the validation bag, plus auth_error with the generic message when the execute failed, and writes no flash; a GET renders an empty bag |
| Registration.RegisterValidated | register.php:59-78 | the corrected guard: an insert happens only with no validation error, so every inserted email passed filter_var; a rendered POST shows the validation bag, or only auth_error when the execute failed |
| Authentication.PasswordAccepted | login.php:38-40 | defines login's own password check, written like registration's: present, not empty, and strlen of the raw value at least 8; Authentication.FieldErrors states that the password message is set exactly when it fails |
| Authentication.FieldsAccepted | login.php:46 | defines the `empty($errors)` test on the form: the email is present and valid after sanitising, and the raw password is present and at least 8 long; Authentication.FieldErrors states that the bag is empty exactly then |
| Authentication.FieldErrors | login.php:28-44 | the bag is empty exactly when the fields are accepted; it holds only email and password keys, an email message iff the email is missing or invalid (which one is fixed), a password message iff the password is missing or too short (which one is fixed) |
| Authentication.Matches | login.php:53-56 | defines a credential match: the first row with the sanitised email exists and password_verify accepts the sanitised password against its hash; Authentication.Authenticate and Authentication.HandlePost state that login succeeds exactly then |
| Authentication.ValidateLogin | login.php:28-44 | the bag built step by step is Authentication.FieldErrors of the form; the values kept are sanitize(email) and sanitize(password), or "" where a check failed |
| Authentication.Authenticate | login.php:53-65 | a user is returned iff execute succeeds, a row with exactly that email exists and its hash verifies the password; unknown email and wrong password give the same 'Invalid email or password' |
| Authentication.HandlePost | login.php:24-67 | login succeeds iff validation passes, execute succeeds and the credentials match, and then user_id is that of the first row for the email; otherwise the user id is unchanged, the bag is the validation bag, or exactly the one auth_error |
| Authentication.Login | login.php:24-103 | a successful login redirects to dashboard.php with user_id set and the flash untouched; every other outcome renders the page, keeps the user id and consumes flash['success'], showing it as the banner only when it is truthy |
| Logout.Logout | logout.php:5-12 | the session is emptied and the browser redirected to index.php |
| Flows.RegisterThenLogin | login.php:43-59 | registering a valid form then logging in with it redirects to dashboard.php with the new user's id, given verify-after-hash and a fresh email; the success flash is still pending |
| Flows.InvalidEmailReachesInsert | register.php:41-74 | with a valid name and password and an invalid email, registration inserts the row, sets the success flash and redirects; afterwards every login form whose sanitised email is the stored one renders the invalid email error and logs nobody in, whatever the table holds and execute returns |
| Flows.ValidatedRegistrationCanLogIn | register.php:59-74 | with the corrected guard every inserted account can log in with the form that created it |
| Flows.BlankNameSilentlyRejected | register.php:31-59 | a white space only name gets no name error and no insert |
| Flows.ValidationRulesAgree | login.php:28-44 | login and registration, each with its own literals, put an email message and a password message in their bags for exactly the same forms, and the same message each time; the password login verifies is the one registration hashes |
| Flows.UnknownEmailLikeWrongPassword | login.php:56-61 | an unknown email and a wrong password produce the identical page and leave the session's user id alone |
| Flows.ValidationErrorSkipsLookup | login.php:46 | with a validation error the page does not depend on the users table or on execute, carries no auth_error, and logs nobody in |

## Left out

- db.php: opening the SQLite connection is I/O. A connection failure ends the request with a message, which is not modelled.
- Whether a duplicate email is rejected is not modelled: the handlers take no table, so an INSERT of an email already stored goes through. With a UNIQUE index the INSERT would throw (PDO::ERRMODE_EXCEPTION, db.php:12) and end the request; without one a second row is stored. `executeOk == false` stands only for the unreachable `else` branch. The id the store assigns is a parameter of the flows.
- `password_hash`, `password_verify` and `filter_var(..., FILTER_VALIDATE_EMAIL)` are supplied functions (`Platform.Primitives`). Only the properties in `Platform.Sound` are assumed: a hash verifies its own password and is a `$2y$...` bcrypt string, hence truthy (Platform.SoundHashTruthy). Salt randomness is folded into the supplied hash function.
- `htmlspecialchars`: invalid UTF-8 substitution (`ENT_SUBSTITUTE`) and the pre-8.1 behaviour that left `'` unescaped are not modelled. Character encodings are not modelled, and `strlen` is taken as the number of characters.
- `dd` (helpers.php:7-14) is a debug dump that terminates the request.
- All HTML markup, `header()`, `ob_start()`, `session_start()`'s cookie handling and `exit`. A redirect and a re-render are outcome tags; the page's redisplay of `$name` and `$email` in the form is not part of an outcome.
- `$_POST` fields submitted as arrays, which would make `sanitize()` throw a TypeError, are not modelled: a field is a string or absent.
- Helpers.StripSlashes: its own contract only bounds the length; identity on backslash-free strings is Helpers.StripSlashesIdentity, the round trip with addslashes is Helpers.StripSlashesRoundTrip, and the exact unquoting is its definition.

## Findings

| source | as written | input that shows it | evidently intended | confidence | as-written member | corrected member |
|---|---|---|---|---|---|---|
| register.php:59 | the insert runs when `$name`, `$email` and `$password` are truthy, even when `$errors['email']` holds 'Please provide a valid email address'; lines 72-74 then flash the success message and redirect although the error bag is not empty | name "Ann", email "ann" (rejected by filter_var), password "password1": the row is inserted, the success flash is set and the browser is redirected to login.php, and that account can never log in | insert only when the error bag is empty | not executed; high, since the page then reports success despite a validation error | Flows.InvalidEmailReachesInsert | Registration.RegisterValidated |

The corrected guard's intended property, that every account registration
creates can log in with the same form, is proved in
`Flows.ValidatedRegistrationCanLogIn`. The rest of the model keeps
`Registration.Register` as the code has it.
