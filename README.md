# Subscriber backend core, modelled in Dafny

This project models the core of a small newsletter-subscription backend written in
Rust with actix-web and diesel. It covers three parts:

- **The name sanitiser** (`domain.dfy`, module `Domain`). `SanitizedName::parse`
  rejects a name that is blank after trimming, longer than 256 UTF-8 bytes, or that
  contains one of `/ ( ) " < > \ { }`. Otherwise it wraps the string unchanged.
  `SanitizedName` is a subset type, so every value satisfies the name invariant.
  This mirrors the Rust type, whose private field is set only by `parse`.
  `ParsedAccount::to_account_db` turns a parsed signup into a table row.
- **Rows, accounts and the listing** (`models.dfy`, module `Models`). This covers
  `Response::new`, `Account::new`, `AccountDB::to_account`,
  `AccountRequest::to_account_db` and `list_accounts`. A failed load of the table
  becomes an empty `Ok` listing. src/routes.rs:27-39 repeats the same
  `list_accounts` word for word, so both copies are modelled by `Models.ListAccounts`.
- **The account table and the handlers** (`routes.dfy`, module `Routes`). The
  `account` table is the class `AccountTable`, whose field `rows` is a sequence of
  rows in insertion order. `create_account` and `activate_account` are its methods.
  The `create`, `confirm` and `list` handlers are modelled over that table, with
  their choice of status code.

Helper modules:

- `RustStr` (`rust_str.dfy`) gives the Rust string semantics that `parse` relies on:
  `char::is_whitespace` (the Unicode White_Space property), `str::trim`, `str::len`
  (UTF-8 bytes) and `chars().any`.
- `Uuids` (`uuids.dfy`) gives the `uuid` crate's `to_string` (lower-case
  hyphenated) and `parse_str`. `parse_str` is modelled as in uuid 1.x: simple,
  hyphenated, braced and URN forms, with hex digits of either case.
- `Wrappers` (`wrappers.dfy`) holds `Option` and `Result`.

Inputs and nondeterminism:

- `Uuid::new_v4()` and `Utc::now()` come in as `Stamp(id, now)` values.
- `list_accounts` draws one stamp per row, given as `draws: nat -> Stamp`.
- Timestamps are integers (microseconds since the epoch). `DateTime<Utc>` and its
  `naive_utc()` form are the same instant here.
- The outcomes of loading the table, of the `AccountRequest` to `ParsedAccount`
  conversion, of the insert, of the activation update and of sending the
  confirmation email are parameters.
- `Create` returns the confirmation emails it handed to the mail client, as a
  sequence. This makes the order "parse, insert, then send" observable.

Row columns: src/routes.rs reads `AccountDB.auth_token` and `status`
(src/routes.rs:86, 114-115), but src/models.rs:62-68 and src/schema.rs:2-8 do not
declare them. The row type `AccountDb` has both columns, since that is what the
handlers use. The two `to_account_db` functions build an unconfirmed row
(`status = false`) whose activation token is a given fresh UUID.

## Behaviour as written

The model follows the code where it departs from the intended design:

- The 256 limit counts UTF-8 bytes (`s.len()`), not characters.
- A failed table load is reported as an empty listing with status 200, not as an
  error.
- The activation update has no `status = false` guard. Confirming the same token
  twice succeeds both times with 200, and the second time changes nothing
  (`ActivatedIdempotent`, `SignupThenConfirmTwice`).
- The model enforces no uniqueness of emails or tokens: a duplicate signup appends a
  second row. Whether the database rejects a duplicate email is not shown by the
  source files (no migrations); the TODO above `create` (src/routes.rs:56) suggests
  an email already in use can make the insert fail, and that outcome is the
  parameter `insert` of `Create`.
- `AccountDB::to_account` gives every displayed account a freshly generated id and
  the current time (the "TODO BUG" above `AccountDB`), not the row's id
  (`ToAccountIdIsNotRowId`). The 201 body of `create` therefore does not carry the
  id of the stored row.
- When sending the email fails, `create` answers 500 and the inserted row stays,
  unconfirmed.
- A token that does not parse as a UUID makes `activate_account` panic
  (`unwrap`), so it is a precondition of `ActivateAccount` and `Confirm`. It is not
  a 400.

## Model

| member | source | states |
|---|---|---|
| `Domain.Parse` | src/domain.rs:11-22 | accepts exactly the strings with a non-whitespace character, at most 256 UTF-8 bytes and no forbidden character; an accepted string is kept verbatim, so its display is the input |
| `Domain.Display` | src/domain.rs:25-29 | the display of every sanitised name satisfies the name invariant, and parsing it again gives the same name |
| `Domain.ParseRejectsBlank` | src/domain.rs:12-18 | an empty or all-whitespace string is rejected |
| `Domain.ParseRejectsTooLong` | src/domain.rs:13-18 | a string of more than 256 UTF-8 bytes is rejected |
| `Domain.ParseRejectsTooManyCharacters` | src/domain.rs:13-18 | a string of more than 256 characters is rejected, since each character takes at least one byte |
| `Domain.ParseRejectsForbidden` | src/domain.rs:14-18 | a string with any of `/ ( ) " < > \ { }` at any position is rejected |
| `Domain.ParseAcceptsAscii` | src/domain.rs:17-21 | an ASCII string of at most 256 characters with a visible character and no forbidden one is accepted and displays as itself |
| `Domain.ToAccountDb` | src/domain.rs:38-47 | the row keeps the email, the name's display string and the level; id and time are the fresh stamp; the row is unconfirmed with the given token; its name satisfies the name invariant |
| `Domain.RequestRowIsNotSanitized` | src/models.rs:84-92 | a row built from a raw request can carry a name that `parse` rejects |
| `RustStr.TrimEmptyIffBlank` | src/domain.rs:12 | `trim()` yields the empty string exactly when every character is whitespace |
| `RustStr.ByteLenBounds` | src/domain.rs:13 | the UTF-8 length lies between the character count and four times it |
| `RustStr.ByteLenAscii` | src/domain.rs:13 | for ASCII text the UTF-8 length equals the character count |
| `RustStr.ContainsAnyIff` | src/domain.rs:15 | `chars().any(contains)` holds exactly when some position holds one of the characters |
| `Uuids.ParseToString` | src/routes.rs:114 | the text form of every UUID parses back to that UUID |
| `Uuids.ToStringInjective` | src/models.rs:50 | distinct UUIDs have distinct text forms |
| `Models.NewResponse` | src/models.rs:23-25 | a new response has no results |
| `Models.NewAccount` | src/models.rs:48-56 | the account stores exactly the given email, name and level; its id is the 36-character `to_string` text of the fresh UUID, which parses back to it, and its time the current one |
| `Models.ToAccount` | src/models.rs:71-73 | the account keeps the row's email, name and level; its id is the `to_string` text of the fresh UUID and its time the current one |
| `Models.ToAccountIdIsNotRowId` | src/models.rs:59-73 | the account's id is the row's id exactly when the fresh UUID happens to equal it |
| `Models.RequestToAccountDb` | src/models.rs:84-92 | the row copies email, name and level unchanged; id and time are the fresh stamp; unconfirmed with the given token |
| `Models.ListAccounts` | src/models.rs:95-105 | the result is always `Ok`; a load error gives an empty list; otherwise element i is `to_account` of row i, with the same length and order |
| `Routes.List` | src/routes.rs:15-25 | the handler always answers 200 with the listing: none on a load error, otherwise entry i is `to_account` of loaded row i, in order |
| `Routes.FirstWithToken` | src/routes.rs:113-116 | finds the first row that carries the token, or reports that none does |
| `Routes.ActivatedAt` | src/routes.rs:113-116 | the update keeps every row in place and changes only `status`, which becomes true exactly on rows with the token and is never cleared |
| `Routes.ActivatedIdempotent` | src/routes.rs:113-116 | activating a token twice leaves the table as one activation does |
| `Routes.ActivatedKeepsTokens` | src/routes.rs:114-115 | activation keeps every token, so a token that matched still matches and a second activation succeeds again |
| `Routes.ActivatedKeepsNames` | src/routes.rs:113-116 | activation preserves the table invariant that every name passes the sanitiser |
| `Routes.CreatedResponse` | src/routes.rs:84-93 | after the insert: 201 with the row's email, name and level when the email was sent, 500 with no body when sending failed |
| `Routes.ConfirmResponse` | src/routes.rs:132-135 | 200 with the activation message on success, 400 with no body on failure |
| `Routes.AccountTable.CreateAccount` | src/routes.rs:43-54 | returns exactly the row built from the parsed account and appends it to the table, keeping all prior rows; keeps every name sanitised |
| `Routes.AccountTable.ActivateAccount` | src/routes.rs:108-124 | when the update goes through the table becomes the activated table for the parsed token, and on a database error it is unchanged; `Ok` exactly when the update went through and some row had the token, with the message "Confirmed email account! " followed by such a row's email |
| `Routes.Create` | src/routes.rs:65-99 | a failed conversion gives 400 with no insert and no email; a failed insert gives 500 with no row and no email; otherwise one row is appended, one email with that row's token is sent, and the answer is 201 or 500 by the send outcome, with the row kept either way |
| `Routes.Confirm` | src/routes.rs:126-136 | applies the activation when the update goes through, changes nothing on a database error; 200 with the message exactly when the update went through and some row had the token, otherwise 400 |
| `Routes.SignupThenConfirmTwice` | src/routes.rs:65-136 | signup then two confirmations with the emailed token: 201, then 200 with the message, then 200 again; the table ends with the one row, confirmed |

## Left out

- src/main.rs is left out. It holds environment loading, the r2d2 pool, the `HttpServer` routes and the bind. It is wiring.
- src/email.rs is left out. It is an HTTP client for the mail provider. Sending is the outcome parameter `send` of `Create`.
- The content of the confirmation email and its link are not modelled. `send_confirmation` is not defined in any of the source files.
- src/schema.rs is used only to identify the row's columns. src/lib.rs holds only module declarations and a trivial test.
- src/models.rs `init_connection`, `list` and `post_account` are left out. They are connection set-up and async handlers that panic on failure.
- Async execution, `web::block` scheduling, pool checkout and `tracing` are not modelled.
- A failing insert panics at `.expect("Insert failed")` inside the blocking task; `Create` models the result, the 500 of the `Err` arm (src/routes.rs:94-97). A failure of the thread pool itself, which reaches the same arm, is scheduling and is not modelled separately.
- The panics of `pool.get().expect(...)` in `create` and `confirm` are not modelled. Pool checkout is connection management.
- In `confirm`, a failure of the blocking task panics at its `unwrap` (src/routes.rs:130); this is scheduling and is not modelled.
- The panic of `Uuid::parse_str(req_token).unwrap()` becomes the precondition `ParseStr(reqToken).Some?`.
- The `TryFrom<AccountRequest> for ParsedAccount` conversion is not part of this model. Its outcome is the parameter `conversion` of `Create`.
- `SanitizedEmail` and any email-address grammar are not part of this model. `ParsedAccount.email` is a plain string.
- Email and token uniqueness are not modelled. No code shown enforces them; a database constraint that rejects a duplicate is covered only as a failed `insert`.
- JSON serialisation and HTTP headers are not modelled. A response is a status code and an abstract body.
- `Routes.AccountTable.ActivateAccount`: promises the message of some row that carried the token, not of a particular one. The database does not fix the order of the rows an `UPDATE ... RETURNING` yields. The body takes the first in table order.
- The `uuid` crate's version is not part of this model. `parse_str` is modelled as in uuid 1.x.
