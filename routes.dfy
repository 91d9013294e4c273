/** src/routes.rs: the HTTP handlers over the `account` table. The table is an
    in-memory sequence of rows in insertion order; the database connection,
    the thread pool and the mail client are not modelled, and the outcomes
    they would produce come in as parameters. */
module Routes {
  import opened Wrappers
  import opened Uuids
  import opened Models
  import opened Domain

  const StatusOk: nat := 200
  const StatusCreated: nat := 201
  const StatusBadRequest: nat := 400
  const StatusInternalServerError: nat := 500

  /** `ActivateResponse`, serialised as `{ "message": ... }`. */
  datatype ActivateResponse = ActivateResponse(message: string)

  datatype ActivateError = ActivateError

  /** The body of a response: nothing (`finish()`), or one JSON value. */
  datatype Body =
    | Empty
    | AccountJson(account: Account)
    | AccountsJson(accounts: Accounts)
    | MessageJson(activated: ActivateResponse)

  datatype HttpResponse = HttpResponse(status: nat, body: Body)

  /** The failure of the `AccountRequest` to `ParsedAccount` conversion. */
  datatype ConversionError = ConversionError

  /** The mail client's failure to send. */
  datatype SendError = SendError

  /** One confirmation email handed to the mail client: the account it is for
      and the activation token it carries. */
  datatype ConfirmationEmail = ConfirmationEmail(account: ParsedAccount, token: Uuid)

  /** `list`: `list_accounts` never fails, so both `unwrap`s succeed and the
      answer is always 200 with the listing. */
  function List(load: Result<seq<AccountDb>, DbError>, draws: nat -> Stamp): (resp: HttpResponse)
    ensures resp.status == StatusOk && resp.body.AccountsJson?
    ensures load.Err? ==> resp.body.accounts.results == []
    ensures load.Ok? ==> |resp.body.accounts.results| == |load.value|
    ensures load.Ok? ==> forall i :: 0 <= i < |load.value| ==>
      resp.body.accounts.results[i] == ToAccount(load.value[i], draws(i))
  {
    HttpResponse(StatusOk, AccountsJson(ListAccounts(load, draws).value))
  }

  /** The message `activate_account` answers with for a confirmed row. */
  function ConfirmMessage(email: string): (m: string)
    ensures |m| == 25 + |email| && m[25..] == email
  {
    "Confirmed email account! " + email
  }

  /** One row after `SET status = true WHERE auth_token = token`. */
  function MarkIfToken(row: AccountDb, token: Uuid): AccountDb {
    if row.authToken == token then row.(status := true) else row
  }

  /** The whole table after `SET status = true WHERE auth_token = token`. */
  function Activated(rows: seq<AccountDb>, token: Uuid): seq<AccountDb> {
    if rows == [] then [] else [MarkIfToken(rows[0], token)] + Activated(rows[1..], token)
  }

  /** Some row of the table carries the token. */
  predicate HasToken(rows: seq<AccountDb>, token: Uuid) {
    exists i :: 0 <= i < |rows| && rows[i].authToken == token
  }

  /** The position of the first row that carries the token, if any. */
  function FirstWithToken(rows: seq<AccountDb>, token: Uuid): (r: Option<nat>)
    ensures r.None? <==> !HasToken(rows, token)
    ensures r.Some? ==> r.value < |rows| && rows[r.value].authToken == token
    ensures r.Some? ==> forall k :: 0 <= k < r.value ==> rows[k].authToken != token
  {
    if rows == [] then None
    else if rows[0].authToken == token then Some(0)
    else
      match FirstWithToken(rows[1..], token)
      case None => None
      case Some(k) => Some(k + 1)
  }

  lemma {:induction false} ActivatedLength(rows: seq<AccountDb>, token: Uuid)
    ensures |Activated(rows, token)| == |rows|
  {
    if rows != [] {
      ActivatedLength(rows[1..], token);
    }
  }

  /** The update keeps every row in place and changes nothing but `status`,
      which becomes true exactly on the rows that carry the token and is
      never cleared. */
  lemma {:induction false} ActivatedAt(rows: seq<AccountDb>, token: Uuid, i: nat)
    requires i < |rows|
    ensures |Activated(rows, token)| == |rows|
    ensures Activated(rows, token)[i] == rows[i].(status := rows[i].status || rows[i].authToken == token)
  {
    ActivatedLength(rows, token);
    if i > 0 {
      ActivatedAt(rows[1..], token, i - 1);
    }
  }

  /** Activating the same token twice leaves the table as one activation does. */
  lemma {:induction false} ActivatedIdempotent(rows: seq<AccountDb>, token: Uuid)
    ensures Activated(Activated(rows, token), token) == Activated(rows, token)
  {
    if rows != [] {
      var once := Activated(rows, token);
      assert once[1..] == Activated(rows[1..], token);
      ActivatedIdempotent(rows[1..], token);
    }
  }

  /** Activation keeps every token, so a token that matched once still matches:
      with no `status = false` guard a second activation succeeds again. */
  lemma ActivatedKeepsTokens(rows: seq<AccountDb>, token: Uuid, other: Uuid)
    ensures HasToken(Activated(rows, token), other) <==> HasToken(rows, other)
  {
    ActivatedLength(rows, token);
    forall i | 0 <= i < |rows|
      ensures Activated(rows, token)[i].authToken == rows[i].authToken
    {
      ActivatedAt(rows, token, i);
    }
  }

  /** Every row's name passes the sanitiser: what rows inserted from a
      `ParsedAccount` satisfy. */
  predicate AllNamesValid(rows: seq<AccountDb>) {
    forall i :: 0 <= i < |rows| ==> ValidName(rows[i].name)
  }

  /** Activation keeps every name, hence keeps `AllNamesValid`. */
  lemma ActivatedKeepsNames(rows: seq<AccountDb>, token: Uuid)
    requires AllNamesValid(rows)
    ensures AllNamesValid(Activated(rows, token))
  {
    ActivatedLength(rows, token);
    forall i | 0 <= i < |rows|
      ensures Activated(rows, token)[i].name == rows[i].name
    {
      ActivatedAt(rows, token, i);
    }
  }

  /** The response `create` gives once its row is inserted (lines 86-92):
      201 with the account when the email went out, 500 otherwise. */
  function CreatedResponse(send: Result<(), SendError>, newAcct: AccountDb, stamp: Stamp): (resp: HttpResponse)
    ensures resp.status == StatusCreated <==> send.Ok?
    ensures send.Err? ==> resp == HttpResponse(StatusInternalServerError, Empty)
    ensures send.Ok? ==> (resp.body.AccountJson? && resp.body.account.email == newAcct.email
                          && resp.body.account.name == newAcct.name && resp.body.account.level == newAcct.level)
  {
    match send
    case Ok(_) => HttpResponse(StatusCreated, AccountJson(ToAccount(newAcct, stamp)))
    case Err(_) => HttpResponse(StatusInternalServerError, Empty)
  }

  /** The response `confirm` gives for the outcome of `activate_account`. */
  function ConfirmResponse(updated: Result<ActivateResponse, ActivateError>): (resp: HttpResponse)
    ensures resp.status == StatusOk <==> updated.Ok?
    ensures updated.Ok? ==> resp.body == MessageJson(updated.value)
    ensures updated.Err? ==> resp == HttpResponse(StatusBadRequest, Empty)
  {
    match updated
    case Ok(act) => HttpResponse(StatusOk, MessageJson(act))
    case Err(_) => HttpResponse(StatusBadRequest, Empty)
  }

  /** The `account` table. */
  class AccountTable {
    var rows: seq<AccountDb>

    constructor ()
      ensures rows == []
    {
      rows := [];
    }

    /** `create_account`: inserts the row built from the parsed account and
        returns exactly that row. A failing insert panics at its `expect`;
        `Create` models that path and calls this method only when the
        database accepts the insert. */
    method CreateAccount(input: ParsedAccount, stamp: Stamp, token: Uuid) returns (r: Result<AccountDb, DbError>)
      modifies this
      ensures r == Ok(ToAccountDb(input, stamp, token))
      ensures rows == old(rows) + [r.value]
      ensures AllNamesValid(old(rows)) ==> AllNamesValid(rows)
    {
      var newAccount := ToAccountDb(input, stamp, token);
      rows := rows + [newAccount];
      r := Ok(newAccount);
    }

    /** `activate_account`: `UPDATE account SET status = true WHERE auth_token
        = token RETURNING *`, then the message for the row `get_result` takes
        from those returned. The token text must parse as a UUID (the source
        unwraps the parse). The contract promises the message of some row that
        carried the token, as the database does not fix the order of the
        returned rows; the model takes the first in table order. `update` is
        the database's answer to the statement: on an error nothing changes
        and the result is `Err`, as it is when no row matches. */
    method ActivateAccount(reqToken: string, update: Result<(), DbError>) returns (r: Result<ActivateResponse, ActivateError>)
      requires ParseStr(reqToken).Some?
      modifies this
      ensures update.Ok? ==> rows == Activated(old(rows), ParseStr(reqToken).value)
      ensures update.Err? ==> rows == old(rows)
      ensures r.Ok? <==> update.Ok? && HasToken(old(rows), ParseStr(reqToken).value)
      ensures r.Ok? ==> exists i :: 0 <= i < |old(rows)| && old(rows)[i].authToken == ParseStr(reqToken).value
                                 && r.value.message == ConfirmMessage(old(rows)[i].email)
      ensures AllNamesValid(old(rows)) ==> AllNamesValid(rows)
    {
      if update.Err? {
        return Err(ActivateError);
      }
      var token := ParseStr(reqToken).value;
      var updatedAccount := Activated(rows, token);
      ActivatedLength(rows, token);
      ActivatedKeepsTokens(rows, token, token);
      if AllNamesValid(rows) {
        ActivatedKeepsNames(rows, token);
      }
      match FirstWithToken(updatedAccount, token) {
        case Some(k) =>
          ActivatedAt(rows, token, k);
          r := Ok(ActivateResponse(ConfirmMessage(updatedAccount[k].email)));
        case None =>
          r := Err(ActivateError);
      }
      rows := updatedAccount;
    }
  }

  /** `create`: the conversion to `ParsedAccount` first (400 on failure, with
      no insert and no email), then the insert, then one confirmation email
      carrying the new row's token, then 201 or 500 by the mail client's
      outcome `send`. The inserted row stays when the email fails. `insert`
      is the database's answer to the insert: on an error `create_account`
      panics at its `expect` inside the blocking task, and the `Err` arm of
      `create` answers 500 with no row and no email. */
  method Create(table: AccountTable, conversion: Result<ParsedAccount, ConversionError>,
                insert: Result<(), DbError>, rowStamp: Stamp, token: Uuid, viewStamp: Stamp,
                send: Result<(), SendError>)
    returns (resp: HttpResponse, emails: seq<ConfirmationEmail>)
    modifies table
    ensures conversion.Err? ==>
      resp == HttpResponse(StatusBadRequest, Empty) && emails == [] && table.rows == old(table.rows)
    ensures conversion.Ok? && insert.Err? ==>
      resp == HttpResponse(StatusInternalServerError, Empty) && emails == [] && table.rows == old(table.rows)
    ensures conversion.Ok? && insert.Ok? ==>
      var row := ToAccountDb(conversion.value, rowStamp, token);
      table.rows == old(table.rows) + [row]
      && emails == [ConfirmationEmail(conversion.value, token)]
      && resp == CreatedResponse(send, row, viewStamp)
  {
    var parsedAccount: ParsedAccount;
    match conversion {
      case Ok(values) => parsedAccount := values;
      case Err(_) => return HttpResponse(StatusBadRequest, Empty), [];
    }
    var cloneAcct := parsedAccount;
    if insert.Err? {
      return HttpResponse(StatusInternalServerError, Empty), [];
    }
    var newAcct := table.CreateAccount(parsedAccount, rowStamp, token);
    emails := [ConfirmationEmail(cloneAcct, newAcct.value.authToken)];
    resp := CreatedResponse(send, newAcct.value, viewStamp);
  }

  /** `confirm`: activates by the token in the path and answers 200 with the
      message when the update went through and some row carried the token,
      400 otherwise; `update` is the database's answer to the update. */
  method Confirm(table: AccountTable, reqToken: string, update: Result<(), DbError>) returns (resp: HttpResponse)
    requires ParseStr(reqToken).Some?
    modifies table
    ensures update.Ok? ==> table.rows == Activated(old(table.rows), ParseStr(reqToken).value)
    ensures update.Err? ==> table.rows == old(table.rows)
    ensures resp.status == StatusOk <==> update.Ok? && HasToken(old(table.rows), ParseStr(reqToken).value)
    ensures resp.status != StatusOk ==> resp == HttpResponse(StatusBadRequest, Empty)
    ensures resp.status == StatusOk ==>
      exists i :: 0 <= i < |old(table.rows)| && old(table.rows)[i].authToken == ParseStr(reqToken).value
               && resp.body == MessageJson(ActivateResponse(ConfirmMessage(old(table.rows)[i].email)))
  {
    var updatedAccount := table.ActivateAccount(reqToken, update);
    resp := ConfirmResponse(updatedAccount);
  }

  /** A signup whose insert and email go through, then two confirmations with the token
      text from that email: 201, then 200 with the message for the account's
      email, and 200 again, since the update has no `status = false` guard.
      The table ends with the one row, confirmed. */
  method SignupThenConfirmTwice(account: ParsedAccount, rowStamp: Stamp, token: Uuid, viewStamp: Stamp)
    returns (created: HttpResponse, emails: seq<ConfirmationEmail>, first: HttpResponse, second: HttpResponse,
             finalRows: seq<AccountDb>)
    ensures created.status == StatusCreated && emails == [ConfirmationEmail(account, token)]
    ensures first == HttpResponse(StatusOk, MessageJson(ActivateResponse(ConfirmMessage(account.email))))
    ensures second == first
    ensures finalRows == [ToAccountDb(account, rowStamp, token).(status := true)]
  {
    var table := new AccountTable();
    var row := ToAccountDb(account, rowStamp, token);
    created, emails := Create(table, Ok(account), Ok(()), rowStamp, token, viewStamp, Ok(()));
    assert table.rows == [row];
    assert [row][0].authToken == token;
    var link := ToString(token);
    ParseToString(token);
    first := Confirm(table, link, Ok(()));
    var confirmed := row.(status := true);
    ActivatedAt([row], token, 0);
    assert table.rows == [confirmed];
    assert [confirmed][0].authToken == token;
    second := Confirm(table, link, Ok(()));
    ActivatedAt([confirmed], token, 0);
    finalRows := table.rows;
  }
}
