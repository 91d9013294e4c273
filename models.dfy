/** src/models.rs: the response envelope, the account as shown to clients,
    the account row, the request body, and the listing of all rows. */
module Models {
  import opened Wrappers
  import opened Uuids

  /** Rust's `i32`. */
  newtype Int32 = x: int | -0x8000_0000 <= x < 0x8000_0000

  /** A point in time, in microseconds since the Unix epoch. `DateTime<Utc>`
      and `NaiveDateTime` (its zone-less form, `naive_utc()`) are the same
      instant here. */
  type Instant = int

  /** What one call of `Uuid::new_v4()` together with one of `Utc::now()`
      produced; the nondeterministic values come in as data. */
  datatype Stamp = Stamp(id: Uuid, now: Instant)

  /** `Response<T>`, serialised as `{ "results": [...] }`. */
  datatype Response<T> = Response(results: seq<T>)

  /** `Response::new`. */
  function NewResponse<T>(): (r: Response<T>)
    ensures |r.results| == 0
  {
    Response([])
  }

  /** `Account`: the account as shown to clients; `id` is a UUID's text. */
  datatype Account = Account(id: string, subscribedAt: Instant, email: string, name: string, level: Int32)

  type Accounts = Response<Account>

  /** `Account::new`: the given fields, a fresh id and the current time. */
  function NewAccount(email: string, name: string, level: Int32, stamp: Stamp): (r: Account)
    ensures r.email == email && r.name == name && r.level == level
    ensures r.subscribedAt == stamp.now
    ensures r.id == ToString(stamp.id)
    ensures |r.id| == 36 && ParseStr(r.id) == Some(stamp.id)
  {
    ParseToString(stamp.id);
    Account(ToString(stamp.id), stamp.now, email, name, level)
  }

  /** `AccountDB`, one row of the `account` table. `authToken` and `status` are
      the two columns that src/routes.rs reads and writes; src/models.rs and
      src/schema.rs do not declare them. */
  datatype AccountDb = AccountDb(
    id: Uuid, subscribedAt: Instant, email: string, name: string, level: Int32,
    authToken: Uuid, status: bool)

  /** `AccountDB::to_account`: goes through `Account::new`, so the account gets
      a freshly generated id and the current time, not the row's own. */
  function ToAccount(row: AccountDb, stamp: Stamp): (r: Account)
    ensures r.email == row.email && r.name == row.name && r.level == row.level
    ensures r.subscribedAt == stamp.now
    ensures r.id == ToString(stamp.id) && ParseStr(r.id) == Some(stamp.id)
  {
    NewAccount(row.email, row.name, row.level, stamp)
  }

  /** The account shown for a row carries the row's id only when the fresh id
      happens to equal it. */
  lemma ToAccountIdIsNotRowId(row: AccountDb, stamp: Stamp)
    ensures ToAccount(row, stamp).id == ToString(row.id) <==> stamp.id == row.id
  {
    if stamp.id != row.id {
      ToStringInjective(stamp.id, row.id);
    }
  }

  /** `AccountRequest`, the JSON body of a signup. */
  datatype AccountRequest = AccountRequest(email: string, name: string, level: Int32)

  /** `AccountRequest::to_account_db`: copies the request's fields unchanged;
      the name is not sanitised. The new row is unconfirmed and carries
      `token` as its activation token. */
  function RequestToAccountDb(req: AccountRequest, stamp: Stamp, token: Uuid): (r: AccountDb)
    ensures r.email == req.email && r.name == req.name && r.level == req.level
    ensures r.id == stamp.id && r.subscribedAt == stamp.now
    ensures r.authToken == token && !r.status
  {
    AccountDb(stamp.id, stamp.now, req.email, req.name, req.level, token, false)
  }

  /** diesel's query error; its contents play no part. */
  datatype DbError = DbError

  /** `list_accounts` (the same function appears in src/models.rs and in
      src/routes.rs). `load` is the outcome of loading the `account` table;
      `draws(i)` is what the i-th `to_account` call draws. A load error
      becomes an empty list, never an `Err`. */
  function ListAccounts(load: Result<seq<AccountDb>, DbError>, draws: nat -> Stamp): (r: Result<Accounts, DbError>)
    ensures r.Ok?
    ensures load.Err? ==> r.value.results == []
    ensures load.Ok? ==> |r.value.results| == |load.value|
    ensures load.Ok? ==> forall i :: 0 <= i < |load.value| ==> r.value.results[i] == ToAccount(load.value[i], draws(i))
  {
    var rows := match load
      case Ok(acts) => acts
      case Err(_) => [];
    Ok(Response(seq(|rows|, i requires 0 <= i < |rows| => ToAccount(rows[i], draws(i)))))
  }
}
