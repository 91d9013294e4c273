/** src/domain.rs: the name sanitiser and the validated signup payload. */
module Domain {
  import opened Wrappers
  import opened RustStr
  import opened Uuids
  import opened Models

  /** The characters a name may not contain. */
  const ForbiddenCharacters: seq<char> := ['/', '(', ')', '"', '<', '>', '\\', '{', '}']

  /** The longest name, in UTF-8 bytes. */
  const MaxNameBytes: nat := 256

  /** What every sanitised name satisfies: some character is not whitespace,
      it takes at most 256 bytes, and it contains no forbidden character. */
  predicate ValidName(s: string) {
    (exists i :: 0 <= i < |s| && !IsWhitespace(s[i]))
    && ByteLen(s) <= MaxNameBytes
    && forall i :: 0 <= i < |s| ==> s[i] !in ForbiddenCharacters
  }

  /** The tuple struct `SanitizedName(String)`. */
  datatype NameString = NameString(text: string)

  /** The field of `SanitizedName` is private and set only by `parse`, so every
      value satisfies `ValidName`; the subset type states that outright. */
  type SanitizedName = n: NameString | ValidName(n.text) witness NameString("x")

  datatype InvalidNameError = InvalidNameError

  /** `SanitizedName::parse`: rejects a string that is blank after trimming,
      longer than 256 bytes, or that contains a forbidden character, and
      otherwise wraps it unchanged. */
  function Parse(s: string): (r: Result<SanitizedName, InvalidNameError>)
    ensures r.Ok? <==> ValidName(s)
    ensures r.Ok? ==> r.value.text == s
  {
    var isEmpty := Trim(s) == [];
    var isTooLong := ByteLen(s) > 256;
    var containsForbiddenCharacters := ContainsAny(s, ForbiddenCharacters);
    TrimEmptyIffBlank(s);
    ContainsAnyIff(s, ForbiddenCharacters);
    if isEmpty || isTooLong || containsForbiddenCharacters then Err(InvalidNameError)
    else Ok(NameString(s))
  }

  /** `Display for SanitizedName`: the wrapped string, which is a valid name;
      parsing it again gives back the same name. */
  function Display(n: SanitizedName): (r: string)
    ensures ValidName(r)
    ensures Parse(r) == Ok(n)
  {
    n.text
  }

  /** A string made only of whitespace (the empty string included) is rejected. */
  lemma ParseRejectsBlank(s: string)
    requires AllWhitespace(s)
    ensures Parse(s).Err?
  {
  }

  /** A string of more than 256 UTF-8 bytes is rejected, even when it has
      256 characters or fewer. */
  lemma ParseRejectsTooLong(s: string)
    requires ByteLen(s) > MaxNameBytes
    ensures Parse(s).Err?
  {
  }

  /** Since every character takes at least one byte, more than 256
      characters are always too long. */
  lemma ParseRejectsTooManyCharacters(s: string)
    requires |s| > MaxNameBytes
    ensures Parse(s).Err?
  {
    ByteLenBounds(s);
  }

  /** For ASCII input the byte limit is a character limit: an ASCII string of
      at most 256 characters with a visible character and no forbidden one is
      accepted and kept verbatim. */
  lemma ParseAcceptsAscii(s: string, i: nat)
    requires forall k :: 0 <= k < |s| ==> s[k] as int < 0x80
    requires |s| <= MaxNameBytes
    requires i < |s| && !IsWhitespace(s[i])
    requires forall k :: 0 <= k < |s| ==> s[k] !in ForbiddenCharacters
    ensures Parse(s).Ok? && Display(Parse(s).value) == s
  {
    ByteLenAscii(s);
  }

  /** A string that contains a forbidden character anywhere is rejected. */
  lemma ParseRejectsForbidden(s: string, i: nat)
    requires i < |s| && s[i] in ForbiddenCharacters
    ensures Parse(s).Err?
  {
  }

  /** `ParsedAccount`: the signup payload after validation. */
  datatype ParsedAccount = ParsedAccount(email: string, name: SanitizedName, level: Int32)

  /** `ParsedAccount::to_account_db`: copies the email, the name's display
      string and the level; the id and the time are fresh. The new row is
      unconfirmed and carries `token` as its activation token. */
  function ToAccountDb(p: ParsedAccount, stamp: Stamp, token: Uuid): (r: AccountDb)
    ensures r.email == p.email && r.name == Display(p.name) && r.level == p.level
    ensures r.id == stamp.id && r.subscribedAt == stamp.now
    ensures r.authToken == token && !r.status
    ensures ValidName(r.name)
  {
    AccountDb(stamp.id, stamp.now, p.email, Display(p.name), p.level, token, false)
  }

  /** `AccountRequest::to_account_db`, by contrast, copies the name without
      sanitising it: a request named "<b>" gives a row whose name `parse`
      would reject. */
  lemma RequestRowIsNotSanitized(stamp: Stamp, token: Uuid)
    ensures var row := RequestToAccountDb(AccountRequest("a@b.com", "<b>", 1), stamp, token);
      row.name == "<b>" && !ValidName(row.name) && Parse(row.name).Err?
  {
    var row := RequestToAccountDb(AccountRequest("a@b.com", "<b>", 1), stamp, token);
    assert row.name[0] == '<';
  }
}
