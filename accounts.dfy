/** Accounts: the password hash, the user record and its JSON form, the cleaning of
    request fields, and the password-reset code and link. */
module Accounts {
  import opened Basics
  import UriComponent

  /** The serialized record the credential library makes of a password. The model takes
      an ideal, collision-free hash: a record stands for the one password it was made
      from, and only Verify looks inside it. Salting is not modelled. */
  datatype HashRecord = HashRecord(preimage: string)

  function Hash(password: string): HashRecord {
    HashRecord(password)
  }

  /** `credential().verify(hash, password)`. */
  predicate Verify(h: HashRecord, password: string) {
    h == Hash(password)
  }

  /** A hash verifies exactly the password it was made from; a password that differs
      only in case or whitespace is refused like any other. */
  lemma VerifyHash(p: string, q: string)
    ensures Verify(Hash(p), q) <==> p == q
  {
  }

  /** A user record, `{ password_hash, reset_code? }`; `reset_code` is present exactly
      while a password reset is pending. */
  datatype UserRecord = UserRecord(passwordHash: HashRecord, resetCode: Option<string>)

  function HashJson(h: HashRecord): Json {
    JObject([("hash", JString(h.preimage))])
  }

  function HashFromJson(j: Json): Option<HashRecord> {
    if j.JObject? && |j.members| == 1 && j.members[0].0 == "hash" && j.members[0].1.JString? then
      Some(HashRecord(j.members[0].1.s))
    else None
  }

  /** The JSON value that saveUser stringifies: `password_hash` first, then `reset_code`
      when one is pending (JSON.stringify keeps insertion order). */
  function UserJson(user: UserRecord): Json {
    JObject([("password_hash", HashJson(user.passwordHash))] +
      match user.resetCode
      case Some(code) => [("reset_code", JString(code))]
      case None => [])
  }

  /** The user record that fetchUser reads back from a JSON value, if it is one. */
  function UserFromJson(j: Json): Option<UserRecord> {
    if !j.JObject? || |j.members| == 0 || j.members[0].0 != "password_hash" then None
    else match HashFromJson(j.members[0].1)
      case None => None
      case Some(h) =>
        if |j.members| == 1 then Some(UserRecord(h, None))
        else if |j.members| == 2 && j.members[1].0 == "reset_code" && j.members[1].1.JString? then
          Some(UserRecord(h, Some(j.members[1].1.s)))
        else None
  }

  /** What saveUser writes, fetchUser reads back. */
  lemma UserJsonRoundTrip(user: UserRecord)
    ensures UserFromJson(UserJson(user)) == Some(user)
  {
  }

  /** The fields of a JSON request body the handlers read (None: the field is absent). */
  datatype Params = Params(email: Option<string>, password: Option<string>, resetCode: Option<string>)

  /** What the basic-auth parser returns for a well-formed Authorization header. */
  datatype Credentials = Credentials(name: string, pass: string)

  /** `clean(s)` on a missing value or a primitive string: a missing or empty value
      becomes null, and any other string comes back unchanged, untrimmed (a primitive
      string is not `instanceof String`, so the trimming branch is never taken). */
  function Clean(v: Option<string>): (r: Option<string>)
    ensures r.Some? <==> v.Some? && v.value != ""
    ensures r.Some? ==> r == v
  {
    match v
    case None => None
    case Some(s) => if s == "" then None else v
  }

  predicate IsLowerHex(c: char) {
    ('0' <= c <= '9') || ('a' <= c <= 'f')
  }

  /** `randomBytes(32).toString('hex')`: 64 lower-case hexadecimal digits. */
  predicate IsResetCode(code: string) {
    |code| == 64 && forall i :: 0 <= i < |code| ==> IsLowerHex(code[i])
  }

  /** encodeURIComponent leaves a string of unreserved characters as it is. */
  lemma {:induction false} EncodeUnreserved(s: string)
    requires forall i :: 0 <= i < |s| ==> UriComponent.Unreserved(s[i])
    ensures UriComponent.Encode(s) == s
    decreases |s|
  {
    if s != [] {
      EncodeUnreserved(s[1..]);
      assert [s[0]] + s[1..] == s;
    }
  }

  /** A reset code stands in the link verbatim. */
  lemma EncodeResetCode(code: string)
    requires IsResetCode(code)
    ensures UriComponent.Encode(code) == code
  {
    EncodeUnreserved(code);
  }

  const RESET_PAGE := "/password/reset.html?email="
  const CODE_FIELD := "&reset_code="

  /** The link mailed for a password reset: the reset page under the service's origin,
      with the email and the code encodeURIComponent-encoded as query parameters. */
  function ResetLink(origin: string, email: string, code: string): string {
    origin + RESET_PAGE + UriComponent.Encode(email) + CODE_FIELD + UriComponent.Encode(code)
  }

  /** The position of the first occurrence of c in s. */
  function IndexOf(s: string, c: char): (r: Option<nat>)
    ensures r.None? <==> c !in s
    ensures r.Some? ==> r.value < |s| && s[r.value] == c && c !in s[..r.value]
    decreases |s|
  {
    if s == [] then None
    else if s[0] == c then Some(0)
    else match IndexOf(s[1..], c)
      case None => None
      case Some(i) => assert s[..i + 1] == [s[0]] + s[1..][..i]; Some(i + 1)
  }

  /** How the reset page reads a link: the decoded email and code, if the link has the
      expected shape. */
  function ParseResetLink(origin: string, link: string): Option<(string, string)> {
    var head := origin + RESET_PAGE;
    if !(head <= link) then None
    else
      var query := link[|head|..];
      match IndexOf(query, '&')
      case None => None
      case Some(i) =>
        var field := query[i..];
        if !(CODE_FIELD <= field) then None
        else match (UriComponent.Decode(query[..i]), UriComponent.Decode(field[|CODE_FIELD|..]))
          case (Some(email), Some(code)) => Some((email, code))
          case _ => None
  }

  /** The first c after a c-free prefix is at the end of the prefix. */
  lemma {:induction false} IndexOfAfter(a: string, c: char, b: string)
    requires c !in a
    ensures IndexOf(a + [c] + b, c) == Some(|a|)
    decreases |a|
  {
    if a != [] {
      assert (a + [c] + b)[1..] == a[1..] + [c] + b;
      IndexOfAfter(a[1..], c, b);
    }
  }

  lemma CodeFieldStart(c: string)
    ensures CODE_FIELD + c == ['&'] + ("reset_code=" + c)
  {
  }

  /** In the query of a reset link the first "&" ends the encoded email. */
  lemma QueryAmpersand(e: string, c: string)
    requires '&' !in e
    ensures IndexOf(e + CODE_FIELD + c, '&') == Some(|e|)
  {
    CodeFieldStart(c);
    assert e + CODE_FIELD + c == e + ['&'] + ("reset_code=" + c);
    IndexOfAfter(e, '&', "reset_code=" + c);
  }

  lemma QueryFields(e: string, c: string)
    ensures (e + CODE_FIELD + c)[..|e|] == e
    ensures (e + CODE_FIELD + c)[|e|..] == CODE_FIELD + c
  {
  }

  lemma CodeFieldValue(c: string)
    ensures (CODE_FIELD + c)[|CODE_FIELD|..] == c
  {
  }

  lemma LinkShape(origin: string, email: string, code: string)
    ensures ResetLink(origin, email, code) ==
      (origin + RESET_PAGE) + (UriComponent.Encode(email) + CODE_FIELD + UriComponent.Encode(code))
  {
  }

  lemma AfterHead(head: string, query: string)
    ensures head <= head + query && (head + query)[|head|..] == query
  {
  }

  /** The mailed link carries the email and the code exactly. */
  lemma ResetLinkRoundTrip(origin: string, email: string, code: string)
    ensures ParseResetLink(origin, ResetLink(origin, email, code)) == Some((email, code))
  {
    var head := origin + RESET_PAGE;
    var e, c := UriComponent.Encode(email), UriComponent.Encode(code);
    var query := e + CODE_FIELD + c;
    LinkShape(origin, email, code);
    AfterHead(head, query);
    QueryAmpersand(e, c);
    QueryFields(e, c);
    CodeFieldValue(c);
    UriComponent.DecodeEncode(email);
    UriComponent.DecodeEncode(code);
    assert ParseResetLink(origin, head + query) == Some((email, code));
  }
}
