/** What one request leaves in the store, the next one finds: account creation and
    login, the password-reset round trip, persona upload, fetch and removal, listing,
    and the key shapes every handler keeps. */
module Flows {
  import opened Basics
  import opened Strings
  import opened Keys
  import opened Accounts
  import opened BlobStore
  import opened Routes

  /** Every stored key has a shape the handlers give it for an account whose escaped
      email has no "/". */
  predicate OrdinaryStore(objects: map<string, StoredObject>) {
    forall k :: k in objects ==> OrdinaryKey(k)
  }

  predicate NoUpper(s: string) {
    forall i :: 0 <= i < |s| ==> !IsUpper(s[i])
  }

  /** A write or a removal at another key does not change what fetchUser finds. */
  lemma UserAtElsewhere(objects: map<string, StoredObject>, email: string, key: string, obj: StoredObject)
    requires key != UserKey(email)
    ensures UserAt(objects[key := obj], email) == UserAt(objects, email)
    ensures UserAt(objects - {key}, email) == UserAt(objects, email)
  {
  }

  /** A new account whose address has no upper-case letter logs in with its password,
      and with no other. */
  lemma CreateThenLogin(objects: map<string, StoredObject>, email: string, password: string, attempt: string)
    requires email != "" && password != "" && NoUpper(email)
    requires UserKey(email) !in objects
    ensures var created := AccountCreation(objects, Some(Params(Some(email), Some(password), None)));
      created.response == Done &&
      (Authenticate(created.objects, Some(Credentials(email, attempt))).Granted? <==> attempt == password)
  {
    LowerIdempotent(email);
    UserAtSaved(objects, email, UserRecord(Hash(password), None));
    VerifyHash(password, attempt);
  }

  /** An account registered under an address with an upper-case letter is created, but
      logging in with that address looks up the lower-cased one, which is another key:
      the account can never log in under the address it registered with. */
  lemma UpperCaseLockedOut(objects: map<string, StoredObject>, email: string, password: string, attempt: string)
    requires email != "" && password != "" && !NoUpper(email) && LocalPart(email) != []
    requires UserKey(email) !in objects && UserKey(Lower(email)) !in objects
    ensures var created := AccountCreation(objects, Some(Params(Some(email), Some(password), None)));
      created.response == Done &&
      Authenticate(created.objects, Some(Credentials(email, attempt))) == Refused(Unauthorized(CHALLENGE))
  {
    LowerIdempotent(email);
    LowerLocalPart(email);
    if UserKey(Lower(email)) == UserKey(email) {
      UserKeyInjective(Lower(email), email);
    }
  }

  /** Logging in under any address that lower-case maps to itself and shares the user key
      of a new account reaches that account, with its password. */
  lemma LoginThroughSharedKey(objects: map<string, StoredObject>, email: string, other: string, password: string)
    requires email != "" && password != "" && other != "" && Lower(other) == other
    requires UserKey(email) !in objects && UserKey(other) == UserKey(email)
    ensures var created := AccountCreation(objects, Some(Params(Some(email), Some(password), None)));
      Authenticate(created.objects, Some(Credentials(other, password))) == Granted(other)
  {
    UserAtSaved(objects, email, UserRecord(Hash(password), None));
    VerifyHash(password, password);
  }

  /** The lock-out is tied to the registered address, not to the account: the account
      "a%2Fb" (upper-case "F") is reached by logging in as "@a/b", whose escape is the
      same, so its user record is found and the password verifies. */
  lemma UpperCaseReachedThroughOtherAddress(objects: map<string, StoredObject>, password: string)
    requires password != "" && UserKey("a%2Fb") !in objects && UserKey("a%2fb") !in objects
    ensures var created := AccountCreation(objects, Some(Params(Some("a%2Fb"), Some(password), None)));
      created.response == Done &&
      Authenticate(created.objects, Some(Credentials("a%2Fb", password))).Refused? &&
      Authenticate(created.objects, Some(Credentials("@a/b", password))) == Granted("@a/b")
  {
    EncodedSlashCollides();
    LowerSamples();
    UpperSample();
    UpperCaseLockedOut(objects, "a%2Fb", password, password);
    LoginThroughSharedKey(objects, "a%2Fb", "@a/b", password);
  }

  lemma UpperSample()
    ensures !NoUpper("a%2Fb") && LocalPart("a%2Fb") != []
  {
    assert IsUpper("a%2Fb"[3]);
    SplitSingle("a%2Fb", '@');
  }

  lemma LowerSamples()
    ensures Lower("@a/b") == "@a/b" && Lower("a%2Fb") == "a%2fb"
  {
    assert Lower("b") == "b";
    assert Lower("/b") == "/b";
    assert Lower("a/b") == "a/b";
    assert Lower("Fb") == "fb";
    assert Lower("2Fb") == "2fb";
    assert Lower("%2Fb") == "%2fb";
  }

  /** The reset round trip: issuing mails a link that carries the address and the code,
      stores the code beside the unchanged password hash; consuming with that code sets
      the new password and clears the code, so the same code fails the second time. */
  lemma ResetFlow(objects: map<string, StoredObject>, origin: string, email: string, code: string, password: string)
    requires UserAt(objects, email).Found?
    requires email != "" && code != "" && password != ""
    ensures var user := UserAt(objects, email).user;
      var issued := ResetIssue(objects, origin, email, code);
      var body := Some(Params(Some(email), Some(password), Some(code)));
      var consumed := ResetConsumption(issued.objects, body);
      var again := ResetConsumption(consumed.objects, body);
      issued.mails == [ResetEmail(email, ResetLink(origin, email, code))] &&
      ParseResetLink(origin, issued.mails[0].link) == Some((email, code)) &&
      UserAt(issued.objects, email) == Found(UserRecord(user.passwordHash, Some(code))) &&
      consumed.response == Done &&
      UserAt(consumed.objects, email) == Found(UserRecord(Hash(password), None)) &&
      again.response == NotOk([4, 10], WRONG_CODE) && again.objects == consumed.objects
  {
    var user := UserAt(objects, email).user;
    var issued := ResetIssue(objects, origin, email, code);
    UserAtSaved(objects, email, UserRecord(user.passwordHash, Some(code)));
    ResetLinkRoundTrip(origin, email, code);
    UserAtSaved(issued.objects, email, UserRecord(Hash(password), None));
  }

  /** After a completed reset, an account whose address has no upper-case letter logs in
      with the new password and with no other. */
  lemma ResetThenLogin(objects: map<string, StoredObject>, origin: string, email: string, code: string,
                       password: string, attempt: string)
    requires UserAt(objects, email).Found?
    requires email != "" && code != "" && password != "" && NoUpper(email)
    ensures var issued := ResetIssue(objects, origin, email, code);
      var consumed := ResetConsumption(issued.objects, Some(Params(Some(email), Some(password), Some(code))));
      Authenticate(consumed.objects, Some(Credentials(email, attempt))).Granted? <==> attempt == password
  {
    ResetFlow(objects, origin, email, code, password);
    LowerIdempotent(email);
    VerifyHash(password, attempt);
  }

  /** A second request overwrites the pending code: the first code no longer works. */
  lemma ReissueReplacesCode(objects: map<string, StoredObject>, origin: string, email: string,
                            first: string, second: string, password: string)
    requires UserAt(objects, email).Found?
    requires email != "" && first != "" && password != "" && first != second
    ensures var user := UserAt(objects, email).user;
      var twice := ResetIssue(ResetIssue(objects, origin, email, first).objects, origin, email, second);
      var stale := ResetConsumption(twice.objects, Some(Params(Some(email), Some(password), Some(first))));
      UserAt(twice.objects, email) == Found(UserRecord(user.passwordHash, Some(second))) &&
      stale.response == NotOk([4, 10], WRONG_CODE) && stale.objects == twice.objects
  {
    var user := UserAt(objects, email).user;
    var once := ResetIssue(objects, origin, email, first);
    UserAtSaved(objects, email, UserRecord(user.passwordHash, Some(first)));
    UserAtSaved(once.objects, email, UserRecord(user.passwordHash, Some(second)));
  }

  /** An uploaded persona reads back with its content type as the only header; after its
      removal the same fetch answers 410. */
  lemma PersonaRoundTrip(objects: map<string, StoredObject>, creds: Option<Credentials>, pid: string,
                         body: Body, contentType: Option<string>)
    requires PersonaUpload(objects, creds, pid, body, contentType).response == Done
    ensures var uploaded := PersonaUpload(objects, creds, pid, body, contentType);
      var ct := contentType.value;
      var removed := PersonaRemoval(uploaded.objects, creds, pid);
      PersonaFetch(uploaded.objects, creds, pid).response == Content(map["content-type" := ct], StoredMedia(body, ct)) &&
      removed.response == Done &&
      PersonaFetch(removed.objects, creds, pid).response == Gone
  {
    var email := Authenticate(objects, creds).email;
    var key := PersonaKey(email, pid);
    var obj := StoredObject(StoredMedia(body, contentType.value), contentType.value, []);
    var uploaded := PersonaUpload(objects, creds, pid, body, contentType);
    OwnKeysDiffer(email, pid);
    UserAtElsewhere(objects, email, key, obj);
    assert Authenticate(uploaded.objects, creds) == Authenticate(objects, creds);
    UploadedNotEmpty(body, contentType.value);
    DeliveredPlain(obj);
    UserAtElsewhere(uploaded.objects, email, key, obj);
    assert Authenticate(uploaded.objects - {key}, creds) == Authenticate(objects, creds);
  }

  /** Persona uploads and removals stay inside the account: the user record of any
      account is untouched, when neither address has "/" in its local part. */
  lemma PersonaWritesKeepUsers(objects: map<string, StoredObject>, creds: Option<Credentials>, pid: string,
                               body: Body, contentType: Option<string>, other: string)
    requires Authenticate(objects, creds).Granted?
    requires '/' !in LocalPart(Authenticate(objects, creds).email) && '/' !in LocalPart(other)
    ensures UserAt(PersonaUpload(objects, creds, pid, body, contentType).objects, other) == UserAt(objects, other)
    ensures UserAt(PersonaRemoval(objects, creds, pid).objects, other) == UserAt(objects, other)
  {
    var email := Authenticate(objects, creds).email;
    EscapeSlashFree(email);
    EscapeSlashFree(other);
    if '/' !in pid {
      var key := PersonaKey(email, pid);
      KeyShapes(email, other, pid);
      if PersonaUpload(objects, creds, pid, body, contentType).response == Done {
        UserAtElsewhere(objects, other, key, StoredObject(StoredMedia(body, contentType.value), contentType.value, []));
      }
      UserAtElsewhere(objects, other, key, UserObject(UserRecord(Hash(""), None)));
    }
  }

  /** Listing is exact for an account whose address has no "/" in its local part, over a
      store of ordinary keys: every listed id names a stored persona of the account,
      every stored persona is listed, and the ids come in key order. */
  lemma ListingExact(objects: map<string, StoredObject>, creds: Option<Credentials>)
    requires Authenticate(objects, creds).Granted?
    requires '/' !in LocalPart(Authenticate(objects, creds).email)
    requires OrdinaryStore(objects)
    ensures var email := Authenticate(objects, creds).email;
      var ids := PersonaListing(objects, creds).response.ids;
      (forall i :: 0 <= i < |ids| ==>
         ids[i].Some? && '/' !in ids[i].value && PersonaKey(email, ids[i].value) in objects) &&
      (forall pid :: '/' !in pid && PersonaKey(email, pid) in objects ==> Some(pid) in ids) &&
      (forall i, j :: 0 <= i < j < |ids| ==> Less(ids[i].value, ids[j].value))
  {
    var email := Authenticate(objects, creds).email;
    EscapeSlashFree(email);
    var prefix := PersonaPrefix(email);
    var keys := SortedKeys(KeysUnder(objects, prefix));
    var ids := PersonaIds(keys);
    assert PersonaListing(objects, creds).response.ids == ids;
    forall i | 0 <= i < |keys|
      ensures ids[i].Some? && '/' !in ids[i].value && keys[i] == PersonaKey(email, ids[i].value)
    {
      assert keys[i] in KeysUnder(objects, prefix);
      ListedOrdinaryKey(email, keys[i]);
    }
    forall pid | '/' !in pid && PersonaKey(email, pid) in objects ensures Some(pid) in ids {
      var key := PersonaKey(email, pid);
      PrefixOfPersonaKey(email, pid);
      assert key in KeysUnder(objects, prefix);
      var i :| 0 <= i < |keys| && keys[i] == key;
      KeyShapes(email, email, pid);
      assert ids[i] == Some(pid);
    }
    forall i, j | 0 <= i < j < |ids| ensures Less(ids[i].value, ids[j].value) {
      PersonaKeyOrder(email, ids[i].value, ids[j].value);
    }
  }

  /** An account with no uploads lists no personas. */
  lemma ListingEmpty(objects: map<string, StoredObject>, creds: Option<Credentials>)
    requires Authenticate(objects, creds).Granted?
    requires '/' !in LocalPart(Authenticate(objects, creds).email)
    requires OrdinaryStore(objects)
    requires forall pid :: PersonaKey(Authenticate(objects, creds).email, pid) !in objects
    ensures PersonaListing(objects, creds).response == PersonaList([])
  {
    ListingExact(objects, creds);
  }

  /** Without the trailing "/" on the listing prefix, the user record of the account
      x + "/personas" + y shows up in the persona list of account x as "user.json". */
  lemma ForeignRecordListed(objects: map<string, StoredObject>, creds: Option<Credentials>, y: string)
    requires Authenticate(objects, creds).Granted?
    requires '@' !in Authenticate(objects, creds).email && '/' !in Authenticate(objects, creds).email
    requires '@' !in y && '/' !in y
    requires UserKey(Authenticate(objects, creds).email + "/personas" + y) in objects
    ensures Some("user.json") in PersonaListing(objects, creds).response.ids
  {
    var x := Authenticate(objects, creds).email;
    var key := UserKey(x + "/personas" + y);
    ForeignKeyListed(x, y);
    var keys := SortedKeys(KeysUnder(objects, PersonaPrefix(x)));
    assert key in KeysUnder(objects, PersonaPrefix(x));
    var i :| 0 <= i < |keys| && keys[i] == key;
    assert PersonaIds(keys)[i] == Some("user.json");
  }

  /** Account creation keeps the store ordinary for an address without "/" in its
      local part. */
  lemma CreationKeepsOrdinary(objects: map<string, StoredObject>, body: Option<Params>)
    requires OrdinaryStore(objects)
    requires body.Some? && body.value.email.Some? ==> '/' !in LocalPart(body.value.email.value)
    ensures OrdinaryStore(AccountCreation(objects, body).objects)
  {
    if AccountCreation(objects, body).response == Done {
      var email := body.value.email.value;
      EscapeSlashFree(email);
      KeyShapes(email, email, "");
    }
  }

  /** A persona upload keeps the store ordinary for an account without "/" in the local
      part of its address. */
  lemma UploadKeepsOrdinary(objects: map<string, StoredObject>, creds: Option<Credentials>, pid: string,
                            body: Body, contentType: Option<string>)
    requires OrdinaryStore(objects)
    requires Authenticate(objects, creds).Granted? ==> '/' !in LocalPart(Authenticate(objects, creds).email)
    ensures OrdinaryStore(PersonaUpload(objects, creds, pid, body, contentType).objects)
  {
    if PersonaUpload(objects, creds, pid, body, contentType).response == Done {
      var email := Authenticate(objects, creds).email;
      EscapeSlashFree(email);
      KeyShapes(email, email, pid);
    }
  }

  /** Removals and both reset steps keep the store ordinary: they only delete keys or
      rewrite a user record that is already stored. */
  lemma OtherWritesKeepOrdinary(objects: map<string, StoredObject>, creds: Option<Credentials>, pid: string,
                                origin: string, email: string, code: string, body: Option<Params>)
    requires OrdinaryStore(objects)
    ensures OrdinaryStore(PersonaRemoval(objects, creds, pid).objects)
    ensures OrdinaryStore(ResetIssue(objects, origin, email, code).objects)
    ensures OrdinaryStore(ResetConsumption(objects, body).objects)
  {
  }
}
