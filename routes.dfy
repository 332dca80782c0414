/** The request handlers of my_modules/routes.js over the object store: account creation,
    the basic-auth guard, persona upload, fetch, listing and removal, and the two-phase
    password reset. Each handler is a function from the store it starts with to an
    Outcome (the response, the store it leaves, the store calls it makes, the reset
    emails it dispatches), and a Router method that performs it against a Store. */
module Routes {
  import opened Basics
  import opened Strings
  import opened Keys
  import opened Accounts
  import opened BlobStore

  /** The challenge of every 401: the "Basic" scheme with a realm parameter
      (section 2 of RFC 7617). */
  const CHALLENGE := "Basic realm=\"Key Backup Service\""

  const MISSING_PARAMETERS := "Missing parameters"
  const ALREADY_REGISTERED := "Email already registered; Reset password or try another email"
  const INVALID_ID := "Invalid persona id: "
  const MISSING_CONTENT := "Missing required content"
  const MISSING_CONTENT_TYPE := "Missing required header: content-type"
  const MISSING_EMAIL := "Missing email parameter"
  const EMPTY_EMAIL := "Empty email parameter"
  const EMPTY_CODE := "Empty reset code parameter"
  const EMPTY_PASSWORD := "Empty password parameter"
  const UNKNOWN_EMAIL := "Invalid email - account not registered with this service"
  const WRONG_CODE := "Invalid reset code, please request another"

  /** What a handler sends back. */
  datatype Response =
    | Done                                        // res.json({})
    | PersonaList(ids: seq<Option<string>>)       // res.json({personas}); None is undefined
    | NotOk(codes: seq<nat>, message: string)     // net.signalNotOk
    | Unauthorized(challenge: string)             // send401: 401 'Access denied'
    | Gone                                        // 410 'Persona not found'
    | NoContent                                   // 204
    | Content(headers: map<string, string>, media: Media)
    | ServerError                                 // a rejection reaching Express's error handler

  /** req.body of a persona upload: a raw buffer, or the value a JSON or form parser made. */
  datatype Body = Raw(bytes: seq<byte>) | Parsed(doc: Json)

  /** What fetchUser yields: null, a user record, or content that is not a user record. */
  datatype UserLookup = NoUser | Found(user: UserRecord) | Unreadable

  /** verifyAuthentication: the principal, or the response already sent. */
  datatype Auth = Granted(email: string) | Refused(response: Response)

  /** One password-reset email handed to the email service. */
  datatype ResetEmail = ResetEmail(to: string, link: string)

  /** Everything one request does. */
  datatype Outcome = Outcome(response: Response, objects: map<string, StoredObject>,
                             accesses: seq<Access>, mails: seq<ResetEmail>)

  /** A request field that clean() lets through: present and not empty. */
  predicate Given(v: Option<string>) {
    Clean(v).Some?
  }

  /** What saveUser stores: the stringified record as application/json, no metadata. */
  function UserObject(user: UserRecord): StoredObject {
    StoredObject(JsonText(UserJson(user)), "application/json", [])
  }

  /** JSON.parse of a stored object, read as a user record. */
  function ReadUser(obj: StoredObject): (r: UserLookup)
    ensures r != NoUser
  {
    if !obj.media.JsonText? then Unreadable
    else match UserFromJson(obj.media.doc)
      case Some(user) => Found(user)
      case None => Unreadable
  }

  /** fetchUser(email) against a store. */
  function UserAt(objects: map<string, StoredObject>, email: string): (r: UserLookup)
    ensures r.NoUser? <==> UserKey(email) !in objects
  {
    match Lookup(objects, UserKey(email))
    case None => NoUser
    case Some(obj) => ReadUser(obj)
  }

  /** What saveUser writes, fetchUser finds. */
  lemma UserAtSaved(objects: map<string, StoredObject>, email: string, user: UserRecord)
    ensures UserAt(objects[UserKey(email) := UserObject(user)], email) == Found(user)
  {
    UserJsonRoundTrip(user);
  }

  /** verifyAuthentication: the name and the password must both be given, the account is
      looked up under the lower-cased name, and the password must verify against it. */
  function Authenticate(objects: map<string, StoredObject>, creds: Option<Credentials>): (a: Auth)
    ensures a.Granted? <==>
      creds.Some? && creds.value.name != "" && creds.value.pass != "" &&
      UserAt(objects, Lower(creds.value.name)).Found? &&
      Verify(UserAt(objects, Lower(creds.value.name)).user.passwordHash, creds.value.pass)
    ensures a.Granted? ==> a.email == Lower(creds.value.name)
    ensures a.Granted? ==> forall i :: 0 <= i < |a.email| ==> !IsUpper(a.email[i])
    ensures a.Refused? ==>
      a.response == Unauthorized(CHALLENGE) ||
      (a.response == ServerError && creds.Some? && UserAt(objects, Lower(creds.value.name)).Unreadable?)
  {
    if creds.None? || !Given(Some(creds.value.name)) || !Given(Some(creds.value.pass)) then
      Refused(Unauthorized(CHALLENGE))
    else
      var email := Lower(creds.value.name);
      match UserAt(objects, email)
      case NoUser => Refused(Unauthorized(CHALLENGE))
      case Unreadable => Refused(ServerError)
      case Found(user) =>
        if Verify(user.passwordHash, creds.value.pass) then Granted(email) else Refused(Unauthorized(CHALLENGE))
  }

  /** The store calls verifyAuthentication makes: one read of the user record, and none
      when the credentials are missing or empty. */
  function AuthReads(creds: Option<Credentials>): (r: seq<Access>)
    ensures |r| <= 1
    ensures r != [] <==> creds.Some? && creds.value.name != "" && creds.value.pass != ""
  {
    if creds.Some? && creds.value.name != "" && creds.value.pass != "" then
      [Read(UserKey(Lower(creds.value.name)))]
    else []
  }

  /** `!media || media.length == 0` on the request body. */
  predicate MissingContent(body: Body) {
    match body
    case Raw(bytes) => |bytes| == 0
    case Parsed(doc) =>
      match doc
      case JNull => true
      case JBool(b) => !b
      case JNumber(n) => n == 0
      case JString(s) => s == ""
      case JArray(items) => |items| == 0
      case JObject(_) => false
  }

  /** JSON.stringify of a Buffer: `{"type":"Buffer","data":[...]}`. */
  function BufferJson(bytes: seq<byte>): Json {
    JObject([("type", JString("Buffer")),
             ("data", JArray(seq(|bytes|, i requires 0 <= i < |bytes| => JNumber(bytes[i] as int))))])
  }

  /** The media an upload stores: a value of type "object" sent as exactly
      application/json is stringified, anything else goes to the store as it is. */
  function StoredMedia(body: Body, contentType: string): Media {
    match body
    case Raw(bytes) => if contentType == "application/json" then JsonText(BufferJson(bytes)) else Bytes(bytes)
    case Parsed(doc) =>
      if contentType == "application/json" && (doc.JObject? || doc.JArray? || doc.JNull?) then JsonText(doc)
      else Unserialised(doc)
  }

  /** `mediaResult.media.length == 0`; stringified JSON is never empty. */
  predicate IsEmptyMedia(m: Media) {
    m.Bytes? && |m.data| == 0
  }

  /** An upload that passed the content check never reads back as empty. */
  lemma UploadedNotEmpty(body: Body, contentType: string)
    requires !MissingContent(body)
    ensures !IsEmptyMedia(StoredMedia(body, contentType))
  {
  }

  /** The response headers after `res.setHeader(name, value)` for each entry in turn;
      header names are case-insensitive, so a later entry replaces an earlier one whose
      name differs only in case. */
  function SetHeaders(headers: map<string, string>, entries: seq<(string, string)>): map<string, string>
    decreases |entries|
  {
    if entries == [] then headers
    else
      var last := entries[|entries| - 1];
      SetHeaders(headers, entries[..|entries| - 1])[Lower(last.0) := last.1]
  }

  /** sendMedia: 204 for an empty body; otherwise every metadata entry as a header,
      then Content-Type from the stored content type, then the media. */
  function Delivery(obj: StoredObject): Response {
    if IsEmptyMedia(obj.media) then NoContent
    else Content(SetHeaders(map[], obj.metadata)["content-type" := obj.contentType], obj.media)
  }

  method SendMedia(obj: StoredObject) returns (response: Response)
    ensures response == Delivery(obj)
  {
    if IsEmptyMedia(obj.media) {
      return NoContent;
    }
    var headers: map<string, string> := map[];
    var i := 0;
    while i < |obj.metadata|
      invariant 0 <= i <= |obj.metadata|
      invariant headers == SetHeaders(map[], obj.metadata[..i])
    {
      var entry := obj.metadata[i];
      assert obj.metadata[..i + 1][..i] == obj.metadata[..i];
      headers := headers[Lower(entry.0) := entry.1];
      i := i + 1;
    }
    assert obj.metadata[..i] == obj.metadata;
    headers := headers["content-type" := obj.contentType];
    response := Content(headers, obj.media);
  }

  /** A header named by some entry holds the value of the last entry with that name. */
  lemma {:induction false} LastEntryWins(entries: seq<(string, string)>, i: nat)
    requires i < |entries|
    requires forall j :: i < j < |entries| ==> Lower(entries[j].0) != Lower(entries[i].0)
    ensures Lower(entries[i].0) in SetHeaders(map[], entries)
    ensures SetHeaders(map[], entries)[Lower(entries[i].0)] == entries[i].1
    decreases |entries|
  {
    if i < |entries| - 1 {
      var init := entries[..|entries| - 1];
      assert init[i] == entries[i];
      LastEntryWins(init, i);
    }
  }

  /** A header that no entry names is not set. */
  lemma {:induction false} UnnamedHeader(entries: seq<(string, string)>, name: string)
    requires forall j :: 0 <= j < |entries| ==> Lower(entries[j].0) != name
    ensures name !in SetHeaders(map[], entries)
    decreases |entries|
  {
    if entries != [] {
      UnnamedHeader(entries[..|entries| - 1], name);
    }
  }

  /** sendMedia sets Content-Type after the metadata, so the stored content type wins
      over a metadata entry of the same name, and every other metadata entry is sent
      with its last value. */
  lemma DeliveredHeaders(obj: StoredObject, i: nat)
    requires !IsEmptyMedia(obj.media) && i < |obj.metadata|
    requires forall j :: i < j < |obj.metadata| ==> Lower(obj.metadata[j].0) != Lower(obj.metadata[i].0)
    ensures Delivery(obj).headers["content-type"] == obj.contentType
    ensures Delivery(obj).media == obj.media
    ensures Lower(obj.metadata[i].0) in Delivery(obj).headers
    ensures Lower(obj.metadata[i].0) != "content-type" ==>
      Delivery(obj).headers[Lower(obj.metadata[i].0)] == obj.metadata[i].1
  {
    LastEntryWins(obj.metadata, i);
  }

  /** Without metadata, a non-empty object is sent with its content type as the only header. */
  lemma DeliveredPlain(obj: StoredObject)
    requires !IsEmptyMedia(obj.media)
    requires forall j :: 0 <= j < |obj.metadata| ==> Lower(obj.metadata[j].0) == "content-type"
    ensures Delivery(obj) == Content(map["content-type" := obj.contentType], obj.media)
  {
    var headers := SetHeaders(map[], obj.metadata);
    forall name | name != "content-type" ensures name !in headers {
      UnnamedHeader(obj.metadata, name);
    }
    assert headers["content-type" := obj.contentType] == map["content-type" := obj.contentType];
  }

  /** `files.Contents.reduce(...)`: the third "/"-separated part of every listed key. */
  function PersonaIds(keys: seq<string>): (ids: seq<Option<string>>)
    ensures |ids| == |keys|
    ensures forall i :: 0 <= i < |keys| ==> ids[i] == PersonaId(keys[i])
    decreases |keys|
  {
    if keys == [] then [] else [PersonaId(keys[0])] + PersonaIds(keys[1..])
  }

  /** POST /accounts. */
  function AccountCreation(objects: map<string, StoredObject>, body: Option<Params>): (o: Outcome)
    ensures o.mails == []
    ensures o.accesses == [] <==> body.None? || !Given(body.value.email) || !Given(body.value.password)
    ensures o.accesses == [] ==> o.response == NotOk([4], MISSING_PARAMETERS)
    ensures o.response == Done <==>
      body.Some? && Given(body.value.email) && Given(body.value.password) &&
      UserKey(body.value.email.value) !in objects
    ensures o.response == Done ==>
      o.objects == objects[UserKey(body.value.email.value) :=
                           UserObject(UserRecord(Hash(body.value.password.value), None))]
    ensures o.response != Done ==> o.objects == objects
    ensures o.accesses != [] && UserAt(objects, body.value.email.value).Found? ==>
      o.response == NotOk([4, 9], ALREADY_REGISTERED)
  {
    if body.None? || !Given(body.value.email) || !Given(body.value.password) then
      Outcome(NotOk([4], MISSING_PARAMETERS), objects, [], [])
    else
      var email, password := body.value.email.value, body.value.password.value;
      var key := UserKey(email);
      match UserAt(objects, email)
      case Found(_) => Outcome(NotOk([4, 9], ALREADY_REGISTERED), objects, [Read(key)], [])
      case Unreadable => Outcome(ServerError, objects, [Read(key)], [])
      case NoUser =>
        Outcome(Done, objects[key := UserObject(UserRecord(Hash(password), None))], [Read(key), Write(key)], [])
  }

  /** GET /personas. */
  ghost function PersonaListing(objects: map<string, StoredObject>, creds: Option<Credentials>): (o: Outcome)
    ensures o.objects == objects && o.mails == []
    ensures Authenticate(objects, creds).Refused? ==>
      o.response == Authenticate(objects, creds).response && o.accesses == AuthReads(creds)
    ensures Authenticate(objects, creds).Granted? ==>
      o.response.PersonaList? &&
      o.accesses == AuthReads(creds) + [Scan(PersonaPrefix(Authenticate(objects, creds).email))]
  {
    match Authenticate(objects, creds)
    case Refused(r) => Outcome(r, objects, AuthReads(creds), [])
    case Granted(email) =>
      var prefix := PersonaPrefix(email);
      Outcome(PersonaList(PersonaIds(SortedKeys(KeysUnder(objects, prefix)))), objects,
              AuthReads(creds) + [Scan(prefix)], [])
  }

  /** POST /personas/:pid. */
  function PersonaUpload(objects: map<string, StoredObject>, creds: Option<Credentials>, pid: string,
                         body: Body, contentType: Option<string>): (o: Outcome)
    ensures o.mails == []
    ensures Authenticate(objects, creds).Refused? ==> o.response == Authenticate(objects, creds).response
    ensures Authenticate(objects, creds).Granted? && '/' in pid ==> o.response == NotOk([4], INVALID_ID + pid)
    ensures o.response == Done <==>
      Authenticate(objects, creds).Granted? && '/' !in pid && !MissingContent(body) && Given(contentType)
    ensures o.response == Done ==>
      var key := PersonaKey(Authenticate(objects, creds).email, pid);
      o.objects == objects[key := StoredObject(StoredMedia(body, contentType.value), contentType.value, [])] &&
      o.accesses == AuthReads(creds) + [Write(key)]
    ensures o.response != Done ==> o.objects == objects && o.accesses == AuthReads(creds)
  {
    match Authenticate(objects, creds)
    case Refused(r) => Outcome(r, objects, AuthReads(creds), [])
    case Granted(email) =>
      if '/' in pid then Outcome(NotOk([4], INVALID_ID + pid), objects, AuthReads(creds), [])
      else if MissingContent(body) then Outcome(NotOk([4], MISSING_CONTENT), objects, AuthReads(creds), [])
      else if !Given(contentType) then Outcome(NotOk([4], MISSING_CONTENT_TYPE), objects, AuthReads(creds), [])
      else
        var key := PersonaKey(email, pid);
        var obj := StoredObject(StoredMedia(body, contentType.value), contentType.value, []);
        Outcome(Done, objects[key := obj], AuthReads(creds) + [Write(key)], [])
  }

  /** GET /personas/:pid. */
  function PersonaFetch(objects: map<string, StoredObject>, creds: Option<Credentials>, pid: string): (o: Outcome)
    ensures o.objects == objects && o.mails == []
    ensures Authenticate(objects, creds).Refused? ==>
      o.response == Authenticate(objects, creds).response && o.accesses == AuthReads(creds)
    ensures Authenticate(objects, creds).Granted? && '/' in pid ==>
      o.response == NotOk([4], INVALID_ID + pid) && o.accesses == AuthReads(creds)
    ensures Authenticate(objects, creds).Granted? && '/' !in pid ==>
      var key := PersonaKey(Authenticate(objects, creds).email, pid);
      o.accesses == AuthReads(creds) + [Read(key)] &&
      (o.response == Gone <==> key !in objects) &&
      (key in objects ==> o.response == Delivery(objects[key]))
  {
    match Authenticate(objects, creds)
    case Refused(r) => Outcome(r, objects, AuthReads(creds), [])
    case Granted(email) =>
      if '/' in pid then Outcome(NotOk([4], INVALID_ID + pid), objects, AuthReads(creds), [])
      else
        var key := PersonaKey(email, pid);
        var response := match Lookup(objects, key)
          case None => Gone
          case Some(obj) => Delivery(obj);
        Outcome(response, objects, AuthReads(creds) + [Read(key)], [])
  }

  /** DELETE /personas/:pid. */
  function PersonaRemoval(objects: map<string, StoredObject>, creds: Option<Credentials>, pid: string): (o: Outcome)
    ensures o.mails == []
    ensures Authenticate(objects, creds).Refused? ==> o.response == Authenticate(objects, creds).response
    ensures Authenticate(objects, creds).Granted? && '/' in pid ==> o.response == NotOk([4], INVALID_ID + pid)
    ensures o.response == Done <==> Authenticate(objects, creds).Granted? && '/' !in pid
    ensures o.response == Done ==>
      var key := PersonaKey(Authenticate(objects, creds).email, pid);
      o.objects == objects - {key} && o.accesses == AuthReads(creds) + [Remove([key])]
    ensures o.response != Done ==> o.objects == objects && o.accesses == AuthReads(creds)
  {
    match Authenticate(objects, creds)
    case Refused(r) => Outcome(r, objects, AuthReads(creds), [])
    case Granted(email) =>
      if '/' in pid then Outcome(NotOk([4], INVALID_ID + pid), objects, AuthReads(creds), [])
      else
        var key := PersonaKey(email, pid);
        Outcome(Done, objects - {key}, AuthReads(creds) + [Remove([key])], [])
  }

  /** sendPasswordResetEmail: an unknown email is answered like a known one, with nothing
      stored and nothing sent; a known account gets the code stored on its record and
      one email carrying the reset link. */
  function ResetIssue(objects: map<string, StoredObject>, origin: string, email: string, code: string): (o: Outcome)
    ensures o.response == Done || o.response == ServerError
    ensures UserAt(objects, email).NoUser? ==>
      o.response == Done && o.objects == objects && o.mails == [] && o.accesses == [Read(UserKey(email))]
    ensures UserAt(objects, email).Unreadable? ==>
      o.response == ServerError && o.objects == objects && o.mails == []
    ensures UserAt(objects, email).Found? ==>
      var user := UserAt(objects, email).user;
      o.response == Done &&
      o.objects == objects[UserKey(email) := UserObject(UserRecord(user.passwordHash, Some(code)))] &&
      o.accesses == [Read(UserKey(email)), Write(UserKey(email))] &&
      o.mails == [ResetEmail(email, ResetLink(origin, email, code))]
  {
    var key := UserKey(email);
    match UserAt(objects, email)
    case NoUser => Outcome(Done, objects, [Read(key)], [])
    case Unreadable => Outcome(ServerError, objects, [Read(key)], [])
    case Found(user) =>
      var updated := user.(resetCode := Some(code));
      Outcome(Done, objects[key := UserObject(updated)], [Read(key), Write(key)],
              [ResetEmail(email, ResetLink(origin, email, code))])
  }

  /** GET /password/reset/:email. */
  function ResetRequestByPath(objects: map<string, StoredObject>, origin: string, email: string, code: string): (o: Outcome)
    ensures email == "" ==> o == Outcome(NotOk([4], MISSING_EMAIL), objects, [], [])
    ensures email != "" ==> o == ResetIssue(objects, origin, email, code)
  {
    if !Given(Some(email)) then Outcome(NotOk([4], MISSING_EMAIL), objects, [], [])
    else ResetIssue(objects, origin, email, code)
  }

  /** PUT /password/reset. */
  function ResetRequest(objects: map<string, StoredObject>, origin: string, body: Option<Params>, code: string): (o: Outcome)
    ensures body.None? ==> o == Outcome(NotOk([4], MISSING_PARAMETERS), objects, [], [])
    ensures body.Some? && !Given(body.value.email) ==> o == Outcome(NotOk([4], MISSING_EMAIL), objects, [], [])
    ensures body.Some? && Given(body.value.email) ==> o == ResetIssue(objects, origin, body.value.email.value, code)
  {
    if body.None? then Outcome(NotOk([4], MISSING_PARAMETERS), objects, [], [])
    else if !Given(body.value.email) then Outcome(NotOk([4], MISSING_EMAIL), objects, [], [])
    else ResetIssue(objects, origin, body.value.email.value, code)
  }

  /** POST /password/reset: the fields are checked in the order email, code, password
      before the store is touched; the code must equal the one stored on the record. */
  function ResetConsumption(objects: map<string, StoredObject>, body: Option<Params>): (o: Outcome)
    ensures o.mails == []
    ensures body.None? ==> o.response == NotOk([4], MISSING_PARAMETERS)
    ensures body.Some? && !Given(body.value.email) ==> o.response == NotOk([4], EMPTY_EMAIL)
    ensures body.Some? && Given(body.value.email) && !Given(body.value.resetCode) ==>
      o.response == NotOk([4], EMPTY_CODE)
    ensures body.Some? && Given(body.value.email) && Given(body.value.resetCode) && !Given(body.value.password) ==>
      o.response == NotOk([4], EMPTY_PASSWORD)
    ensures o.accesses == [] <==>
      body.None? || !Given(body.value.email) || !Given(body.value.resetCode) || !Given(body.value.password)
    ensures o.accesses != [] && UserAt(objects, body.value.email.value).NoUser? ==>
      o.response == NotOk([4, 10], UNKNOWN_EMAIL)
    ensures o.accesses != [] && UserAt(objects, body.value.email.value).Found? &&
            UserAt(objects, body.value.email.value).user.resetCode != Some(body.value.resetCode.value) ==>
      o.response == NotOk([4, 10], WRONG_CODE)
    ensures o.response == Done <==>
      o.accesses != [] && UserAt(objects, body.value.email.value).Found? &&
      UserAt(objects, body.value.email.value).user.resetCode == Some(body.value.resetCode.value)
    ensures o.response == Done ==>
      o.objects == objects[UserKey(body.value.email.value) :=
                           UserObject(UserRecord(Hash(body.value.password.value), None))]
    ensures o.response != Done ==> o.objects == objects
  {
    if body.None? then Outcome(NotOk([4], MISSING_PARAMETERS), objects, [], [])
    else if !Given(body.value.email) then Outcome(NotOk([4], EMPTY_EMAIL), objects, [], [])
    else if !Given(body.value.resetCode) then Outcome(NotOk([4], EMPTY_CODE), objects, [], [])
    else if !Given(body.value.password) then Outcome(NotOk([4], EMPTY_PASSWORD), objects, [], [])
    else
      var email, code, password := body.value.email.value, body.value.resetCode.value, body.value.password.value;
      var key := UserKey(email);
      match UserAt(objects, email)
      case NoUser => Outcome(NotOk([4, 10], UNKNOWN_EMAIL), objects, [Read(key)], [])
      case Unreadable => Outcome(ServerError, objects, [Read(key)], [])
      case Found(user) =>
        if user.resetCode != Some(code) then Outcome(NotOk([4, 10], WRONG_CODE), objects, [Read(key)], [])
        else Outcome(Done, objects[key := UserObject(UserRecord(Hash(password), None))], [Read(key), Write(key)], [])
  }

  /** The email service: the reset emails it has been handed, in order. */
  class Mailer {
    var sent: seq<ResetEmail>

    constructor ()
      ensures sent == []
    {
      sent := [];
    }

    /** emailService.sendPasswordResetEmail(email, link). */
    method Send(to: string, link: string)
      modifies this
      ensures sent == old(sent) + [ResetEmail(to, link)]
    {
      sent := sent + [ResetEmail(to, link)];
    }
  }

  /** The router the module exports: the handlers, bound to one store and one mailer. */
  class Router {
    const store: Store
    const mailer: Mailer

    constructor (store: Store, mailer: Mailer)
      ensures this.store == store && this.mailer == mailer
    {
      this.store := store;
      this.mailer := mailer;
    }

    /** The request has had the effect the outcome describes. */
    twostate predicate Performed(response: Response, o: Outcome)
      reads this, store, mailer
    {
      response == o.response && store.objects == o.objects &&
      store.log == old(store.log) + o.accesses && mailer.sent == old(mailer.sent) + o.mails
    }

    /** fetchUser. */
    method FetchUser(email: string) returns (user: UserLookup)
      modifies store`log
      ensures user == UserAt(store.objects, email)
      ensures store.log == old(store.log) + [Read(UserKey(email))]
    {
      var found := store.Fetch(UserKey(email));
      user := match found
        case None => NoUser
        case Some(obj) => ReadUser(obj);
    }

    /** saveUser. */
    method SaveUser(email: string, user: UserRecord)
      modifies store
      ensures store.objects == old(store.objects)[UserKey(email) := UserObject(user)]
      ensures store.log == old(store.log) + [Write(UserKey(email))]
    {
      store.Save(UserKey(email), UserObject(user));
    }

    /** verifyAuthentication. */
    method VerifyAuthentication(creds: Option<Credentials>) returns (auth: Auth)
      modifies store`log
      ensures auth == Authenticate(store.objects, creds)
      ensures store.log == old(store.log) + AuthReads(creds)
    {
      if creds.None? {
        return Refused(Unauthorized(CHALLENGE));
      }
      var name, pass := Clean(Some(creds.value.name)), Clean(Some(creds.value.pass));
      if name.None? || pass.None? {
        return Refused(Unauthorized(CHALLENGE));
      }
      var email := Lower(name.value);
      var user := FetchUser(email);
      match user
      case NoUser => auth := Refused(Unauthorized(CHALLENGE));
      case Unreadable => auth := Refused(ServerError);
      case Found(record) =>
        auth := if Verify(record.passwordHash, pass.value) then Granted(email) else Refused(Unauthorized(CHALLENGE));
    }

    method CreateAccount(body: Option<Params>) returns (response: Response)
      modifies store
      ensures Performed(response, AccountCreation(old(store.objects), body))
    {
      if body.None? || !Given(body.value.email) || !Given(body.value.password) {
        return NotOk([4], MISSING_PARAMETERS);
      }
      var email, password := body.value.email.value, body.value.password.value;
      var user := FetchUser(email);
      if user.Found? {
        return NotOk([4, 9], ALREADY_REGISTERED);
      }
      if user.Unreadable? {
        return ServerError;
      }
      SaveUser(email, UserRecord(Hash(password), None));
      response := Done;
    }

    method ListPersonas(creds: Option<Credentials>) returns (response: Response)
      modifies store`log
      ensures Performed(response, PersonaListing(old(store.objects), creds))
    {
      var auth := VerifyAuthentication(creds);
      if auth.Refused? {
        return auth.response;
      }
      var keys := store.List(PersonaPrefix(auth.email));
      response := PersonaList(PersonaIds(keys));
    }

    method PutPersona(creds: Option<Credentials>, pid: string, body: Body, contentType: Option<string>)
      returns (response: Response)
      modifies store
      ensures Performed(response, PersonaUpload(old(store.objects), creds, pid, body, contentType))
    {
      var auth := VerifyAuthentication(creds);
      if auth.Refused? {
        return auth.response;
      }
      if '/' in pid {
        return NotOk([4], INVALID_ID + pid);
      }
      if MissingContent(body) {
        return NotOk([4], MISSING_CONTENT);
      }
      if !Given(contentType) {
        return NotOk([4], MISSING_CONTENT_TYPE);
      }
      var media := StoredMedia(body, contentType.value);
      store.Save(PersonaKey(auth.email, pid), StoredObject(media, contentType.value, []));
      response := Done;
    }

    method GetPersona(creds: Option<Credentials>, pid: string) returns (response: Response)
      modifies store`log
      ensures Performed(response, PersonaFetch(old(store.objects), creds, pid))
    {
      var auth := VerifyAuthentication(creds);
      if auth.Refused? {
        return auth.response;
      }
      if '/' in pid {
        return NotOk([4], INVALID_ID + pid);
      }
      var found := store.Fetch(PersonaKey(auth.email, pid));
      if found.None? {
        return Gone;
      }
      response := SendMedia(found.value);
    }

    method DeletePersona(creds: Option<Credentials>, pid: string) returns (response: Response)
      modifies store
      ensures Performed(response, PersonaRemoval(old(store.objects), creds, pid))
    {
      var auth := VerifyAuthentication(creds);
      if auth.Refused? {
        return auth.response;
      }
      if '/' in pid {
        return NotOk([4], INVALID_ID + pid);
      }
      var key := PersonaKey(auth.email, pid);
      store.Delete([key]);
      assert (set k | k in [key]) == {key};
      response := Done;
    }

    /** sendPasswordResetEmail; `code` is the fresh randomBytes(32) in hex. */
    method SendPasswordResetEmail(origin: string, email: string, code: string) returns (response: Response)
      requires IsResetCode(code)
      modifies store, mailer
      ensures Performed(response, ResetIssue(old(store.objects), origin, email, code))
    {
      var user := FetchUser(email);
      if user.NoUser? {
        return Done;
      }
      if user.Unreadable? {
        return ServerError;
      }
      var updated := user.user.(resetCode := Some(code));
      SaveUser(email, updated);
      mailer.Send(email, ResetLink(origin, email, code));
      response := Done;
    }

    method RequestResetByPath(origin: string, email: string, code: string) returns (response: Response)
      requires IsResetCode(code)
      modifies store, mailer
      ensures Performed(response, ResetRequestByPath(old(store.objects), origin, email, code))
    {
      if !Given(Some(email)) {
        return NotOk([4], MISSING_EMAIL);
      }
      response := SendPasswordResetEmail(origin, email, code);
    }

    method RequestReset(origin: string, body: Option<Params>, code: string) returns (response: Response)
      requires IsResetCode(code)
      modifies store, mailer
      ensures Performed(response, ResetRequest(old(store.objects), origin, body, code))
    {
      if body.None? {
        return NotOk([4], MISSING_PARAMETERS);
      }
      if !Given(body.value.email) {
        return NotOk([4], MISSING_EMAIL);
      }
      response := SendPasswordResetEmail(origin, body.value.email.value, code);
    }

    method ConsumeReset(body: Option<Params>) returns (response: Response)
      modifies store
      ensures Performed(response, ResetConsumption(old(store.objects), body))
    {
      if body.None? {
        return NotOk([4], MISSING_PARAMETERS);
      }
      if !Given(body.value.email) {
        return NotOk([4], EMPTY_EMAIL);
      }
      if !Given(body.value.resetCode) {
        return NotOk([4], EMPTY_CODE);
      }
      if !Given(body.value.password) {
        return NotOk([4], EMPTY_PASSWORD);
      }
      var email, code, password := body.value.email.value, body.value.resetCode.value, body.value.password.value;
      var user := FetchUser(email);
      if user.NoUser? {
        return NotOk([4, 10], UNKNOWN_EMAIL);
      }
      if user.Unreadable? {
        return ServerError;
      }
      if user.user.resetCode != Some(code) {
        return NotOk([4, 10], WRONG_CODE);
      }
      SaveUser(email, UserRecord(Hash(password), None));
      response := Done;
    }
  }
}
