# key-backup-service: the request handlers, modelled in Dafny

The key backup service keeps encrypted "persona" blobs per account in an object store.
A user registers with an email and a password. They then upload, fetch, list and delete
personas behind HTTP Basic authentication, and can reset a forgotten password through a
code that is mailed to them. All of this logic sits in `my_modules/routes.js`. This
project models that file over an abstract store: a map from key strings to
`{media, contentType, metadata}` objects.

The modules follow the parts of the file:

- `Basics` (basics.dfy): `Option`, bytes and a JSON value type.
- `Strings` (strings.dfy): `split`/`join` on one character, ASCII `toLowerCase`, and the
  order in which the store lists keys.
- `UriComponent` (uri_component.dfy): `encodeURIComponent` as ECMA-262 defines it
  (the unreserved set, UTF-8, upper-case hex). A decoder is included so the encoding can
  be shown injective and round-tripping.
- `Keys` (keys.dfy): `escapeEmail` and the key scheme: `<escaped>/user.json` for the user
  record, `<escaped>/personas/<pid>` for a persona, `<escaped>/personas` as the listing
  prefix.
- `Accounts` (accounts.dfy):
  - the password hash and its verification;
  - the user record and its JSON form;
  - `clean`;
  - the reset code and the reset link.
- `BlobStore` (blob_store.dfy): the class `Store` that replaces `saveFile`, `fetchFile`,
  `deleteFiles` and `listFiles`. It holds a map of objects and a ghost log of every call.
- `Routes` (routes.dfy): every handler in two forms.
  - A function from the starting store to an `Outcome`: the response, the resulting
    store, the store calls made and the reset emails sent.
  - A method of the class `Router` that performs the handler against a `Store` and a
    `Mailer`, proved to have exactly that outcome.
- `Flows` (flows.dfy): properties that span several requests:
  - create then log in;
  - the reset round trip;
  - upload, fetch and remove;
  - exact listing;
  - the key shape that every handler keeps.

Three behaviours of the code shape the model:

- Emails are not canonicalised. Account creation and both reset handlers use the address
  as given (routes.js:27, 120, 133, 167). Only authentication lower-cases it
  (routes.js:239). So an account registered with an upper-case letter can never log in
  under the address it registered with (`Flows.UpperCaseLockedOut`). It can still be
  reached through another address with the same escape, such as `@a/b` for `a%2Fb`
  (`Flows.UpperCaseReachedThroughOtherAddress`).
- `escapeEmail` leaves the first `@`-segment unencoded, because `reduce` is called
  without an initial value (routes.js:277-279).
- `clean` does not trim: a primitive string is not `instanceof String`, so it is returned
  as it is (routes.js:206-213).

## Model

| member | source | states |
|---|---|---|
| Strings.Split | my_modules/routes.js:277 | `split` yields at least one part, and no part contains the separator |
| Strings.JoinSplit | my_modules/routes.js:277 | joining the parts of a split gives back the string |
| Strings.SplitJoin | my_modules/routes.js:51 | splitting a join of separator-free parts gives back the parts |
| Strings.Lower | my_modules/routes.js:239 | `toLowerCase` keeps the length and maps each character to its lower-case form |
| Strings.LowerIdempotent | my_modules/routes.js:239 | lower-casing is idempotent, and fixes exactly the strings without upper-case letters |
| Strings.LowerSplitHead | my_modules/routes.js:239 | lower-casing keeps the first split part empty or non-empty, for a separator that is not a letter |
| Strings.LessIrreflexive | my_modules/routes.js:307-316 | the store's key order is irreflexive |
| Strings.LessTransitive | my_modules/routes.js:307-316 | the store's key order is transitive |
| Strings.LessTotal | my_modules/routes.js:307-316 | any two distinct keys are ordered one way or the other |
| Strings.LessAfterPrefix | my_modules/routes.js:47-51 | a common prefix does not change the order of two keys |
| UriComponent.Encode | my_modules/routes.js:155 | the output holds only unreserved characters and `%`, so never `/`, `@`, `&` or `=` |
| UriComponent.DecodeEncode | my_modules/routes.js:155 | percent-decoding recovers every encoded string |
| UriComponent.EncodeInjective | my_modules/routes.js:278 | distinct strings encode differently |
| Keys.EscapeFoldJoin | my_modules/routes.js:277-279 | the escaped email is the first `@`-part, then each later part encoded, joined by `@` (with a non-empty first part) |
| Keys.EscapeSlashFree | my_modules/routes.js:276-280 | the escaped email contains `/` exactly when the local part does |
| Keys.EscapeWithoutAt | my_modules/routes.js:276-280 | an email without `@` escapes to itself |
| Keys.EscapeEmailInjective | my_modules/routes.js:276-280 | two emails with non-empty local parts and the same escape are equal |
| Keys.EmptyLocalPartCollides | my_modules/routes.js:278 | `"@b"` and `"b"` escape to the same key prefix |
| Keys.EncodedSlashCollides | my_modules/routes.js:277-279 | `@a/b` and `a%2Fb` have the same escape, `a%2Fb` |
| Keys.UserKeyParts | my_modules/routes.js:289 | a user key splits on `/` into the escaped email and `user.json` |
| Keys.PersonaKeyParts | my_modules/routes.js:82 | a persona key splits on `/` into escaped email, `personas` and the id |
| Keys.KeyShapes | my_modules/routes.js:82 | keys written for `/`-free escapes are ordinary; a persona key yields its own id; no persona key is another account's user key |
| Keys.UserKeyInjective | my_modules/routes.js:289 | user keys of emails with non-empty local parts determine the email |
| Keys.PersonaKeyInjective | my_modules/routes.js:82 | persona keys determine account and id, for `/`-free escapes and ids |
| Keys.ListedOrdinaryKey | my_modules/routes.js:47-51 | an ordinary key under an account's listing prefix is that account's persona key for the id at `split('/')[2]` |
| Keys.ForeignKeyListed | my_modules/routes.js:47-51 | the user key of account `x/personasY` lies under the prefix of `x` and yields the id `user.json` |
| Keys.UserKeyMeetsPersonaKey | my_modules/routes.js:82 | the user key of `x/personas` is the key of persona `user.json` of `x` |
| Keys.OwnKeysDiffer | my_modules/routes.js:82 | an account's user key is never one of its own persona keys |
| Keys.PrefixOfPersonaKey | my_modules/routes.js:47 | every persona key of an account starts with its listing prefix |
| Keys.PersonaKeyOrder | my_modules/routes.js:47-51 | an account's persona keys are ordered as their ids |
| Keys.LowerLocalPart | my_modules/routes.js:239 | lower-casing keeps a local part empty or non-empty |
| Accounts.VerifyHash | my_modules/routes.js:377-388 | a hash verifies exactly the password it was made from |
| Accounts.UserJsonRoundTrip | my_modules/routes.js:283-300 | the record saveUser stringifies is the record fetchUser parses back |
| Accounts.Clean | my_modules/routes.js:206-213 | `clean` yields null exactly for a missing or empty value, and otherwise the value unchanged, untrimmed |
| Accounts.EncodeResetCode | my_modules/routes.js:150-155 | a 64-digit hex reset code stands in the link verbatim |
| Accounts.ResetLinkRoundTrip | my_modules/routes.js:155 | the reset link parses back to exactly the email and the code |
| BlobStore.Lookup | my_modules/routes.js:332-345 | fetchFile finds an object exactly for a stored key, and null (a 404) otherwise |
| BlobStore.KeysUnder | my_modules/routes.js:307-316 | listFiles reports exactly the stored keys that start with the prefix |
| BlobStore.Insert | my_modules/routes.js:307-316 | putting a key into a sorted listing keeps it sorted and adds exactly that key |
| BlobStore.SortedKeys | my_modules/routes.js:307-316 | the listing of a key set is sorted and holds exactly the set |
| BlobStore.SortedUnique | my_modules/routes.js:307-316 | a sorted listing is determined by the keys it holds |
| BlobStore.Store.Save | my_modules/routes.js:319-328 | saveFile puts or overwrites one key and logs one write |
| BlobStore.Store.Fetch | my_modules/routes.js:332-345 | fetchFile returns the object or null, changes nothing, and logs one read |
| BlobStore.Store.Delete | my_modules/routes.js:349-358 | deleteFiles removes exactly the listed keys, missing keys included, and logs one removal |
| BlobStore.Store.List | my_modules/routes.js:307-316 | listFiles returns the keys under the prefix in the store's order, changes nothing, and logs one scan |
| Routes.ReadUser | my_modules/routes.js:299 | a stored object parses to a user record or is unreadable, never null |
| Routes.UserAt | my_modules/routes.js:295-300 | fetchUser yields null exactly when no object is stored at the user key |
| Routes.UserAtSaved | my_modules/routes.js:283-300 | what saveUser writes, fetchUser finds |
| Routes.Authenticate | my_modules/routes.js:223-256 | success iff name and password are given, a record exists for the lower-cased name and the password verifies; the principal is the lower-cased name; every failure is the 401 challenge, except an unreadable record |
| Routes.AuthReads | my_modules/routes.js:225-240 | authentication reads the store at most once, and not at all without non-empty credentials |
| Routes.UploadedNotEmpty | my_modules/routes.js:67-68 | an upload that passed the content check never reads back as empty |
| Routes.SendMedia | my_modules/routes.js:259-274 | sendMedia answers 204 for empty media, otherwise sets every metadata header in order, then Content-Type |
| Routes.LastEntryWins | my_modules/routes.js:265-267 | a header named by some metadata entry holds the value of the last entry with that name |
| Routes.UnnamedHeader | my_modules/routes.js:265-267 | a header that no entry names is not set |
| Routes.DeliveredHeaders | my_modules/routes.js:259-273 | the stored content type wins over metadata; every other metadata header is sent with its last value |
| Routes.DeliveredPlain | my_modules/routes.js:259-273 | without metadata, the content type is the only header |
| Routes.AccountCreation | my_modules/routes.js:22-41 | missing fields fail with [4] before any store access; success iff nothing is stored at the user key, then exactly that key is written with the hash and no reset code; an existing record fails with [4,9], store unchanged |
| Routes.PersonaListing | my_modules/routes.js:43-56 | the listing changes nothing; after authentication it scans exactly the prefix `escaped + "/personas"` |
| Routes.PersonaUpload | my_modules/routes.js:58-86 | success iff authenticated, the id has no `/`, content is present and a content type is given; it then writes exactly the persona key, with that content type and no metadata; any failure leaves the store unchanged and makes no call beyond authentication |
| Routes.PersonaFetch | my_modules/routes.js:88-102 | changes nothing; an id with `/` is refused with [4] before the store is read; a missing key answers 410, a stored one is delivered by sendMedia |
| Routes.PersonaRemoval | my_modules/routes.js:104-116 | success iff authenticated and the id has no `/`; it then removes exactly the persona key; otherwise nothing changes |
| Routes.ResetIssue | my_modules/routes.js:140-159 | an unknown email answers `{}` with no write and no email; a known one gets the code stored beside its unchanged hash and exactly one email with the reset link |
| Routes.ResetRequestByPath | my_modules/routes.js:119-125 | an empty email fails with [4] and no store access; otherwise it issues a reset |
| Routes.ResetRequest | my_modules/routes.js:128-138 | a missing body or email fails with [4] and no store access; otherwise it issues a reset |
| Routes.ResetConsumption | my_modules/routes.js:162-192 | fields are checked as email, code, password before any store access; an unknown email or a wrong or absent stored code fails with [4,10], store unchanged; a match sets the hash of the new password and clears the code |
| Routes.Mailer.Send | my_modules/routes.js:156 | exactly one reset email is appended to the dispatch log |
| Routes.Router.FetchUser | my_modules/routes.js:295-300 | fetchUser reads the user key once and yields its parsed record |
| Routes.Router.SaveUser | my_modules/routes.js:283-291 | saveUser writes exactly the user key with the record as application/json |
| Routes.Router.VerifyAuthentication | my_modules/routes.js:223-256 | verifyAuthentication returns what `Authenticate` states and only reads the store |
| Routes.Router.CreateAccount | my_modules/routes.js:22-41 | the handler has exactly the outcome `AccountCreation` states |
| Routes.Router.ListPersonas | my_modules/routes.js:43-56 | the handler has exactly the outcome `PersonaListing` states |
| Routes.Router.PutPersona | my_modules/routes.js:58-86 | the handler has exactly the outcome `PersonaUpload` states |
| Routes.Router.GetPersona | my_modules/routes.js:88-102 | the handler has exactly the outcome `PersonaFetch` states |
| Routes.Router.DeletePersona | my_modules/routes.js:104-116 | the handler has exactly the outcome `PersonaRemoval` states |
| Routes.Router.SendPasswordResetEmail | my_modules/routes.js:140-159 | the handler has exactly the outcome `ResetIssue` states, mails included |
| Routes.Router.RequestResetByPath | my_modules/routes.js:119-125 | the handler has exactly the outcome `ResetRequestByPath` states |
| Routes.Router.RequestReset | my_modules/routes.js:128-138 | the handler has exactly the outcome `ResetRequest` states |
| Routes.Router.ConsumeReset | my_modules/routes.js:162-192 | the handler has exactly the outcome `ResetConsumption` states |
| Flows.UserAtElsewhere | my_modules/routes.js:295-300 | a write or removal at another key does not change what fetchUser finds |
| Flows.CreateThenLogin | my_modules/routes.js:22-41 | a new account with a lower-case address logs in with its password and no other |
| Flows.UpperCaseLockedOut | my_modules/routes.js:239 | an account created with an upper-case letter can never log in under the address it registered with |
| Flows.LoginThroughSharedKey | my_modules/routes.js:239-252 | logging in under any lower-case address whose user key is a new account's reaches that account with its password |
| Flows.UpperCaseReachedThroughOtherAddress | my_modules/routes.js:239-240 | the account `a%2Fb` is refused under its own address but reached as `@a/b` |
| Flows.ResetFlow | my_modules/routes.js:140-192 | the mailed link carries the email and code; the code is stored beside the unchanged hash; consuming it sets the new hash and clears the code; the same code then fails with [4,10] |
| Flows.ResetThenLogin | my_modules/routes.js:162-192 | after a reset, a lower-case account logs in with the new password and no other |
| Flows.ReissueReplacesCode | my_modules/routes.js:150-152 | a second reset request overwrites the code, and the first code then fails |
| Flows.PersonaRoundTrip | my_modules/routes.js:58-116 | an uploaded persona reads back with its content type as the only header; after removal the fetch answers 410 |
| Flows.PersonaWritesKeepUsers | my_modules/routes.js:82-113 | persona uploads and removals leave every account's user record unchanged, for `/`-free local parts |
| Flows.ListingExact | my_modules/routes.js:43-56 | for a `/`-free escape over ordinary keys, every listed id is a stored persona of the account, every stored persona is listed, and ids come in key order |
| Flows.ListingEmpty | my_modules/routes.js:43-56 | an account with no uploads lists an empty array |
| Flows.ForeignRecordListed | my_modules/routes.js:47-51 | the prefix without a trailing `/` lists the user record of account `x/personasY` among the personas of `x`, as `user.json` |
| Flows.CreationKeepsOrdinary | my_modules/routes.js:38 | account creation keeps every key ordinary for an address without `/` in its local part |
| Flows.UploadKeepsOrdinary | my_modules/routes.js:82-83 | a persona upload keeps every key ordinary for an account without `/` in its local part |
| Flows.OtherWritesKeepOrdinary | my_modules/routes.js:104-192 | removals and both reset steps keep every key ordinary |

## Left out

- Password hashing and verification by the `credential` library (routes.js:362-388) are modelled as an ideal, collision-free hash: `Hash(p)` records `p`, and `Verify(h, p)` holds iff `h == Hash(p)`. Salting, the work factor and library errors are not modelled.
- `randomBytes(32).toString('hex')` (routes.js:150) is a method parameter required to be 64 lower-case hex digits. Freshness and randomness are not modelled.
- The basic-auth header parser (routes.js:225) is modelled by its result: an optional name and password pair.
- `baseUrl(req)` (routes.js:201-204) is the `origin` parameter of the reset handlers. Request headers are not read.
- JSON.parse of stored content that is not a user record (routes.js:299) is not modelled. It can only sit at a user key through the key collisions shown in `Keys.UserKeyMeetsPersonaKey`. Every handler then answers `ServerError`. In the source, a parsed value that is falsy would read as "no user", and a truthy one could pass the `if( user )` checks.
- JSON.stringify with indentation (routes.js:74, 284) is kept abstract: stored JSON is the JSON value itself (`JsonText`), not its text.
- A parsed body that is not stringified goes to the store as the value itself (`Unserialised`). What the store makes of it is not modelled.
- `Routes.MissingContent`: the `length` of a parsed JSON object is taken to be undefined. An object with its own `length` member is not modelled.
- `Strings.Lower`: `toLowerCase` is modelled for the ASCII letters only. Unicode case mapping is not.
- Request fields are modelled as strings or absent (`Accounts.Params`). JSON numbers, booleans or objects in those fields are not modelled.
- `BlobStore.Store.List`: one listing page holds at most 1000 keys in the store. The model returns every matching key.
- Lone UTF-16 surrogates are not modelled: strings are sequences of Unicode scalar values. In the source, `encodeURIComponent` throws URIError on a lone surrogate. At routes.js:278 that happens in any `@`-segment after the first, so creation, login and reset answer 500. At routes.js:155 it happens after `saveUser` at line 152, so the code is stored but no email is sent. `Routes.ResetIssue` always mails.
- `Routes.ResetIssue`: a rejected email send at routes.js:156 answers 500 after the code has been stored. The model's mailer never fails, so this path is not modelled.
- Non-404 backend errors (routes.js:310, 322, 335-339, 352) and hashing errors are not modelled. The store never fails, and a rejected promise appears only as `ServerError` for unreadable user records.
- Concurrency is not modelled. Each store call is one atomic step, and handlers are not interleaved, so the last-write-wins races between requests are not represented.
- The `/status` route (routes.js:16-18), console logging, and the Express wiring in app.js are not part of this model.
- The Lambda adapter (lambda.js, lambda-run.js) is not part of this model.
- The email template and the SES call (my_modules/emailService.js) are not part of this model. Dispatch is modelled as one entry appended to `Routes.Mailer.sent`.
- `net.signalNotOk` is not part of the shown source. Its response is modelled as `NotOk` with the code list and the message.
- Response status lines and bodies are modelled by the `Response` datatype: 401 `Access denied`, 410 `Persona not found`, 204, and `{}` as `Done`. Exact byte output is not modelled.
