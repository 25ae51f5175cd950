# URL shortener link lifecycle in Dafny

A model of the server side of the `url-redirect-and-shortener` service, which is an
Express application backed by Mongoose. The model covers:

- how a short link is created: random base64url identifiers and hex management
  secrets, the custom-id checks, and the bounded search for an unused identifier;
- how a visit is resolved: not found, expired, password gate, or a redirect that
  records one click with its enrichment;
- the public-password check that unlocks a protected link;
- the owner's side: the management-secret guard, the analytics summary (the latest
  50 clicks and five frequency maps), and the update of target, password and expiry;
- the Url and Feedback schemas: required fields, length limits, unique indexes,
  the hidden management secret and the defaults;
- feedback submission with its guards and trimming.

The Url collection is a class holding a map from `shortId` to a `Link` record. A
loaded record is a `LinkDocument` object, and the handlers change its fields in
place before they save it. Each request handler is a method. Its postcondition
says that the reply and the new store equal a function of the old store
(`Shorten`, `RedirectOutcome`, `VerifyOutcome`, `UpdateOutcome`). The contracts
of those functions and the lemmas about them state what the service promises.
The store invariant is `StoreInvariant`: every record sits under its own short
id, passes the schema and has `totalClicks == |clicks|`, and custom ids are
unique. Every handler preserves it.

The model has nine modules:

- `Wrappers`: Option, Outcome and Result.
- `JsString`: the JavaScript string operations the handlers use.
- `Rfc4648`: base64url (section 5 of RFC 4648) and base16 (section 8 of RFC 4648), each with a decoder.
- `Frequencies`: frequency maps and their sums.
- `UrlModel` and `FeedbackModel`: the two schemas.
- `UrlController`, `AdminController` and `FeedbackController`: the three controllers.

Foreign libraries are parameters:

- URL validation (`validator.isURL`) is `isUrl: string -> bool`.
- The geo-IP lookup and the User-Agent parser form the `Enrichment` datatype.
- `new URL(r).hostname` is `hostname: string -> Option<string>`.

The random bytes are input sequences, and the clock is an integer `now`.

## Model

| member | source | states |
|---|---|---|
| JsString.OrElse | src/controllers/urlController.js:141 | `x \|\| fallback`: the value when it is a non-empty string, the fallback otherwise |
| JsString.Trim | src/controllers/urlController.js:139 | `trim()` is no longer than its input, has no whitespace at either end, and is empty exactly when the input is all whitespace |
| JsString.TrimIsWindow | src/controllers/urlController.js:139 | the trimmed text is a contiguous window of the input |
| JsString.TrimIdempotent | src/models/Feedback.js:7 | trimming twice equals trimming once, so the schema's trim setter leaves the controller's trimmed text as it is |
| JsString.BeforeFirst | src/controllers/urlController.js:139 | `split(',')[0]` is the prefix before the first comma, contains no comma, and is followed by a comma or the end |
| JsString.IndexOf | src/controllers/urlController.js:34 | the position of the first occurrence of the pattern, or `None` exactly when there is no occurrence |
| JsString.SecondField | src/controllers/urlController.js:34 | `split(p)[1]` is the text after the first occurrence, up to the next occurrence or the end, and holds no occurrence |
| Rfc4648.Base64UrlLength | src/controllers/urlController.js:25-27 | n bytes encode to ceil(4n/3) unpadded base64url characters |
| Rfc4648.Base64UrlAlphabet | src/controllers/urlController.js:27 | every character of an encoding is in `[A-Za-z0-9_-]` |
| Rfc4648.Base64UrlRoundTrip | src/controllers/urlController.js:27 | decoding inverts base64url encoding, so the encoding is injective |
| Rfc4648.HexLength | src/controllers/urlController.js:17 | n bytes encode to 2n hex characters |
| Rfc4648.HexAlphabet | src/controllers/urlController.js:17 | every character of a hex encoding is in `[0-9a-f]` |
| Rfc4648.HexRoundTrip | src/controllers/urlController.js:17 | decoding inverts hex encoding |
| Frequencies.Tally | src/controllers/adminController.js:56-60 | the reduce's frequency map holds exactly the keys that occur, each mapped to its number of occurrences |
| Frequencies.TallySum | src/controllers/adminController.js:56-92 | the counts of a frequency map add up to the number of keys counted |
| UrlModel.NewLink | src/models/Url.js:36-51 | a new record is created now, with `totalClicks` 0 and no clicks, so its counter agrees with its log |
| UrlModel.InsertOutcome | src/models/Url.js:17-46 | insert fails validation exactly when a validator fails. It fails with a duplicate key exactly when the `shortId` or the sparse `customShortId` is taken. It succeeds exactly when the record passes the schema and both ids are free, and then adds the record under its id. A failure changes nothing, and the store invariant is preserved when the inserted record's counter agrees with its log |
| UrlModel.Project | src/models/Url.js:42-46 | a default read omits `managementPassword` and keeps every other field; a read that selects it returns the record whole |
| UrlModel.SaveOutcome | src/models/Url.js:17-51 | saving a loaded document succeeds exactly when its record exists and the merged record passes the schema. It writes only the mutable paths, and it preserves the store invariant when the counter agrees with the log |
| UrlModel.LinkDocument.constructor | src/models/Url.js:17-52 | a loaded document holds exactly the stored record |
| UrlModel.UrlCollection.constructor | src/models/Url.js:54 | an empty collection satisfies the store invariant |
| UrlModel.UrlCollection.FindOne | src/controllers/urlController.js:144 | `findOne({ shortId })` returns null exactly for an unknown id, otherwise a fresh document with the record as projected |
| UrlModel.UrlCollection.Insert | src/controllers/urlController.js:110 | `save()` of a new document changes the store as `InsertOutcome` says |
| UrlModel.UrlCollection.Save | src/controllers/urlController.js:174 | `save()` of a loaded document changes the store as `SaveOutcome` says |
| UrlController.BytesNeeded | src/controllers/urlController.js:25 | `Math.ceil(0.75 n)` is the least byte count b with 4b >= 3n |
| UrlController.GenerateFixedLengthShortId | src/controllers/urlController.js:21-28 | the identifier has exactly the requested length and only base64url characters |
| UrlController.SecretBytes | src/controllers/urlController.js:17 | `Math.ceil(n / 2)` is the least byte count b with 2b >= n |
| UrlController.GenerateSecurePassword | src/controllers/urlController.js:16-18 | the secret has exactly the requested length and only lower-case hex characters |
| UrlController.GeoLookupAddress | src/controllers/urlController.js:34 | an address containing `::ffff:` is looked up by the text after its first occurrence, up to the next occurrence or the end; any other address is looked up as it is |
| UrlController.GeoLookupAddressOfMapped | src/controllers/urlController.js:34 | an IPv4-mapped address `::ffff:a.b.c.d` is looked up by its IPv4 part |
| UrlController.GetGeoInfo | src/controllers/urlController.js:31-41 | without an address the geo fields are absent; with one they are the database's answer, or 'Unknown' for each when it has none |
| UrlController.NameWithVersion | src/controllers/urlController.js:48-50 | 'Unknown' without a name, otherwise the trimmed "name version" |
| UrlController.GetUserAgentInfo | src/controllers/urlController.js:44-52 | without a User-Agent the device fields are absent. With one, the OS and browser are the trimmed "name version" the parser reports and the device type is the parser's value; each is 'Unknown' when the parser does not name it |
| UrlController.ClientIp | src/controllers/urlController.js:139 | the client address is the first X-Forwarded-For entry, trimmed and without a comma, or else the peer address |
| UrlController.RecordedClick | src/controllers/urlController.js:139-172 | a click carries the time, the client address, its geo and device enrichment, and the Referer or 'Direct' |
| UrlController.WithClick | src/controllers/urlController.js:167-173 | a visit appends exactly one click and adds one to `totalClicks`, changes nothing else, and keeps `totalClicks == \|clicks\|` |
| UrlController.RecordClickSaves | src/controllers/urlController.js:167-174 | on a consistent store, saving a record with one more click succeeds, changes only that record, and keeps the invariant |
| UrlController.Candidates | src/controllers/urlController.js:84 | attempt i tries the identifier generated from the i-th random draw |
| UrlController.FirstUnused | src/controllers/urlController.js:79-95 | the first attempt whose identifier is unused, with all earlier ones taken; `None` exactly when all five collide |
| UrlController.GenerateUniqueShortId | src/controllers/urlController.js:79-95 | the loop makes between one and five lookups and stops at the first unused identifier. It returns that identifier, or nothing after five collisions |
| UrlController.Shorten | src/controllers/urlController.js:55-133 | 400 for a missing or invalid URL and for a custom id under 10 characters (exactly 10 is accepted); 409 for a custom id already stored as a `customShortId`; 500 after five collisions; 409 when a custom id clashes with an existing `shortId` through the unique index; 400 for a custom id over 255; otherwise 201 with the custom or first unused generated id, stored with a 16-character hex secret, `customShortId` only when given, no clicks and `createdAt` now. Every non-201 leaves the store unchanged, and the invariant is preserved |
| UrlController.ShortenUrl | src/controllers/urlController.js:55-133 | the handler answers and changes the store as `Shorten` says and keeps the collection valid |
| UrlController.RedirectOutcome | src/controllers/urlController.js:136-182 | 404 for an unknown id; 410 when expired, checked before the password; a redirect to `/verify/{id}` when a password is set. None of these changes the store. Otherwise the link redirects to its target and stores the record with the click appended, or answers 500 with no change when that record fails the schema. Only a redirect to the target changes the store, and the invariant is preserved |
| UrlController.RedirectRecordsOneClick | src/controllers/urlController.js:163-176 | an open link on a consistent store redirects to its target and gains exactly the recorded click |
| UrlController.RedirectToLongUrl | src/controllers/urlController.js:136-182 | the handler answers and changes the store as `RedirectOutcome` says and keeps the collection valid |
| UrlController.VerifyOutcome | src/controllers/urlController.js:185-224 | 404 for an unknown id; 401 with no click when the record has no password or a different one. The right password returns the target and stores the record with the click appended, or answers 500 with no change when that record fails the schema. Only an accepted password changes the store, and expiry is not consulted |
| UrlController.VerifyRecordsOneClick | src/controllers/urlController.js:197-218 | the right password returns the target and records exactly one click, whatever `expiresAt` holds |
| UrlController.VerifyPublicPassword | src/controllers/urlController.js:185-224 | the handler answers and changes the store as `VerifyOutcome` says and keeps the collection valid |
| AdminController.Authenticate | src/controllers/adminController.js:5-28 | 400 when the short id (path, else body) or the secret is missing. An unknown id and a wrong secret get the same 401 and message. Success happens exactly when the record exists and its secret matches |
| AdminController.AuthenticateAdminMiddleware | src/controllers/adminController.js:5-28 | the guard passes exactly when `Authenticate` does and hands on the whole record with its secret, otherwise it ends with the same error |
| AdminController.AuthenticateAdmin | src/controllers/adminController.js:31-37 | login answers an empty success exactly when the guard passes, else the guard's error |
| AdminController.Reverse | src/controllers/adminController.js:53 | `reverse()` keeps the length and puts element i at position n-1-i |
| AdminController.RecentClicks | src/controllers/adminController.js:53 | `slice(-50).reverse()` is the last min(50, n) clicks, newest first |
| AdminController.Distribution | src/controllers/adminController.js:56-92 | a distribution's keys are exactly the keys of the clicks, and each count is the number of clicks under that key |
| AdminController.DistributionSum | src/controllers/adminController.js:56-92 | every distribution's counts add up to the number of clicks |
| AdminController.CountryKey | src/controllers/adminController.js:57 | a missing country counts as 'Unknown' |
| AdminController.DeviceTypeKey | src/controllers/adminController.js:63 | a missing device type counts as 'Unknown' |
| AdminController.OsKey | src/controllers/adminController.js:69 | a missing OS counts as 'Unknown' |
| AdminController.BrowserKey | src/controllers/adminController.js:75 | a missing browser counts as 'Unknown' |
| AdminController.ReferrerKey | src/controllers/adminController.js:81-89 | a parsable referrer counts under its host name and an unparsable one under itself. A missing referrer counts as 'Direct' |
| AdminController.Analyze | src/controllers/adminController.js:47-93 | the summary reports target, stored `totalClicks`, dates, `passwordProtected` exactly when a password is set, the recent clicks and the five distributions |
| AdminController.AnalysisCountsAddUp | src/controllers/adminController.js:48-92 | each of the five distributions adds up to the number of clicks, which on a consistent record is the reported `totalClicks` |
| AdminController.DetailsOutcome | src/controllers/adminController.js:40-102 | the guard's error, or the summary of the authenticated record |
| AdminController.GetAdminUrlDetails | src/controllers/adminController.js:40-102 | the handler answers as `DetailsOutcome` says |
| AdminController.Lookup | src/controllers/adminController.js:90 | reading `acc[k]` from an object literal gives the own value, else what `Object.prototype` supplies |
| AdminController.PlusOne | src/controllers/adminController.js:90 | `(v \|\| 0) + 1` is 1 for undefined and n+1 for a number, and is always a number or a string |
| AdminController.Assign | src/controllers/adminController.js:90 | `acc[k] = v` for a number or string `v` sets the key, except that such a primitive assigned to `__proto__` is dropped |
| AdminController.TallyAsWritten | src/controllers/adminController.js:56-92 | the reduce `acc[k] = (acc[k] \|\| 0) + 1` into `{}` ends with an own property for every key that occurs except `__proto__`, and no other |
| AdminController.DistributionAsWritten | src/controllers/adminController.js:56-92 | a distribution as the handler computes it has an own property for the key of every click except `__proto__`, and no other |
| AdminController.AsWrittenAgreesOffPrototype | src/controllers/adminController.js:56-92 | when no key names an `Object.prototype` property, the reduce into `{}` counts exactly like the frequency map |
| AdminController.ConstructorKeyAsWritten | src/controllers/adminController.js:90 | the reduce over the single key 'constructor' yields the string "function Object() { [native code] }1" |
| AdminController.ReferrerConstructorCountsAsText | src/controllers/adminController.js:80-92 | a Referer of 'constructor' is counted as a string by the reduce, and as 1 by the frequency map |
| AdminController.ReferrerProtoClickLost | src/controllers/adminController.js:80-92 | a Referer of '__proto__' is not counted at all by the reduce, and is counted once by the frequency map |
| AdminController.UpdatedPassword | src/controllers/adminController.js:117-119 | the password stays when not given, is cleared by '', and is replaced otherwise |
| AdminController.UpdatedExpiry | src/controllers/adminController.js:120-122 | the expiry stays when not given, is cleared by '', and is replaced by a given date |
| AdminController.Edited | src/controllers/adminController.js:116-122 | the update sets the target and the password and expiry as above. It leaves the id, the custom id, the secret, the creation time, the clicks and the counter untouched |
| AdminController.UpdateOutcome | src/controllers/adminController.js:105-133 | the guard's error, or 400 with no change for a missing or invalid new URL. On a consistent store a valid update saves exactly the edited record and answers with the new target. Only a successful update changes the store, and the invariant is preserved |
| AdminController.UpdateTargetUrl | src/controllers/adminController.js:105-133 | the handler answers and changes the store as `UpdateOutcome` says and keeps the collection valid |
| FeedbackModel.NewFeedback | src/models/Feedback.js:3-19 | the trim setters run on assignment and `createdAt` defaults to now, so both text fields are stored trimmed |
| FeedbackModel.InsertOutcome | src/models/Feedback.js:4-14 | saving succeeds exactly when the message is non-empty and at most 500 characters, any contact is at most 100, and the database accepts the write. Only success appends the entry |
| FeedbackController.EntryFor | src/controllers/feedbackController.js:19-23 | what passes the guards is stored trimmed, with the contact trimmed or absent, and passes the schema |
| FeedbackController.SubmitFeedback | src/controllers/feedbackController.js:4-32 | 400 for a missing or blank message; 400 when the untrimmed message exceeds 500; 400 for a contact over 100 (an absent one is accepted); 201 exactly when the guards pass and the database accepts, 500 when it refuses; nothing is stored unless 201, and then exactly the trimmed entry is appended |

## Left out

- The browser scripts (`src/public/*.js`) are UI code: DOM updates, fetch calls and chart rendering.
- `src/server.js` is Express and Mongoose wiring. It also routes `getShortUrlDetails` and `updateTargetUrl` from urlController, and that file defines neither. Those routes are not part of this model.
- Concurrency is not modelled; `StoreInvariant` assumes one request at a time. On a loaded document Mongoose saves the pushed click as an atomic `$push` but the incremented counter as a `$set` of the value read. Two simultaneous visits therefore keep both clicks but write the same `totalClicks`, so the counter falls behind the log and `totalClicks == |clicks|` stops holding.
- A database that is unreachable or throws on `findOne` or `save` (the 500 paths) is not modelled for the Url collection. Save failures there come only from validation or a missing record. Feedback has an explicit `available` flag instead.
- Shorten's 400 for a Mongoose validation error answers "Validation failed" without the list of validator messages that follows it.
- `validator.isURL`, `geoip.lookup`, `UAParser` and `new URL(...).hostname` are function parameters, not implementations.
- AdminController.ReferrerKey: a missing referrer counts as 'Direct' only when `hostname("Direct")` is `None`, which real URL parsing gives.
- `crypto.randomBytes` is modelled as input byte sequences.
- `Date.now()` is modelled as the integer `now`.
- `new Date(text)` is a `DateText`, either an empty string or a parsed timestamp. An invalid date string is not modelled.
- String lengths count characters. JavaScript counts UTF-16 code units.
- `Math.ceil` on floating point is computed exactly on integers.
- Request-body fields are optional strings. Numbers, arrays and `null` in a JSON body are not modelled.
- The `try`/`catch` around the analytics summary answers 500 only on an exception, and the pure summary raises none here.
- `generatedId` is an implicit global in the source. The model makes it a local of the loop.
- MongoDB `_id`, `__v` and the sub-document ids of clicks are not modelled.
- Logging (`console.error`) and HTTP formatting beyond status and key fields are not modelled.
- UrlController.RedirectRecordsOneClick: stated for a store that satisfies the invariant. On a record that fails the schema the save fails and the visit answers 500, as `RedirectOutcome` states.
- UrlController.VerifyRecordsOneClick: stated for a store that satisfies the invariant, for the same reason.
- UrlController.RedirectOutcome: the click-or-500 clause is stated for a record stored under its own `shortId`, which the store invariant guarantees.
- UrlController.VerifyOutcome: the click-or-500 clause is stated for a record stored under its own `shortId`, as above.
- AdminController.Analyze: it reports the corrected `Distribution` of the Findings table, not the reduce as written. The summary `Analyze` and `GetAdminUrlDetails` return therefore differs from the handler's reply for keys named after `Object.prototype` properties. `AsWrittenAgreesOffPrototype` proves that the two agree for every other key.
- AdminController.UpdateOutcome: the exact new store is stated only for a store that satisfies the invariant. Otherwise the model states only that a change comes with the success reply.

## Findings

| source | as written | input that shows it | evidently intended | confidence | as-written member | corrected member |
|---|---|---|---|---|---|---|
| src/controllers/adminController.js:80-92 | the referrer distribution is reduced into `{}`, so `acc[domain]` reads properties inherited from `Object.prototype` | one click whose Referer header is `constructor`: the count becomes the string "function Object() { [native code] }1" | a count of 1 for the key `constructor` | not executed; follows from JavaScript property lookup | AdminController.ReferrerConstructorCountsAsText | AdminController.Distribution |
| src/controllers/adminController.js:80-92 | assigning the number count to `acc['__proto__']` is ignored | one click whose Referer header is `__proto__`: the distribution stays empty, so its counts no longer add up to the number of clicks | the click counted once, with counts that add up to the number of clicks | not executed; follows from JavaScript property assignment | AdminController.ReferrerProtoClickLost | AdminController.DistributionSum |
