# SoundsMap request handlers in Dafny

This project models the server-side request handlers of SoundsMap, a map-based audio-sharing
web application. Users register and log in, pin short audio clips on a world map, and an
admin view lists sounds and abuse reports. Persistence is four JSON collections (`users`,
`sounds`, `comments`, `reports`), of which the modelled handlers use three. A handler reads
the collections it needs whole. Only register, upload and delete write, and each writes one
collection back whole.

The model keeps the collections in memory, in a `Store` object with three sequence fields.
The handlers are:

- `Accounts` (routes/auth.js). Register is a method that validates and then appends to
  `store.users`. Login and profile are functions over the `users` sequence.
- `Catalog` (routes/comments.js). This file holds the sound routes and is mounted at
  `/api/comments`. The two listings are functions. Upload is a method that appends to
  `store.sounds`.
- `Admin` (routes/admin.js). Three pure functions. Delete returns the new `sounds`
  sequence that the route writes back.
- `Middleware` (middleware/auth.js). Bearer-token extraction and verification, whose
  decision guards upload and the admin routes.

Each of the two state-changing methods is proved equal to a pure function of the old state
(`RegisterOutcome`, `UploadOutcome`). The properties are proved about those functions.
`Seqs` models JavaScript's `find`, `findIndex` and `filter`. `Js` models the JavaScript
behaviour the handlers rely on:

- falsy request fields;
- `String.length`, counted in UTF-16 code units;
- the regular-expression class `\s`;
- `String.replace` with a string pattern;
- the numbers `parseFloat` can return, including NaN and the infinities.

Library calls are parameters of the handlers:

- bcrypt's `hash` and `compare`;
- `jwt.sign`, and `jwt.verify` as a map from token to the signed `userId` or nothing;
- `Date.now()` and `uuid` ids, and ISO timestamps;
- `parseFloat`;
- `JSON.parse` of the tags field, which yields nothing when it throws.

## Model

| member | source | states |
|---|---|---|
| `Records.Store.constructor` | utils/storage.js:6-23 | storage starts with every collection empty |
| `Seqs.FirstIndex` | routes/auth.js:61 | `findIndex`: no index iff no element matches; otherwise the index matches and no earlier one does |
| `Seqs.Find` | routes/auth.js:95 | `find`: `undefined` iff no element matches; otherwise the first matching element |
| `Seqs.Filter` | routes/comments.js:12 | `filter`: never longer than the input; every kept element satisfies the predicate; an element is kept iff it is in the input and satisfies the predicate |
| `Seqs.FilterMultiplicity` | routes/comments.js:12 | each matching element is kept exactly as often as it occurs; other elements are dropped |
| `Seqs.FilterConcat` | routes/admin.js:29 | filtering distributes over concatenation, so relative order is kept |
| `Seqs.FilterIsIdentity` | routes/admin.js:29 | filtering returns the input unchanged iff every element satisfies the predicate |
| `Seqs.FilterIdempotent` | routes/admin.js:29 | filtering twice equals filtering once |
| `Seqs.FilterFilter` | routes/comments.js:84-86 | filtering by p and then by q equals filtering once by p and q |
| `Seqs.FilterLengthIsPositionCount` | routes/admin.js:13-16 | the filtered length equals the number of positions whose element matches |
| `Js.Utf16Length` | routes/auth.js:15 | `password.length` in UTF-16 code units: between the character count and twice it |
| `Js.Utf16LengthIsCharCount` | routes/auth.js:15 | the UTF-16 length equals the character count iff no character lies outside the Basic Multilingual Plane |
| `Js.IsWhitespace` | routes/auth.js:19 | the class `\s`: exactly the ECMAScript WhiteSpace and LineTerminator code points (no contract; the email lemma below relies on it) |
| `Js.ReplaceFirst` | middleware/auth.js:6 | `replace` with a string pattern: a string without the pattern is unchanged; otherwise only the first occurrence is replaced |
| `Js.ReplaceFirstPrefix` | middleware/auth.js:6 | `replace` removes a leading occurrence of the pattern |
| `Middleware.ExtractToken` | middleware/auth.js:5-8 | a token is found only if a header is present, and the token is never empty |
| `Middleware.ExtractBearer` | middleware/auth.js:6 | the header `Bearer t` yields the token `t`; `Bearer ` alone yields no token |
| `Middleware.Authenticate` | middleware/auth.js:4-19 | no token gives 401 "No token, authorization denied"; a token that fails verification gives 401 "Token is not valid"; otherwise the request is authorized as the token's user |
| `Middleware.AuthenticateBearer` | middleware/auth.js:5-17 | a bearer header is authorized exactly when its token verifies, and then as the token's user |
| `Accounts.IsValidEmail` | routes/auth.js:19-20 | the computed email test; `Accounts.EmailCheckMatchesRegex` proves it equal to the regular expression's language (no contract of its own) |
| `Accounts.EmailCheckMatchesRegex` | routes/auth.js:19-22 | the email check holds iff the string matches `/^[^\s@]+@[^\s@]+\.[^\s@]+$/`, that is: no whitespace; exactly one `@`, not first; and a `.` in the domain with a character on each side |
| `Accounts.WithoutPassword` | routes/auth.js:78 | the password-stripping destructuring loses no other field: putting the password back restores the stored record |
| `Accounts.StripPasswordOnlyForgetsPassword` | routes/auth.js:101 | two records have the same public view iff they differ at most in the password |
| `Accounts.RegisterOutcome` | routes/auth.js:8-46 | checks run in order (required fields, then password length, then email shape, then duplicate), each giving its own 400 with `users` unchanged; a duplicate is an exactly equal email; length 6 passes; success is 201 and appends one record at the end with the given name and email, the hashed password, `bio` defaulting to empty and an empty avatar |
| `Accounts.Register` | routes/auth.js:24-46 | the handler's answer and new `users` are those of `RegisterOutcome`, and nothing else in the store changes |
| `Accounts.RegisterTwiceConflicts` | routes/auth.js:25-30 | after a successful registration, a valid second registration with the same email gets 400 "User already exists" and leaves `users` unchanged |
| `Accounts.RegisterThenLogin` | routes/auth.js:32-79 | if bcrypt accepts a password against its own digest, logging in right after a successful registration with the same email and password returns 200, a token for the new id and the new record without its password |
| `Accounts.Login` | routes/auth.js:52-79 | a missing email or password gives 400; every other failure is the same 400 "Invalid credentials"; success holds iff the first user with that email passes bcrypt's compare, and then returns 200, that user's token and the user without the password |
| `Accounts.LoginFailuresIndistinguishable` | routes/auth.js:61-70 | an unknown email and a rejected password give identical responses |
| `Accounts.Profile` | routes/auth.js:85-105 | no token or an invalid token gives 401 with the middleware's message; otherwise the answer is 404 "User not found" iff no user has the token's id, else 200 with the first such user minus the password |
| `Catalog.OwnerOf` | routes/comments.js:16-19 | the owner summary is `null` iff no user has the id; otherwise it is the `{id, name, avatar}` of the first user with that id |
| `Catalog.JoinOwners` | routes/comments.js:15-21 | the join keeps the sounds and their order, and gives each the summary of its owner's first match or `null` |
| `Catalog.ListPublicSounds` | routes/comments.js:9-23 | the listed sounds are the public sounds in stored order, never more than stored; a sound is listed iff it is stored and public; each entry carries its owner summary |
| `Catalog.ListPublicSoundsConcat` | routes/comments.js:12-21 | listing a concatenation lists each part in turn, so stored order is kept |
| `Catalog.ListPublicSoundsMultiplicity` | routes/comments.js:12 | a public sound is listed as often as it is stored, and a private sound never |
| `Catalog.ListUserSounds` | routes/comments.js:81-88 | exactly the stored sounds with that owner and privacy `public`; private sounds are excluded even for their owner |
| `Catalog.ListUserSoundsIsRestrictedPublicListing` | routes/comments.js:84-86 | a user's listing equals the public listing restricted to that owner |
| `Catalog.CoordinatesRejected` | routes/comments.js:40-44 | coordinates are rejected iff they are not both finite numbers with -90 ≤ lat ≤ 90 and -180 ≤ lng ≤ 180, bounds included, using JavaScript's NaN and infinity comparisons |
| `Catalog.UploadOutcome` | routes/comments.js:29-75 | the checks run in order (middleware, then six required fields, then audio file, then coordinates), and every failure leaves `sounds` unchanged; after these, a tags field that `JSON.parse` rejects gives 500 "Server error" with `sounds` unchanged, and only that case gives 500; success is 201 and appends one record at the end (token's user id, parsed coordinates, description default empty, tags default empty, the upload's filename), answered with the uploader's summary or `null` |
| `Catalog.UploadSound` | routes/comments.js:29-75 | the handler's answer and new `sounds` are those of `UploadOutcome`, and nothing else in the store changes |
| `Catalog.UploadedPublicSoundIsListed` | routes/comments.js:63 | after a successful public upload, `GET /` lists the old listing followed by the new sound with its uploader |
| `Admin.ReportCount` | routes/admin.js:13-16 | a sound's report count is the number of reports whose `soundId` equals the sound's id |
| `Admin.SoundsWithReportCounts` | routes/admin.js:9-18 | same length and order as the stored sounds; each entry is its sound with that sound's report count |
| `Admin.ListSounds` | routes/admin.js:7-20 | a denied request gets the middleware's answer; every authorized request gets 200 and the counted list |
| `Admin.NewReportCountsOnce` | routes/admin.js:13 | appending a report raises the count of the sound it is about by one and leaves every other count unchanged |
| `Admin.DeleteSound` | routes/admin.js:26-33 | when authorized, the answer is 200 "Sound deleted successfully" whether or not the id exists, and no sound with that id remains while every other sound stays; when denied, the middleware's answer with `sounds` unchanged |
| `Admin.DeleteKeepsOthers` | routes/admin.js:29 | every sound with another id keeps its multiplicity |
| `Admin.DeleteKeepsOrder` | routes/admin.js:29 | deleting from a concatenation deletes from each part, so relative order is kept |
| `Admin.DeleteAbsentIsNoop` | routes/admin.js:29-33 | deleting an absent id succeeds with the same message and leaves `sounds` unchanged |
| `Admin.DeleteIdempotent` | routes/admin.js:29-31 | deleting twice equals deleting once |
| `Admin.Detail` | routes/admin.js:46-51 | the sound is `null` iff no stored sound has the report's `soundId`, otherwise the first that does; the reporter is `null` iff no user has the report's `userId`, otherwise `{id, name}` of the first that does |
| `Admin.ReportsWithDetails` | routes/admin.js:45-53 | same length and order as the stored reports; each entry is its report with its details |
| `Admin.ListReports` | routes/admin.js:39-55 | a denied request gets the middleware's answer; every authorized request gets 200 and the detailed list |
| `Admin.DeletedSoundReportStillListed` | routes/admin.js:46-50 | a report whose sound was deleted is still listed, at the same position, with `sound` null |
| `Admin.AnyAuthenticatedUserIsAdmin` | routes/admin.js:7 | no role check: which user the token names changes none of the three admin answers |

## Left out

- Storage I/O (utils/storage.js). `readData` and `writeData` are the store's fields, read and replaced whole. Every 500 "Server error" caused by a failed read or write is left out, so the store never fails. For the same reason `Accounts.Profile` leaves out its 401 for a storage failure inside its `try`. The `comments` collection is left out because no modelled handler uses it. In the source, `readData` and `writeData` use the bare collection name (`users`), but `initializeStorage` seeds `users.json`.
- Password hashing, token signing and verification, ids, timestamps, `parseFloat` and `JSON.parse` are oracles. They are parameters with no properties assumed. Token expiry is part of what `verify` decides.
- `Accounts.Login` leaves out the 500 returned when bcrypt or jsonwebtoken throw.
- `Catalog.UploadOutcome` leaves out the 500 returned after the write, when re-reading `users` fails (a storage failure).
- Request bodies are modelled as optional strings. Non-string JSON values (numbers, arrays) are not modelled. The token's `userId` claim is modelled as the string that login signs.
- `JSON.parse` of tags is taken to yield a list of strings or to fail. Other JSON values are not modelled.
- The multer upload middleware (`uploadAudio`) is not part of this model. Its decision is the `file` argument, and its own rejections are not modelled.
- The `routes/sounds` module mounted at `/api/sounds` is not part of this model.
- The browser code (public/js), the server wiring (CORS, helmet, rate limiting, static files) and the socket.io room rebroadcast are left out. They are UI, framework plumbing and pub/sub.
- Races between concurrent read-modify-write requests are left out. Each handler is modelled as one atomic step over the store.
