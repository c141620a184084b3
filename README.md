# BioQR: QR access tokens, modelled in Dafny

BioQR is an Express server over MySQL. A user uploads a file, then asks for a
QR code that grants access to it for five minutes. This project models that
token lifecycle:

- **Issuance** (`POST /bioqr/generate-qr`). The handler checks that `user_id`
  and `file_id` are truthy. It draws 16 random bytes and hex-encodes them into
  a token. It inserts the row `(token, user_id, file_id, expires_at = now + 5 min)`
  into `qr_tokens`. Only once that insert succeeds does it build
  `<baseUrl>/access-file/<token>` and return it with the token and its expiry.
- **Redemption** (`GET /access-file/:token`). The handler finds the token
  under the strict filter `expires_at > NOW()`. An unknown token and an expired
  one get the same 403. It then resolves the bound `file_id` in `files`: a
  failed or empty lookup is 404 "File not found", and a row whose file is gone
  from disk is 404 "File not found on disk". Otherwise it serves the file.
  Redemption writes nothing, so a token works any number of times until it expires.

Around that core the model also covers these small rules from `server.js`:
the CORS origin rule, the base URL chosen from the environment, the upload
and registration checks, the file listing's path-to-URL normalisation, and the
direct download route. In `server.js` the download route and redemption each
write out the same file-lookup steps, with different 404 bodies; the model
states those steps once, as `Files.ResolveFile`, and uses it for both.

Layout, one module per file:

- `wrappers.dfy`: `Option`.
- `js.dfy`: the JSON values a request can carry, and JavaScript truthiness.
- `hex.dfy`: `Buffer.toString("hex")` and its inverse.
- `config.dfy`: the environment, `BaseUrl`, the CORS rule, and the access URL with the route that reads it back.
- `http.dfy`: the response taxonomy `Ok | BadRequest | DbError | Forbidden | FileNotFound | FileNotOnDisk`, with status codes and messages.
- `files.dfy`: the `files` table, the lookup by id, the file listing and the upload checks.
- `token_store.dfy`: the `qr_tokens` table, token minting, the expiry-filtered lookup, redemption and its properties.
- `registration.dfy`: the registration checks that run before hashing.
- `server.dfy`: class `Database` holds both tables. Its methods `GenerateQr` and `UploadFile` change them in place. Its methods `AccessFile` and `DownloadFile` only read them, and each is proved equal to its specification function.

The code never marks a token as consumed, so expiry is the only gate and a
token may be redeemed any number of times until then
(`TokenStore.RedeemRepeatable`). The insert into `qr_tokens` writes only
`expires_at`, not the issue time.

## Model

| member | source | states |
|---|---|---|
| `Hex.Encode` | server.js:319 | the hex text has exactly two characters per byte, and every character is a lowercase hex digit |
| `Hex.DecodeEncode` | server.js:319 | decoding the hex text of any bytes gives those bytes back |
| `Hex.EncodeDecode` | server.js:319 | every string that decodes is the hex text of what it decodes to |
| `Hex.EncodeInjective` | server.js:319 | distinct byte strings have distinct hex texts |
| `TokenStore.MintToken` | server.js:319 | a token drawn from 16 bytes is 32 lowercase hex characters, is a single URL path segment, and decodes back to the random bytes |
| `TokenStore.MintTokenInjective` | server.js:319 | two different random draws never yield the same token |
| `TokenStore.IssuedRecord` | server.js:320 | the issued record expires exactly 300000 ms (5 min) after the issue time |
| `Config.BaseUrl` | server.js:330-332 | the base URL is never empty. In production with a non-empty BASE_URL it is BASE_URL; in every other case it is `http://localhost:3000`. It is a function of the environment alone |
| `Config.AccessUrl` | server.js:334 | the access URL is the base URL, then `/access-file/`, then the token, with nothing else in between |
| `Config.AllowedOrigins` | server.js:31-34 | in production the list holds exactly ORIGIN_1 and ORIGIN_2 (an unset one matches no origin); otherwise exactly the three development origins |
| `Js.Truthy` | server.js:315 | a request value fails the `!x` test iff it is undefined, null, false, 0 or the empty string |
| `Config.RouteToken` | server.js:347-348 | a URL accepted by the `/access-file/:token` route is the base, then `/access-file/`, then the single path segment it binds as the token |
| `Config.AccessUrlRoutesToToken` | server.js:330-334 | the URL put into the QR code routes back to exactly the issued token |
| `Config.AccessUrlInjective` | server.js:334 | distinct tokens give distinct access URLs |
| `Config.CorsAllows` | server.js:31-47 | an origin is admitted iff it is missing or empty, or (in production) equals ORIGIN_1 or ORIGIN_2, or (otherwise) is one of the three development origins |
| `Config.UnconfiguredProductionAdmitsOnlyOriginless` | server.js:31-47 | in production with neither ORIGIN variable set, only requests without an origin pass |
| `TokenStore.FindValid` | server.js:350-351 | a record is found iff one is stored under the token and its expiry is strictly later than now, and then it is that record |
| `TokenStore.Redeem` | server.js:347-388 | the result is a 500 iff the token query fails, and a 403 iff no live record matches. For a live record it is exactly the resolution of the bound file. A success is always a download |
| `TokenStore.UnknownAndExpiredAlike` | server.js:358-363 | a never-issued token and an expired token get the identical 403 "Invalid or expired QR code" response |
| `TokenStore.RefusedExactlyFromExpiry` | server.js:350-351 | a stored token is refused iff now is at or past its expiry, so at exactly `expires_at` it is refused |
| `TokenStore.RedeemRepeatable` | server.js:347-388 | any two redemptions before expiry give the same response (no single-use consumption) |
| `TokenStore.RefusalIsFinal` | server.js:350-363 | a token refused at some time is refused at every later time |
| `TokenStore.IssueThenRedeem` | server.js:319-328 | after its record is inserted, a token serves its bound file at every time before issue + 5 min and is refused from then on |
| `TokenStore.IssueKeepsOtherTokens` | server.js:322-324 | inserting one token's record does not change how any other token redeems |
| `TokenStore.RedeemIsDownloadOfBoundFile` | server.js:365-385 | after a live match, the access route gives the same status and message as the download route does for the bound id |
| `TokenStore.FiveMinuteWindow` | server.js:320 | issued at t0 for file 7: served at t0 + 299 s, refused at t0 + 301 s |
| `Files.SqlId` | server.js:366 | a number names itself; a string names an id iff it is a non-empty run of decimal digits, and then a non-negative one; any other value names no id |
| `Files.DecimalString` | server.js:282-285 | the decimal text of an id is a non-empty run of digits, as the `:id` URL parameter is |
| `Files.DecimalValueLeadingZero` | server.js:282-285 | a leading zero does not change the value of a digit string |
| `Files.SqlIdLeadingZero` | server.js:282-286 | `id = '07'` names the same row as `id = '7'` |
| `Files.SqlIdOfDecimalString` | server.js:282-285 | an id written in decimal in the download URL names the same row as the number itself |
| `Files.LookupFile` | server.js:366 | a row is found iff the bound id names a key of the table, and then it is that row |
| `Files.ResolveFile` | server.js:366-385 | outcomes in order: query error or no row gives FileNotFound, a row absent on disk gives FileNotOnDisk, otherwise that row's path and filename are served. Nothing else can result |
| `Files.ResolveFileBySqlId` | server.js:366 | two parameters that name the same id resolve identically |
| `Files.ToUrlPath` | server.js:270 | same length; each backslash becomes `/` and every other character is kept in place |
| `Files.ToUrlPathNormalises` | server.js:270 | the normalised path contains no backslash, and normalising twice equals normalising once |
| `Files.FileUrl` | server.js:270 | a file's URL is the base URL and `/`, then exactly the normalised stored path: same length, no backslash |
| `Files.ListFiles` | server.js:253-276 | a query error is a 500 "Database error". Otherwise there is one entry per row, in row order, with the row's id, filename and mimetype and the URL `<baseUrl>/<normalised path>` |
| `Files.CheckUpload` | server.js:191-217 | accepted iff there is no multer error, `user_id` is truthy and a file is present. The rejections are 400s, checked in that order |
| `Registration.CheckRegistration` | server.js:82-95 | may proceed iff all five fields are truthy and the e-mail query found no user. Otherwise the refusal is, in order: missing field (200), query error (500), e-mail taken (200) |
| `Registration.MissingFieldIgnoresDatabase` | server.js:82-87 | a form with a missing field is refused whatever the e-mail query would return |
| `Server.Database.GenerateQr` | server.js:311-344 | a falsy id gives a 400 and a failed insert gives a 500, neither changing the table nor revealing a token. On success exactly one record (token, user, file, now + 5 min) is added, nothing else changes, and the response carries the access URL, the token and the expiry |
| `Server.Database.AccessFile` | server.js:347-388 | the handler's response equals `TokenStore.Redeem` on the current tables; it modifies nothing |
| `Server.Database.DownloadFile` | server.js:281-308 | the download route's response equals `Files.ResolveFile` for the id in the URL |
| `Server.Database.UploadFile` | server.js:188-243 | a rejected check or a failed insert changes nothing. Otherwise exactly one row is added under the id MySQL assigns, which is unused and may skip values, and that id is returned |
| `Server.IssueThenScan` | server.js:311-388 | a successful issue followed at once by a scan of its URL serves the file the token was issued for |

## Left out

- `crypto.randomBytes`: the 16 bytes are a parameter. The code does not check for collisions, so `GenerateQr` requires that the resulting token is not already stored.
- The clocks: `Date.now()` and MySQL's `NOW()` are one integer millisecond parameter. Time zones, clock skew between Node and MySQL, and the rounding of `expires_at` to the column's precision are not modelled.
- The MySQL connection and its callbacks: each query's failure is a boolean (or an error message) parameter, and each handler runs atomically.
- Type conversion of bound values: records keep `user_id` and `file_id` as they were sent. `id = ?` is modelled by `Files.SqlId`: a number, or a string of decimal digits, names that id, and any other value matches no row. MySQL's lenient conversions (booleans, leading spaces, trailing garbage) are not modelled.
- Collation: tokens are compared exactly. Depending on the column's collation, MySQL may also match a token that differs in letter case, in accents, or (under a PAD SPACE collation) in trailing spaces.
- `QRCode.toDataURL` and the image: the response carries `qrData`, the URL the image encodes. An encoder failure inside the insert callback is not caught by the handler's `try`, so no response is sent. That path is not modelled.
- `res.download` streaming and `path.resolve`: the download body names the stored path and filename, and `fs.existsSync` on the resolved path is the oracle `onDisk`.
- `Config.RouteToken` models the `/access-file/:token` route only on URLs made from the base URL exactly as configured. It does not model Express's matching on the request path alone: a case-insensitive path such as `/ACCESS-FILE/<token>`, a trailing slash, a query string and percent-decoding of the parameter are accepted by Express but refused by `RouteToken`.
- `Config.AccessUrlRoutesToToken` holds for every BASE_URL because the base is stripped verbatim. A BASE_URL that carries a path or a trailing slash (such as `https://h/app/`) would give QR URLs that the server's route does not match; the model does not capture that.
- `TokenStore.RedeemIsDownloadOfBoundFile` compares responses as status plus message only. The access route sends its 404s as JSON `{success: false, message}`, while the download route sends them as plain text. More generally, `Http.Response` keeps the status and message but not the body's shape: `generate-qr` puts its error under the key `error`, not `message`.
- JSON numbers are integers in the model. Fractional numbers and NaN are not modelled.
- Registration after its checks (bcrypt hashing, the insert, the hashing-error reply), login, multer's disk storage, size limit and random file names, request logging, `/health`, the error middleware, static `/uploads` serving and the Express/CORS wiring beyond the origin rule.
- `Files.ListFiles`: the query's `WHERE user_id = ?` filter and its `ORDER BY uploaded_at DESC` ordering run in the database, so the rows are a parameter. `uploaded_at` is not carried into the entries.
- `src/App.jsx` is not part of this model: it is a static front-end page with no server logic.
