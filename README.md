# Edtech backend core: query builder, verification codes, auth middlewares, AppError

A Dafny model of the rule-bearing parts of the challenge-platform backend
(an Express + Mongoose service):

- **Query builder** (`src/utils/APIFeatures.ts`, module `QueryFeatures`): the chainable
  `APIFeatures` object as a class whose `query` field records the store operations
  applied to it (`Find`, `SortBy`, `Select`, `Skip`, `Limit`) and whose `queryString`
  holds the parsed URL query. `filter` drops the control keys `page`, `sort`, `limit`,
  `fields` in a loop and rewrites the whole words `gte|gt|lte|lt` to `$gte|$gt|$lte|$lt`;
  `sort` and `limitFields` turn commas into spaces, with defaults `-createdAt` and
  `-__v`; `paginate` applies `parseInt(...) || default` (page 1, limit 6) and
  `skip = (page - 1) * limit`. JavaScript's decimal rendering is modelled exactly for integers of
  magnitude below 10^21 and `parseInt` for results below 2^53 (module `JsNumbers`), as are `startsWith`, `split` and `join`
  (module `Text`).
- **Verification codes and profile updates** (`src/controllers/user.controller.ts`,
  module `Users`): a controller class over the user collection (a sequence in insertion
  order; a lookup returns the first match). Each handler is specified by a function of
  the collection before the request that returns the reply and the collection after it.
  Time is an explicit millisecond parameter `now`. The e-mail dispatch result, the
  generated code, token decoding, password comparison and hashing are parameters.
- **Authentication** (`src/middlewares/auth.middleware.ts`, module `Auth`): token
  selection from the `Authorization: Bearer …` header or the `token` cookie, the three
  401 guards, and the write of `req.user` before `next()`.
- **Role gate** (`src/middlewares/admin.middleware.ts`, module `Admin`): `restrictTo(...roles)`
  as a function returning the single `next` call (plain, or with a 401/403 `AppError`).
- **Errors** (`src/utils/AppError.ts`, module `Errors`): the `AppError` constructor and
  its `status` word, `"fail"` exactly when the decimal rendering of the code starts with `4`.

The challenge controller calls `getChallengeStats`, `joinChallenge` and
`getTotalParticipants` (`src/controllers/challenge.controller.ts` lines 252, 321 and
344), but the challenge service defines none of them, and nothing implements a
challenge lifecycle (status sweep, durations). The model follows the code and leaves
these out (see below).

## Model

| member | source | states |
|---|---|---|
| `QueryFeatures.ApiFeatures.constructor` | src/utils/APIFeatures.ts:7-10 | stores the initial query and the query string as given |
| `QueryFeatures.Rewrite` | src/utils/APIFeatures.ts:20 | the regex replacement: each maximal run of word characters (`[A-Za-z0-9_]`) that is exactly `gte`, `gt`, `lte` or `lt` gets a `$` in front, everything else is copied; text starting with a non-word character still does after the rewrite |
| `QueryFeatures.RewriteKeys` | src/utils/APIFeatures.ts:19-22 | every key `k` of an object reappears as `Rewrite(k)` with its value, and every new key is the rewrite of an original key, recovered by `Strip` |
| `QueryFeatures.RewriteParam` | src/utils/APIFeatures.ts:19-22 | the rewrite of one query value keeps its shape (string, array, one-level object); a string and each array element are rewritten and `Strip` recovers them; an object's keys are rewritten and each value is recovered by `Strip` |
| `QueryFeatures.RewriteObject` | src/utils/APIFeatures.ts:19-22 | the stringify-replace-parse round applied to an object: every key `k` reappears as `Rewrite(k)` with its rewritten value, and every resulting key is the rewrite of exactly one original key |
| `QueryFeatures.DropControlKeys` | src/utils/APIFeatures.ts:15-17 | the copy loses exactly the keys `page`, `sort`, `limit`, `fields`; every other key keeps its value |
| `QueryFeatures.FilterObject` | src/utils/APIFeatures.ts:15-22 | no control key is a key of the filter; every other key of the query string appears, rewritten, with its rewritten value; every filter key is the rewrite of a non-control key |
| `QueryFeatures.ApiFeatures.Filter` | src/utils/APIFeatures.ts:14-24 | appends one `find` with the filter object; the query string is unchanged |
| `QueryFeatures.StripRewrite` | src/utils/APIFeatures.ts:20 | removing the `$` in front of each whole operator word undoes the rewrite, for every string |
| `QueryFeatures.RewriteInjective` | src/utils/APIFeatures.ts:20-22 | distinct keys stay distinct after the rewrite, so parsing the rewritten JSON loses no key |
| `QueryFeatures.RewriteOnlyAddsDollars` | src/utils/APIFeatures.ts:20 | deleting all `$` from the rewritten text and from the original gives the same text: the rewrite only inserts `$` |
| `QueryFeatures.RewriteWord` | src/utils/APIFeatures.ts:20 | a single word gets a `$` in front exactly when it is `gte`, `gt`, `lte` or `lt` |
| `QueryFeatures.RewriteOperators` | src/utils/APIFeatures.ts:20 | each of the four operators alone becomes `$gte`, `$gt`, `$lte`, `$lt` |
| `QueryFeatures.RewriteWholeWordsOnly` | src/utils/APIFeatures.ts:20 | `gtx` and `alt` are left untouched |
| `QueryFeatures.RewriteNotIdempotent` | src/utils/APIFeatures.ts:20 | rewriting twice turns `gt` into `$$gt` |
| `QueryFeatures.StripWithoutDollar` | src/utils/APIFeatures.ts:16-20 | text without `$` is its own inverse image, which keeps the control keys out of the rewritten filter |
| `QueryFeatures.CommaListSpec` | src/utils/APIFeatures.ts:28-33 | the spec passed on by `sort` (and by `limitFields`, lines 39-44): it fails with a `TypeError` exactly when the value is present but not a string; a non-empty string comes back with every comma replaced by a space |
| `Text.Join` | src/utils/APIFeatures.ts:29 | `join(sep)`: the result starts with the first piece and every character in it comes from a piece or from the separator |
| `QueryFeatures.CommaListSpecOfString` | src/utils/APIFeatures.ts:28-30 | a non-empty spec keeps its length and every character, except that each comma becomes a space; no comma remains |
| `QueryFeatures.CommaListSpecDefaults` | src/utils/APIFeatures.ts:31-32 | a missing or empty spec yields the default (`-createdAt` for sort, `-__v` for fields) |
| `QueryFeatures.ApiFeatures.Sort` | src/utils/APIFeatures.ts:27-35 | appends one `sort` with the comma-to-space spec or `-createdAt`; a non-string value throws and appends nothing |
| `QueryFeatures.ApiFeatures.LimitFields` | src/utils/APIFeatures.ts:38-46 | appends one `select` with the comma-to-space spec or `-__v`; a non-string value throws and appends nothing |
| `QueryFeatures.JsString` | src/utils/APIFeatures.ts:49-50 | the `String()` conversion `parseInt` applies: a string stays itself; a missing value (`undefined`) or an object (`[object Object]`) has no digit |
| `QueryFeatures.NumberOr` | src/utils/APIFeatures.ts:49-50 | `parseInt(v, 10) \|\| default` is never 0 when the default is not 0 |
| `QueryFeatures.PageOf` | src/utils/APIFeatures.ts:49 | the page number, defaulting to 1, is never 0 |
| `QueryFeatures.LimitOf` | src/utils/APIFeatures.ts:50 | the page size, defaulting to 6, is never 0 |
| `QueryFeatures.WindowStart` | src/utils/APIFeatures.ts:51 | `(page - 1) * limit` is 0 exactly for page 1, and at least one page for a later page of positive size |
| `QueryFeatures.SkipOf` | src/utils/APIFeatures.ts:51 | the number of documents skipped is 0 exactly on page 1, and at least `limit` on a later page of positive size |
| `QueryFeatures.NumberOrOfDecimal` | src/utils/APIFeatures.ts:49-50 | a decimal number followed by non-digits reads as that number (`"3abc"` is 3, negatives allowed); 0 falls back to the default |
| `QueryFeatures.NumberOrOfDigitless` | src/utils/APIFeatures.ts:49-50 | any string value with no digit (`page=abc`) is `NaN` and falls back to the default |
| `QueryFeatures.NumberOrOfNonNumber` | src/utils/APIFeatures.ts:49-50 | a missing, empty or object value falls back to the default |
| `QueryFeatures.PaginationExamples` | src/utils/APIFeatures.ts:49-53 | page 2 of limit 6 skips 6; a missing page skips 0 with limit 6; page `3abc` is page 3; page -1 skips -12 |
| `QueryFeatures.ApiFeatures.Paginate` | src/utils/APIFeatures.ts:48-55 | appends `skip((page-1)*limit)` then `limit(limit)`; page and limit are never 0 |
| `Text.JoinSplit` | src/utils/APIFeatures.ts:29 | `split(c).join(d)` equals replacing every `c` by `d` |
| `JsNumbers.ParseInt` | src/utils/APIFeatures.ts:49-50 | `parseInt(s, 10)`: skips JavaScript white space, reads one sign and the longest digit run; it yields a number only when the string holds a digit, and `NaN` otherwise |
| `JsNumbers.DecimalString` | src/utils/AppError.ts:11 | the decimal rendering of an integer (template literal): never empty, starting with `-` exactly for a negative number |
| `JsNumbers.ParseIntOfDecimal` | src/utils/APIFeatures.ts:49 | `parseInt` of a decimal rendering, followed by anything that does not start with a digit, returns the rendered integer |
| `JsNumbers.DigitsValueOfDigits` | src/utils/APIFeatures.ts:49 | reading back the decimal digits of a number gives the number |
| `Errors.Status` | src/utils/AppError.ts:11 | the status word is `"fail"` or `"error"`, and `"fail"` only for a positive code |
| `Errors.StatusIsFailIff` | src/utils/AppError.ts:11 | `status` is `"fail"` exactly when `4·10^k <= statusCode < 5·10^k` for some k, and `"error"` otherwise |
| `Errors.StatusOfHttpCodes` | src/utils/AppError.ts:11 | 400, 401, 403, 404 are `"fail"`; 500 is `"error"` |
| `Errors.StatusLooksAtFirstCharacterOnly` | src/utils/AppError.ts:11 | 4 and 4000 are `"fail"`; every negative code is `"error"` |
| `Errors.AppError.constructor` | src/utils/AppError.ts:8-14 | message, statusCode and errName stored as given, `isOperational` true, `status` derived by the rule above |
| `Users.StatusCode` | src/controllers/user.controller.ts:52-331 | the HTTP status each reply is sent with (the `res.status(...)` calls at lines 52, 57, 120, 162, 169, 185, 189, 239, 249, 256, 262, 272, 277, 315, 324, 331): always one of 200, 400, 401, 404, 500 |
| `Users.FindFirst` | src/controllers/user.controller.ts:167 | the result is the first record whose key has the value, or none has it |
| `Users.FindByEmail` | src/controllers/user.controller.ts:167 | the result is the first record with that e-mail, or none has it |
| `Users.FindById` | src/controllers/user.controller.ts:55 | the result is the first record with that id, or none has it |
| `Users.Issue` | src/controllers/user.controller.ts:174-176 | a freshly issued code expires ten minutes (600000 ms) after `now`, and its text reads back (by `parseInt`) as the generated number |
| `Users.CheckCode` | src/controllers/user.controller.ts:255-266 | the checks of a validation in order: a missing expiry is reported as such exactly when there is none; acceptance implies the stored code matches and `now` is not past the expiry |
| `Users.CheckCodeAccepts` | src/controllers/user.controller.ts:255-266 | a code is accepted exactly when an expiry exists, `now <= expiresAt` and the code matches; a past expiry reports expired whatever the code |
| `Users.SendCodeStep` | src/controllers/user.controller.ts:158-199 | `sendVerificationCode` on the store: records are neither added, removed, reordered nor re-identified, and the store changes only when the reply is 200 or the 500 of a failed dispatch |
| `Users.ValidateCodeStep` | src/controllers/user.controller.ts:232-281 | `validateVerificationCode` on the store: no record added, removed or re-identified; any reply other than success leaves the store unchanged |
| `Users.UpdateProfileStep` | src/controllers/user.controller.ts:47-73 | `updateProfile` on the store: no record added, removed or re-identified; any reply other than the updated profile leaves the store unchanged |
| `Users.UpdatePasswordStep` | src/controllers/user.controller.ts:106-131 | `updatePassword` on the store: no record added, removed or re-identified; any reply other than success leaves the store unchanged |
| `Users.ResetPasswordStep` | src/controllers/user.controller.ts:311-337 | `resetPassword` on the store: no record added, removed or re-identified; any reply other than success leaves the store unchanged |
| `Users.SendCodeRejections` | src/controllers/user.controller.ts:161-172 | no e-mail gives 400 and an unknown e-mail 404, with the store unchanged |
| `Users.SendCodeIssues` | src/controllers/user.controller.ts:174-192 | only the first matching record's code changes: the generated number in decimal, expiring at `now + 600000`; the saved state is the same whether or not the mail went out; reply 200 or 500 |
| `Users.ValidateMissingFields` | src/controllers/user.controller.ts:238-244 | a missing code or e-mail gives 400 reporting each field as missing or present, store unchanged |
| `Users.ValidateRejections` | src/controllers/user.controller.ts:255-266 | expired is reported before a wrong code; an unexpired wrong code is invalid; both 400, store unchanged |
| `Users.IssuedCodeIsSingleUse` | src/controllers/user.controller.ts:255-268 | a code issued at t (lines 174-176) is accepted at any time up to t + 600000 inclusive, and afterwards every validation at a positive time reports expired |
| `Users.IssuedCodeExpires` | src/controllers/user.controller.ts:255-260 | the right code presented after t + 600000 is expired and changes nothing |
| `Users.ValidateAcceptResets` | src/controllers/user.controller.ts:267-270 | an accepted code answers 200 and sets that account's code to `"default"` and its expiry to epoch 0; every other field and record is unchanged |
| `Users.UpdateProfileFields` | src/controllers/user.controller.ts:60-65 | name and e-mail are overwritten only by non-empty values; all other fields and records are unchanged |
| `Users.UpdatePasswordOutcomes` | src/controllers/user.controller.ts:118-124 | for a signed-in account, a non-matching current password answers 400 and changes nothing; a matching one with a non-empty new password answers 200 and changes only that account's password, to the hash of the new one |
| `Users.UpdatePasswordUnauthorized` | src/controllers/user.controller.ts:110-117 | a missing token, or one naming no account, answers 401 and changes nothing |
| `Users.ResetPasswordChangesOnlyPassword` | src/controllers/user.controller.ts:313-333 | only the password of the matching record changes, to the hash of the new one |
| `Users.UserController.constructor` | src/controllers/user.controller.ts:15 | the controller starts over the given user collection |
| `Users.UserController.SendVerificationCode` | src/controllers/user.controller.ts:158-199 | reply and new store are those of `SendCodeStep` on the old store |
| `Users.UserController.ValidateVerificationCode` | src/controllers/user.controller.ts:232-281 | reply and new store are those of `ValidateCodeStep` on the old store, whose outcomes `ValidateMissingFields`, `ValidateRejections` and `ValidateAcceptResets` prove |
| `Users.UserController.UpdateProfile` | src/controllers/user.controller.ts:47-73 | reply and new store are those of `UpdateProfileStep` on the old store |
| `Users.UserController.UpdatePassword` | src/controllers/user.controller.ts:106-131 | reply and new store are those of `UpdatePasswordStep` on the old store, whose outcomes `UpdatePasswordOutcomes` and `UpdatePasswordUnauthorized` prove |
| `Users.UserController.ResetPassword` | src/controllers/user.controller.ts:311-337 | reply and new store are those of `ResetPasswordStep` on the old store |
| `Text.StartsWith` | src/middlewares/auth.middleware.ts:7 | `startsWith(prefix)` holds exactly when `s` is `prefix` followed by the rest of `s` |
| `Text.Split` | src/middlewares/auth.middleware.ts:8 | `split(c)` yields at least one piece, and no piece contains `c` |
| `Auth.SelectToken` | src/middlewares/auth.middleware.ts:6-11 | with a header starting with `Bearer`, the token (if any) contains no space (that the cookie then plays no part is `HeaderTakesPrecedence`); otherwise the token is the cookie token when it is non-empty, and none otherwise |
| `Auth.Request.constructor` | src/middlewares/auth.middleware.ts:5 | a request carries its header and cookie and no authenticated user yet |
| `Auth.Authenticate` | src/middlewares/auth.middleware.ts:5-29 | a user is found exactly when the selected token is non-empty, decodes to an id, and a record has that id; the user returned has that id |
| `Auth.BearerTokenIsSecondPiece` | src/middlewares/auth.middleware.ts:7-8 | with a `Bearer…` header the token is the second space-separated piece, whatever the cookie |
| `Auth.BearerWithoutSpaceHasNoToken` | src/middlewares/auth.middleware.ts:7-8 | `Bearer` alone or `Bearerabc` yields no token, and the cookie is not used |
| `Auth.HeaderTakesPrecedence` | src/middlewares/auth.middleware.ts:7-11 | with a `Bearer…` header the cookie does not affect the token |
| `Auth.CookieWithoutBearerHeader` | src/middlewares/auth.middleware.ts:9-10 | without a (case-sensitive) `Bearer` header the non-empty cookie token is used |
| `Auth.DoubleSpaceIsRejected` | src/middlewares/auth.middleware.ts:8-15 | `Bearer  x` yields the empty token and a 401 |
| `Auth.IsAuthenticated` | src/middlewares/auth.middleware.ts:5-30 | answers 401 or calls `next` once; `req.user` is set to the authenticated user exactly when `next` is called |
| `Admin.RestrictTo` | src/middlewares/admin.middleware.ts:10-22 | no user: 401 "You are not logged in!"; role not listed: 403; role listed: plain `next()`; exactly one `next` call |
| `Admin.OnlyMembershipCounts` | src/middlewares/admin.middleware.ts:16 | order and duplicates in `roles` do not matter |
| `Admin.EmptyRolesRefuseEveryone` | src/middlewares/admin.middleware.ts:16 | with no roles every logged-in user gets 403 |
| `Admin.RefusalsAreFailures` | src/middlewares/admin.middleware.ts:14-17 | every refusal carries 401 or 403, whose `AppError` status is `"fail"` |

## Left out

- Challenge lifecycle: the controller calls `getChallengeStats`, `joinChallenge` and `getTotalParticipants`, which the service does not define; the schema has no status, participants or start time; there is no duration computation, deadline check or periodic sweep. Nothing here models them.
- The challenge service, the Mongoose schemas, the routes, `app.ts`, `server.ts` and the auth controller: persistence and HTTP glue without rules of their own.
- The store's execution of `find`/`sort`/`select`/`skip`/`limit`: the builder records the operations only.
- `QueryFeatures.FilterObject`: the rewrite is applied to each key and value rather than to the JSON text; the two agree except for strings holding characters that `JSON.stringify` writes as letter escapes (`\n`, `\t`, `\b`, `\f`, `\r`, `\uXXXX`).
- Query-string values nested more than one level deep, and arrays of objects, are not represented.
- Numbers are unbounded integers: `parseInt` results beyond 2^53 and non-integer status codes are not modelled.
- `JsNumbers.DecimalString`: integers of magnitude 10^21 or more are written out in full, where JavaScript uses exponent form (`1e+21`); the leading character, and so `Errors.Status`, is the same.
- `QueryFeatures.SkipOf`: `(page - 1) * limit` is exact, where JavaScript rounds a product above 2^53 (page and limit of 10^9 each) to the nearest double.
- Foreign calls are parameters: `verifyToken` (a function from token to user id, where a rejected token gives none; a throwing `verifyToken` is not distinguished), `generateVerificationCode`, the `sent` flag of `sendEmail`, `comparePassword`, and the bcrypt hash applied by the pre-save hook.
- Store failures: a failing `save()`, a `CastError` from `findById` on a malformed id, and a throwing `sendEmail` are not modelled; so is `resetPassword`'s catch block, which sends no response.
- Request-body fields are strings; an absent field is the empty string, which takes the same falsy branch wherever a handler tests the field. Non-string body values (a numeric `code`) are not modelled.
- `Users.UpdatePasswordStep`: `currentPassword` is never tested for falsiness; it goes straight to `comparePassword`, whose answer is the `matches` parameter. That comparison throws on an absent value (a 500) and answers false on `""` (a 400); the model cannot tell the two apart, so the 500 for an absent current password is not modelled.
- Concurrency between requests and the async interleavings of the handlers.
