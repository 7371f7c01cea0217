# Request admission and query shaping of an e-commerce backend, in Dafny

This project models the four pieces of decision logic of an Express/Mongoose
e-commerce backend and proves what they promise:

- **Query planner** (`QueryPlanner`, class `ApiFunctionality`). It turns the request's query parameters into a filter object and a Mongoose query:
  - `search` adds a case-insensitive `name` pattern for a truthy `keyword`;
  - `filter` copies every parameter except `keyword`, `page` and `limit`;
  - `paginate` resolves the page, clamps it and applies `limit`/`skip`.

  The class keeps the source's fields (`query`, `queryStr`, `filterQuery`, `currentPage`). Each method is proved against a function of the old state, and the properties are lemmas about those functions.
- **Authentication middleware** (`AuthMiddleware`). Credential selection takes the cookie first, then the `Authorization` header with its first `"Bearer "` removed. Token verification, user lookup, the rejection codes 401/404/401, and `req.user` plus a single `next()` on success are all modelled. `AuthorizeRoles` is the role-membership gate.
- **Global error handler** (`ErrorMiddleware`). It picks the status and message for an error:
  - the defaults come first;
  - then the `ValidationError` and `CastError` overrides;
  - an `ApiError` wins last.
- **User controller** (`UserController`). It covers the ordered required-field check of `registerUser`, the duplicate check, avatar upload and creation, and the normalised document. It also covers `generateAccessTokenAndRefreshToken`, which overwrites the user's single refresh token.

Supporting modules: `Wrappers` (Option/Result), `JsBuiltins` (the JavaScript string built-ins the code relies on) and `ApiErrors` (the error values). `UserModel` holds the user document and a `UserStore` class for the collection.

The model stands in for its collaborators as follows:
- The token library's `verify`, the signing of tokens and the avatar upload are function-typed parameters. Their results are opaque.
- The user collection is a map from `_id` to document.

In these places the model follows the code as written:
- **Rejected tokens.** A token that fails verification (expired, forged) is passed on as the token library's own error, which has no status code. Assuming `AsyncHandler` forwards a thrown error to the error handler with `next(err)` (that file is not part of this model), the error handler answers 500, not 401 (`AuthMiddleware.RejectedTokenAnswers500`).
- **Page clamp.** With a total of 0 or no total there is no upper clamp on the page.
- **Falsy payload.** A falsy decoded payload answers 404.
- **Planner unused.** The product listing endpoint constructs the planner but calls none of its methods (src/controller/product.controller.js:31-36). The planner is modelled on its own.

## Model

| member | source | states |
|---|---|---|
| `QueryPlanner.WithKeyword` | src/utils/apiFunctionality.js:10-18 | a falsy/absent keyword leaves the filter unchanged; a truthy one sets exactly key `name` to the pattern (keyword, options "i") and keeps every other key |
| `QueryPlanner.Unreserved` | src/utils/apiFunctionality.js:22-26 | the copy holds every parameter except keyword, page and limit, with the same values |
| `QueryPlanner.WithParams` | src/utils/apiFunctionality.js:22-29 | after `filter` the keys are the old keys plus every parameter except keyword/page/limit, each copied with its value; untouched keys keep their values; a reserved key is present only if it already was |
| `QueryPlanner.NameParameterOverridesKeyword` | src/utils/apiFunctionality.js:15-29 | later wins: a `name` parameter replaces the keyword condition under `name` |
| `QueryPlanner.PlannedFilterHasNoReservedKey` | src/utils/apiFunctionality.js:5-29 | from a fresh planner, search then filter never yields keys keyword, page or limit |
| `QueryPlanner.RequestedPage` | src/utils/apiFunctionality.js:39 | the page is the parsed number, or 1 when the parameter is missing, zero or non-numeric; never 0 |
| `QueryPlanner.EffectiveLimit` | src/utils/apiFunctionality.js:40 | the limit is `resultPerPage`, or 10 when it is 0 |
| `QueryPlanner.CeilDiv` | src/utils/apiFunctionality.js:43 | the result is the ceiling of a/b for either sign of b (bracketing inequalities) |
| `QueryPlanner.TotalPages` | src/utils/apiFunctionality.js:43 | total pages exist exactly when the total is present and non-zero; they are then ceil(total/limit), at least 1 for a positive limit and at most 0 for a negative one |
| `QueryPlanner.ClampPage` | src/utils/apiFunctionality.js:46-47 | the page is at least 1; a page above a positive total-page count becomes that count; a page in range is unchanged; a page below 1, or any page under a negative count, becomes 1 |
| `QueryPlanner.Plan` | src/utils/apiFunctionality.js:39-49 | the limit is the effective one; the page is the requested page clamped by the total-page count, at least 1; skip is limit*(page-1) and is non-negative for a positive limit; a negative limit with a negative total-page count gives page 1 and skip 0 |
| `QueryPlanner.PlanBounds` | src/utils/apiFunctionality.js:43-52 | with limit >= 1 and total > 0: 1 <= page <= ceil(total/limit) and 0 <= skip < total |
| `QueryPlanner.PlanClampsToLastPage` | src/utils/apiFunctionality.js:43-52 | with limit >= 1 and total > 0, a requested page at or past ceil(total/limit) becomes that page, with skip limit*(ceil(total/limit)-1) |
| `QueryPlanner.PlanKeepsPageInRange` | src/utils/apiFunctionality.js:39-49 | with limit >= 1 and a total, a requested page from 1 to ceil(total/limit) is kept, with skip limit*(page-1) |
| `QueryPlanner.NoTotalNoClamp` | src/utils/apiFunctionality.js:43-47 | with total 0 or absent, a requested page >= 1 is kept |
| `QueryPlanner.PlanDefaults` | src/utils/apiFunctionality.js:39-40 | a missing, zero or non-numeric page resolves to page 1 and skip 0 whatever the total; limit 0 becomes 10 |
| `QueryPlanner.ApiFunctionality.constructor` | src/utils/apiFunctionality.js:2-7 | keeps the query and parameters; empty filter object; current page 1 |
| `QueryPlanner.ApiFunctionality.Search` | src/utils/apiFunctionality.js:10-18 | the new filter object is `WithKeyword` of the old one; query and page unchanged |
| `QueryPlanner.ApiFunctionality.Filter` | src/utils/apiFunctionality.js:21-35 | the reserved-field deletion loop yields the unreserved parameters, merged over the old filter object; the query gets `find` of the result; the parameters themselves are a constant and stay unmodified |
| `QueryPlanner.ApiFunctionality.Paginate` | src/utils/apiFunctionality.js:38-58 | current page and `limit`/`skip` applied to the query equal the plan's; the filter object is unchanged |
| `QueryPlanner.ShirtScenario` | src/utils/apiFunctionality.js:10-58 | keyword "shirt", category "men", page 4, limit 10, total 25 give filter {name: pattern, category: "men"}, page 3, skip 20 |
| `JsBuiltins.ToNumberOfDecimal` | src/utils/apiFunctionality.js:39 | the model's `ToNumber` reads back every integer written in decimal |
| `JsBuiltins.DecimalRoundTrip` | src/utils/apiFunctionality.js:39 | the digit value of the decimal spelling of n is n |
| `JsBuiltins.ToNumber` | src/utils/apiFunctionality.js:39-40 | undefined is NaN, "" is 0, a run of digits is its value; anything accepted is an optionally signed run of digits |
| `ErrorMiddleware.StatusAndMessage` | src/middleware/error.middleware.js:7-28 | ApiError yields its own status and message; ValidationError yields 400 and the joined sub-messages; CastError yields 400 and "Invalid <path>: <value>"; otherwise a truthy statusCode or 500, a non-empty message or "Internal Server Error" |
| `ErrorMiddleware.HandleError` | src/middleware/error.middleware.js:34-36 | the response status equals the body's statusCode, data is null, and both follow `StatusAndMessage`; the handler always answers |
| `ErrorMiddleware.Join` | src/middleware/error.middleware.js:13-15 | joining no parts gives "", one part gives that part |
| `ErrorMiddleware.JoinAppend` | src/middleware/error.middleware.js:13-15 | joining one more part appends the separator and the part |
| `ErrorMiddleware.ThrownStatusIsNonZero` | src/middleware/error.middleware.js:7-22 | an error that is not an ApiError never gets a zero status: 400, 500 or its own truthy statusCode |
| `ErrorMiddleware.EmptyValidationErrorHasEmptyMessage` | src/middleware/error.middleware.js:8-16 | a ValidationError without sub-errors answers 400 with an empty message (the default message is overwritten) |
| `ErrorMiddleware.ValidationMessagesJoined` | src/middleware/error.middleware.js:11-16 | sub-error messages are reported in order, separated by ", " |
| `JsBuiltins.IndexOf` | src/middleware/auth.middleware.js:10 | returns the first occurrence at or after the start, or none when there is none |
| `JsBuiltins.ReplaceFirst` | src/middleware/auth.middleware.js:10 | a string without the pattern is unchanged; otherwise the first occurrence, and only it, is replaced |
| `JsBuiltins.ReplacePrefix` | src/middleware/auth.middleware.js:10 | replacing the pattern in pattern + t with "" gives t |
| `JsBuiltins.ReplaceAbsent` | src/middleware/auth.middleware.js:10 | a string without the pattern is unchanged |
| `AuthMiddleware.CookieWins` | src/middleware/auth.middleware.js:8-9 | a truthy accessToken cookie is the credential whatever the header |
| `AuthMiddleware.BearerHeaderYieldsToken` | src/middleware/auth.middleware.js:8-10 | without a truthy cookie, header "Bearer " + t yields exactly t |
| `AuthMiddleware.BearerRemovedAnywhere` | src/middleware/auth.middleware.js:10 | the removal is not anchored: "Basic Bearer xyz" yields "Basic xyz" |
| `AuthMiddleware.IncomingToken` | src/middleware/auth.middleware.js:8-10 | a truthy cookie is the credential; there is none exactly when the cookie is falsy and no header is sent; otherwise it is the header with its first "Bearer " removed, shorter than the header exactly when "Bearer " occurs in it |
| `AuthMiddleware.Authenticate` | src/middleware/auth.middleware.js:6-40 | no truthy credential rejects with 401; success holds exactly when the token verifies to claims whose `_id` names a stored user; the user is then that document without password and refresh token; middleware-raised errors are 401 or 404 |
| `AuthMiddleware.VerificationErrorPropagates` | src/middleware/auth.middleware.js:17-20 | a verification failure is passed on as the library's own error |
| `AuthMiddleware.RejectedTokenAnswers500` | src/middleware/auth.middleware.js:17-20 | an expired token reaches the error handler without a status and, assuming `AsyncHandler` forwards it, is answered with 500 |
| `AuthMiddleware.PayloadRejections` | src/middleware/auth.middleware.js:22-35 | a falsy payload is rejected with 404; claims naming no stored user are rejected with 401 |
| `AuthMiddleware.VerifyUserAuth` | src/middleware/auth.middleware.js:6-40 | returns the error `Authenticate` decides and then leaves req.user and the next() count alone; on success sets req.user to the authenticated user and calls next() exactly once |
| `AuthMiddleware.AuthorizeRoles` | src/middleware/auth.middleware.js:42-51 | calls next iff req.user's role is in the list; otherwise 403 with the access-denied message; without req.user a TypeError |
| `AuthMiddleware.NoRolesRejectsEveryone` | src/middleware/auth.middleware.js:42-51 | an empty role list rejects every request |
| `UserModel.WithoutSecrets` | src/middleware/auth.middleware.js:29-31 | the projection drops password and refreshToken and changes nothing else |
| `UserModel.UserStore.FindById` | src/controller/user.controller.js:9 | returns the document with that `_id`, or none exactly when there is none |
| `UserModel.UserStore.FindOne` | src/controller/user.controller.js:42-44 | returns a stored document matching the e-mail or the user name, and none exactly when no document matches |
| `UserModel.AnyMatchInsert` | src/controller/user.controller.js:42-44 | after storing a document under a fresh id, the `$or` query on e-mail or user name matches exactly when it matched before or the new document matches |
| `UserModel.UserStore.Create` | src/controller/user.controller.js:64-71 | stores the document under a new `_id` and changes nothing else |
| `UserModel.UserStore.Save` | src/controller/user.controller.js:14 | replaces the stored document with the same `_id` |
| `UserController.FirstMissing` | src/controller/user.controller.js:28-37 | gives the position of the first missing field; every earlier field is present; none exactly when every field is present |
| `UserController.Missing` | src/controller/user.controller.js:32 | a field counts as missing only when it is absent or its trim() is empty |
| `UserController.MissingMatchesTrimTest` | src/controller/user.controller.js:32 | a field counts as missing exactly when it is falsy or its trim() is empty |
| `JsBuiltins.Trim` | src/controller/user.controller.js:32 | the result is no longer than the input, neither of its ends is white space, and it is the input with a blank prefix and a blank suffix removed |
| `JsBuiltins.TrimEmptyIffBlank` | src/controller/user.controller.js:32 | `s.trim() === ""` exactly when every character is white space |
| `UserController.CheckRequiredFields` | src/controller/user.controller.js:28-37 | the loop returns the first missing field in the order fullName, userName, email, password, or none |
| `UserController.NewUserDoc` | src/controller/user.controller.js:25-71 | the created document has lower-cased userName and email, fullName and password unchanged, avatar {public_id, url} from the upload, role from the body defaulting to "user" |
| `UserController.RoleOf` | src/controller/user.controller.js:25 | the role is the body's role when present, "user" otherwise |
| `UserController.RegisterDecision` | src/controller/user.controller.js:23-80 | no file fails first; the first missing field is reported; an empty path answers "Avatar is required" (no status); a duplicate answers 400 "already exists"; a null upload answers 400 "Failed to upload avatar"; success iff fields present, path non-empty, no duplicate and upload succeeded; the answer is the created document under the next id without its password |
| `UserController.RegisteredNamesAreLowerCase` | src/controller/user.controller.js:66-67 | a registered user's userName and email hold no upper-case letter and are fixed points of lower-casing |
| `JsBuiltins.ToLowerCase` | src/controller/user.controller.js:66-67 | same length; each character is lower-cased; no upper-case ASCII letter remains and every other character is kept |
| `JsBuiltins.ToLowerCaseIdempotent` | src/controller/user.controller.js:66-67 | lower-casing twice equals lower-casing once |
| `UserController.FullNameReportedFirst` | src/controller/user.controller.js:28-37 | a missing fullName is reported whatever else is missing |
| `UserController.DuplicateRejected` | src/controller/user.controller.js:42-48 | a stored user with the same email or userName makes registration fail with 400 |
| `UserController.SecondRegistrationRejected` | src/controller/user.controller.js:42-71 | after a registration, the same request (with an already lower-case e-mail) is rejected with 400 "already exists" against the updated store |
| `UserController.RegisterUser` | src/controller/user.controller.js:23-88 | the outcome is `RegisterDecision` of the old store; on success the store gains exactly the created document (password included) under the next id; otherwise users and next id are unchanged |
| `UserController.IssueTokens` | src/controller/user.controller.js:7-21 | success iff the user exists and both tokens are signed; the returned access and refresh tokens are the signed ones; the refresh token is the one stored on the user, nothing else changes; every failure is ApiError 500 "Error generating tokens" and leaves the store unchanged |
| `UserController.SecondIssueSupersedesFirst` | src/controller/user.controller.js:10-16 | after two successful issues only the second refresh token is stored, and a different first token is no longer stored |
| `UserController.GenerateAccessTokenAndRefreshToken` | src/controller/user.controller.js:7-21 | the pair returned and the users afterwards are those of `IssueTokens`; the next id is unchanged |

## Left out

- QueryPlanner.EffectiveLimit: `resultPerPage` is taken as an integer (the default 10 or any integer a caller passes), so `Number(resultPerPage) || 10` is modelled only for integers. A non-numeric or null argument, for which JavaScript also falls back to 10, and a fractional limit (`paginate(2.5, 25)` gives limit 2.5) are not modelled; `ApiFunctionality.Paginate` inherits this.
- JsBuiltins.ToNumber: only the empty string and an optionally signed run of decimal digits are numbers. Surrounding white space, fractions, exponents, hexadecimal and "Infinity" are treated as NaN here, though JavaScript's `Number` accepts them. A fractional page therefore is not modelled (floating point), and neither is the rounding of integers beyond 2^53 (`Number("9007199254740993")` is 9007199254740992); the model's integers are exact.
- JsBuiltins.ToLowerCase: lower-cases ASCII letters only; the Unicode case mappings of `toLowerCase` are not modelled.
- The keyword's `$regex` condition is an opaque value; pattern matching and the missing escaping of the keyword are not modelled.
- Query parameters and body fields are strings. Nested-object parameters (`price[gte]=…`), repeated parameters (arrays) and non-string body values (on which `trim` would throw) are not modelled.
- Signing and verifying tokens, bcrypt password hashing, the avatar upload (and the file-system cleanup around it) and logging are I/O or foreign crypto. Signing, verifying and uploading are parameters whose results are opaque; hashing and logging are dropped.
- `User.create` is assumed to succeed. The schema's validators and unique indexes are not modelled, and neither is the `!newUser` branch (src/controller/user.controller.js:73-75), which `create` never reaches since it rejects instead of returning null. The schema's create-time setters are not modelled either: `trim: true` on fullName, userName and email (src/models/user.model.js:12,21,28) would strip surrounding white space from the stored values, which the model stores untrimmed (only `lowercase` is applied, as the controller does it).
- UserController.RegisterDecision: `new ApiError(400, "Avatar is required")` (src/controller/user.controller.js:39) passes the status first (as does src/controller/user.controller.js:74), whereas src/middleware/auth.middleware.js:13,23,34,45 and src/controller/user.controller.js:19,47,55 pass the message first. The `ApiError` class is not part of this model, so this outcome carries no status.
- UserModel.UserStore.FindOne: compares the body's e-mail and user name verbatim with the stored values; Mongoose's casting of query values through the schema's `lowercase`/`trim` setters is not modelled.
- UserController.SecondRegistrationRejected: requires the e-mail to be lower case already. The stored address is lower-cased while the model's query compares verbatim, so a mixed-case repeat is not shown to be rejected here.
- UserController.GenerateAccessTokenAndRefreshToken: `save` is assumed to succeed. The overwrite of `refreshToken` is the code's intended effect on the document. The user schema declares no `refreshToken` path, so under Mongoose's strict mode the field would not be persisted; database persistence is not claimed.
- `AsyncHandler` is not part of this model: a thrown error is returned as a value (`VerifyUserAuth`'s result, `RegisterOutcome.Failed`) instead of being forwarded with `next(err)`. Async/await is sequential here.
- RegisterOutcome.NoFile: a request without a file makes `req.file.path` (src/controller/user.controller.js:26) throw a TypeError, which the error handler answers with 500; the model reports this as the outcome `NoFile` without an error value.
- `ApiError` is taken to carry a name other than "ValidationError" and "CastError".
- The HTTP wiring (src/app.js, src/routes/), the product controller's pass-through CRUD and the response writes (`res.status(...).json(...)` becomes a returned value) are not modelled.
