# dogs-api core, modelled in Dafny

This project models the logic inside a small Express/Mongoose REST service for dogs and user accounts:

- **Query-feature pipeline.** `APIFeatures` turns a request's query string into a database query descriptor. It strips the reserved keys, rewrites the comparison operators, builds the sort and field lists, and checks the page.
- **Central error middleware.** It turns any error into an HTTP status and a body, differently in development and in production.
- **User document.** This covers the schema's defaults and validators, the `pre("save")` password hook and the `pre(/^find/)` filter on inactive users. It also covers the reset-token and e-mail OTP helpers.
- **Authentication controller.** It handles signup, login, the `protect` bearer-token gate, `restrictTo` and `restricVerified`, the password-reset flow, password update, and e-mail verification.
- **Dog document and dog handlers.** This covers the dog's defaults, validation and the `description` virtual, plus listing, create, get, update, delete, the top three by intelligence, and per-breed-type sums.
- **Dog router.** It decides which handler a request reaches and which gates stand in front of it.

The collections are plain sequences of records. The model treats outside components as follows:

| Outside component | In the model |
|---|---|
| A stored document's position | Its id |
| bcrypt and SHA-256 hashes | Constructors `Bcrypt(plain)` and `Sha256(plain)`, so they are injective and comparing is equality |
| JWT verification | A function parameter, `verify: string -> Verdict` |
| The numeric test inside `checkPasswordChangeAfter` | A parameter, `changedAfter` |
| `validator.isEmail` | A parameter, `isEmail` |
| Mail delivery | A boolean, `mailOk` |
| Random draws | The integer `draw` and the token text |
| The clock | An integer `now` in milliseconds |
| The moment a schema module is loaded | An integer `loadTime` |
| Matching a dog against a filter document | A parameter, `matches` |

Modules (one file each): `Common` (options, joining and splitting, decimal text), `Errors`, `ErrorsHandler`, `OperatorRewrite`, `FilterJson`, `ApiFeatures`, `UserModel`, `AuthController`, `DogModel`, `DogsController`, `DogsRouter`.

## Model

| member | source | states |
|---|---|---|
| ApiFeatures.StripReserved | utils/APIFeatures.js:11-13 | Every remaining entry comes from the query and has a non-reserved key. Every non-reserved key keeps its value. `fields`, `sort`, `page` and `limit` are all gone. |
| OperatorRewrite.RewriteIsMarked | utils/APIFeatures.js:16-20 | The regex replacement, run the way a JavaScript engine scans (alternatives in order, resuming after each match), is the declarative marking. That marking puts exactly one `$` before each whole-word `gte`/`lte`/`gt`/`lt` and copies every character. |
| OperatorRewrite.RewriteOnlyAddsDollars | utils/APIFeatures.js:17-20 | Deleting the `$` signs from the rewritten text gives the input with its `$` signs deleted. The rewrite never shortens the text. |
| OperatorRewrite.RewriteKeepsPlainText | utils/APIFeatures.js:17-20 | A text with no whole-word operator comes back unchanged. |
| OperatorRewrite.RewriteConcat | utils/APIFeatures.js:17-20 | Cutting the text where one side is a non-word character commutes with the rewrite. |
| OperatorRewrite.OperatorWordAlone | utils/APIFeatures.js:18-19 | Each of the four operator names on its own becomes `$` plus the name. |
| OperatorRewrite.RewriteLeavesEmbeddedWords | utils/APIFeatures.js:18 | `agte`, `gte_x` and `ltd` are left alone, because `\b` needs a non-word neighbour. |
| FilterJson.RewriteIsStructural | utils/APIFeatures.js:16-20 | For escape-free filters, rewriting the serialised filter equals serialising the filter with every key and string value renamed word by word. |
| FilterJson.PriceExample | utils/APIFeatures.js:16-20 | `{"price":{"gte":"5"}}` becomes `{"price":{"$gte":"5"}}`. |
| FilterJson.ValuesAreRewrittenToo | utils/APIFeatures.js:16-20 | A string value that is an operator word is rewritten as well: `status=gt` filters on `"$gt"`. |
| ApiFeatures.Filter | utils/APIFeatures.js:9-33 | Only the filter of the descriptor changes. For escape-free queries it is the renamed, stripped query. |
| ApiFeatures.FieldList | utils/APIFeatures.js:36-39 | Missing or empty gives `-createdAt`. A string gives a string of the same length with every `,` replaced by a space and every other character kept. An object fails, because `replaceAll` is not a function there. |
| ApiFeatures.FieldListJoinsNames | utils/APIFeatures.js:38 | The comma-to-space replacement is the comma-separated names joined by spaces. |
| ApiFeatures.SortStep | utils/APIFeatures.js:35-43 | It succeeds exactly when the sort list can be built, and then sets only the sort. |
| ApiFeatures.SelectStep | utils/APIFeatures.js:45-53 | It succeeds exactly when the field list can be built, and then sets only the projection. |
| ApiFeatures.CoerceNumber | utils/APIFeatures.js:56-57 | `+s \|\| default`: absent, non-numeric or zero gives the default. Any other number is kept, and the result is never 0. |
| Common.NumberRoundTrip | utils/APIFeatures.js:56-57 | Unary plus reads back the decimal text of every natural number. |
| ApiFeatures.PageAndLimitRead | utils/APIFeatures.js:56-57 | Positive decimal `page` and `limit` are read as those numbers. |
| ApiFeatures.CeilDiv | utils/APIFeatures.js:59 | `Math.ceil(a / b)` is characterised by bounds for both signs of the divisor. |
| ApiFeatures.Pagination | utils/APIFeatures.js:55-64 | It fails with "Page invalid"/404 exactly when page exceeds the page count. On success it sets exactly skip `(page-1)*limit` and the limit. |
| ApiFeatures.PaginationWindow | utils/APIFeatures.js:58-60 | For page ≥ 1 and limit > 0, the page is accepted if and only if skip < count. |
| ApiFeatures.EmptyCollectionHasNoPage | utils/APIFeatures.js:59-60 | With no documents, every page ≥ 1 is refused with 404. |
| ApiFeatures.FirstPageOfNonEmpty | utils/APIFeatures.js:56-61 | With no `page` and a non-empty collection, the first page is given with skip 0. |
| ApiFeatures.Features | controllers/dogsController.js:7-12 | The chain filter → sort → select → pagination fails exactly when one of its steps fails. On success the descriptor holds each step's value. |
| ApiFeatures.DefaultListing | utils/APIFeatures.js:36-61 | With no steering keys the query is sorted and projected by `-createdAt` and gets skip 0 and limit 10. |
| ErrorsHandler.DevHandler | middlewares/errorsHandler.js:3-12 | The status code defaults to 500 and the status to "error". The body carries the status, the message and the stack. |
| ErrorsHandler.ProdHandler | middlewares/errorsHandler.js:13-24 | An operational error is answered with its own code, status and message. Anything else gets 500, "error", "Something went wrong". |
| ErrorsHandler.CastRewrite | middlewares/errorsHandler.js:25-26 | A cast error becomes "Invalid <path>: <value>", with no status code. The handler then asks for a response with no status. |
| ErrorsHandler.DuplicateRewrite | middlewares/errorsHandler.js:28-29 | Code 11000 becomes 400 "The <first key> was exists". |
| ErrorsHandler.ValidationRewrite | middlewares/errorsHandler.js:31-37 | A validator failure becomes 400 with all messages joined by ". " in order. |
| ErrorsHandler.ChainIsFirstMatch | middlewares/errorsHandler.js:49-63 | The production chain leaves an unrecognised error unchanged, never gives a cast error a status, and never turns a duplicate or validation error into a 401. |
| ErrorsHandler.Respond | middlewares/errorsHandler.js:47-65 | Development renders the raw error and production renders the rewritten one. Any other value of `NODE_ENV` writes no response. |
| ErrorsHandler.ProdDuplicateKey | middlewares/errorsHandler.js:28-29 | In production a duplicate key is answered 400 "The <key> was exists". |
| ErrorsHandler.ProdValidation | middlewares/errorsHandler.js:31-37 | In production a validation failure is answered 400 with the joined messages. |
| ErrorsHandler.ProdTokenErrors | middlewares/errorsHandler.js:39-45 | In production both token errors are answered 401 with their fixed messages. |
| ErrorsHandler.ProdHidesUnexpected | middlewares/errorsHandler.js:20-23 | In production an unrecognised non-operational error is answered 500 with the generic message. |
| UserModel.NewUser | models/userModel.js:7-64 | A new user gets role "user", is active and unverified, and has no reset or OTP state. `passwordChangedAt` defaults to the schema's load time. |
| UserModel.ValidateIffValid | models/userModel.js:8-39 | Validation reports nothing exactly when the name, e-mail, role, password length, and confirmation length and equality constraints hold. |
| UserModel.StoredUserFailsValidation | models/userModel.js:29-31 | A user loaded from the store has no confirmation, so a validating save reports "Please confim your password". |
| UserModel.PreSave | models/userModel.js:97-108 | An unchanged password leaves the record alone. A new password is stored as its bcrypt hash and the confirmation is cleared. A non-new user whose reset deadline has passed is refused with 401 "Your token is expired". Otherwise `passwordChangedAt` becomes now − 1000. No other field changes. |
| UserModel.Save | models/userModel.js:97-108 | Validation comes first, then the hook, then the unique e-mail. It succeeds exactly when all three pass, and then appends or replaces the record. |
| UserModel.SaveKeepsGood | models/userModel.js:97-100 | Saving keeps stored passwords hashed, no confirmation stored, and e-mails distinct. |
| UserModel.CreateResetTokenPwd | models/userModel.js:68-76 | It returns the token. It stores only its SHA-256, with deadline now + 720000. Nothing else changes. |
| UserModel.OtpCode | models/userModel.js:89 | The code is four digits with value 1000 + draw, so it lies in 1000..9999. |
| UserModel.CreateVerifyEmailOtp | models/userModel.js:88-95 | It returns a four-digit code. It stores its bcrypt hash with deadline now + 180000. Nothing else changes. |
| UserModel.CheckPasswordChangeAfter | models/userModel.js:82-86 | It is false when `passwordChangedAt` is absent. |
| UserModel.FindActive | models/userModel.js:110-113 | It finds the first active record matching the query, and finds nothing exactly when no active record matches. |
| UserModel.InactiveNeverFound | models/userModel.js:110-113 | An inactive user is never found. |
| UserModel.FoundByEmail | models/userModel.js:110-113 | With distinct e-mails, an active user is found by their own e-mail. |
| AuthController.Signup | controllers/authController.js:32-44 | It succeeds exactly when the new document passes validation, the hook and the unique e-mail index. A valid document with a free e-mail always gets a token. Success appends exactly one user with defaults, a hashed password and no confirmation, and answers 200 with a token. An invalid document gets the validator messages. Failure changes nothing. |
| AuthController.Login | controllers/authController.js:46-61 | A missing field gives 400. A token is issued exactly when an active user has that e-mail and the password matches, and then it is for that user. Every other outcome is the single "not correct" 400. |
| AuthController.LoginHidesWhichFieldIsWrong | controllers/authController.js:51-59 | An unknown e-mail and a wrong password get the identical answer. |
| AuthController.SignupThenLogin | controllers/authController.js:32-61 | After a successful signup, logging in with the same e-mail and password gives the new user's token. |
| AuthController.BearerToken | controllers/authController.js:64-71 | A token exists only when the header starts with "Bearer". It is then non-empty and contains no space. |
| AuthController.BearerTokenRoundTrip | controllers/authController.js:66-69 | For any scheme word starting with "Bearer", the header `scheme + " " + token` yields exactly that token. |
| AuthController.BearerTokenNeedsSpace | controllers/authController.js:69-71 | A header without a space yields no token. |
| AuthController.Protect | controllers/authController.js:63-94 | No usable token gives 401 "Please login". Token failures become the two token errors. It admits exactly the active decoded user whose password did not change after `iat`. |
| AuthController.ProtectRefusalsAre401 | controllers/authController.js:63-94 | In production every refusal by `protect` is answered 401. |
| AuthController.RestrictTo | controllers/authController.js:103-112 | It passes if and only if the role is listed, and otherwise gives 403. |
| AuthController.RestrictVerified | controllers/authController.js:294-301 | It passes if and only if the e-mail is verified, and otherwise gives 403. |
| AuthController.ForgotPasswordWith | controllers/authController.js:123-129 | A missing e-mail gives 400. Then an invalid e-mail gives 400. Then an unknown user gives 401. None of them changes anything. |
| AuthController.ForgotPasswordStoresHash | controllers/authController.js:131-143 | When mail is sent, only the hash of the token and its deadline are stored, and the answer is "Sent mail to your email". |
| AuthController.ForgotPasswordCleanupClears | controllers/authController.js:144-148 | Corrected: when mailing fails, both reset fields are cleared and nothing else changes. |
| AuthController.ForgotPasswordCleanupFails | controllers/authController.js:144-148 | As written: when mailing fails, the validating save fails, the reset hash stays stored and the answer is a validation error. |
| AuthController.ResetPassword | controllers/authController.js:166-184 | It succeeds only for the user holding `sha256(token)` with a deadline still ahead. That user alone gets the new hashed password, cleared reset fields and `passwordChangedAt` now − 1000, and the answer is 201. The rest of that user's record is untouched. With no holder it gives 401. With a holder, a new password or confirmation that fails validation gives the validator messages (400 in production). A valid one gives the token when the e-mail index allows the write. Every failure changes nothing. |
| AuthController.ResetTokenSingleUse | controllers/authController.js:179-181 | A token that succeeded once is refused the second time. |
| AuthController.ForgotThenReset | controllers/authController.js:123-184 | Forgot, then reset within 12 minutes, then login with the new password gives that user's token. |
| AuthController.UpdatePassword | controllers/authController.js:199-217 | A missing current password gives 400, then a short one gives 400, then a mismatch gives 401. After that, a new password that fails validation gives the validator messages. A valid one is stored when the pre-save hook and the e-mail index allow it. Then only that user's password, confirmation and `passwordChangedAt` change. |
| AuthController.UpdateThenLogin | controllers/authController.js:199-217 | After an update the new password logs in and the old one does not. |
| AuthController.UpdateBlockedByStaleReset | controllers/authController.js:213-215 | A user with an expired, unused reset deadline cannot update their password: 401 "Your token is expired". |
| AuthController.VerifyEmail | controllers/authController.js:229-234 | A missing e-mail gives 400, then an unknown user gives 401, and nothing changes. |
| AuthController.VerifyEmailOutcome | controllers/authController.js:235-250 | On success the OTP hash and its deadline are stored. On a mail failure both fields are cleared. |
| AuthController.ConfirmEmail | controllers/authController.js:261-285 | An expired or missing OTP holder gives 401. Then a missing code gives 400. Then a wrong code gives 401. A match, when the e-mail index allows the write, always sets the user verified, clears both OTP fields and answers 201. Every 201 is such a match. A holder with no stored code gets the hashing library's error. |
| AuthController.VerifyThenConfirm | controllers/authController.js:229-285 | The mailed code, entered within three minutes, verifies the user, who then passes `restricVerified`. |
| DogModel.NewDog | models/dogModel.js:3-46 | Absent fields take the defaults "none", "Purebred", 0, 1 and the schema load time. Every given field is kept. |
| DogModel.CreatedAtIsLoadTime | models/dogModel.js:38-41 | All dogs created without `createdAt` share one timestamp. |
| DogModel.ValidateIffValid | models/dogModel.js:5-37 | Validation is empty exactly when name, breed and photo are present and the breed type is Purebred or Wild. Each broken rule's message is reported. |
| DogModel.EmptyInputFails | models/dogModel.js:5-37 | A dog built from no fields fails on exactly name, breed and photo, each reported once. |
| DogModel.Description | models/dogModel.js:48-50 | The length of the description is the length of its four parts plus the 44 fixed characters. |
| DogModel.DescriptionParts | models/dogModel.js:48-50 | The description starts with the name followed by " is " and ends with the photo. |
| DogModel.Create | models/dogModel.js:3-46 | It succeeds exactly when the dog is valid and its name is free, and then appends that dog and keeps names unique. An invalid dog gives its validation messages. |
| DogsController.GetAllDogs | controllers/dogsController.js:6-21 | The page check counts the whole collection. The page is the window of the filter's matches, holds at most \|limit\| dogs, and contains only matching dogs. A failed pipeline is passed on. An accepted pipeline always lists that page with 200, unless its skip is negative. |
| DogsController.PageWithinCollectionMayBeEmpty | controllers/dogsController.js:7-12 | A page accepted against the whole collection but past the filtered dogs is answered 200 with no dogs. |
| DogsController.CreateDogIgnoresBody | controllers/dogsController.js:23-32 | As written: every create request fails validation on exactly name, breed and photo, whatever its body, and nothing is stored. |
| DogsController.CreateDogUsesBody | controllers/dogsController.js:23-32 | Corrected: a valid body with a free name creates that dog, with defaults for the absent fields, and names stay unique. |
| DogsController.GetDog | controllers/dogsController.js:34-43 | A missing id gives 400 "Dog id invalid". Otherwise the answer is 200 with the first stored dog carrying that id. |
| DogsController.UpdateDog | controllers/dogsController.js:45-58 | The update validators come first, then the missing-id 400, then the unique name. A valid patch of an existing dog succeeds exactly when no other dog has the resulting name. Success replaces only that dog by the patched one and answers 201 with it. A taken name gives the duplicate-key error and changes nothing. |
| DogsController.UpdateKeepsInvariants | controllers/dogsController.js:45-58 | An accepted update keeps every dog valid and names unique. |
| DogsController.DeleteDog | controllers/dogsController.js:60-67 | A missing id gives 400. Otherwise exactly that dog is removed, with answer 204. |
| DogsController.DeleteRemovesExactlyOne | controllers/dogsController.js:60-67 | After a delete no dog has the id, and every other dog remains. |
| DogsController.DeleteTwiceFails | controllers/dogsController.js:60-62 | Deleting the same id again gives 400. |
| DogsController.InsertPermutes | controllers/dogsController.js:70-73 | Placing one dog into an already ordered list adds exactly that dog and drops none. |
| DogsController.SortDesc | controllers/dogsController.js:70-73 | The result is a permutation of the input, in non-increasing key order. |
| DogsController.Top3 | controllers/dogsController.js:69-84 | It returns min(3, n) dogs drawn from the collection, in non-increasing intelligence. |
| DogsController.Top3TakesTheSmartest | controllers/dogsController.js:70-77 | No dog left out is smarter than a dog included. |
| DogsController.DistinctBreedTypes | controllers/dogsController.js:88-91 | Every breed type present appears exactly once. |
| DogsController.Stats | controllers/dogsController.js:86-108 | The groups, ordered by summed popularity from highest to lowest. |
| DogsController.StatsAreGroupSums | controllers/dogsController.js:88-97 | There is one group per breed type present, carrying the popularity and intelligence sums over exactly the dogs of that type. |
| DogsRouter.Resolve | routes/dogsRouter.js:17-30 | The router has Express's default matching: case-insensitive, and one trailing slash optional. GET or HEAD on `/dogs-stats` and `/top-3-smart-dogs`, in any letter case, reach their handlers and never `/:id`. Every other non-empty single segment reaches the id routes by method. `/` answers GET, HEAD and POST. OPTIONS on a registered path is answered by the router. |
| DogsRouter.TrailingSlashIgnored | routes/dogsRouter.js:17-30 | A path with one trailing slash reaches the same route as without it. |
| DogsRouter.FixedPathsIgnoreCase | routes/dogsRouter.js:19-20 | `GET /DOGS-STATS` reaches the statistics, and `HEAD /Top-3-Smart-Dogs/` the top three. |
| DogsRouter.AllowListsRoutedMethods | routes/dogsRouter.js:17-30 | OPTIONS falls through to the catch-all exactly when no method reaches a route on that path. Otherwise the `Allow` list names exactly the methods that do, each once. |
| DogsRouter.UnroutedIsNotFound | app.js:58-60 | Deeper paths, an empty id segment, POST on an id and PATCH or DELETE on `/` fall through to the 404 catch-all, as does any method no route registers. |
| DogsRouter.Gates | routes/dogsRouter.js:19-30 | Only `GET /:id` has no gate. Every other route starts with `protect`. |
| DogsRouter.Admit | routes/dogsRouter.js:19-30 | Unrouted requests get 404 "The link you access not exits". `GET /:id` and the router's OPTIONS answer pass no gate. |
| DogsRouter.ProtectRefusesFirst | routes/dogsRouter.js:19-30 | A request failing `protect` gets protect's 401 before any 403. |
| DogsRouter.ListNeedsLogin | routes/dogsRouter.js:24 | `GET /` is admitted if and only if `protect` admits. |
| DogsRouter.MutationsNeedSeller | routes/dogsRouter.js:25-30 | Create, update and delete are admitted exactly for logged-in admins and sellers. Other logged-in users get 403. |
| DogsRouter.StatsNeedVerifiedEmail | routes/dogsRouter.js:19-20 | Stats and the top three are admitted exactly for logged-in users with a verified e-mail. Other logged-in users get 403. |

## Left out

- Process startup, database connection, the Express middleware stack, cookies, and the seeding script (server.js, most of app.js, dev-data). Only the catch-all 404 of app.js is modelled.
- usersController.js and usersRouter.js: the same pipeline wiring over users, covered by `ApiFeatures` and `UserModel.FindActive`.
- `AppError` and `asyncCatch` are not part of this model. An application error is a message with an optional status. Its `status` text and `isOperational` flag are parameters (`AppErrorClass`).
- JSON Web Tokens, bcrypt, SHA-256 and random bytes: verification is a parameter, hashes are injective constructors, and the random token and OTP draw are inputs.
- Mail delivery is a boolean outcome. The body of the reset and OTP mails is not modelled.
- UserModel.CheckPasswordChangeAfter: the numeric comparison (a Date divided by 1000 and passed through `Date.parse`) is a parameter. Only the absent-timestamp case is stated.
- ErrorsHandler.DevHandler: the `error` object in the development body is not rendered field by field. An application error is modelled without a stack (the stack is None), although a real `AppError` is an `Error` subclass and carries one. Only raw errors carry their stack here.
- The object spread `{ ...err }` is treated as a full copy. Own-property enumerability is not modelled.
- FilterJson.RewriteIsStructural: only for keys and values `JSON.stringify` writes without escape sequences. Query strings with arrays (repeated keys) are not modelled.
- ApiFeatures.CoerceNumber: only optional-sign decimal integers are read as numbers. Fractions, exponents, hex literals and surrounding white space count as not a number.
- DogsController.GetAllDogs: the sort order and the projection are computed but not executed against the dogs, which keep stored order. A negative skip is refused by the database, and that refusal is a plain error.
- DogsController.Top3: ties keep stored order. The database does not promise an order for ties.
- DogsController.Stats: the two averages are floating point and left out. Ties keep first-appearance order.
- Dog and user ids are natural numbers. ObjectId casting of path parameters, and the cast error it raises, are not modelled in the handlers.
- DogsController.UpdateDog: number and date casting of patched fields is not modelled.
- ErrorsHandler.CastRewrite: the production response with no status code is the one the handler requests. The server refuses `res.status(undefined)`, and the framework's final handler then answers 500 instead. That fallback is not modelled.
- UTF-16 lengths: string length is the number of characters.
- DogModel.Validate: the messages are listed in schema order. The document mapper orders them by each path's state (paths never assigned before assigned and defaulted ones), and that order is not modelled. Contracts state the set of failing paths, not their order.
- UserModel.Validate: the same holds for the user schema's messages, listed here in schema order and then `role`.
- DogModel.EmptyInputFails: it states which messages are reported, as a multiset, and not the order the document mapper reports them in.
- DogsController.CreateDogIgnoresBody: it states the failing messages as a multiset, and not the order the client sees them joined in.
- UserModel.Matches: a stored user without a password counts as a mismatch in `login` and `updatePassword`, where the hashing library would throw. `Good` rules such a user out.
- DogModel.NewDog: `popularity` and `intelligence` are JavaScript numbers (models/dogModel.js:26-33), so they may be fractional. The model holds them as integers, and DogsController.Stats and DogsController.Top3 compare and sum them exactly, without floating-point rounding.
- ApiFeatures.Pagination: `+page` and `+limit` are doubles in the source. `(page - 1) * limit` and `count / limit` are computed exactly here (ApiFeatures.SkipOf, ApiFeatures.CeilDiv), so results can differ from the source once the values come near 2^53, where doubles round.
- DogsRouter.Resolve: path segments are compared as sent. The router matches the percent-encoded path, and the model does not percent-decode the `:id` value as Express does.

## Findings

| source | as written | input that shows it | evidently intended | confidence | as-written member | corrected member |
|---|---|---|---|---|---|---|
| controllers/authController.js:144-148 | When mailing the reset link fails, the cleanup calls `user.save()` with validation on. The document came from `findOne` without its password and has no stored `passwordConfirm`, so the required validator on `passwordConfirm` fails. The save is rejected, the reset hash stays stored, and the client gets a 400 validation error. | Any active user; `sendEmail` throws. | Clear both reset fields with `save({ validateBeforeSave: false })`, as the other saves in this file do. | medium, not executed | AuthController.ForgotPasswordCleanupFails | AuthController.ForgotPasswordCleanupClears |
| controllers/dogsController.js:24 | `Dog.create(req.bodys)` reads a property that does not exist, so every dog is built from no fields. | Any POST /api/v1/dogs, e.g. body `{name:"Rex", breed:"Husky", photo:"r.jpg"}`: the answer is a validation error naming name, breed and photo. | `Dog.create(req.body)`. | high, not executed | DogsController.CreateDogIgnoresBody | DogsController.CreateDogUsesBody |

A related behaviour is not claimed as a bug. The `pre("save")` hook compares the reset deadline on every password change of an existing user. A user who requested a reset link and let it expire therefore cannot change their password through `updatePassword` until they request a new link (`AuthController.UpdateBlockedByStaleReset`).
