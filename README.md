# CourseApp core, modelled in Dafny

CourseApp is a Next.js course catalogue backed by MongoDB. This project models
its server-side core and proves properties of that model:

- **Record validators** (`CourseValidator`, `UnitValidator`, `QuestionValidator`,
  `validateQuestionData`, `ValidationUtils`). A validator takes a record and an
  `isUpdate` flag. It runs the required-field loop and then one block per field
  over a shallow copy. Each block pushes messages and writes the field's normal
  form back into the copy. The validator then stamps the timestamps and throws
  one `ValidationError` that joins every message. Modules `Validation` (the rule
  table, its fold and the imperative `validate`), `ValidationProps` (properties),
  `ValidationRoundTrip` (validating a validated record again) and
  `ValidationUtils` (the single-value checkers). A string's `.length` counts
  UTF-16 code units (`JsText.Utf16Length`).
- **Sign-in and registration handlers**:
  - `POST /api/auth-unified` signs in or registers with a password or with Google;
  - `POST /api/auth/admin` signs in or registers an administrator;
  - `POST /api/register` inserts an account if its email is absent.

  They are modules `AuthUnified`, `AdminAuth` and `Register`, over the shared
  definitions in `Identity`. A collection is a class (`Identity.Collection`)
  whose documents are found by email and which logs its writes. Each handler is
  a method that changes the collection. It is proved equal to a function that
  gives the response and the one write. The lemmas are about that function.
- **Course endpoint** `/api/courses`:
  - `GET` is pure. It reads the page and page size with JavaScript's `parseInt`,
    builds the query filter and computes the pagination metadata (module
    `CourseQuery`).
  - `POST`, `PUT` and `DELETE` authenticate the session token, check the
    administrator flag and then change the course store (module `Courses`). The
    store is the class `Courses.CourseStore`: the Courses collection plus the
    Questions, Units and UserProgress collections, which refer to a course by
    `courseId`.
- **Middleware**: the protected-path test and the redirect / continue decision
  (module `Middleware`).

JavaScript values are `Js.Value`. A number is a `real`. `Number()`, `String()`,
`parseInt`, `trim` and truthiness are defined for it in `Js`, `JsText` and
`CourseQuery`. `Number(String(i)) == i` is proved for every integer.

External services are function-valued parameters:
- bcrypt's hash and compare, and jsonwebtoken's sign (`Identity.Crypto`);
- `ObjectId.isValid` (`isValid`);
- `jwt.verify` and `jose.jwtVerify` (`verify`);
- the clock (`now`);
- the id the driver assigns to an inserted document (`freshId` and `nextId`);
- the message of the driver's duplicate-key error (`duplicateError`).

Where a property needs a password to match its own hash, the lemma requires
`Identity.HashSound(crypto)`.

## Model

| member | source | states |
|---|---|---|
| Validation.CollectMissing | utils/validation.js:27-40 | the required loop yields "<field> is required" for each listed field that is falsy, in list order |
| Validation.RunBlocks | utils/validation.js:43-148 | the blocks run one after another over the sanitized copy, each reading the current copy, give exactly the fold `Run` of the rule table |
| Validation.Validate | utils/validation.js:22-163 | the imperative validator (required loop, blocks, timestamps, throw) computes `Validated`, the function the ValidationProps lemmas are about |
| ValidationProps.RunKeys | utils/validation.js:24 | the blocks never add or remove keys of the shallow copy |
| ValidationProps.RunUnowned | utils/validation.js:24 | a field that no block owns keeps the caller's value |
| ValidationProps.RunType | utils/validation.js:384-389 | the payload block sees the record's own `type`, since no block rewrites it |
| ValidationProps.RunOwned | utils/validation.js:43-148 | blocks over distinct fields do not interfere: each field ends with its own block's value on the record as given |
| ValidationProps.RunErrors | utils/validation.js:23-148 | the messages are the initial ones followed by each block's messages, in table order |
| ValidationProps.DistinctNames | utils/validation.js:43-148 | a table with pairwise distinct field names owns each field once |
| ValidationProps.CourseNames | utils/validation.js:43-148 | the course blocks own title, description, instructor, instructorId, category, level, price, currency, tags, isActive, isPublished, in that order |
| ValidationProps.UnitNames | utils/validation.js:185-260 | the unit blocks own courseId, title, description, content, order, media, isActive, in that order |
| ValidationProps.QuestionNames | utils/validation.js:294-398 | the question blocks own unitId, courseId, type, questionText, explanation, points, difficulty, order, media, questionData, isActive, in that order |
| ValidationProps.NamesDistinct | utils/validation.js:43-398 | no validator has two blocks for one field |
| ValidationProps.TypeOwnedOnce | utils/validation.js:306-311 | only the question validator owns `type`, in its third block |
| ValidationProps.TableNames | utils/validation.js:43-398 | each rule table owns the listed fields in order |
| ValidationProps.TableFields | utils/validation.js:43-398 | each rule table owns exactly the listed fields, each once |
| ValidationProps.TypeRuleIsEnum | utils/validation.js:306-311 | the block owning `type` is a list-membership check |
| ValidationProps.TablesWellFormed | utils/validation.js:43-398 | the three tables have distinct fields and never rewrite `type` |
| ValidationProps.ErrorsOfContains | utils/validation.js:23-148 | a block's message is among the whole table's messages |
| ValidationProps.CheckedErrors | utils/validation.js:23-148 | a validator's messages are the required loop's followed by each block's on the record as given |
| ValidationProps.CheckedOwned | utils/validation.js:43-148 | an owned field holds its block's value on the record as given |
| ValidationProps.CheckedUnowned | utils/validation.js:24 | an unowned field keeps the caller's value, and the copy has the caller's keys |
| ValidationProps.MissingRequiredIff | utils/validation.js:35-39 | "<f> is required" is produced iff f is listed and falsy |
| ValidationProps.RequiredMessages | utils/validation.js:27-40 | on a full insert "<f> is required" appears iff f is a required field that is falsy; with isUpdate there are none; these messages come first |
| ValidationProps.ValidatedExhaustive | utils/validation.js:156-162 | the validator throws iff some message was collected; the thrown text is the prefix plus all messages joined by ", ", each readable from it; otherwise it returns the stamped copy |
| ValidationProps.OutcomeExhaustive | utils/validation.js:156-162 | the end of a validator throws iff there is a message; the error has no field and contains every message |
| ValidationProps.TimestampsAndPassThrough | utils/validation.js:151-154 | on success `updatedAt` is now, `createdAt` is now only on a full insert, unowned fields pass through, and the keys are the caller's plus the stamps |
| ValidationProps.StampsUnowned | utils/validation.js:151-154 | no block owns a timestamp |
| ValidationProps.StampSpec | utils/validation.js:151-154 | the stamps set `updatedAt`, set `createdAt` only when not an update, and keep every other field |
| ValidationProps.TextBlock | utils/validation.js:43-79 | a text block accepts exactly a string whose untrimmed length, counted in UTF-16 code units as `.length` counts, is within bounds and then stores it, trimmed where the block trims; otherwise the type message for a non-string, the length message for a string |
| ValidationProps.AstralTitleAccepted | utils/validation.js:43-51 | a title of two characters outside the Basic Multilingual Plane has length 4 and passes the 3-to-200 check |
| ValidationProps.TitleShorterThanMinimum | utils/validation.js:43-51 | the title "  ab" passes the 3-character minimum and is stored as the 2-character "ab" |
| ValidationProps.TitleBlockTrims | utils/validation.js:43-51 | the title block accepts "  ab" and stores "ab" |
| ValidationProps.OneOfBlock | utils/validation.js:91-130 | a list block accepts exactly the listed strings, never rewrites, and names every allowed value in its message |
| ValidationProps.IntegerBlock | utils/validation.js:225-232 | an integer block accepts exactly a value whose `Number()` is an integer within bounds, and stores that number |
| ValidationProps.OrderFromString | utils/validation.js:225-232 | `order: "3"` is accepted and stored as the number 3 |
| ValidationProps.PriceBlock | utils/validation.js:115-122 | the price is accepted exactly when its `Number()` is a non-negative number, and stored as that number |
| ValidationProps.RefBlock | utils/validation.js:82-88 | an id block accepts what `ObjectId.isValid` accepts and stores an ObjectId |
| ValidationProps.FlagBlock | utils/validation.js:143-148 | a flag block never fails and stores the truth value |
| ValidationProps.CleanTagsShorter | utils/validation.js:137-139 | filtering tags never adds any |
| ValidationProps.CleanTagsClean | utils/validation.js:137-139 | every kept tag is a non-empty string with nothing to trim |
| ValidationProps.CleanTagsFixed | utils/validation.js:137-139 | clean tags are kept as they are, in order |
| ValidationProps.CleanTagsIdempotent | utils/validation.js:137-139 | filtering the tags twice is filtering them once |
| ValidationProps.TagsBlock | utils/validation.js:133-141 | a non-array is rejected with "Tags must be an array"; an array is replaced by its cleaned tags |
| ValidationProps.MediaBlock | utils/validation.js:235-255 | media must be an object; the type message appears iff the type is truthy and unlisted; for units the duration message appears iff a present duration is not a non-negative integer; an accepted duration is stored as a number |
| ValidationProps.MediaListsDiffer | utils/validation.js:240-244 | "pdf" media is accepted for a unit and rejected for a question |
| ValidationProps.McqPayload | utils/validation.js:421-435 | an MCQ payload passes iff it has at least two options and a numeric answer index in range; the option count is checked first |
| ValidationProps.FractionalAnswerAccepted | utils/validation.js:428-434 | an answer index of 0.5 is accepted |
| ValidationProps.FillBlankPayload | utils/validation.js:437-446 | a fill-in-blank payload passes iff `correctAnswers` is a non-empty array |
| ValidationProps.TextPayload | utils/validation.js:448-457 | a text payload passes iff a present `maxLength` is a positive integer |
| ValidationProps.AudioPayload | utils/validation.js:459-466 | an audio payload passes iff `audioUrl` is a non-empty string |
| ValidationProps.OtherPayload | utils/validation.js:415-418 | a falsy or non-object payload is rejected with "Question data must be an object" before the type is looked at; an object payload of an unlisted type gets "Unknown question type: <type>" |
| ValidationProps.OrderZeroTwice | utils/validation.js:175-182 | `order: 0` on a full unit or question insert yields both "order is required" and the order message |
| ValidationProps.OrderZeroMissing | utils/validation.js:285-292 | `order: 0` counts as missing on a full insert |
| ValidationProps.OrderRule | utils/validation.js:359-366 | units and questions have the order block with minimum 1 |
| ValidationProps.OrderZeroRejected | utils/validation.js:225-232 | the order block rejects 0 |
| ValidationProps.OwnedErrorIn | utils/validation.js:23-148 | a block's message on the record as given is among the validator's messages |
| ValidationProps.InvalidTypeTwice | utils/validation.js:306-311 | a question of type "ESSAY" with an object payload gets both the type message and "Unknown question type: ESSAY" |
| ValidationProps.EssayTypeReported | utils/validation.js:306-311 | type "ESSAY" yields the type message |
| ValidationProps.EssayPayloadReported | utils/validation.js:384-393 | the payload is still dispatched on the rejected type "ESSAY" |
| ValidationProps.EssayTypeRejected | utils/validation.js:306-311 | the type block rejects "ESSAY" |
| ValidationProps.EssayPayloadRejected | utils/validation.js:468-469 | the payload block reports "Unknown question type: ESSAY" |
| ValidationRoundTrip.BlockStable | utils/validation.js:43-163 | each block accepts the value it stored and keeps it, provided a trimmed text still fits its bounds and a stored id is still valid |
| ValidationRoundTrip.Revalidate | utils/validation.js:22-163 | a record that passed validation passes again as an update, unchanged but for a fresh `updatedAt`, when its trimmed texts fit their bounds and its ids are valid |
| ValidationRoundTrip.RevalidationCanFail | utils/validation.js:43-51 | the course update `{title: "  ab"}` passes and stores "ab", and validating that result again fails |
| ValidationUtils.ValidateObjectId | utils/validation.js:481-486 | succeeds iff `ObjectId.isValid` accepts; returns an ObjectId; otherwise "Invalid <field> format" naming the field and value |
| ValidationUtils.SanitizeString | utils/validation.js:491-519 | succeeds iff a string whose trimmed length in UTF-16 code units is at least the minimum and, unless the maximum is missing or 0, at most the maximum; returns the trimmed text |
| ValidationUtils.SanitizeStringMessages | utils/validation.js:492-515 | the messages in check order: not a string, too short, too long |
| ValidationUtils.SanitizeStringIdempotent | utils/validation.js:500-518 | sanitizing a sanitized string gives it back unchanged |
| ValidationUtils.SanitizeStringIgnoresPadding | utils/validation.js:500-518 | a padded string is accepted exactly when its trimmed form is, with the same result |
| ValidationUtils.ValidateEnum | utils/validation.js:524-533 | succeeds iff the value is listed, returning it; the message lists the allowed values |
| ValidationUtils.ValidateEnumNamesChoices | utils/validation.js:527 | every allowed value can be read in the rejection message |
| ValidationUtils.CheckBounds | utils/validation.js:549-563 | succeeds iff the number is within the given bounds |
| ValidationUtils.ValidateInteger | utils/validation.js:538-566 | succeeds iff `Number(value)` is an integer within bounds, returning it; otherwise "must be an integer" when it is not one |
| ValidationUtils.ValidateNumber | utils/validation.js:571-599 | succeeds iff `Number(value)` is not NaN and within bounds, returning it; "must be a number" for NaN |
| ValidationUtils.IntegerIsNumber | utils/validation.js:538-599 | an accepted integer is an accepted number with the same result; an accepted number is an accepted integer iff it is integral |
| ValidationUtils.ValidateIntegerAgreesWithBlocks | utils/validation.js:538-566 | with an integer minimum, validateInteger accepts exactly what the validators' integer blocks accept |
| ValidationUtils.ValidateIntegerReadsNumerals | utils/validation.js:538-566 | the decimal text of an in-bounds integer is accepted as that integer |
| JsText.TrimSpec | utils/validation.js:500 | trim keeps the infix between the leading and trailing white space, which is all removed |
| JsText.TrimIdempotent | utils/validation.js:500 | trimming twice is trimming once |
| JsText.Utf16Length | utils/validation.js:46 | `.length` lies between the number of characters and twice it, and equals the number of characters iff none lies outside the Basic Multilingual Plane |
| JsText.Contains | app/api/auth-unified/route.js:262 | `includes` holds iff the part occurs in the text |
| JsText.JoinContainsEach | utils/validation.js:156-160 | each joined message can be read back from the joined text |
| JsText.NatToStringSpec | utils/validation.js:504 | the numeral of a natural number is all digits and reads back as that number |
| Js.IntegerNumberToString | utils/validation.js:551 | `String(x)` of an integer-valued number is the integer's numeral |
| Js.IntegerStringRoundTrip | utils/validation.js:539 | `Number(String(i)) == i` for every integer |
| Identity.EncodeJwt | utils/JWT.jsx:8-14 | signing fails with the AUTH_SECRET error iff the secret is unset; otherwise it signs the payload with the 4-hour lifetime |
| Identity.AuthCookie | app/api/auth-unified/route.js:69-77 | the cookie is `auth-token`, httpOnly, secure in production, sameSite strict, path "/", maxAge 14400 |
| Identity.NewUser | app/api/auth-unified/route.js:162-172 | a new account is active, stamped now three times, and verified exactly when it is a Google account |
| Identity.Collection.FindOne | app/api/auth-unified/route.js:25 | finds the document stored under the email, if any |
| Identity.Collection.InsertOne | app/api/auth-unified/route.js:162-172 | stores the document under the next id, logs the insert and returns whether it was acknowledged |
| Identity.Collection.UpdateOne | app/api/auth-unified/route.js:43-46 | applies the update to the document stored under the key and logs it; the next id is unchanged |
| Identity.ApplyKeeps | app/api/auth-unified/route.js:43-46 | an update keeps every id; a write leaves other emails' documents alone |
| AuthUnified.FormFlags | app/api/auth-unified/route.js:10-14 | only the exact text "true" selects Google; the image defaults to "" |
| AuthUnified.ServerError | app/api/auth-unified/route.js:259-277 | every error caught by the handler is answered with 500 and no cookie |
| AuthUnified.HandleAuth | app/api/auth-unified/route.js:6-278 | the handler's response, its one write and the collection afterwards are those of `Auth` |
| AuthUnified.EmailRequired | app/api/auth-unified/route.js:17-25 | without an email the answer is 400 "Email is required", whatever is stored, with no write |
| AuthUnified.MethodMismatch | app/api/auth-unified/route.js:30-90 | signing in with the other method than the stored one is 400 naming the stored method, with no write and no cookie |
| AuthUnified.PasswordChecks | app/api/auth-unified/route.js:92-109 | for a password account, a missing password and a wrong password are refused with 400 and no write |
| AuthUnified.LoginSucceeds | app/api/auth-unified/route.js:42-148 | a permitted sign-in updates `lastLogin` once and answers 200 "Login successful" with the cookie signing the stored id, email, method and name |
| AuthUnified.RegistrationStores | app/api/auth-unified/route.js:153-256 | a registration inserts one active account under the email and the next id, verified iff Google, holding the password's hash iff not Google; with the secret set it answers 200 "Registration successful" |
| AuthUnified.RegistrationRequires | app/api/auth-unified/route.js:153-214 | registration requires a name on both paths; the password path asks for the password first |
| AuthUnified.OneWriteAtMost | app/api/auth-unified/route.js:27-258 | at most one write, under the given email, and an insert iff the email was unknown; a 400 writes nothing; the cookie is set iff the answer is 200, which always follows a write; the status is 200, 400 or 500 |
| AuthUnified.MissingSecretAfterWrite | app/api/auth-unified/route.js:42-266 | without AUTH_SECRET nothing answers 200, and a request that has already written answers 500 "Server configuration error" |
| AuthUnified.ErrorClasses | app/api/auth-unified/route.js:262-276 | a message mentioning AUTH_SECRET gives "Server configuration error"; otherwise a MongoError or MongoServerError gives "Database error"; anything else "Authentication error" carrying the message |
| AuthUnified.RegisterThenLogin | app/api/auth-unified/route.js:99-228 | a password registration followed by a sign-in with the same email and password answers 200 |
| AuthUnified.GoogleRegisterThenLogin | app/api/auth-unified/route.js:30-228 | a Google registration followed by a Google sign-in with the same email answers 200 twice, and both cookies sign the same identity |
| AdminAuth.AdminClaims | app/api/auth/admin/route.js:32-36 | the token carries exactly id, email and name |
| AdminAuth.Session | app/api/auth/admin/route.js:38-50 | the cookie is set iff the secret is set; otherwise the catch gives 500 "Internal server error" |
| AdminAuth.HandleAdmin | app/api/auth/admin/route.js:6-105 | the handler's response, its one write and the collection afterwards are those of `AdminAuth.Respond` |
| AdminAuth.CredentialsRequired | app/api/auth/admin/route.js:14-19 | the answer is 400 "Email, password, are required" with no write iff email or password is missing; the name never is required |
| AdminAuth.ExistingAdminsKept | app/api/auth/admin/route.js:22-69 | at most one write, only an insert of an unknown email; stored administrators are never modified |
| AdminAuth.ExistingAdminSignsIn | app/api/auth/admin/route.js:22-56 | the right password answers 200 with the cookie signing the stored id, email and name; a wrong one is 400 with no write |
| AdminAuth.NewAdminRegistered | app/api/auth/admin/route.js:59-97 | an unknown email is inserted with the password's hash; 201 with the cookie when acknowledged, else 500 |
| AdminAuth.AdminRegisterThenLogin | app/api/auth/admin/route.js:22-69 | registering and then presenting the same email and password answers 200 |
| Register.CreationError | app/api/register/route.js:62-67 | the catch answers 500 with the error's message |
| Register.HandleRegister | app/api/register/route.js:5-69 | the handler's response, its one write and the collection afterwards are those of `Registration` |
| Register.InsertIfAbsent | app/api/register/route.js:13-20 | a stored email is 400 "Email already exists" with no insert; otherwise one insert under the next id unless the password is missing on the password path; never a cookie |
| Register.RawGoogleFlag | app/api/register/route.js:10-22 | `isGoogle` is the raw form text, so "false" takes the Google path |
| Register.StoredAccount | app/api/register/route.js:22-61 | Google: verified, no password, no `userId` in the answer; password: unverified, the password's hash, `userId` in the answer; both active and stamped |
| Register.FalseFlagLocksOutPassword | app/api/register/route.js:22 | an account registered with `isGoogle` "false" is then refused a password sign-in at the unified endpoint |
| Register.RegisteredPasswordSignsIn | app/api/register/route.js:42-56 | an account registered with a password signs in with it at the unified endpoint |
| Middleware.SomePrefix | middleware.js:48 | `some(startsWith)` holds iff one of the routes is a prefix |
| Middleware.ProtectedIff | middleware.js:41-49 | a path is protected iff it starts with one of the four routes |
| Middleware.ProtectedExtends | middleware.js:48 | anything appended to a protected path is protected |
| Middleware.Gate | middleware.js:6-39 | a redirect always goes to "/Login" |
| Middleware.GateCases | middleware.js:11-38 | redirect iff anonymous on a protected path; identity headers iff a token verifies; otherwise continue unchanged, a failing token on a protected path included |
| Middleware.ForwardedHeaders | middleware.js:23-31 | the forwarded headers keep every other header and set `x-user-id` and `x-user-role` from the payload |
| Middleware.IssuedTokensHaveNoRole | middleware.js:25 | a token without a `role` claim is forwarded with the role header "undefined" |
| CourseQuery.LeadingDecimal | app/api/courses/route.js:49 | a run of decimal digits is read whole |
| CourseQuery.UnsignedDigits | app/api/courses/route.js:49 | a run of decimal digits is read in base 10 |
| CourseQuery.ParseSigned | app/api/courses/route.js:49 | an optional '-' followed by a number that starts with a digit parses as that number with the sign applied |
| CourseQuery.ParseIntRoundTrip | app/api/courses/route.js:49-50 | `parseInt(String(i)) == i` for every integer |
| CourseQuery.ParseIntLenient | app/api/courses/route.js:49 | leading space, a '+' and trailing text are ignored: " +12px" is 12 |
| CourseQuery.ParseIntHex | app/api/courses/route.js:49 | "0x1F" is 31 |
| CourseQuery.PageAndLimit | app/api/courses/route.js:49-50 | the page is the parsed value, or 1 when it is missing, unreadable or 0; the page size is the parsed value, or 10 when missing, unreadable or 0, capped at 50; neither is 0 |
| CourseQuery.NegativeLimitKept | app/api/courses/route.js:50 | `limit=-5` gives a page size of -5 |
| CourseQuery.CeilDivBounds | app/api/courses/route.js:90 | for a positive size the page count is the least number of pages holding all items |
| CourseQuery.PaginationMeaning | app/api/courses/route.js:77-92 | hasNext iff the items through this page are fewer than the total; hasPrev iff the page does not start at the first item |
| CourseQuery.FilterFields | app/api/courses/route.js:60-74 | category, level, instructorId and the search `$or` appear iff given non-empty; `isPublished` iff `published` is present, true only for "true"; nothing else |
| CourseQuery.FilterFails | app/api/courses/route.js:65 | the filter fails iff a given instructor id is malformed |
| CourseQuery.List | app/api/courses/route.js:46-119 | the listing exists iff the filter can be built |
| CourseQuery.DefaultListing | app/api/courses/route.js:49-92 | without parameters: no filter, skip 0, limit 10, page 1, no previous page, a next page iff more than 10 courses |
| Courses.Invalid | app/api/courses/route.js:180-185 | a ValidationError is answered with 400 and its message |
| Courses.Authenticate | app/api/courses/route.js:13-26 | granted iff a non-empty token verifies under a set secret, with the decoded claims; a missing or empty token is 401 "Authentication required", any other refusal 401 "Invalid token" |
| Courses.Authorize | app/api/courses/route.js:127-142 | a refusal is 401, or 403 "Admin access required" |
| Courses.AuthorizeOrder | app/api/courses/route.js:31-41 | 401 comes before the administrator check; a verified token is refused iff its user is not an administrator |
| Courses.SignInTokensAreNotAdmin | app/api/courses/route.js:136 | the tokens the sign-in endpoint issues have no `userId`, so their holders always get 403 |
| Courses.Without | app/api/courses/route.js:328-330 | `deleteMany` never adds documents |
| Courses.WithoutSpec | app/api/courses/route.js:328-330 | `deleteMany({ courseId })` removes every document of the course and keeps every other with its multiplicity |
| Courses.CourseStore.InsertOne | app/api/courses/route.js:164 | stores the course under its id unless that id is taken, reports which, and logs the call |
| Courses.InsertSpec | app/api/courses/route.js:164-194 | the document goes under its own `_id` or else the generated id; a taken id is 500 "Failed to create course" with nothing changed, a new one is stored and answered with 201 and the document |
| Courses.CourseStore.FindOneAndUpdate | app/api/courses/route.js:244-248 | sets the fields on the course with that id and returns it afterwards; nothing when absent |
| Courses.CourseStore.DeleteMany | app/api/courses/route.js:328-330 | removes the related collection's documents of the course and logs the call |
| Courses.CourseStore.DeleteOne | app/api/courses/route.js:331 | removes the course and logs the call |
| Courses.InstructorDefaults | app/api/courses/route.js:148-153 | a falsy `instructorId` becomes the token's `userId`, a falsy `instructor` the token's name or else email; nothing else changes |
| Courses.FlagDefaults | app/api/courses/route.js:159-160 | `isActive` defaults to true and `isPublished` to false only when absent or null |
| Courses.CreateAsAdmin | app/api/courses/route.js:145-176 | the administrator's part of POST answers and writes what `CreateAs` says |
| Courses.HandleCreate | app/api/courses/route.js:124-196 | the POST handler's answer, calls and store afterwards are those of `Create` |
| Courses.CreateDefaults | app/api/courses/route.js:155-194 | a valid course is inserted once, under the body's `_id` if it has one and the generated id otherwise; a taken id is 500 with nothing changed; otherwise 201 with the stored document, `isActive` `Boolean(x)` or true, `isPublished` `Boolean(x)` or false, stamped now |
| Courses.ValidationErrorsAre400 | app/api/courses/route.js:180-185 | an invalid body is 400 with the validator's message and a null field, and nothing is written |
| Courses.UpdateAsAdmin | app/api/courses/route.js:222-261 | the administrator's part of PUT answers and writes what `UpdateAs` says |
| Courses.HandleUpdate | app/api/courses/route.js:201-281 | the PUT handler's answer, calls and store afterwards are those of `Update` |
| Courses.UpdateOrder | app/api/courses/route.js:222-261 | missing id 400, malformed id 400, invalid update 400, then 200 iff the course exists, else 404; only a valid update is sent, without `courseId` |
| Courses.UpdateMerges | app/api/courses/route.js:244-261 | the update keeps the course's other fields, sets the given ones and `updatedAt`, leaves other courses alone, and answers with the stored result |
| Courses.ReplayCascade | app/api/courses/route.js:327-331 | the four calls leave the course removed and each related collection filtered |
| Courses.DeleteAsAdmin | app/api/courses/route.js:306-336 | the administrator's part of DELETE answers and writes what `DeleteAs` says |
| Courses.HandleDelete | app/api/courses/route.js:286-348 | the DELETE handler's answer, calls and store afterwards are those of `Delete` |
| Courses.DeleteOrder | app/api/courses/route.js:309-336 | a missing or malformed id is 400, an unknown course 404, both with no call; a known course gets the four deletes in order |
| Courses.CascadeRemovesExactlyTheCourse | app/api/courses/route.js:327-331 | the course is gone, other courses are unchanged, and each related collection loses exactly the course's documents |
| Courses.CascadeLeavesNoOrphans | app/api/courses/route.js:327-331 | no document referring to the deleted course remains |
| Courses.DeniedChangesNothing | app/api/courses/route.js:127-142 | a refused request is answered 401 or 403 by all three handlers alike, and writes nothing |

## Left out

- Floating point: numbers are exact rationals. `Infinity`, `-0`, rounding and exponent notation in `String(x)` are not modelled, and neither is the precision of `parseInt` on long digit runs.
- bcrypt and JSON Web Token cryptography: hashing, comparison, signing and verification are parameters. The random salt of `bcrypt.hash` is not modelled. The JWT lifetime check happens inside `verify`.
- The database: MongoDB connections and the driver are not part of this model. So are query execution for GET (matching, `$regex`, sorting by `createdAt`, `skip`/`limit` and `countDocuments`), since `CourseQuery.List` returns the query and takes the count as a parameter.
- Driver and runtime failures are not raised, except the ones the handlers' own control flow produces. Those are the missing signing secret and a missing password reaching `bcrypt`, the latter as the `Crypto.missingArgument` error. So the 500 "Failed to …" answers of the course handlers, and the admin endpoint's catch of a driver failure, are not produced by the model, except the duplicate-key failure of a POST whose `_id` is already stored. A generated id that collided with a stored one would get the same 500.
- Courses.CourseStore.FindOneAndUpdate: returns the updated document. This is how `result.value` behaves in the driver versions the handler was written against; with drivers that return the document itself, every update would answer 404.
- Courses.CreateAsAdmin: the answer carries the inserted document rather than the result of a second `findOne`, and the immutability error for an `_id` in a PUT body is not modelled.
- Middleware.Gate: header names are matched as given rather than case-insensitively, and forwarded values are not trimmed. The TypeError that `Headers.set` throws on a CR, LF or NUL in a value, which the empty catch turns into a plain continue, is not modelled either. Neither can arise from the `id` and `role` claims of the tokens the sign-in handlers issue.
- Identity.Collection.InsertOne: keyed by email, so a second document with the same email replaces the first. The handlers only insert emails they did not find.
- ObjectId identity: an id given as text and the ObjectId built from it are distinct values, and two texts naming one ObjectId (hex digits in another case, or a 12-character string and its 24-digit hex form) are distinct ids. `Courses.IsAdmin`, `Courses.UpdateAs`, `Courses.DeleteAs` and the GET filter therefore compare ids more finely than the database does. The GET filter and the DELETE cascade build the ObjectId exactly as the handlers do.
- Request parsing: form values are text, and a `File` value is not modelled. A malformed JSON body or a failing `formData()` is not modelled either.
- Concurrency: the read-then-write sequences are not atomic in the source, and interleavings are not modelled.
- The shared `media` object: the unit validator writes the coerced duration into the media object. The caller's record shares that object, so the caller sees the write too. The model writes into the sanitized copy only.
- The `Invalid payload` check of `encodeJWT` (utils/JWT.jsx:4-6): every caller passes an object literal, so a payload is always an object here.
- `console.error` logging.
- ValidationUtils.ValidateInteger: the bounds are `real`s, so `null` and a non-null bound are told apart by `Option`; a bound given as a non-number is not modelled.
