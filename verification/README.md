# User accounts: sign-up, login, bearer-token gates and profile update

A model of a small Express/Mongoose account service. It covers:

- the user schema: setters, defaults, validators, the unique index on email, and the `pre("save")` hook that hashes the password;
- the five account handlers: `signUp`, `login`, `getOneUser`, `getAllUsers` and `updateUser`, plus the upload `fileFilter`;
- the two gates put in front of them: `auth`, which accepts a bearer token that verifies and names a stored user, and `adminAuth`, which also needs that stored user to be an ADMIN or a SUPERADMIN;
- the routing table that decides which gate guards which handler.

The collection is a `map<UserId, User>`. A mongoose document in memory is the class `UserModel.UserDocument`. It has one field per schema path plus the set of paths `isModified` reports. Its `Set`, `PreSave` and `Save` methods change it in place.

Each handler's outcome is a function of the collection and the request. It is a pair of the response and the new collection. `SignUp`, `UpdateUser` and `CorrectedUpdateUser` are methods that work on a document. Each is proved to produce exactly that outcome.

bcrypt and the JSON Web Token library are modelled by small stand-ins that keep the properties the service relies on:

- `Bcrypt.Hash(p, salt)` accepts exactly `p` under `Bcrypt.Compare`, and differs for different salts.
- `Jwt.Sign` produces a token whose claims decode back. `Jwt.Verify` accepts it exactly until `iat + 3600`.

Things the code takes from outside are parameters. These are the id a new document gets, the salts bcrypt draws, and the clock.

Modules:

- `Results`
- `Text`: whitespace, ASCII lower-casing, `trim`, first-occurrence `replace`, decimal digits, split and join
- `Roles`
- `Bcrypt`
- `Jwt`
- `UserModel`
- `Http`: response payloads
- `UsersController`
- `AuthMiddleware`
- `Routes`

Two behaviours of the code are worth stating up front:

- The comment at controller/users.controller.js:213 reads "Hash the password if it's being updated", and the one at modules/user.module.js:37 reads "Hash the password before saving". `updateUser` hashes a new password itself at controller/users.controller.js:215. The save hook at modules/user.module.js:39-41 then hashes that hash again, and the `minlength` validator sees the first hash rather than the password. See "## Findings".
- Validation and duplicate-key failures inside `updateUser` answer 500. Its `catch` has no branch for them.

## Model

| member | source | states |
|---|---|---|
| Text.Lower | modules/user.module.js:10 | the `lowercase` setter keeps the length and lower-cases each character; no upper-case letter is left |
| Text.Trim | modules/user.module.js:11 | the `trim` setter returns the infix left after removing leading and trailing whitespace; everything removed is whitespace; the result starts and ends with a non-space |
| Text.TrimTrimmed | modules/user.module.js:11 | trimming is idempotent: a trimmed string is left as it is |
| Text.LowerNoUpper | modules/user.module.js:10 | lower-casing is idempotent on a string without upper-case letters |
| Text.IndexOf | middleware/auth.js:6 | the first position where the pattern occurs, or none when it occurs nowhere |
| Text.ReplaceFirst | middleware/auth.js:6 | `s.replace(pat, rep)` with a string pattern and a `rep` without '$' (the one use passes ""): a string without `pat` is unchanged; otherwise only the first occurrence is swapped for `rep` |
| Text.ReplaceAtStart | middleware/auth.js:6 | `replace(pat, rep)` on any string that starts with `pat` swaps that prefix for `rep` and keeps the rest |
| Text.ReplaceAbsent | middleware/auth.js:24 | `replace` of a pattern that cannot occur (the string lacks one of its characters) leaves the string unchanged |
| Text.ParseDigits | controller/users.controller.js:68-74 | the decimal digits of a number parse back to that number (used for the numeric token claims) |
| Text.SplitJoin | controller/users.controller.js:68-74 | splitting a join on a separator that no part contains gives back the parts |
| Text.JoinAvoids | controller/users.controller.js:68-74 | a join contains a character other than the separator only if some part does |
| Roles.ParseRole | modules/user.module.js:26-30 | a string is accepted as a role only when it is one of the four enum names, and then it names that role |
| Roles.ParseRoleName | modules/user.module.js:28 | every role's name parses back to the role |
| Roles.RoleNameLetters | modules/user.module.js:28 | role names are upper-case letters only, so a role inside a token holds neither the '.' separator nor a space |
| Bcrypt.Hash | modules/user.module.js:40 | the hash of `p` is accepted by compare for `p` and for nothing else, and is longer than `p` and at least prefix plus salt long |
| Bcrypt.Compare | modules/user.module.js:47 | `bcrypt.compare(p, h)` is true iff `h` is the hash of `p` under some salt, and a hash that compares equal is exactly prefix, salt and password long |
| Bcrypt.SaltedHashesDiffer | modules/user.module.js:40 | the same password hashed with two different salts gives two different hashes |
| Bcrypt.RehashRejectsPlaintext | controller/users.controller.js:214-216 | a hash of a hash of `p` never accepts `p` |
| Jwt.Encode | controller/users.controller.js:68-74 | a token's text decodes back to the claims it was made from and contains no space |
| Jwt.Decode | middleware/auth.js:7 | text without a '.' never decodes to claims |
| Jwt.DecodeJoin | controller/users.controller.js:68-74 | the claims' parts joined with '.' decode back to the claims: the parts hold no '.', and digits parse back |
| Jwt.Sign | controller/users.controller.js:68-74 | a token signed at `now` decodes to the subject, the role, `iat = now` and `exp = now + 3600`, and contains no space |
| Jwt.Verify | middleware/auth.js:7 | a token verifies exactly when it decodes and has not expired, and then yields its claims |
| Jwt.VerifySigned | middleware/auth.js:7 | a signed token verifies, with its own claims, exactly while `now < iat + 3600` |
| UserModel.WithField | modules/user.module.js:5-35 | setting one path changes that path's value and no other path |
| UserModel.NormalizeEmail | modules/user.module.js:10-11 | after the email setters the address is trimmed and has no upper-case letter |
| UserModel.NormalizeNormalized | modules/user.module.js:10-11 | a normalised address passes through the setters unchanged, so a stored address finds its own document |
| UserModel.Cast | modules/user.module.js:5-35 | `new User(body)`: each path takes the body value after its setters, the role defaults to USER and the picture to `default_profile_picture.png`, and absent paths are empty |
| UserModel.Setter | modules/user.module.js:10-11 | the setters a value goes through on assignment: an email comes out lower-case and trimmed (`lowercase`, `trim`), a name trimmed (line 22), any other path unchanged |
| UserModel.SetterIdempotent | modules/user.module.js:10-22 | a value the setters produced passes through them again unchanged, so re-assigning a stored value does not mark its path modified |
| UserModel.MatchesEmailPattern | modules/user.module.js:12 | `/\S+@\S+\.\S+/` tested without anchors (its helper `EmailShapeAt` places the '@' and the '.'): a matching string has at least 5 characters, an '@' and a '.' |
| UserModel.EmailShapeAt | modules/user.module.js:12 | one placement of the pattern: the characters from the one before the '@' to the one after the '.' are all non-whitespace |
| UserModel.PatternIsUnanchored | modules/user.module.js:12 | the unanchored `/\S+@\S+\.\S+/`: any text put before and after a matching string, spaces included, still matches |
| UserModel.PatternNeedsDotAfterAt | modules/user.module.js:12 | a string in which no '.' follows an '@' never matches |
| UserModel.Violations | modules/user.module.js:6-30 | the email fails iff it does not match the pattern, the password iff it is under 6 characters, the name iff it is outside 3 to 50, the role iff it is outside the enum; the picture never fails; a draft with no failing path has a non-empty email, password and name (`required`) |
| UserModel.Validate | modules/user.module.js:6-30 | validation succeeds iff the email matches the pattern, the password has at least 6 characters, the name has 3 to 50, and the role is in the enum; the record then holds exactly the draft's values; otherwise the error is exactly the set of failing paths |
| UserModel.Conforms | modules/user.module.js:6-30 | a record conforms to the schema's validators exactly when validating its values returns that same record |
| UserModel.AcceptedBody | modules/user.module.js:5-35 | a body that casts to a valid document had an email, a password of at least 6 characters and a name of 3 to 50 after trimming; the role defaults to USER and the picture to the default |
| UserModel.User.ComparePassword | modules/user.module.js:46-48 | `comparePassword(candidate)` is true iff the stored password is the hash of `candidate` under some salt |
| UserModel.EmailsUnique | modules/user.module.js:9 | the `unique: true` index on email: two different stored ids never hold the same address |
| UserModel.StoreInvariant | modules/user.module.js:5-35 | what every write leaves in the collection: the unique index holds and every stored record validates back to itself |
| UserModel.FindByEmail | controller/users.controller.js:58 | `findOne({ email })` finds the stored user whose address equals the normalised query, or reports that none has it |
| UserModel.Created | controller/users.controller.js:64 | `new User(body)` is unsaved, under the given id, marks only schema paths modified (the password iff the body has one), and holds a normalised email |
| UserModel.Loaded | controller/users.controller.js:196 | `findById` gives a document that is not new and has nothing modified; its values validate back to the stored user when that user conforms |
| UserModel.Assigned | controller/users.controller.js:204 | `doc[path] = v` stores the value after its setters, leaves the other paths alone, and marks the path modified iff it was already modified or the value changed |
| UserModel.AssignedAll | controller/users.controller.js:203-205 | assigning a set of keys keeps the id and the new flag, and only adds modified paths, all among the keys |
| UserModel.AssignedNone | controller/users.controller.js:203-205 | assigning no keys leaves the document as it was |
| UserModel.ChangedOneMore | controller/users.controller.js:203-205 | one more assigned key adds itself to the changed paths exactly when its value differs |
| UserModel.FieldOfAssignedAll | controller/users.controller.js:203-205 | after assigning a set of keys, each path holds the set-up value when its key was assigned and its old value otherwise |
| UserModel.AssignedOneMore | controller/users.controller.js:203-205 | assigning one more key to the document for a set of keys gives the document for the larger set, so the order of the `forEach` does not matter |
| UserModel.DraftOneMore | controller/users.controller.js:203-205 | the values half of the previous row |
| UserModel.ModifiedOneMore | controller/users.controller.js:203-205 | the modified-paths half of the previous row |
| UserModel.DraftByFields | modules/user.module.js:5-35 | two documents that agree on every schema path have the same values |
| UserModel.Hooked | modules/user.module.js:38-43 | the hook changes only the password; when the path is modified the new value is a longer hash that accepts the old value, and otherwise the document is unchanged |
| UserModel.SaveOutcome | controller/users.controller.js:65 | `doc.save()`: a validation error iff some validator fails, naming exactly the failing paths; a duplicate key iff the document is valid but reuses a stored id when new or an email another stored user has; otherwise the written record conforms, keeps the email and shares it with no other stored user |
| UserModel.SaveHashesWhenModified | modules/user.module.js:38-43 | a successful save writes the validated record, with the password hashed when and only when the password path was modified; an unmodified stored hash is kept |
| UserModel.SavePreservesInvariant | modules/user.module.js:9 | a successful save of a normalised document keeps email uniqueness and leaves every stored document valid and normalised |
| UserModel.ComparePasswordOnHash | modules/user.module.js:46-48 | `comparePassword` on a document holding the hash of `p` accepts exactly `p` |
| UserModel.UserDocument.FromBody | modules/user.module.js:5-35 | the new document holds the cast body, is unsaved, and every schema path the body sets counts as modified |
| UserModel.UserDocument.Load | controller/users.controller.js:196 | the loaded document holds the stored values, is not new, and nothing is modified |
| UserModel.UserDocument.Set | controller/users.controller.js:204 | the document's new state is the assignment of the value to the path |
| UserModel.UserDocument.PreSave | modules/user.module.js:38-43 | the hook replaces the password by its hash iff the password path is modified, and changes nothing else |
| UserModel.UserDocument.Save | controller/users.controller.js:65 | the result is the save outcome: validation failure, duplicate key, or the record written; the collection gains the record under the document's id only on success, after which the document is saved and unmodified; after a validation failure the document is unchanged, and after a duplicate key it keeps the password the hook hashed |
| Http.View | controller/users.controller.js:145 | a document read with `select("-password")` (lines 145 and 173): every path but the password is copied, and the view is the same whatever the stored password |
| UsersController.FileFilter | controller/users.controller.js:20-26 | JPEG and PNG uploads are accepted, and anything else is refused with the "JPG or PNG" message |
| UsersController.Truthy | controller/users.controller.js:45 | JavaScript's truth test on a body value, as at lines 45, 100 and 214: an absent value and the empty string are false, any other string true |
| UsersController.SignUpOutcome | controller/users.controller.js:39-92 | sign-up answers only 201, 400 or 409, and writes only on 201 |
| UsersController.SignUpReply | controller/users.controller.js:64-90 | after the save: 201 iff the save succeeded; a ValidationError answers 400 "Invalid data" and a unique-index refusal (code 11000) 409 "Duplicate key error", both writing nothing |
| UsersController.SignUpSaveRefusals | controller/users.controller.js:63-89 | for a request the first checks admit: 400 "Invalid data" iff the cast body breaks a validator; 409 "Duplicate key error" iff it is valid and the new id is already stored |
| UsersController.SignUp | controller/users.controller.js:39-92 | the handler on a `UserDocument` returns exactly the sign-up outcome: response and collection |
| UsersController.SignUpChecksFirst | controller/users.controller.js:44-61 | a request the first checks turn away answers 400 or 409 and writes nothing; an admitted one is answered by its save |
| UsersController.SignUpReplies | controller/users.controller.js:64-77 | a saved record answers 201 with the record and its token, and is added under the new id |
| UsersController.SignUpAddsOneRecord | controller/users.controller.js:64-77 | on 201 the id was free, the collection gains exactly one key, and every earlier record is unchanged |
| UsersController.InsertFresh | controller/users.controller.js:65 | adding a record under an unused id adds exactly that key and keeps the others |
| UsersController.SignUpRejectsIncomplete | controller/users.controller.js:44-55 | a missing or empty email, password or role, or a role outside the enum, answers 400 and writes nothing |
| UsersController.SignUpRejectsTakenEmail | controller/users.controller.js:57-61 | a complete request for an address already stored, after lower-casing and trimming, answers 409 and writes nothing |
| UsersController.SignUpSucceedsIff | controller/users.controller.js:39-92 | sign-up answers 201 iff the fields are present, the role is valid, no stored user has the normalised address, the new id is unused and the cast body passes validation |
| UsersController.SignUpCreates | controller/users.controller.js:64-77 | on 201 the new record has the normalised email, the requested role and the hash of the password, which it accepts; the token verifies to the new id and role for one hour |
| UsersController.SignUpPreservesInvariant | controller/users.controller.js:39-92 | sign-up keeps email uniqueness and leaves every stored document valid and normalised |
| UsersController.Login | controller/users.controller.js:95-141 | only 200, 400 or 401; 400 iff the email or password is missing; 200 iff some stored user has the normalised address and accepts the password; every 401 is the same "Invalid email or password" |
| UsersController.LoginGrants | controller/users.controller.js:119-136 | a 200 describes the matching stored user without its password, and its token verifies to that user's id and role for one hour |
| UsersController.LoginDoesNotRevealAccounts | controller/users.controller.js:108-116 | an unknown address and a known address with a wrong password get the identical response |
| UsersController.LoginKnownUser | controller/users.controller.js:95-116 | a stored user's own address with a password answers 200 if the stored hash accepts it, 401 otherwise |
| UsersController.LoginAfterSignUp | controller/users.controller.js:39-141 | the account sign-up creates can log in at any later time with the same email and password |
| UsersController.GetOneUser | controller/users.controller.js:143-156 | 404 iff the id is unknown; otherwise 200 with that user's id, email, name, role and picture and no password |
| UsersController.RoleFilter | controller/users.controller.js:161-171 | "users" filters to USER, "client" to CLIENT, "admin" to ADMIN, and every other selector leaves no filter; no selector selects SUPERADMIN alone |
| UsersController.Passes | controller/users.controller.js:173 | `find(filter)`: an empty filter passes every user; a role filter passes exactly the users with that role |
| UsersController.GetAllUsers | controller/users.controller.js:159-179 | 200 with exactly the stored users the filter passes, each without its password |
| UsersController.UnknownSelectorListsEveryone | controller/users.controller.js:161-173 | any other selector lists every stored user, administrators included |
| UsersController.Staged | controller/users.controller.js:202-211 | the assignments and the upload keep the id and the new flag, and only add modified paths, among the body keys and the picture |
| UsersController.Rehashed | controller/users.controller.js:213-216 | without a truthy body password the document is unchanged; with one the password path is modified and holds a hash that accepts the previous value |
| UsersController.SavedResponse | controller/users.controller.js:218-222 | 200 iff the save succeeds, with the saved document written under its id; otherwise the generic 500 and nothing written |
| UsersController.UpdateOutcome | controller/users.controller.js:182-224 | as written: only 200, 400, 404 or 500; 400 iff a body key is outside the whitelist; 404 iff the keys pass and the id is unknown; only a 200 writes (when 200 rather than 500: `UpdateSucceedsIff`) |
| UsersController.CorrectedUpdateOutcome | controller/users.controller.js:182-224 | without line 215: the same statuses, under the same conditions, and only a 200 writes (when 200 rather than 500: `CorrectedUpdateSucceedsIff`) |
| UsersController.SaveKeepingEmail | controller/users.controller.js:218 | saving a loaded document that keeps its stored address cannot hit the unique index, so it succeeds exactly when the validators pass |
| UsersController.RehashedValid | controller/users.controller.js:202-216 | after the as-written assignments and hash, a stored user's document passes validation iff a name sent trims to 3 to 50 characters and a password sent is non-empty |
| UsersController.UpdateSucceedsIff | controller/users.controller.js:182-224 | as written, on a valid collection: 200 iff the keys are whitelisted, the user exists, a name sent trims to 3 to 50 characters and a password sent is non-empty; otherwise 400, 404 or 500 |
| UsersController.CorrectedUpdateSucceedsIff | controller/users.controller.js:182-224 | without line 215, on a valid collection: 200 iff the keys are whitelisted, the user exists, a name sent trims to 3 to 50 characters and a password sent has at least 6 |
| UsersController.Stage | controller/users.controller.js:202-211 | the document after the `forEach` of assignments and then the uploaded file's path |
| UsersController.AssignEach | controller/users.controller.js:203-205 | the loop assigns every body key once, in any order, and leaves the document for the whole key set |
| UsersController.SaveAndSend | controller/users.controller.js:218-222 | a successful save answers 200 with the saved document and writes it; any failure answers 500 and writes nothing; the document ends saved, unchanged, or with its hook-hashed password, as the save outcome says |
| UsersController.UpdateUser | controller/users.controller.js:182-224 | the handler as written returns exactly the update outcome: whitelist, lookup, assignments, the handler's own hash, then the save |
| UsersController.CorrectedUpdateUser | controller/users.controller.js:182-224 | the handler without line 215 returns exactly the corrected update outcome |
| UsersController.StagedFields | controller/users.controller.js:202-211 | staging a whitelisted body keeps the email and role, trims the name, takes the password and picture (the upload wins), and marks the password modified iff a different one was sent |
| UsersController.UpdateRejectsUnlisted | controller/users.controller.js:185-193 | a body key outside name, password and profilePicture answers 400 and writes nothing, in both versions |
| UsersController.UpdateUnknownUser | controller/users.controller.js:196-200 | an unknown id answers 404 and writes nothing, in both versions |
| UsersController.UpdateSavedFields | controller/users.controller.js:182-224 | as written, a 200 replaces only the record under the id, keeps its email and role, takes the new name and picture, and stores a sent password hashed twice; anything else writes nothing |
| UsersController.CorrectedUpdateSavedFields | controller/users.controller.js:182-224 | with the fix, a 200 stores a changed password hashed once, and otherwise as the previous row |
| UsersController.UpdatePreservesInvariant | controller/users.controller.js:182-224 | both versions keep email uniqueness and leave every stored document valid and normalised |
| UsersController.UpdatedPasswordLocksOut | controller/users.controller.js:214-216 | as written, after a 200 that set a password, logging in with that password answers 401 |
| UsersController.UpdateAcceptsShortPassword | controller/users.controller.js:214-218 | as written, any non-empty password, however short, is saved with a 200 |
| UsersController.CorrectedUpdateLogsIn | controller/users.controller.js:182-224 | with the fix, a changed password saved with a 200 has at least 6 characters and logs in |
| UsersController.CorrectedUpdateRejectsShortPassword | modules/user.module.js:17 | with the fix, a password under 6 characters answers 500 and writes nothing |
| AuthMiddleware.BearerToken | middleware/auth.js:6 | the first "Bearer " is cut out wherever it occurs, so a header that starts with it yields the rest; a header without "Bearer " anywhere is used as it is; the token is never longer than the header |
| AuthMiddleware.Authenticate | middleware/auth.js:4-21 | succeeds iff a header is present, its token verifies and the subject is stored, and then yields that subject; with no header it fails as missing |
| AuthMiddleware.IsAdmin | middleware/auth.js:35 | the role test of `adminAuth`: a role passes iff it is neither USER nor CLIENT, that is, ADMIN or SUPERADMIN |
| AuthMiddleware.AuthVerdict | middleware/auth.js:4-21 | `auth` calls `next` iff authentication succeeds, with a stored id; every refusal is the same 401 |
| AuthMiddleware.AdminVerdict | middleware/auth.js:22-43 | `adminAuth` calls `next` iff the user authenticates and the stored role is ADMIN or SUPERADMIN; 401 when authentication fails, 403 when the role does not qualify |
| AuthMiddleware.AdminPassesAuth | middleware/auth.js:4-43 | whatever `adminAuth` admits, `auth` admits with the same id |
| AuthMiddleware.BearerStripped | middleware/auth.js:6 | "Bearer " followed by a token yields that token |
| AuthMiddleware.BareTokenAccepted | middleware/auth.js:6 | a signed token sent without the scheme is used unchanged |
| AuthMiddleware.SignedTokenAdmits | middleware/auth.js:4-21 | a token signed for a stored user admits it exactly while it is under an hour old, with or without "Bearer " |
| AuthMiddleware.UnknownSubjectRefused | middleware/auth.js:9-12 | a fresh token for an id with no stored user gets the 401 from both gates |
| AuthMiddleware.AdminChecksStoredRole | middleware/auth.js:35-37 | `adminAuth` decides on the stored role: tokens claiming different roles for the same id get the same decision |
| AuthMiddleware.Exchange.constructor | middleware/auth.js:4 | a fresh exchange has the header, no user, no `next` call and nothing sent |
| AuthMiddleware.Exchange.Auth | middleware/auth.js:4-21 | on success `req.user` is the stored user, `next` is called once and nothing is sent; otherwise the 401 is sent and nothing else changes |
| AuthMiddleware.Exchange.AdminAuth | middleware/auth.js:22-43 | `req.user` is set as soon as the user is found, even when the 403 follows; `next` is called once iff the verdict admits, and otherwise the verdict's response is sent |
| Routes.GateOf | routes/user.router.js:18-27 | only the listing is behind `adminAuth`, only the profile behind `auth`; sign-up, login and update are open |
| Routes.Refusal | routes/user.router.js:18-27 | an open route is never refused; `auth` and `adminAuth` refuse exactly when their verdict halts; a refusal is a 401 or a 403, and a 403 only comes from `adminAuth` |
| Routes.Handle | routes/user.router.js:18-27 | only sign-up and update write; only login answers 401 and no handler answers 403 |
| Routes.Dispatch | routes/user.router.js:18-27 | only sign-up and update write; a 401 or 403 writes nothing; a 403 only answers the listing; a 401 answers login or a gated route |
| Routes.DispatchPreservesInvariant | routes/user.router.js:18-27 | every route, refused or handled, keeps email uniqueness and every stored document valid and normalised |
| Routes.UpdateIsUngated | routes/user.router.js:27 | PUT /users/:id reaches `updateUser` with any header or none, for any id |
| Routes.ListingNeedsAdmin | routes/user.router.js:26 | GET /:role answers 200 iff `adminAuth` admits, and otherwise 401 or 403 |
| Routes.AdminListingShowsAdmins | routes/user.router.js:26 | an administrator's GET /admin answers 200 listing exactly the stored ADMIN users, each without its password |
| Routes.ProfileNeedsOnlyAuthentication | routes/user.router.js:25 | GET /users/:id serves any stored profile to any authenticated caller, and otherwise sends the 401 |
| Routes.VerifiedTokenOpensProfile | routes/user.router.js:25 | a bearer token that verifies and names a stored user opens that user's profile with 200 |
| Routes.SignUpTokenOpensProfile | routes/user.router.js:18-25 | the token a sign-up returns opens the new user's profile with 200 at any time within the hour |

## Left out

- The multer disk storage (file names from the clock and randomness), the 1 MB size limit and the upload middleware itself. The uploaded file is a parameter, its stored path. `fileFilter` is modelled as a function of the MIME type.
- Line 210 of controller/users.controller.js, which reassigns `profilePicture` to the result of calling the upload middleware. The model keeps the file's path.
- The PUT /users/:id route mounts no upload middleware, so `req.file` is never set in deployment. The model still allows a file, as the handler reads one.
- The login rate limiter (5 attempts a minute per IP, answered with 429). It keeps per-IP state across requests and depends on the clock.
- Jwt.Sign: the JWT header, the HMAC signature and the secret are not modelled. A token here is its claims, so forged tokens are out of scope.
- Bcrypt.Hash: the cost factor, the 72-byte input truncation and one-wayness are not modelled. The stand-in keeps the password visible inside the hash.
- Text.Lower: lower-cases ASCII letters only. JavaScript's full Unicode case mapping is not modelled.
- UserModel.Validate: lengths count characters, not UTF-16 code units, so the `minlength` and `maxlength` checks differ from JavaScript's for characters outside the Basic Multilingual Plane (three such characters are 6 code units).
- Http.UserView: mongoose's `__v` version key, which `select("-password")` returns alongside the other paths (controller/users.controller.js:145, 173), is not modelled.
- UserModel.Cast: body values are strings. Numbers, arrays, objects and an `_id` in the body are not modelled.
- UsersController.GetOneUser: a malformed id, which makes mongoose throw a CastError and the handler answer 500, is not modelled, because ids are numbers here.
- Other failures of the store or the runtime that end in the generic 500 (connection loss and the like) are not modelled, except where a failed save leads there in `updateUser`.
- The 400 and 409 bodies of sign-up carry `details` (the validation message and the duplicate key). The model keeps only the error text.
- UsersController.GetAllUsers: the listing is a set, so the order `find` returns is not modelled.
- The race between sign-up's email pre-check and its insert is not modelled, because each request runs alone. A document whose address was taken in between is refused at save time by the unique index and answers 409, which the model keeps.
- Logging (`console.log`/`console.error`), `index.js` (server start-up, the database connection, body parsing, request logging) and the environment secret are not modelled.

## Findings

| source | as written | input that shows it | evidently intended | confidence | as-written member | corrected member |
|---|---|---|---|---|---|---|
| controller/users.controller.js:214-216 | `updateUser` hashes a new password itself, and the save hook at modules/user.module.js:39-41 hashes the result again, so the stored value is hash(hash(p)) | PUT /users/:id with body `{ "password": "secret1" }`, then login with the same email and "secret1": the login answers 401 | a new password is hashed once, by the save hook, and the user can log in with it | high, not executed | UsersController.UpdatedPasswordLocksOut | UsersController.CorrectedUpdateLogsIn |
| controller/users.controller.js:215 | the `minlength: 6` validator runs on the handler's hash instead of on the new password, so any non-empty password is accepted | PUT /users/:id with body `{ "password": "a" }` answers 200 | a new password shorter than 6 characters is refused | high, not executed | UsersController.UpdateAcceptsShortPassword | UsersController.CorrectedUpdateRejectsShortPassword |
