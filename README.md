# A Dafny model of the rental-listing backend's request handlers

The backend is an Express server over three MongoDB collections: users,
posts (rental listings) and one-time verification codes. This project models
the handlers that decide logins and change those collections:

- `login` reads a user by email and password. It answers 404, 401 or 200,
  and a 200 reply carries a session token for that user.
- `update-user` and `update-post` copy whitelisted request fields into an
  update object and `$set` it into the stored document. Each field is
  gated on truthiness or on definedness.
- `reset-password` overwrites the password.
- `create-post` inserts a post.
- `delete-user` and `delete-post` remove one document.
- `getVerificationCode` draws a four-digit code, stores it with the email
  and a timestamp, then mails it.
- `verifyOTP` compares a candidate with the latest code stored for an email.

Modules:

- `Documents` (`documents.dfy`): JSON values, documents as maps from field
  names to values, and the request field that may be `undefined`. It also
  holds JavaScript truthiness, the driver writing `undefined` as null, and
  MongoDB's equality match.
- `Patch` (`patch.dfy`): the two whitelists and the update object built from
  a request. Also `$set`.
- `Auth` (`auth.dfy`): the login query, `findOne`, and the login decision.
- `Otp` (`otp.dfy`): the decimal code and its round trip. Also the latest
  record for an email, and the verification decision.
- `Backend` (`backend.dfy`): a `Database` class that holds the collections
  as fields. The handlers that change state are its methods.

`login` and `verifyOTP` change nothing and are pure functions. The other
handlers are methods with `modifies` clauses on the collections they touch.

Modelling choices:

- A request body's `data` is `None` when it is undefined or null. In the
  update handlers, reading a field of it then throws, and the `catch` answers
  500. In create-post, `insertOne(undefined)` throws, and the `catch` answers
  200 (see Findings).
- The driver serializes `undefined` as null (it does not ignore undefined
  values). So a missing login field queries for null, which matches a
  missing or null field. A missing `data.password` on reset stores null.

## Model

| member | source | states |
|---|---|---|
| Documents.FalsyFields | index.js:169-176 | the fields an `if (data.f)` gate refuses are exactly undefined, null, false, 0 and ""; every array passes |
| Documents.TruthyIsDefined | index.js:169-177 | a value that passes the truthiness gate also passes the definedness gate |
| Patch.UpdateObject | index.js:168-177 | the update object holds only whitelisted fields, each with the request's own value |
| Patch.SetFields | index.js:179 | `$set` keeps every stored field, adds or overwrites the patched ones with the patch's values, and leaves the others as they were |
| Patch.UpdateObjectField | index.js:377-395 | a field is in the update object iff its gate admits the request value, and then it carries that value |
| Patch.SetUpdateField | index.js:397 | after `$set` of the update object, an admitted field has the request value; every other field keeps its old value or stays absent |
| Patch.SetFieldsIdempotent | index.js:179 | sending the same update twice stores what sending it once does |
| Patch.UserUpdateObjectFields | index.js:168-177 | name, email, password, phone and location are copied iff truthy; isVerified, image, totalPost and rentSuccess iff defined; no other field is ever copied |
| Patch.PostUpdateObjectFields | index.js:378-379 | location and type are copied iff truthy; no field outside the known names (isAds, owner ids) is ever copied |
| Patch.PostUpdateObjectKeys | index.js:377-395 | every key of the post update object is the one key of its field name, and none is isAds or userId |
| Patch.PostUpdateObjectDefinedFields | index.js:380-395 | each of the sixteen definedness-gated post fields, img included, is copied iff defined |
| Patch.FalsyValuesUnderBothGates | index.js:169-176 | a blank name is ignored, while false, 0 and "" sent for isVerified, totalPost and image are stored |
| Auth.LeastExists | index.js:91 | every non-empty set of ids has a least element, so the first match exists |
| Auth.Least | index.js:91 | the chosen id is a member of the set and no greater than any other member |
| Auth.FindUser | index.js:89-91 | no result iff no user matches the query; otherwise a matching user with the least id |
| Auth.Login | index.js:87-112 | 404 iff no user matches; 401 iff the first match has isVerified exactly false; otherwise 200 with that user and a token for its id |
| Auth.SoleMatchLogsIn | index.js:99-112 | the only matching user is refused with 401 iff isVerified is false, and otherwise logs in with a token for its own id |
| Auth.MissingCredentialsMatchBareUsers | index.js:88-91 | without email and password, the query matches exactly the users whose email and password are each missing, null, or an array holding null |
| Auth.StoredCredentialsMatch | index.js:89-91 | a user whose stored email and password equal the strings sent matches the query |
| Auth.WrongPasswordRejected | index.js:91-98 | when every stored password is a string other than the one sent, login answers 404 |
| Otp.DigitChar | index.js:215 | the character written for a digit is a digit character with that value |
| Otp.DigitValue | index.js:215 | a digit character's value is a digit, and that digit is written with the same character |
| Otp.DecimalString | index.js:215 | `toString` of a number gives a non-empty digit string; it starts with '0' only for zero, and numbers below 10 give one character |
| Otp.ParseDecimalString | index.js:215 | reading back the decimal string of a number gives the number |
| Otp.DecimalStringInjective | index.js:215 | different numbers have different decimal strings |
| Otp.DecimalStringOfParse | index.js:215 | a digit string without a leading zero is the decimal string of the number it denotes |
| Otp.ParseBounds | index.js:215 | a k-digit string denotes less than 10^k, and at least 10^(k-1) when its first digit is not '0' |
| Otp.FourDigitDecimal | index.js:215 | the numbers from 1000 to 9999 are written with four digits |
| Otp.OtpCode | index.js:215 | the code for a draw is four digits with a non-zero first digit, and it denotes 1000 + draw |
| Otp.OtpCodesAreFourDigitStrings | index.js:215 | the possible codes are exactly the four-digit strings without a leading zero |
| Otp.OtpCodeInjective | index.js:215 | different draws give different codes |
| Otp.Latest | index.js:253-257 | no record iff none matches the email; otherwise a matching record with the greatest timestamp, the last such when several tie |
| Otp.VerifyOtp | index.js:250-277 | 404 iff no record matches the email; 200 only when the candidate is the string stored in a matching record with the greatest timestamp |
| Otp.NewestRecordDecides | index.js:257-277 | when one matching record is strictly newest, the reply is 200 iff the candidate equals its code, else 400 |
| Otp.NewerCodeSupersedes | index.js:225-231 | after a new code is stored at a time no earlier than the email's other codes, that code verifies and every other candidate gets 400 |
| Otp.OtherEmailIrrelevant | index.js:253-257 | a record stored for another email does not change the reply |
| Otp.NonStringCandidateRejected | index.js:267 | by strict equality, a missing or non-string candidate is never accepted |
| Backend.Database.constructor | index.js:61-64 | the collections start as given, and every stored post id is below the next id to hand out |
| Backend.Database.UpdateUser | index.js:154-191 | 404 and 500 leave users unchanged; otherwise the user's document gets the `$set` of the update object and no other user changes, and the `updateOne` result matches one user and counts it modified iff its document changed |
| Backend.Database.DeleteUser | index.js:193-208 | status 200; exactly the given id is removed; deletedCount is 1 iff it existed |
| Backend.Database.GetVerificationCode | index.js:211-247 | appends exactly one record {email, code, timestamp} before the mail is sent, so a failed send (500) still stores it |
| Backend.Database.VerifyRequest | index.js:250-278 | reads the stored codes without changing them: 404 iff there is no latest record, 200 iff the candidate equals its code |
| Backend.Database.ResetPassword | index.js:280-309 | 404 and 500 leave users unchanged; otherwise only the user's password changes, to `data.password` as stored (null when undefined), and the `updateOne` result counts the user modified iff the password changed |
| Backend.Database.CreatePost | index.js:311-326 | as written: inserts data under a fresh id that is in no stored post and replies 200; without data it stores nothing and still replies 200; keeps every post id below the next one |
| Backend.Database.CreatePostCorrected | index.js:311-326 | corrected: replies 200 iff a post was stored, and 500 when there is no data; otherwise stores as create-post does |
| Backend.Database.UpdatePost | index.js:362-409 | 404 and 500 leave posts unchanged; otherwise the post gets the `$set` of its update object and no other post changes, and the `updateOne` result matches one post and counts it modified iff its document changed; keeps every post id below the next one |
| Backend.Database.DeletePost | index.js:411-427 | status 200; exactly the given id is removed; deletedCount is 1 iff it existed; keeps every post id below the next one |
| Backend.UpdateUserFields | index.js:168-179 | after update-user, a field takes the request value iff admitted and otherwise keeps its old value; other users are untouched |
| Backend.UpdatePostKeepsUnlistedFields | index.js:377-397 | update-post never changes a field outside its whitelist: isAds, the owner fields, and user fields such as image and name |
| Backend.ResetThenLogin | index.js:280-309 | after a password reset, the only user whose email the login query matches logs in with the new password unless unverified |
| Backend.ResetWithoutPasswordMatchesEmptyLogin | index.js:292-296 | a reset without data.password stores null, so a login query with the email and no password matches that user |

## Left out

- Auth.FindUser: `findOne` without a sort returns the first document in the store's natural order, which the source leaves unspecified. The model picks the matching user with the least id. `register` inserts `data` without a uniqueness check, so two users can share an email and password, and then the choice decides between 401 and 200. Ids need not grow with insertion order either: `register` keeps a client-supplied `_id`, and ObjectIds from different processes are not monotone.
- Otp.Latest: of several records for one email with the greatest timestamp, the model picks the one inserted last. The store's order among such ties is unspecified, so the real server may compare the candidate with another of them.
- Patch.UpdateObject: the handlers assign the update object one `if` at a time. The model states the object they end with as one value, not as a run of eighteen conditional assignments, so the intermediate objects and the order of the assignments are not represented. The fields are distinct, so the final object does not depend on that order.
- The Express setup, CORS, `listen`, and the JWT middleware `verifyJWT`: a token is a value carrying the user id. Signing, expiry and revocation are not modelled.
- MongoDB connection setup and ObjectId parsing: ids are natural numbers. An id string that is not a valid ObjectId throws before the `try` blocks, and that is not modelled.
- Driver and network failures: the `catch` branches that answer 500 (or 200 in create-post) for a failed query are modelled only where the failure comes from the request, that is, from a missing `data`.
- `insertOne` into the OTP collection failing: that branch would store nothing and answer 500. It is a driver failure, as above.
- Backend.Database.GetVerificationCode: `Math.random` is replaced by an integer draw in [0, 9000). The floating-point product is not modelled.
- Backend.Database.GetVerificationCode: the clock is replaced by a `now` parameter.
- Backend.Database.GetVerificationCode: sending the mail is replaced by a `mailSent` flag.
- Query operators: an object sent as `email` or `password` (such as `{"$ne": null}`) would act as an operator in the query. Request values are modelled as scalars or arrays, and embedded objects are not represented.
- Backend.Database.CreatePost: a client-supplied `data._id` is not modelled. `insertOne` would store the post under that id, and a duplicate id would make the insert fail (replied with 200). The model always stores the post under the next fresh id and keeps `_id` as an ordinary field.
- Numbers are integers only; fractional JSON numbers are not represented.
- A `data` that is a JSON value other than an object is not modelled. In the update handlers it behaves as an empty object.
- The update handlers run two queries, an existence check and then `updateOne`. Concurrent requests between them are not modelled.
- An empty `$set` is taken to succeed without change, as MongoDB 5.0 and later do.
- `createdAt` and `updatedAt`: these are not part of this model.
- The handlers outside this model: `register` (it inserts `data` without a uniqueness check), `all-users`, `single-user`, `all-posts` and `single-post`.

## Findings

| source | as written | input that shows it | evidently intended | confidence | as-written member | corrected member |
|---|---|---|---|---|---|---|
| index.js:320-324 | the `catch` of create-post replies with status 200 and the message "Internal Server Error" | a create-post body without `data`, so `insertOne(undefined)` throws | status 500, as in every other handler's failure branch | high, not executed | Backend.Database.CreatePost | Backend.Database.CreatePostCorrected |
