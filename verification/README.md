# Reservation web app backend: a Dafny model

This project models the core of the reservation web app's REST backend, which is
written in TypeScript over Mongoose/MongoDB. Guests book reservations. Each
reservation is a list of line items, and a line item names a consumption and a
quantity. A guest pays for the latest reservation still in `checkin` through
Stripe. A Stripe webhook then marks the payment `success` or `failed`, and on
success checks the reservation out.

How the model is built:

- **Store.** The database is a `Database.Store` object. It holds five maps, one
  per collection (reservations, payments, consumptions, users, files), each
  keyed by the hexadecimal ObjectId.
- **Invariants.** `Store.Valid()` states what MongoDB keeps true: every
  document is stored under its own id, at most one *pending* payment exists
  per (user, reservation) key, and emails are unique as raw text.
- **Transactions.** A transaction is a snapshot of the store. When an error
  aborts the transaction, `Store.Restore` puts the snapshot back.
- **Schemas.** Each Mongoose schema is a `Create` function and an `Update`
  function. `Create` casts and validates, fills defaults and drops undeclared
  paths. `Update` casts only, with no validators.
- **Queries.** A query (`find().sort().skip().limit()` plus `countDocuments`)
  is specified by `Ordering.IsQueryAnswer`. It holds when the rows are a
  listing of all matching documents, sorted in BSON order and then paged. Ties
  are left in an unspecified order.
- **Services** are methods on the store. Each states its error cases, the new
  contents of the store, and that an aborted transaction leaves the store
  unchanged.
- **Outside code.** The model does not contain these collaborators; each is a
  parameter:
  - bcrypt, JSON Web Tokens, the file-storage dispatcher's download URL and
    Stripe's payment intents (`External.Env`);
  - `slug`;
  - the clock (`now`) and freshly generated ObjectIds (`newId`, and the id
    `uuid` generates);
  - the draws of `Math.random`.
- **Storage and routing.** The local file storage is modelled with POSIX path
  semantics: `path.join`, `path.normalize`, and the containment check that
  guards downloads. The upload handler's guards and the API rate limiter's
  skip rule are modelled too.

Where the code and its documentation disagree, the model follows the code:

- `updateTotalCost` looks up a line item whose consumption did not populate
  under the empty id. That lookup fails to cast, so the cost computation raises
  a CastError. It does not raise NotFound.
- `findLatestReservation` reads `rows[0]` from the answer of `create`, which
  has no such element, so it throws a TypeError after inserting a payment.
- `findAllAutocomplete` on users with an empty search sends `{ $and: [] }`,
  which MongoDB refuses.
- `updateProfile` with no avatar throws inside `filterIds`.
- The reservation schema spells `maxlenght` on `city` and the line-item schema
  spells `defaut` on `quantity`. Neither option has any effect.

## Model

| member | source | states |
|---|---|---|
| ApiRateLimiter.CreateRateLimiter | src/api/apiRateLimiter.ts:3-31 | the limiter gets the caller's max, window and message unchanged, and its skip predicate is the skip rule on every request |
| ApiRateLimiter.Skip | src/api/apiRateLimiter.ts:16-29 | a request is skipped if and only if it is an OPTIONS request or its URL is some prefix followed by `/import` or `/autocomplete` |
| ApiRateLimiter.SkipSeesTheWholeUrl | src/api/apiRateLimiter.ts:21-26 | the suffix test reads the query string too: behind a `?` only the end of the query decides, whatever the path |
| ApiRateLimiter.AutocompleteWithQueryIsCounted | src/api/apiRateLimiter.ts:21-28 | an autocomplete route called with a query string (which holds no `/`) is counted by the limiter |
| AuthService.NewUserData | src/services/authService.ts:31-37 | what sign-up inserts: the name, the role as sent, the lowered email and the hashed password, and no other path |
| AuthService.Register | src/services/authService.ts:13-56 | a missing email is a TypeError and a missing password a HashError; a registered email (ignoring case) is refused with "Email Already In Use"; otherwise the user is inserted (email lowered, password hashed, role defaulting to guest) and a token is signed over its id; a failure leaves the store unchanged |
| AuthService.Login | src/services/authService.ts:63-101 | every credential failure answers the same message; an unknown email fails; success means some user whose email equals the given one ignoring case has a stored non-empty password that matches, and the token is signed over that user's id; when every such user matches, login succeeds |
| AuthService.ChangePassword | src/services/authService.ts:103-128 | a missing caller is a TypeError; a mismatching old password is refused with its message; on success only the caller's password changes, to the hash of the new one; a matching old password and a given new one always succeed |
| AuthService.UpdateProfile | src/services/authService.ts:130-155 | a missing profile fails the assertion and a null avatar is a TypeError; on success the caller's user is updated with the profile, with its avatar set to the given file id when that file is stored and to null otherwise, and nothing else changes |
| AuthService.RemoveProfile | src/services/authService.ts:157-175 | a missing caller is a TypeError; it succeeds exactly when the caller's user is stored, and then removes only that user; otherwise the lookup's error and no change |
| ConsumptionModel.Create | src/database/models/consumption.ts:9-27 | accepted exactly when the name is at most 63 and the description at most 256 characters long; the price defaults to 0 |
| ConsumptionModel.Update | src/database/models/consumption.ts:9-27 | keeps id and creation time; a given price replaces the stored one, a missing price keeps it |
| ConsumptionModel.StampsAreDropped | src/database/repositories/consumptionRepository.ts:8-48 | the `createdBy` and `updatedBy` stamps the repository adds never reach the stored record, on create or update |
| ConsumptionRepository.FindById | src/database/repositories/consumptionRepository.ts:74-85 | answers the stored consumption exactly when the id is a stored ObjectId; otherwise NotFound, or CastError for a text that is no ObjectId |
| ConsumptionRepository.Create | src/database/repositories/consumptionRepository.ts:8-22 | a refused document is a ValidationError with no change; otherwise exactly the validated record is inserted under the new id and answered |
| ConsumptionRepository.Update | src/database/repositories/consumptionRepository.ts:24-48 | fails exactly when the lookup fails, with no change; otherwise only that consumption is replaced by the update of the data, and answered |
| ConsumptionRepository.Destroy | src/database/repositories/consumptionRepository.ts:50-63 | succeeds exactly when the lookup does, and then removes only that consumption; otherwise the lookup's error and no change |
| ConsumptionRepository.Criteria | src/database/repositories/consumptionRepository.ts:91-105 | no criterion is pushed exactly when neither id nor status is given |
| ConsumptionRepository.CriteriaMeanFilter | src/database/repositories/consumptionRepository.ts:91-105 | the pushed criteria select exactly the consumptions with the given id (through `uuid`) and, when a status is given, whose name equals the filter's name |
| ConsumptionRepository.StatusValueIsIgnored | src/database/repositories/consumptionRepository.ts:100-104 | two filters that differ only in a non-empty status value select the same consumptions |
| ConsumptionRepository.NameAloneIsIgnored | src/database/repositories/consumptionRepository.ts:100-104 | a name given without a status selects every consumption |
| ConsumptionRepository.FindAndCountAll | src/database/repositories/consumptionRepository.ts:87-132 | the count is the number of matches, and the rows are those matches sorted (newest first by default), skipped and limited |
| Database.Store.Restore | src/services/reservationService.ts:31-37 | aborting the transaction makes the store's contents exactly the snapshot |
| Database.FindOne | src/database/repositories/reservationRepository.ts:70-80 | `findOne` plus the not-found check: the stored document exactly when the id is a stored ObjectId; otherwise NotFound, or CastError for a text that is no ObjectId |
| Database.FindOneFindsThatId | src/database/repositories/reservationRepository.ts:94-111 | while every document is stored under its own id, a successful lookup answers the document with the requested id, in every collection |
| Database.FindOneMissing | src/database/repositories/reservationRepository.ts:70-80 | an id that is not stored always fails, and with NotFound when it is an ObjectId |
| Database.DeleteEach | src/services/reservationService.ts:63-81 | deleting ids one after the other fails only with NotFound or CastError |
| Database.DeleteEachMeaning | src/services/reservationService.ts:63-81 | a batch delete succeeds if and only if every id is a stored ObjectId and no id repeats, and then removes exactly those ids |
| External.Hash | src/services/user/userService.ts:38-41 | bcrypt refuses a missing password and otherwise answers the hash of the given password |
| External.Compare | src/services/authService.ts:83-87 | bcrypt's compare refuses a missing text or a missing hash and otherwise answers whether they match |
| FileModel.Create | src/database/models/file.ts:9-23 | accepted exactly when the title is present and at most 255 long and both URLs are at most 2047 long; the record keeps title and URLs |
| FileModel.Update | src/database/models/file.ts:9-23 | keeps id and creation time; a given title replaces the stored one |
| FileModel.NameIsDropped | src/api/file/upload.ts:59-70 | the `name` the upload handler supplies never changes what is stored |
| FileModel.EmptyTitleRefused | src/database/models/file.ts:11-15 | a file with an empty title is refused |
| FileRepository.MapRelationshipsAndFillDownloadUrl | src/database/repositories/fileRepository.ts:66-87 | null stays null; a file keeps its stored record and gains its non-empty public URL as download URL, or else the storage's URL for its private URL and no name |
| FileRepository.PublicUrlIsPreferred | src/database/repositories/fileRepository.ts:66-87 | a non-empty public URL is the download URL |
| FileRepository.StoredNameNeverReachesStorage | src/database/repositories/fileRepository.ts:66-87 | a stored file without a public URL gets the storage's URL for an absent name and its private URL, whatever name the upload gave |
| FileRepository.CleanupForRelationships | src/database/repositories/fileRepository.ts:36-46 | nothing stays nothing; one file or a list becomes the list of the same files, in order, each with its download URL |
| FileRepository.EmptyListStaysList | src/database/repositories/fileRepository.ts:36-46 | an empty array is truthy and answers an empty list, not null |
| FileRepository.RefKeys | src/database/repositories/fileRepository.ts:52-64 | the keys are read exactly when every ref is non-null and names an ObjectId; a null ref makes it a TypeError |
| FileRepository.FilterIds | src/database/repositories/fileRepository.ts:52-64 | a missing or empty input gives `[]`; otherwise the error of the first bad ref, or the stored files among the given ids, each once |
| FileRepository.FilterIdsAnswer | src/database/repositories/fileRepository.ts:52-64 | an id is in the answer if and only if it is stored and was asked for, and none repeats |
| FileRepository.FilterId | src/database/repositories/fileRepository.ts:48-50 | fails exactly for a null or non-ObjectId ref (TypeError for null); otherwise the id when that file is stored, else null |
| FileRepository.FindById | src/database/repositories/fileRepository.ts:21-34 | answers the stored file with its download URL exactly when the lookup succeeds, and the lookup's error otherwise |
| FileRepository.Create | src/database/repositories/fileRepository.ts:9-13 | a refused document changes nothing; otherwise the validated file is inserted under the new id and answered with its download URL |
| FileRepository.Update | src/database/repositories/fileRepository.ts:15-19 | an absent id changes nothing and fails on the re-read; otherwise only that file is updated, and answered with its download URL |
| LocalhostFileStorage.ReplaceAll | src/services/file/localhostFileStorage.ts:78-88 | a text without the pattern is left unchanged |
| LocalhostFileStorage.GetRealPath | src/services/file/localhostFileStorage.ts:78-91 | a missing or empty URL is answered as is; otherwise the answer has `{APP_ROOT}` replaced and every backslash turned into the separator |
| LocalhostFileStorage.RealPath | src/services/file/localhostFileStorage.ts:78-92 | a missing or empty URL comes back as it is; any other URL gives a path with no backslash, which is the URL with its separators unified when it holds no `{APP_ROOT}` |
| LocalhostFileStorage.InternalUrl | src/services/file/localhostFileStorage.ts:16-18 | the joined path is never empty, and is absolute whenever the upload directory is |
| LocalhostFileStorage.DownloadUrl | src/services/file/localhostFileStorage.ts:39-47 | the URL begins with the backend URL and ends with the slug of the file name (of the empty name when there is none) |
| LocalhostFileStorage.IsPathInsideUploadDir | src/services/file/localhostFileStorage.ts:72-76 | a path inside begins with the upload directory and, when that has no trailing separator, continues with a separator |
| LocalhostFileStorage.UploadDir | src/services/file/localhostFileStorage.ts:13 | the temporary directory when no storage path is set; otherwise the real path of the storage path |
| LocalhostFileStorage.UploadFile | src/services/file/localhostFileStorage.ts:23-34 | Forbidden exactly when the joined path is not below the upload directory; otherwise the download URL of the file name and private URL |
| LocalhostFileStorage.UploadIgnoresReadFlagAndSize | src/services/file/localhostFileStorage.ts:23-34 | the public-read flag and the size limit never change what an upload answers |
| LocalhostFileStorage.Download | src/services/file/localhostFileStorage.ts:51-57 | Forbidden exactly when the joined path is not below the upload directory; otherwise that path |
| LocalhostFileStorage.UploadDirIsNotInside | src/services/file/localhostFileStorage.ts:72-76 | the upload directory itself, without a trailing separator, is not inside itself |
| LocalhostFileStorage.AbsolutePathsNeverClimb | src/services/file/localhostFileStorage.ts:16-18 | normalizing an absolute path leaves no `..`, `.` or empty segment |
| LocalhostFileStorage.JoinPlainIsBelow | src/services/file/localhostFileStorage.ts:16-18 | joining plain segments to an absolute directory of plain segments gives the directory, a slash and the segments, which lies below the directory |
| LocalhostFileStorage.PlainPrivateUrlIsInside | src/services/file/localhostFileStorage.ts:51-57 | a private URL of plain segments is downloaded from exactly the upload directory, a slash and that URL |
| LocalhostFileStorage.ClimbingOutOfDirectory | src/services/file/localhostFileStorage.ts:16-18 | joining `../name` to a directory names the sibling `name`, which is not below the directory |
| LocalhostFileStorage.ClimbingOutIsRefused | src/services/file/localhostFileStorage.ts:51-57 | a private URL that climbs out of the upload directory with `..` lands in a sibling directory, and its download is Forbidden |
| Ordering.SortBy | src/database/repositories/reservationRepository.ts:142 | a sort is a permutation of its input, ordered by the key in the given direction |
| Ordering.PageOf | src/database/repositories/reservationRepository.ts:144-146 | skip then limit, 0 meaning none: the slice from the offset, at most `limit` long; nothing past the end |
| Ordering.WholePage | src/database/repositories/reservationRepository.ts:144-146 | with neither skip nor limit, the page is everything |
| Ordering.PageBounds | src/database/repositories/reservationRepository.ts:144-146 | a page never holds more than the matches, nor more than a non-zero limit |
| Ordering.FindAndCount | src/database/repositories/reservationRepository.ts:142-171 | the count is the number of matches, ignoring paging, and the rows are a paged, sorted listing of all matches |
| Ordering.UnpagedAnswerIsComplete | src/database/repositories/reservationRepository.ts:142-171 | whatever the order of ties, an unpaged answer holds every match and only matches, as many as there are |
| Ordering.FirstOfUnpagedAnswer | src/services/paymentService.ts:197-211 | the first row of an unpaged answer is a match that no other match precedes in sort order |
| Ordering.EquivalentCriteria | src/database/repositories/userRepository.ts:99-114 | criteria that agree on every stored document select the same documents and admit the same answers |
| PaymentModel.Create | src/database/models/payment.ts:9-48 | accepted exactly when the references cast, the confirmation id is at most 63 long and the status is in the enum; the status defaults to pending and the amount to 0 |
| PaymentModel.Update | src/database/models/payment.ts:9-48 | fails with a CastError exactly when a reference does not cast; keeps id and creation time; an empty update changes nothing |
| PaymentModel.StatusUpdate | src/services/paymentService.ts:98-102 | setting only the status changes the status and nothing else |
| PaymentModel.WriteKeepsAtMostOnePending | src/database/models/payment.ts:50-54 | a write that the partial unique index accepts keeps at most one pending payment per user and reservation |
| PaymentModel.SecondPendingClashes | src/database/models/payment.ts:50-54 | a second pending payment for the same user and reservation is refused by the index |
| PaymentModel.SettledPaymentsNeverClash | src/database/models/payment.ts:50-54 | a payment that is not pending never clashes: the index is partial |
| PaymentModel.RemoveKeepsAtMostOnePending | src/database/models/payment.ts:50-54 | removing a payment keeps the index |
| PaymentRepository.MapToObject | src/database/repositories/paymentRepository.ts:148-156 | null stays null and a record becomes exactly its stored paths |
| PaymentRepository.FindById | src/database/repositories/paymentRepository.ts:57-68 | answers the stored payment exactly when the id is a stored ObjectId; otherwise NotFound, or CastError |
| PaymentRepository.Create | src/database/repositories/paymentRepository.ts:8-12 | a refused document is a ValidationError, a second pending payment for the key a DuplicateKey, both with no change; otherwise exactly the new payment is inserted |
| PaymentRepository.Update | src/database/repositories/paymentRepository.ts:14-31 | lookup errors, CastError and DuplicateKey change nothing; otherwise only that payment is replaced by its update, and any update the index accepts succeeds |
| PaymentRepository.Destroy | src/database/repositories/paymentRepository.ts:33-46 | succeeds exactly when the lookup does, and then removes only that payment; otherwise the lookup's error and no change |
| PaymentRepository.Populate | src/database/repositories/paymentRepository.ts:70-89 | the payment with its reservation, present exactly when the reference names a stored reservation |
| PaymentRepository.FindByConfirmationId | src/database/repositories/paymentRepository.ts:70-89 | NotFound exactly when no payment carries the confirmation id; otherwise one payment that carries it, with its reservation populated |
| PaymentRepository.Criteria | src/database/repositories/paymentRepository.ts:95-121 | no criterion is pushed exactly when no filter field is given |
| PaymentRepository.CriteriaMeanFilter | src/database/repositories/paymentRepository.ts:95-121 | the pushed criteria select exactly the payments matching every given field, with the id, creator and reservation passed through `uuid` |
| PaymentRepository.InvalidIdFilterSelectsNothing | src/database/repositories/paymentRepository.ts:95-100 | an id filter that is no ObjectId selects no payment, because `uuid` substitutes an id that is not stored |
| PaymentRepository.FindAndCountAll | src/database/repositories/paymentRepository.ts:91-146 | the count is the number of matches, and the rows are those matches sorted (newest first by default), skipped and limited |
| PaymentService.Spelled | src/services/paymentService.ts:16-27 | the spelled text is as long as the draws, and every character is in the alphabet |
| PaymentService.GenerateRandomString | src/services/paymentService.ts:16-27 | the loop appends one alphabet character per draw: the result is what the first `length` draws spell |
| PaymentService.GetTotalPrice | src/services/paymentService.ts:29-38 | no reservation costs 0; otherwise the sum over the line items of price times quantity, with a missing consumption or quantity counting 0 |
| PaymentService.PriceIsTheCost | src/services/paymentService.ts:29-38 | when every line item resolves, the total price equals the cost `updateTotalCost` computes from the same consumptions |
| PaymentService.DanglingItemIsFree | src/services/paymentService.ts:32-35 | a line item that does not resolve counts 0 in the price, whereas it makes the cost computation fail |
| PaymentService.FirstCheckinIsLatest | src/services/paymentService.ts:47-64 | the first row of the caller's check-in reservations, newest first, is a check-in reservation of the caller that no other was created after |
| PaymentService.LatestCheckin | src/services/paymentService.ts:197-211 | null exactly when the caller has no check-in reservation; otherwise the hydrated latest one |
| PaymentService.Create | src/services/paymentService.ts:40-87 | a missing caller is a TypeError; otherwise the insert of the data, created by the caller, for a latest check-in reservation, with a 60-character confirmation id and that reservation's price; a failure leaves the store unchanged |
| PaymentService.NoCheckinFailsToCreate | src/services/paymentService.ts:64 | without a check-in reservation the reference is `''`, which does not cast: a ValidationError and no change |
| PaymentService.CreatedPayment | src/services/paymentService.ts:60-72 | a created payment belongs to the caller and to a latest check-in reservation, costs that reservation's price, carries the confirmation id and is the only change |
| PaymentService.FirstPaymentFor | src/services/paymentService.ts:213-240 | null exactly when the caller has no payment in that status for the reservation; otherwise one such payment |
| PaymentService.CreatedIsPending | src/services/paymentService.ts:242-249 | the payment `create({})` inserts is pending |
| PaymentService.LookUpPayments | src/services/paymentService.ts:213-251 | "paid" exactly when a successful payment exists; a usable pending payment is one of the caller's pending payments with a confirmation id |
| PaymentService.CheckoutOf | src/services/paymentService.ts:213-264 | for a latest check-in reservation: "already paid", with the store unchanged, exactly when the caller has a successful payment for it; otherwise, for a pending payment with a non-empty confirmation id, the store is unchanged and the answer is Stripe's client secret (empty when Stripe gives none) or Stripe's error; otherwise `create({})` runs, a draft pending payment is inserted or its error (duplicate key, validation) is answered with nothing changed, and a successful insert still ends in a TypeError |
| PaymentService.CreateInsteadOfPending | src/services/paymentService.ts:242-251 | `create({})` either fails with its own error and nothing changed, or stores one new pending payment (the draft for the latest check-in reservation) and then fails with a TypeError on `rows[0]` |
| PaymentService.PendingPaymentIsUnique | src/services/paymentService.ts:231-246 | two pending payments of one caller for one reservation are the same payment, so the first row the query answers is determined |
| PaymentService.PendingPaymentDecides | src/services/paymentService.ts:242-264 | once the caller's pending payment is known, its confirmation id alone decides between Stripe's answer with the store unchanged and the failing `create({})` |
| PaymentService.FindLatestReservation | src/services/paymentService.ts:195-265 | "no reservation", with the store unchanged, exactly when the caller has no check-in reservation; otherwise the caller's latest check-in reservation is answered exactly as CheckoutOf answers it: already paid, Stripe's client secret or error for a usable pending payment, or the failing `create({})`; the store changes at most by one new pending payment |
| PaymentService.HandlePaymentIntentCompleted | src/services/paymentService.ts:89-113 | nothing without a confirmation id; NotFound when no payment carries it; otherwise one payment carrying it is settled |
| PaymentService.SettlementIsRecorded | src/services/paymentService.ts:97-108 | settling writes that payment's status (success or failed) and touches no other payment, consumption, user or file; a failure also leaves reservations as they were |
| PaymentService.SuccessChecksOut | src/services/paymentService.ts:103-108 | a successful settlement checks the payment's reservation out at the cost of its line items and leaves every other reservation as it was |
| PaymentService.Callback | src/services/paymentService.ts:115-142 | a succeeded charge settles as success and a failed intent as failed; an event without data is a TypeError; an attached payment method and any other event change nothing |
| Permissions.TableIsKeyedById | src/security/permissions.ts:8-90 | the table has 19 distinct keys, exactly the declared ones, and every entry's id is its key |
| Permissions.AsArray | src/security/permissions.ts:92-96 | the entries, one per key, in declaration order |
| Permissions.AdminHoldsEveryPermission | src/security/permissions.ts:10-88 | the admin role holds every permission |
| Permissions.GuestHoldsExactlyGuestKeys | src/security/permissions.ts:10-88 | a guest holds a permission if and only if it is a reservation permission other than destroy, consumption read or autocomplete, or a payment permission |
| Permissions.OnlyUserWritesOpenStorage | src/security/permissions.ts:10-28 | exactly the user create, edit and destroy permissions open a storage destination, and that is the user avatar alone |
| QueryUtils.Uuid | src/database/utils/mongooseQueryUtils.ts:13-30 | a valid ObjectId is kept and exactly the invalid values are replaced by the generated id |
| QueryUtils.UuidOfInvalid | src/database/utils/mongooseQueryUtils.ts:13-30 | an invalid value never selects a stored id, as long as the generated id is not stored |
| QueryUtils.EscapeRegExp | src/database/utils/mongooseQueryUtils.ts:36-38 | the escape is the input lengthened by one backslash per special character |
| QueryUtils.EscapeAppend | src/database/utils/mongooseQueryUtils.ts:36-38 | escaping works character by character: the escape of a concatenation is the concatenation of the escapes |
| QueryUtils.UnescapeEscape | src/database/utils/mongooseQueryUtils.ts:36-38 | dropping the inserted backslashes gives the input back |
| QueryUtils.EscapeInjective | src/database/utils/mongooseQueryUtils.ts:36-38 | two texts with the same escape are the same text |
| QueryUtils.EscapedSearchIsLiteral | src/database/repositories/userRepository.ts:28-41 | an escaped search used as a case-insensitive regular expression matches exactly the fields that contain (or, anchored, equal) the literal text ignoring case |
| QueryUtils.LoweredTextComparesTheSame | src/services/authService.ts:67-68 | lowering the email before a case-insensitive lookup changes nothing |
| QueryUtils.JoinSplit | src/database/utils/mongooseQueryUtils.ts:48 | splitting on a separator loses nothing: joining the pieces gives the text back |
| QueryUtils.Sort | src/database/utils/mongooseQueryUtils.ts:43-57 | no sort exactly for an empty text; otherwise the direction is 1 or -1 |
| QueryUtils.SortOfColumnAndOrder | src/database/utils/mongooseQueryUtils.ts:43-57 | `<column>_<order>` sorts on the column (`id` meaning `_id`), ascending only for exactly `ASC`; further pieces are ignored |
| QueryUtils.SortWithoutOrder | src/database/utils/mongooseQueryUtils.ts:43-57 | a column with no order sorts descending |
| QueryUtils.SortOrNewestFirst | src/database/repositories/reservationRepository.ts:142 | an empty order means newest first; any other is parsed as given |
| QueryUtils.SortTruncatesUnderscoredField | src/database/utils/mongooseQueryUtils.ts:48-50 | a field name with `_` is cut at its first `_`: `created_at_ASC` sorts on `created`, descending |
| QueryUtils.RangeCriteriaSound | src/database/utils/mongooseQueryUtils.ts:65-87 | every range criterion comes from a listed field with a `<field>Range` filter and a bound that is set |
| QueryUtils.RangeCriteriaComplete | src/database/utils/mongooseQueryUtils.ts:70-84 | a listed field with a set start (end) adds `$gte` (`$lte`) of exactly that bound |
| QueryUtils.ZeroAndFalseAreBounds | src/database/utils/mongooseQueryUtils.ts:70-84 | 0 and false are used as bounds; only undefined, null and the empty text are skipped |
| QueryUtils.PushRangeCriteria | src/database/utils/mongooseQueryUtils.ts:65-87 | the caller's criteria array is extended by exactly the range criteria, with nothing removed or reordered |
| QueryUtils.PushFieldRange | src/database/utils/mongooseQueryUtils.ts:67-85 | one field's turn: a `$gte` criterion for a set start, then a `$lte` one for a set end, and nothing when the field has no range filter |
| ReservationConsumptionSchema.CastLineItems | src/database/models/schemas/reservationConsumptionSchema.ts:4-13 | line items cast exactly when every reference is an ObjectId, and are then kept as given |
| ReservationConsumptionSchema.EmptyLineItemIsStored | src/database/models/schemas/reservationConsumptionSchema.ts:4-13 | a line item with neither reference nor quantity is stored |
| ReservationConsumptionSchema.QuantityHasNoDefault | src/database/models/schemas/reservationConsumptionSchema.ts:11 | a quantity left out stays out: the misspelled default is never applied |
| ReservationModel.Create | src/database/models/reservation.ts:10-65 | accepted exactly when the references cast and the validators pass; the status defaults to checkin and the cost to 0; the line items and documents are kept |
| ReservationModel.Update | src/database/models/reservation.ts:10-65 | fails with a CastError exactly when a reference does not cast; keeps id and creation time; an empty update changes nothing |
| ReservationModel.CityIsUnbounded | src/database/models/reservation.ts:29-32 | a city of any length leaves the validation of any data unchanged |
| ReservationModel.ProvinceIsBounded | src/database/models/reservation.ts:25-28 | a province longer than 63 characters makes any data fail validation |
| ReservationModel.UpdateSkipsValidators | src/database/repositories/reservationRepository.ts:61 | an update may store a status outside the enum, leaving an invalid reservation |
| ReservationModel.CheckoutKeepsValid | src/services/paymentService.ts:104-108 | checking a valid reservation out keeps it valid |
| ReservationRepository.StoredDocuments | src/database/repositories/reservationRepository.ts:98 | the populated documents are the given ids that name stored files, and all of them |
| ReservationRepository.MapToObject | src/database/repositories/reservationRepository.ts:211-231 | null stays null; otherwise the record with each line item's consumption populated, its stored documents with download URLs, and its creator when stored |
| ReservationRepository.View | src/database/repositories/reservationRepository.ts:94-114 | the hydrated reservation keeps the record and populates each line item in order |
| ReservationRepository.ViewIgnoresReservations | src/database/repositories/reservationRepository.ts:94-114 | hydration reads consumptions, files and users only |
| ReservationRepository.FindById | src/database/repositories/reservationRepository.ts:94-114 | the hydrated reservation exactly when the lookup succeeds; the lookup's error otherwise |
| ReservationRepository.TotalCost | src/database/repositories/reservationRepository.ts:11-27 | the cost exists exactly when every line item resolves; otherwise a CastError |
| ReservationRepository.NoItemsCostNothing | src/database/repositories/reservationRepository.ts:11-27 | no line items cost 0 |
| ReservationRepository.TotalCostAppend | src/database/repositories/reservationRepository.ts:16-26 | one more resolved line item adds price times quantity |
| ReservationRepository.TotalCostConcat | src/database/repositories/reservationRepository.ts:16-26 | the cost of two lists one after the other is the sum of their costs |
| ReservationRepository.DanglingItemRaises | src/database/repositories/reservationRepository.ts:18-21 | one line item that does not resolve makes the whole computation a CastError |
| ReservationRepository.CostIgnoresStoredCost | src/database/repositories/reservationRepository.ts:12-29 | the cost depends on current prices, not on the cost stored before |
| ReservationRepository.WriteBackEffect | src/database/repositories/reservationRepository.ts:29-35 | writing the hydrated reservation back changes only cost, documents (dangling ones dropped) and a dangling creator (nulled) |
| ReservationRepository.SumLineItems | src/database/repositories/reservationRepository.ts:15-27 | the loop computes exactly the total cost, or its CastError |
| ReservationRepository.UpdateTotalCost | src/database/repositories/reservationRepository.ts:11-36 | a lookup error or a dangling line item changes nothing; otherwise only that reservation is rewritten with the computed cost |
| ReservationRepository.Create | src/database/repositories/reservationRepository.ts:38-47 | a refused document changes nothing; a dangling line item is a CastError after the insert; otherwise the reservation is stored with its computed cost and answered hydrated |
| ReservationRepository.Update | src/database/repositories/reservationRepository.ts:49-68 | lookup errors and CastErrors from casting change nothing; a dangling line item is a CastError after the update; otherwise only that reservation is updated with its recomputed cost and answered hydrated |
| ReservationRepository.Destroy | src/database/repositories/reservationRepository.ts:70-83 | succeeds exactly when the lookup does, and then removes only that reservation |
| ReservationRepository.Criteria | src/database/repositories/reservationRepository.ts:120-140 | no criterion is pushed exactly when no filter field is given |
| ReservationRepository.CriteriaMeanFilter | src/database/repositories/reservationRepository.ts:120-140 | the pushed criteria select exactly the reservations matching every given field, with id and creator passed through `uuid` |
| ReservationRepository.EmptyFilterMatchesAll | src/database/repositories/reservationRepository.ts:120-140 | with no filter given, every reservation is listed |
| ReservationRepository.FindAndCountAll | src/database/repositories/reservationRepository.ts:116-173 | the count is the number of matches, and the rows are those matches hydrated, sorted (newest first by default), skipped and limited |
| ReservationRepository.FindAllAutocomplete | src/database/repositories/reservationRepository.ts:175-209 | the reservations matching the search (id through `uuid`, or the name as a literal substring ignoring case), at most `limit`, each as id and name |
| ReservationService.Stamped | src/services/reservationService.ts:12-26 | the caller's id replaces the creator, and nothing else of the data changes |
| ReservationService.Create | src/services/reservationService.ts:12-38 | a missing caller is a TypeError; any failure, including a dangling line item after the insert, leaves the store as it was; on success only the stamped reservation with its cost is added |
| ReservationService.Update | src/services/reservationService.ts:40-61 | any failure leaves the store as it was; on success only that reservation is updated, with its recomputed cost |
| ReservationService.DestroyAll | src/services/reservationService.ts:63-81 | either every reservation of the batch is removed or, with the first lookup's error, none is |
| ServiceOptions.Validate | src/services/user/userService.ts:173-177 | passes exactly when the caller, its id and its email are present, each missing one failing with its own assertion message |
| Upload.LastIndexOf | src/api/file/upload.ts:81-87 | the last index of the character, or -1 when it does not occur |
| Upload.ExtractNameFrom | src/api/file/upload.ts:81-87 | null for a missing or empty name; the empty text without a dot; otherwise the text before the last dot |
| Upload.ExtractExtensionFrom | src/api/file/upload.ts:89-102 | null for a missing or empty name; a TypeError exactly when no dot is followed by a non-empty run of non-dots up to the end; otherwise that run, lowered |
| Upload.NameAndExtensionSplitTheFilename | src/api/file/upload.ts:81-102 | a name with an extension is its name, a dot and its extension |
| Upload.NoExtensionThrows | src/api/file/upload.ts:89-102 | a name without a dot, or ending in one, makes the handler throw |
| Upload.ReplaceFirstWithoutPattern | src/api/file/upload.ts:45-47 | a text without the pattern is left unchanged |
| Upload.ReplaceFirstAtFirstOccurrence | src/api/file/upload.ts:45-47 | only the first occurrence of the pattern is replaced |
| Upload.Place | src/api/file/upload.ts:10-49 | no file, or a non-empty name without an extension, is a TypeError, even before the caller is checked; a missing or empty name is stored as `<id>.null`; then Forbidden for a missing caller, an unknown storage id or a missing storage permission (unless bypassed); otherwise the folder with `:userId` replaced, the stored name `<id>.<ext>`, and the storage's read flag and size limit |
| Upload.Handle | src/api/file/upload.ts:10-102 | the placement's error, the storage's error, or the record data: name, original name, size, private URL, download URL and uploader |
| Upload.PrivateUrlNamesTheCallersFolder | src/api/file/upload.ts:45-47 | the private URL is the folder with its first `:userId` replaced by the caller's id, a slash and the stored name |
| Upload.FolderWithoutPlaceholder | src/api/file/upload.ts:45-47 | a folder without `:userId` is used as it is |
| UserModel.Create | src/database/models/user.ts:11-64 | accepted exactly when the avatar casts and the validators pass; the email and password are kept, and the status defaults to active and the role to guest |
| UserModel.Update | src/database/models/user.ts:11-64 | fails with a CastError exactly when the avatar does not cast; keeps id and creation time; an empty update changes nothing |
| UserModel.WithoutPassword | src/database/models/user.ts:18-22 | the user as a query returns it has no password and keeps id, email and avatar |
| UserModel.WriteKeepsUniqueEmails | src/database/models/user.ts:12-17 | a write the unique index accepts keeps emails unique |
| UserModel.RemoveKeepsUniqueEmails | src/database/models/user.ts:12-17 | removing a user keeps emails unique |
| UserModel.CaseVariantsCoexist | src/database/models/user.ts:12-17 | the index compares raw text: any two users whose emails differ but agree once lower-cased may both be stored |
| UserRepository.FillRelationsAndFileDownloadUrls | src/database/repositories/userRepository.ts:209-221 | null stays null; otherwise the user with its avatar replaced by the stored file and its download URL, or null when the avatar is empty or dangling |
| UserRepository.ViewsHideThePassword | src/database/repositories/userRepository.ts:174-187 | no query answer carries a password |
| UserRepository.FindById | src/database/repositories/userRepository.ts:174-187 | the user without password and with its avatar exactly when the lookup succeeds; the lookup's error otherwise |
| UserRepository.FindPassword | src/database/repositories/userRepository.ts:189-200 | a stored user's password exactly as stored (null when it has none), null for an absent user, and a CastError for a text that is no ObjectId |
| UserRepository.FindPasswordBesideFindById | src/database/repositories/userRepository.ts:174-200 | `findById` and `findPassword` find the same users; only `findPassword` answers the stored password |
| UserRepository.FindByEmail | src/database/repositories/userRepository.ts:28-41 | null exactly when no user's email equals the given one ignoring case; otherwise one such user |
| UserRepository.Criteria | src/database/repositories/userRepository.ts:47-93 | no criterion is pushed exactly when no filter field is given |
| UserRepository.CriteriaMeanFilter | src/database/repositories/userRepository.ts:47-93 | the escaped regular expressions select exactly the users matching every given field: id through `uuid`, name and email as literal substrings ignoring case, role, status and phone number exactly |
| UserRepository.FindAndCountAll | src/database/repositories/userRepository.ts:43-121 | the count is the number of matches, and the rows are those users without password, sorted, skipped and limited |
| UserRepository.OptionOf | src/database/repositories/userRepository.ts:166-171 | an option carries the user's id and name, and an avatar URL exactly when the stored avatar has a non-empty download URL, which it then is |
| UserRepository.FindAllAutocomplete | src/database/repositories/userRepository.ts:123-172 | an empty search is refused by MongoDB; otherwise the users whose id, name or email matches, at most `limit` |
| UserRepository.Create | src/database/repositories/userRepository.ts:9-18 | a refused document is a ValidationError and a stored email a DuplicateKey, both with no change; otherwise exactly the new user is inserted and answered without password |
| UserRepository.Update | src/database/repositories/userRepository.ts:20-26 | an absent id fails with no change; on success only that user is updated and answered; any update the index accepts succeeds |
| UserRepository.Destroy | src/database/repositories/userRepository.ts:223-236 | succeeds exactly for a stored ObjectId, and then removes only that user; otherwise the lookup's error and no change |
| UserService.LookupCoversTheIndex | src/services/user/userService.ts:28-49 | the case-insensitive lookup before an insert is wider than the unique index: when it finds nothing, the insert cannot hit a duplicate key |
| UserService.Create | src/services/user/userService.ts:17-61 | the guard's error, a missing email, and "Email Already In Use" for an email registered ignoring case, in that order; success exactly when the password is given and the document validates, storing the hash and the email as supplied; a failure changes nothing |
| UserService.WithHashedPassword | src/services/user/userService.ts:80-92 | a non-empty password is replaced by its hash; a missing or empty one passes through; nothing else changes |
| UserService.Update | src/services/user/userService.ts:63-104 | the guard's error or the lookup's error with no change; on success only that user is updated, with its password hashed when given |
| UserService.DestroyAll | src/services/user/userService.ts:106-155 | the guard's error, an empty batch, or a batch naming the caller is refused before anything changes; otherwise all users of the batch are removed or, with the first lookup's error, none |

## Left out

- Stripe, bcrypt, JSON Web Tokens, `slug` and the file-storage dispatcher are parameters. The model states nothing about what they compute.
- The clock and generated ObjectIds are parameters. `Math.random` is a sequence of draws the caller supplies.
- `updatedAt` timestamps are not modelled. `createdAt` is the `now` of the insert.
- Floating-point numbers (price, quantity, amount, cost) are modelled as integers. Products and sums are exact, and `amount * 100` is not rounded.
- Case folding (`toLowerCase`, the `i` regular-expression option) is modelled for ASCII letters only. The upload handler's extension lowering is modelled the same way.
- Paths follow POSIX: the separator is `/` and Windows drive letters are not modelled. Creating directories and writing the file (`ensureDirectoryExistence`, `writeFile`) are I/O and are not modelled. Google Cloud storage is not part of this model.
- `String.prototype.replace` is modelled without its `$` replacement patterns.
- `MongooseRepository.handleUniqueFieldError` is not modelled. A DuplicateKey is answered as it is.
- The `count` method of every repository is not modelled. `findAndCountAll` counts with the same criteria.
- The count and the rows of `findAndCountAll` come from two concurrent queries. The model takes both from one state of the store.
- The consumption and file services, the API handlers, the routers and the server are not part of this model. The upload handler's final `fileService.create` is represented by the record data it passes.
- These service methods only pass through to the repository and are not modelled separately:
  - `findById`, `findAndCountAll` and `findAllAutocomplete` of the payment, reservation and user services;
  - the payment service's `update` and `destroyAll`;
  - `authService.findByEmail`.
- `authService.findByToken` verifies a JSON Web Token, which is outside the model.
- `src/security/storage.ts`, `roles.ts` and the permission checker are not part of this model. The upload handler receives the storage table and the permission answer as parameters.
- A current user whose id or email is missing is modelled with the empty text, which is just as falsy.
- A Stripe event's `data` is modelled as optional. A payment intent's `metadata` and `confirmationId` are modelled as optional.
- `_validate` in `updateProfile` and `removeProfile` is called without `await`, so it never stops the request. The model therefore omits it.
- Mongoose getters, `toJSON` and the `id` virtual are not modelled. The `id` is the stored ObjectId text.
- ConsumptionRepository.Create: takes the caller's id as given, so a request without a current user, where the source fails with a TypeError on `currentUser.id`, is not modelled. The same holds for ConsumptionRepository.Update.
- PaymentService.Create: a caller without an id is modelled with the empty id, which the insert refuses as an invalid ObjectId. In the source `createdBy: undefined` is left out of the document and the payment is stored without an owner.
- AuthService.ChangePassword: for a caller without an id, the failure is the lookup's CastError, whereas the source fails in `bcrypt.compare` on a null hash. In both the request fails and nothing changes.
- PaymentService.Spelled: states only that every character comes from the alphabet, not which character each draw selects. The character classes of the alphabet are not proved.
- ConsumptionModel.Update: states id, creation time and price. The name and description overwrite is not stated.
- FileModel.Update: states id, creation time and title. The URLs and size are not stated.
- PaymentModel.Update: states the cast condition, the kept id and creation time, and the empty update. A status-only update is stated in full by PaymentModel.StatusUpdate.
- ReservationModel.Update: states the cast condition, the kept id and creation time, and the empty update. The checkout update is covered by ReservationModel.CheckoutKeepsValid.
- UserModel.Update: states the cast condition, the kept id and creation time, and the empty update. The password and avatar overwrite are stated by AuthService.UpdateProfile.
- LocalhostFileStorage.UploadDir: states the directory only for an unset storage path, and otherwise ties it to the real path.
- LocalhostFileStorage.ReplaceAll: states only that a text without the pattern is unchanged.
- UserRepository.Update: the error kind for an absent id (NotFound or CastError) is not stated.
- QueryUtils.Sort: states only the empty case and the direction. The column is stated by QueryUtils.SortOfColumnAndOrder and QueryUtils.SortWithoutOrder.
