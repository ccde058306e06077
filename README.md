# terraloom-core-api: order lifecycle, payments and account rules in Dafny

This project models the core of terraloom-core-api, a Go (gin + GORM) shop backend. Customers
register and log in, browse products, submit orders, confirm or cancel payments and cancel
orders. The model covers:

- **Order submission** (`OrderService.SubmitOrder`). The request is validated up front (1 to
  100 lines, per-line product/quantity/price checks, total quantity at most 10000). Then,
  inside one transaction:
  - the generator draws the order reference;
  - the account must exist and be active;
  - every product must exist;
  - a per-line loop re-reads each product, checks it is active and has stock, reserves the
    stock in a copy, creates the item with int64 overflow guards, and keeps a running total
    capped at 10,000,000,000;
  - only then are the order, the items, the reserved stock (one PostgreSQL `ON CONFLICT`
    upsert) and a PENDING payment written.
- **Order cancellation** (`OrderService.CancelOrder`):
  - a decision table on the order status (PROCESSED is refused; PENDING PAYMENT cancels the
    payment; PAYMENT RECEIVED refunds it);
  - then a restock loop over the order's items that silently skips products that no longer
    exist.
- **Payment confirmation** (`PaymentService.SubmitPayment`): a status whitelist, the RECEIVED
  transition, and the two maskers for the card number and the holder name.
- **The reference generator** (`IdGenerator.GenerateCommonID`): a uint64 counter advanced on
  every call, and the `prefix ++ millis ++ %04d ++ hex` format.
- **Pagination**: `PaginationParams.Validate`/`GetOffset`, the bounds check and page count of
  the product listing and of the account's order listing, and the product DTO mapping.
- **Account rules**:
  - the password policy;
  - the order of the registration checks;
  - the order of the login checks and of the password-change checks;
  - what the profile update and the password change write.
- **Errors**: `AppError` with its six kinds and `errors.Is`; the error handler's mapping from
  kind to HTTP status, code and message; and the bearer-token middleware.

**How state is modelled.**
- The database is a `Store` class whose fields are maps:
  - products by id;
  - accounts by username;
  - orders by reference;
  - each order's items by order reference;
  - payments by order reference.
- `Snapshot()` returns the store as a `Db` value.
- Every state-changing service method is proved to produce exactly what a specification
  function returns on the old snapshot (`SubmitOrderSpec`, `CancelOrderSpec`,
  `SubmitPaymentSpec`, `RegisterSpec`, ...). The properties are proved as lemmas about those
  functions.
- Go's int64 and uint64 arithmetic is written out with explicit wrap-around (`Wrap64`,
  `NextCounter`).
- Go's `len` on strings counts UTF-8 bytes (`Utf8Length`).

**Inputs that stand in for foreign calls.** Values that come from outside the program are
parameters of the operation that uses them:
- the clock and `crypto/rand`: `Entropy`, indexed by the position of the generator call
  within one operation;
- bcrypt: `hashed` and `matches`;
- `mail.ParseAddress`: `emailOk`;
- JWT signing and parsing: `token` and `parse`;
- the filtered repository queries of the two listings: `ProductsQuery` and `OrdersQuery`.

## Model

| member | source | states |
|---|---|---|
| Builtins.Wrap64 | internal/service/order_service.go:477 | the result is an int64, and a value already in the int64 range is kept |
| Builtins.Wrap64IsModular | internal/service/order_service.go:477 | the wrapped value is congruent to the mathematical result modulo 2^64, i.e. it is the two's-complement int64 result |
| Builtins.Utf8Length | internal/service/account_service.go:307 | Go's byte length of a string is at least its character count, with equality exactly for all-ASCII strings |
| Builtins.Utf8LeadByte | internal/service/payment_service.go:108 | the first byte of a character's encoding is the character itself for ASCII and a lead byte of at least 0xC0 otherwise |
| Builtins.Repeat | internal/service/payment_service.go:100 | `strings.Repeat` of one character n times has length n and holds only that character |
| Builtins.NatDigits | internal/common/formula.go:40 | decimal digits are non-empty, all digits, with no leading zero |
| Builtins.Decimal | internal/common/formula.go:40 | `%d` of an integer is non-empty; all digits when non-negative, a leading '-' when negative |
| Builtins.DecimalInjective | internal/common/formula.go:40 | distinct integers print differently |
| AppErrors.NewError | internal/common/custom_error.go:38-40 | the AppError keeps its generic error and its kind unchanged |
| AppErrors.Fail | internal/common/custom_error.go:38-40 | `NewError(errors.New(msg), kind)` |
| AppErrors.Unwrap | internal/common/custom_error.go:34-36 | only an AppError unwraps, and it unwraps to its kind sentinel, never to its generic error |
| AppErrors.IsAppError | internal/common/custom_error.go:34-36 | `errors.Is` on an AppError matches exactly its own kind, whatever it wraps |
| AppErrors.RewrapHidesInnerKind | internal/service/order_service.go:311-315 | an AppError of one kind re-wrapped as another kind answers to the outer kind only |
| AppErrors.AtMostOneKind | internal/common/custom_error.go:19-36 | no error answers to two different kinds |
| AppErrors.PlainHasNoKind | internal/common/custom_error.go:33-36 | an error that is neither a sentinel nor an AppError answers to no kind |
| AppErrors.KindMessagesDistinct | internal/common/custom_error.go:10-15 | the six kinds have pairwise distinct messages |
| AppErrors.KindOfText | internal/common/custom_error.go:10-15 | a kind recognised from a text has exactly that text as its message |
| AppErrors.AppErrorMessageShape | internal/common/custom_error.go:24-31 | `Error()` is the kind message alone when generic is nil, else the kind message, ": " and the generic error's text |
| AppErrors.KindOfAppErrorMessage | internal/common/custom_error.go:24-31 | the kind can be read back from an AppError's text (the part before the first ':') |
| ErrorHandler.Handle | internal/handler/error_handler.go:18-73 | status/code/message per kind (404/"01", 401/"02", 403/"03", 400/"04", 409/"05" for both Conflict and DBOperation, otherwise 500/"99"); the detail is always `err.Error()` |
| ErrorHandler.AllKindsExclusive | internal/handler/error_handler.go:20-64 | at most one case of the switch can match, so the order of its cases never matters |
| ErrorHandler.HandleAppError | internal/handler/error_handler.go:20-64 | every AppError gets its own kind's status, with the full error text as detail |
| ErrorHandler.HandlePlainError | internal/handler/error_handler.go:65-72 | an error of no kind becomes 500 / "99" / "Unexpected Error" with its text as detail |
| ErrorHandler.ConflictLooksLikeDBOperation | internal/handler/error_handler.go:51-64 | Conflict and DBOperation get the same status, code and message; only the detail differs |
| ErrorHandler.CodeIdentifiesKind | internal/handler/error_handler.go:20-72 | equal response codes mean equal kinds, except Conflict and DBOperation |
| AuthMiddleware.SpaceIndex | internal/middlewares/auth_middleware.go:30 | finds the first space: it is a space and none comes before it; none means the string has no space |
| AuthMiddleware.SplitN2 | internal/middlewares/auth_middleware.go:30 | `SplitN(s, " ", 2)` gives the whole string when it has no space, else the space-free part before the first space and the rest, which rejoin to s |
| AuthMiddleware.HeaderToken | internal/middlewares/auth_middleware.go:30-39 | a token is found only when the header is a space-free scheme equal to "Bearer" up to case, a space and the token |
| AuthMiddleware.HeaderTokenOfBearer | internal/middlewares/auth_middleware.go:30-39 | for any case of "Bearer", the token is the whole remainder after the first space, taken verbatim |
| AuthMiddleware.HeaderTokenRejects | internal/middlewares/auth_middleware.go:30-37 | a header without a space, or with a scheme other than "Bearer", yields no token |
| AuthMiddleware.Authenticate | internal/middlewares/auth_middleware.go:15-74 | the chain continues exactly when the header holds a bearer token that parses, is valid, has map claims and a string "sub", and then the username is that sub; every abort is 403 / "03" |
| AuthMiddleware.Deny | internal/middlewares/auth_middleware.go:20-27 | each rejection is the handler's response for an AccessDenied AppError: 403 / "03" / "Access Denied" |
| Formula.NextCounterIsModular | internal/common/formula.go:29 | one increment of the counter is addition of 1 modulo 2^64 |
| Formula.CounterAfterIsModular | internal/common/formula.go:29 | n increments add n modulo 2^64 |
| Formula.Hex | internal/common/formula.go:37 | `hex.EncodeToString` yields two lower-case hex digits per byte |
| Formula.PadDigits | internal/common/formula.go:40 | the zero-padded rendering has exactly the given width and only digits |
| Formula.PadDigitsInjective | internal/common/formula.go:40 | below 10^width, the padded digits determine the number |
| Formula.Pad4 | internal/common/formula.go:40 | `%04d` of a number below 10000 is exactly four digits |
| Formula.Pad4Injective | internal/common/formula.go:40 | distinct numbers below 10000 give distinct `%04d` renderings |
| Formula.FormatId | internal/common/formula.go:40 | the id starts with prefix and decimal timestamp, and is 4 characters plus two per random byte longer |
| Formula.IdResult | internal/common/formula.go:33-42 | a call fails exactly when the random read fails, and then with a Conflict AppError wrapping the cause |
| Formula.IdGenerator.constructor | internal/common/formula.go:18-22 | a new generator's counter is 0 |
| Formula.IdGenerator.GenerateCommonID | internal/common/formula.go:24-43 | the counter advances by one (mod 2^64) on every call, failures included, the id uses the advanced value, and every id returned has the prefix/timestamp/four-digit/eight-hex layout |
| Formula.IdShape | internal/common/formula.go:37-40 | an id is the prefix, the decimal timestamp, exactly four digits spelling counter mod 10000 and exactly eight lower-case hex digits |
| Formula.IdResultLayout | internal/common/formula.go:32-40 | every id a call returns has that layout, its last eight characters the hex of the four bytes read (the read fills the whole 4-byte buffer or fails) |
| Formula.IdsDifferByCounter | internal/common/formula.go:28-40 | with equal prefix, timestamp and random bytes, counters that differ mod 10000 give different ids |
| Formula.CountersApartDiffer | internal/common/formula.go:29-40 | counters 1 to 9999 steps apart, with no uint64 wrap between them, differ mod 10000 |
| Formula.CounterSuffixRepeatsAcrossWrap | internal/common/formula.go:29-40 | across the uint64 wrap the four-digit suffix repeats after only 1616 steps |
| Masking.RemoveByte | internal/service/payment_service.go:93-94 | `strings.ReplaceAll(s, b, "")` leaves no b, is no longer than s, and is s itself when s has no b |
| Masking.StripSeparators | internal/service/payment_service.go:93-94 | the cleaned card number contains no space and no dash |
| Masking.Stars | internal/service/payment_service.go:100 | n '*' bytes |
| Masking.MaskCardShape | internal/service/payment_service.go:91-102 | the masked number is as long as the cleaned one; up to 4 bytes it is the cleaned number, beyond that all '*' except the last four, which equal the cleaned number's last four |
| Masking.MaskCardIdempotent | internal/service/payment_service.go:91-102 | masking a masked card number changes nothing |
| Masking.WordLength | internal/service/payment_service.go:105 | the leading run of non-space characters ends at a space or at the end |
| Masking.Fields | internal/service/payment_service.go:105 | `strings.Fields` yields non-empty words without spaces |
| Masking.FieldsOfWordThen | internal/service/payment_service.go:105 | a word followed by nothing or by a space is the first field |
| Masking.FieldsOfJoin | internal/service/payment_service.go:105-111 | splitting words joined by single spaces gives the same words back |
| Masking.MaskWords | internal/service/payment_service.go:106-110 | one intended mask per word, in order |
| Masking.MaskWordsAsWritten | internal/service/payment_service.go:106-110 | one as-written (byte-counting) mask per word, in order |
| Masking.MaskName | internal/service/payment_service.go:104-112 | the in-place loop over the fields computes the intended masked name |
| Masking.MaskWordFacts | internal/service/payment_service.go:107-108 | a masked word is a word of the same length, keeps its first character, hides the rest with '*', and is a fixed point of masking |
| Masking.MaskNameWords | internal/service/payment_service.go:104-112 | the masked name has the name's words in order, each with the same length, its first character and '*' elsewhere (e.g. "John Smith" gives "J*** S****") |
| Masking.MaskNameIdempotent | internal/service/payment_service.go:104-112 | masking a masked name changes nothing |
| Masking.MaskNameAgreesOnAscii | internal/service/payment_service.go:104-112 | on ASCII names the byte-counting code as written agrees with the intended masking |
| Masking.MaskNameAsWrittenGarbles | internal/service/payment_service.go:107-108 | as written, "É" becomes "Ã*" and "Ã*" becomes "Ã**", while the intended masking keeps "É" |
| Params.DefaultPage | internal/model/params.go:11-13 | the page after Validate is at least 1: unchanged when already at least 1, else 1 |
| Params.DefaultPerPage | internal/model/params.go:16-18 | the page size after Validate is at least 1: unchanged when already at least 1, else 5 |
| Params.ValidateIdempotent | internal/model/params.go:9-20 | validating twice gives the same page and page size as validating once |
| Params.Offset | internal/model/params.go:22-24 | the offset is 0 on page 1, and exactly (page - 1) * perPage >= 0 for page >= 1, perPage >= 0 without overflow |
| Params.OffsetWrapsForHugePages | internal/model/params.go:22-24 | page 2^62 with 100 per page wraps to a negative offset |
| Params.PaginationParams.constructor | internal/model/params.go:3-7 | the three fields hold the given values |
| Params.PaginationParams.Validate | internal/model/params.go:9-20 | pages below 1 become 1, sizes below 1 become 5, other values and IsPaginate stay; afterwards both are at least 1 |
| Params.PaginationParams.GetOffset | internal/model/params.go:22-24 | the offset of the current fields, changing none of them |
| Params.PaginationError | internal/service/product_service.go:29-40 | refused exactly when paginating with a page below 1 or a size outside [1, 100], as AccessDenied and not Validation |
| Params.CeilDiv | internal/service/product_service.go:81 | the least q with q * d >= n |
| Params.TotalPage | internal/service/product_service.go:79-82 | 1 page without pagination; otherwise the least page count that holds all rows, which is 0 exactly when there are no rows |
| ProductService.ProductToDto | internal/service/product_service.go:63-72 | every DTO field is the product's field of the same name |
| ProductService.ProductToDtoForgetsOnlyAudit | internal/service/product_service.go:63-72 | two products give the same DTO exactly when they differ at most in their audit columns |
| ProductService.ProductService.constructor | internal/service/product_service.go:19-21 | the service uses the given store |
| ProductService.ProductService.GetProducts | internal/service/product_service.go:23-97 | the pagination error first; then the query's error; else one DTO per row in the query's order, and metadata echoing page and size with the query's total and the page count |
| ProductService.ProductService.GetProductDetail | internal/service/product_service.go:99-130 | answers with the detail lookup over the current product table |
| ProductService.ProductDetail | internal/service/product_service.go:99-130 | succeeds exactly when the id is stored, with that product's DTO; fails with ResourceNotFound otherwise |
| ProductService.ProductDetailAnswersId | internal/repository/product_repository.go:64-76 | over a table keyed by id, the detail of a stored id is the product with that id |
| ProductService.UnpaginatedListingIsOnePage | internal/service/product_service.go:29-82 | without pagination nothing is refused and the page count is 1, whatever page and size are given |
| ProductService.PaginatedListingBounds | internal/service/product_service.go:29-82 | an accepted paginated request has page >= 1 and size in [1, 100], and its page count is between 0 and the row count, 0 exactly for no rows |
| ProductService.PageCountBounds | internal/service/product_service.go:79-82 | the ceiling quotient of a count by a positive size lies between 0 and the count |
| Store.FindProduct | internal/repository/product_repository.go:64-76 | finds a product exactly when its id is stored, else answers with a ResourceNotFound AppError wrapping "record not found" |
| Store.FindAccount | internal/repository/account_repository.go:46-58 | finds an account exactly when its username is stored, else answers with ResourceNotFound |
| Store.FindMultipleByIds | internal/repository/product_repository.go:78-88 | the rows of the requested ids that exist, each the stored row; missing ids are omitted without error |
| Store.Upsert | internal/repository/product_repository.go:120-133 | an existing row takes only the new stock and updated_by; a new id is inserted whole; no other row changes |
| Store.BatchUpsertResult | internal/repository/product_repository.go:120-133 | fails with DBOperation exactly when the batch names one id twice; otherwise applies the rows in order |
| Store.UpsertAllFrame | internal/repository/product_repository.go:120-133 | a batch leaves every row it does not name as it was |
| Store.UpsertAllEntry | internal/repository/product_repository.go:120-133 | in a batch without repeated ids, each named row ends with that entry's stock and updated_by and keeps its other columns |
| Store.UpsertAllKeyed | internal/repository/product_repository.go:120-133 | a batch keeps every row under its own id |
| Store.Store.Restore | internal/service/order_service.go:51 | transaction rollback: the tables become the given snapshot |
| Store.Store.CreateOrder | internal/repository/order_repository.go:22-32 | refused with DBOperation, changing nothing, exactly when the reference is taken; else adds the order and nothing else |
| Store.Store.CreateItems | internal/repository/order_item_repository.go:62-72 | appends the items to the order's item list and changes nothing else |
| Store.Store.BatchUpsert | internal/repository/product_repository.go:120-133 | acts as the batch result: on failure it changes nothing; on success it replaces the product table only |
| Store.Store.CreatePayment | internal/repository/payment_repository.go:20-30 | stores the payment under its order reference and changes nothing else |
| Store.Store.UpdateOrder | internal/repository/order_repository.go:34-45 | replaces the order row and changes nothing else |
| Store.Store.UpdatePayment | internal/repository/payment_repository.go:32-42 | replaces the payment row and changes nothing else |
| Store.Store.SaveAccount | internal/repository/account_repository.go:21-44 | stores the account under its username and changes nothing else |
| OrderValidation.RuneString | internal/service/order_service.go:258 | `string(rune(i))` is one character, the one with code point i below the surrogates |
| OrderValidation.LineError | internal/service/order_service.go:257-279 | a line passes exactly when productId != 0, 0 < quantity <= 1000 and price > 0; a failure is a Validation AppError |
| OrderValidation.FirstLineError | internal/service/order_service.go:254-283 | no error exactly when every remaining line passes; else a Validation AppError |
| OrderValidation.OrderRequestErrorExact | internal/service/order_service.go:238-292 | the request is accepted exactly when it has 1 to 100 lines, every line passes and the summed quantity is at most 10000; every refusal is Validation |
| OrderValidation.ValidateOrderRequest | internal/service/order_service.go:238-292 | the loop summing quantities in int64 returns exactly the pre-validation's answer |
| OrderValidation.FirstMissingProduct | internal/service/order_service.go:318-331 | no error exactly when every requested product is stored; else a Validation AppError |
| OrderValidation.ProductIds | internal/service/order_service.go:304-308 | one id per line, in order |
| OrderValidation.AllFoundWhenCountsMatch | internal/service/order_service.go:318 | when the batch lookup returns as many rows as ids were asked, every id is stored |
| OrderValidation.ValidateRequestProducts | internal/service/order_service.go:301-335 | the lookup and count comparison report exactly the first requested product that is not stored |
| OrderSpec.OrderItemFor | internal/service/order_service.go:337-368 | fails exactly when the reference draw fails (with the draw's error) or the overflow guard trips (with the Validation error "price calculation overflow for product: <id>"); an item has a non-negative total equal to the int64 product and snapshots the line's product, quantity, price, name and image |
| OrderSpec.PaymentFor | internal/service/order_service.go:370-388 | fails exactly when the reference draw fails; the payment is PENDING, for the order's reference and total |
| OrderSpec.LineStepAppends | internal/service/order_service.go:103-160 | a line that passes appends one item, adds its total exactly to the running total, and makes one generator call |
| OrderSpec.Lines | internal/service/order_service.go:98-160 | a loop that got through n lines holds n items and n reserved rows, a total equal to the items' sum within [0, 10^10], and n generator calls |
| OrderSpec.FailureEndsLoop | internal/service/order_service.go:103-160 | once a line fails, the loop's final state is the state at the failure |
| OrderSpec.CommitOrderSpec | internal/service/order_service.go:162-197 | a failed write leaves the store as it was |
| OrderSpec.CancelledPaymentStatus | internal/service/order_service.go:425-431 | PENDING PAYMENT gives CANCELLED, PAYMENT RECEIVED gives REFUNDED, any other status keeps the payment status |
| OrderSpec.ItemProductIds | internal/service/order_service.go:452-456 | one product id per item, in order |
| OrderSpec.RestockEntries | internal/service/order_service.go:472-482 | at most one entry per item, and none exactly when no item's product was fetched |
| OrderService.OrderToDto | internal/service/order_service.go:556-561 | the DTO carries the order's reference, status and total |
| OrderService.OrderService.constructor | internal/service/order_service.go:28 | the service uses the given store and generator |
| OrderService.OrderService.CreateOrderItem | internal/service/order_service.go:337-368 | advances the counter once and returns the item for the drawn "OI" reference |
| OrderService.OrderService.CreatePayment | internal/service/order_service.go:370-388 | advances the counter once and returns the payment for the drawn "PAY" reference |
| OrderService.OrderService.SubmitOrder | internal/service/order_service.go:39-221 | result, new store and counter are exactly those of the submission specification on the old store and counter |
| OrderService.OrderService.ProcessLines | internal/service/order_service.go:98-160 | the loop ends in the specified loop state over the unchanged product table, with the counter it reached |
| OrderService.OrderService.ProcessLine | internal/service/order_service.go:103-160 | one iteration produces the specified next loop state and counter |
| OrderService.OrderService.Commit | internal/service/order_service.go:162-197 | the writes, with rollback on failure, produce exactly the specified commit outcome |
| OrderService.OrderService.ReturnStock | internal/service/order_service.go:451-495 | the restock either fails with the store unchanged or leaves the specified store |
| OrderService.OrderService.CancelOrder | internal/service/order_service.go:390-517 | result and new store are exactly those of the cancellation specification on the old store |
| OrderService.OrderService.GetAccountOrders | internal/service/order_service.go:519-587 | the pagination error first; then the query's error; else one DTO per row in order, and metadata echoing page and size with the query's total and the page count |
| OrderService.CollectProductIds | internal/service/order_service.go:452-456 | the loop collects the items' product ids in order |
| OrderService.BuildRestockEntries | internal/service/order_service.go:472-482 | the loop builds exactly the restock entries from the fetched copies, never updating the map |
| SubmitProperties.LineStepSuccess | internal/service/order_service.go:105-151 | a line that passes was accepted (the product exists, is active, has the stock; the reserved row and the item are as specified) and extends the loop state by one |
| SubmitProperties.LineKAccepted | internal/service/order_service.go:103-160 | each line k of a loop that got past it was accepted against the table as it was before the submission |
| SubmitProperties.LinesAccepted | internal/service/order_service.go:103-160 | every line a loop got through was accepted |
| SubmitProperties.LinesItemsExact | internal/service/order_service.go:134-163 | under the pre-validation, each item snapshots its line with the exact total price * quantity, and the loop total is their sum |
| SubmitProperties.ItemTotalExact | internal/service/order_service.go:345-352 | an item total that passed the guard and the cap is the exact product of price and quantity |
| SubmitProperties.ItemGuardMissesOverflow | internal/service/order_service.go:345-352 | the guard alone lets price 2^62 + 1 times 5 through with a wrapped total, which is above the cap |
| SubmitProperties.SubmitRejectsMalformed | internal/service/order_service.go:44-48 | a malformed request is a Validation error with the store and the counter untouched |
| SubmitProperties.SubmitFailureKeepsStore | internal/service/order_service.go:51-213 | every failed submission leaves the store as it was |
| SubmitProperties.SubmitChecksBeforeLines | internal/service/order_service.go:61-96 | no random bytes gives Conflict (the counter still advances); a missing account gives ResourceNotFound; an inactive account gives AccessDenied; a missing product gives Validation; each leaves the store as it was |
| SubmitProperties.LineStepRejects | internal/service/order_service.go:112-124 | an inactive product or one short of stock fails the line with Validation |
| SubmitProperties.LineStepOverflowErrors | internal/service/order_service.go:133-158 | past the stock checks, the item guard fails the line with Validation "price calculation overflow", a wrapped running total below the previous one with Conflict "grand total overflow", and a running total above 10^10 with Validation "order total exceeds maximum limit: <n>" |
| SubmitProperties.LinesNext | internal/service/order_service.go:103-160 | the loop after line n is one step from the loop before it |
| SubmitProperties.LineRejected | internal/service/order_service.go:112-124 | such a line, with the lines before it accepted, ends the loop with Validation |
| SubmitProperties.CommitSucceeded | internal/service/order_service.go:162-197 | a successful commit used a free reference and a batch without repeated products, and wrote the order, appended the items, upserted the stock and stored a PENDING payment for the order's total |
| SubmitProperties.SubmitSuccessPath | internal/service/order_service.go:39-221 | a successful submission passed the pre-validation, drew a reference, found an active account, got through every line, and committed that order |
| SubmitProperties.SubmitSuccessParts | internal/service/order_service.go:39-221 | the order reference and final loop state of a successful submission, and the commit they lead to |
| SubmitProperties.SubmitCommitted | internal/service/order_service.go:61-163 | a successful submission passed every check, got through the loop, used a free reference, and answers with that reference, PENDING PAYMENT and the loop's total |
| SubmitProperties.SubmitWrites | internal/service/order_service.go:163-184 | a successful submission wrote the order, set the new order's item list to the loop's items, upserted the reserved rows, and left the accounts alone |
| SubmitProperties.SubmitPaymentWrite | internal/service/order_service.go:186-197 | a successful submission stored a PENDING payment for the order's total, and no other payment changed |
| SubmitProperties.SubmitOrderRecordsOrder | internal/service/order_service.go:73-168 | success means an active account, a free reference, a PENDING PAYMENT order for that account with total in [0, 10^10], no other order changed and no account changed |
| SubmitProperties.SubmitOrderRecordsItems | internal/service/order_service.go:134-178 | success records one item per line, each a snapshot of its line with the exact total, and an order total equal to their sum |
| SubmitProperties.SubmitOrderRecordsPayment | internal/service/order_service.go:186-197 | success records a PENDING payment whose total is the order total, and no other payment changed |
| SubmitProperties.SubmitOrderAdvancesCounter | internal/service/order_service.go:61-187 | a successful submission advances the generator by |lines| + 2 |
| SubmitProperties.SubmitCounterSteps | internal/service/order_service.go:61-187 | the order reference, n item references and the payment reference are n + 2 increments |
| SubmitProperties.SubmitStockParts | internal/service/order_service.go:103-184 | the stock batch has one reserved row per accepted line, no repeated product, and is upserted into the table |
| SubmitProperties.SubmitOrderReservesStock | internal/service/order_service.go:106-184 | each line's product was active with enough stock, and now has stock = old stock - quantity >= 0 and updated_by SYSTEM |
| SubmitProperties.SubmitOrderKeepsOtherProducts | internal/service/order_service.go:180-184 | products that no line names keep their rows |
| SubmitProperties.SubmitDistinctProducts | internal/service/order_service.go:180-184 | a successful submission names each product in at most one line |
| SubmitProperties.SubmitRepeatedProductFails | internal/service/order_service.go:180-184 | two lines for the same product make the upsert touch one row twice: the submission fails and the store is unchanged |
| SubmitProperties.WellKeyedAfterNewOrder | internal/service/order_service.go:163-197 | adding an order with its own items and payment keeps the tables well keyed |
| SubmitProperties.SubmitKeepsWellKeyed | internal/service/order_service.go:39-221 | a submission keeps every row under its own key and every item and payment attached to an order |
| CancelProperties.ItemsOf | internal/repository/order_repository.go:61-73 | the items preloaded with the order, or none |
| CancelProperties.RestockEntriesAvoid | internal/service/order_service.go:475-482 | no entry is built for a product no fetched item names |
| CancelProperties.RestockEntryPresent | internal/service/order_service.go:475-482 | every item whose product was fetched has an entry |
| CancelProperties.RestockEntriesDistinct | internal/service/order_service.go:475-482 | items with distinct products give entries with distinct ids |
| CancelProperties.RestockEntriesDuplicate | internal/service/order_service.go:475-482 | two fetched items for one product give two entries for one row |
| CancelProperties.RestockRow | internal/service/order_service.go:475-495 | the batch returns a fetched item's quantity to its product's row |
| CancelProperties.CancelRefusals | internal/service/order_service.go:394-417 | a missing order, account or payment is ResourceNotFound, and a PROCESSED order is Conflict; each leaves the store as it was |
| CancelProperties.CancelFailureKeepsStore | internal/service/order_service.go:390-517 | every failed cancellation leaves the store as it was |
| CancelProperties.CancelShape | internal/service/order_service.go:419-498 | past the checks, the order and payment updates plus the restock give the new store, or the store is rolled back with the batch's error |
| CancelProperties.CancelOrderSucceeded | internal/service/order_service.go:425-449 | success marks the order CANCELLED and sets the payment status by the table, both updated by the user; accounts and items stay |
| CancelProperties.FetchedRows | internal/service/order_service.go:459-470 | the fetched rows are keyed by id and include exactly the items' products that exist |
| CancelProperties.CancelRestocks | internal/service/order_service.go:475-495 | with distinct products, each existing item's product gets stock + quantity (int64 wrap) and updated_by SYSTEM |
| CancelProperties.CancelFetched | internal/service/order_service.go:452-495 | the fetched rows are the stored rows of the items' products, and the new product table is the restock batch applied to the old one |
| CancelProperties.RestockedRow | internal/service/order_service.go:475-495 | when the fetched copy is the stored row, the batch adds the item's quantity to it and sets updated_by SYSTEM |
| CancelProperties.CancelProducts | internal/service/order_service.go:451-495 | the new product table is the restock batch over the fetched rows applied to the old one |
| CancelProperties.CancelKeepsOtherProducts | internal/service/order_service.go:475-495 | products that no item names keep their rows |
| CancelProperties.CancelWithoutProducts | internal/service/order_service.go:490-495 | when none of the items' products exists, no batch is sent and the product table is untouched |
| CancelProperties.CancelRepeatedProductFails | internal/service/order_service.go:475-495 | two items for one existing product make the batch fail with DBOperation and the store unchanged |
| CancelProperties.CancelIgnoresOwner | internal/service/order_service.go:400-404 | any existing account gets the same result for the same order |
| CancelProperties.CancelAcceptsFinalOrder | internal/service/order_service.go:406-433 | an order already CANCELLED or FINISHED is cancelled again with its payment status kept |
| CancelProperties.CancelKeepsWellKeyed | internal/service/order_service.go:390-517 | a cancellation keeps every row under its own key |
| PaymentService.PaymentService.constructor | internal/service/payment_service.go:21-25 | the service uses the given store |
| PaymentService.PaymentService.SubmitPayment | internal/service/payment_service.go:27-89 | error and new store are exactly those of the payment specification on the old store |
| PaymentService.SubmitPaymentOrderMissing | internal/service/payment_service.go:32-37 | a missing order is ResourceNotFound whatever the status token, and nothing changes |
| PaymentService.SubmitPaymentRejectsStatus | internal/service/payment_service.go:39-43 | a status other than RECEIVED and CANCELLED is Validation and nothing changes |
| PaymentService.SubmitPaymentPaymentMissing | internal/service/payment_service.go:51-55 | an order without payment is ResourceNotFound and nothing changes |
| PaymentService.SubmitPaymentReceived | internal/service/payment_service.go:58-75 | RECEIVED sets the order to PAYMENT RECEIVED and the payment to RECEIVED with masked card and name, whatever the order status; nothing else changes |
| PaymentService.SubmitPaymentReceivedAscii | internal/service/payment_service.go:62-112 | on an ASCII holder name the stored mask is exactly the byte-counting mask the source computes |
| PaymentService.SubmitPaymentCancelledKeepsStore | internal/service/payment_service.go:58-77 | CANCELLED succeeds without changing anything |
| PaymentService.ResubmitMaskedDetails | internal/service/payment_service.go:58-75 | confirming again with the stored masked details leaves the store as it is |
| PaymentService.SubmitPaymentKeepsWellKeyed | internal/service/payment_service.go:45-78 | a payment confirmation keeps every row under its own key |
| AccountService.AccountToDto | internal/service/account_service.go:73-79 | the DTO carries the account's username, display name, e-mail, address and active flag |
| AccountService.FirstBroken | internal/service/account_service.go:361-397 | none exactly when every rule holds; otherwise a rule of the list that the password breaks |
| AccountService.PasswordError | internal/service/account_service.go:361-397 | no error exactly when the password has at least 8 bytes, an upper-case letter, a lower-case letter, a digit and a special character; else Validation |
| AccountService.FirstBrokenOfPolicy | internal/service/account_service.go:364-394 | the first broken rule in the order length, upper, lower, digit, special |
| AccountService.PasswordErrorIsFirstBroken | internal/service/account_service.go:361-397 | the reported error is the message of exactly the first broken rule |
| AccountService.PasswordLengthCountsBytes | internal/service/account_service.go:364 | a 7-character password with three 2-byte characters passes the length rule |
| AccountService.RegisterError | internal/service/account_service.go:299-350 | no error exactly when no field is missing or too long, the e-mail parses, the password passes and neither username nor e-mail is taken; every refusal is Validation |
| AccountService.RegisterCheckOrder | internal/service/account_service.go:299-350 | checks in order: missing field, too long, e-mail invalid, password, username taken, e-mail taken; the first failing one decides the message |
| AccountService.RegisterFailureKeepsStore | internal/service/account_service.go:31-47 | a refused registration is Validation and changes nothing |
| AccountService.RegisterCreatesActiveAccount | internal/service/account_service.go:49-71 | an accepted, hashed registration adds exactly one active account under the new username with the hash as password; no other table changes |
| AccountService.RegisterKeepsInvariants | internal/service/account_service.go:31-90 | registration keeps accounts keyed by username and e-mail addresses unique |
| AccountService.SaveAccountKeepsWellKeyed | internal/repository/account_repository.go:33-44 | saving an account under its username keeps the tables well keyed |
| AccountService.LoginResult | internal/service/account_service.go:92-158 | login succeeds exactly when the password passes the policy, the user exists, its hash matches, it is active and a token is signed; it then returns that token and the account's DTO |
| AccountService.LoginCheckOrder | internal/service/account_service.go:97-121 | the policy comes before the lookup (Validation), the lookup gives ResourceNotFound, and the password check comes before the active flag (both AuthFailed) |
| AccountService.RegisterThenLogin | internal/service/account_service.go:31-158 | right after registering, the user logs in with the registered password |
| AccountService.AccountDetail | internal/service/account_service.go:160-187 | finds the account's DTO exactly when the username is stored, else ResourceNotFound |
| AccountService.UpdateAccountEffect | internal/service/account_service.go:189-234 | succeeds exactly for a known user with a parsable e-mail (invalid e-mail is Validation); a success rewrites e-mail, display name, address and updated_by of that row only, never username, password or active flag |
| AccountService.UpdateAccountCanShareEmail | internal/service/account_service.go:199-211 | without an e-mail uniqueness check, an update can give a second account an address in use |
| AccountService.UpdatePasswordEffect | internal/service/account_service.go:236-297 | a wrong old password is AuthFailed before the new-password policy (Validation); success exactly when user known, old password matches, new one passes and is hashed, and it changes that row's hash only |
| AccountService.UpdatePasswordThenLogin | internal/service/account_service.go:270-274 | after a change the new password logs in, and an old password rejected against the new hash does not |
| AccountService.UpdateAccountKeepsWellKeyed | internal/service/account_service.go:205-211 | a profile update keeps the tables well keyed and the accounts' key set unchanged |
| AccountService.UpdatePasswordKeepsWellKeyed | internal/service/account_service.go:270-274 | a password change keeps the tables well keyed and the accounts' key set unchanged |
| AccountService.AccountService.constructor | internal/service/account_service.go:24 | the service uses the given store |
| AccountService.AccountService.Register | internal/service/account_service.go:31-90 | result and new store are exactly those of the registration specification on the old store |
| AccountService.AccountService.UpdateAccount | internal/service/account_service.go:189-234 | result and new store are exactly those of the profile-update specification on the old store |
| AccountService.AccountService.UpdatePassword | internal/service/account_service.go:236-297 | result and new store are exactly those of the password-change specification on the old store |

## Left out

- **HTTP and I/O plumbing.** Handlers (gin binding, strconv parsing), routes, `cmd/api/main.go`, `context.JSON` and logrus logging are not modelled. Handler outputs are inputs here.
- **Success responses.** The response envelope of successful calls (`GeneralResponse` with code "00") is not modelled; only the data carried is.
- **JWT.** Token signing and parsing (`internal/service/jwt_service.go`) are parameters: `token` and `parse`.
- **Login expiry.** The token's expiry fields are read from the clock and left out.
- **bcrypt.** Hashing and comparison are parameters: `hashed` and `matches`.
- **Cost factor.** bcrypt's cost factor is not modelled.
- **E-mail parsing.** `mail.ParseAddress` is the parameter `emailOk`.
- **Clock and randomness.** `time.Now` and `crypto/rand` are the `Entropy` parameter.
- **Timestamps.** The created/updated/deleted-at columns and order dates are not modelled.
- **Concurrency.** Row locks (`clause.Locking`), transactions and concurrency are not modelled. Each operation runs sequentially, and a rollback restores the snapshot.
- **The counter.** The atomic counter is a plain field.
- **The listings' queries.** `FindWithFilters` and `FindWithAccountAndFilters` (filtering, ordering, limit/offset SQL) are parameters: `ProductsQuery` and `OrdersQuery`.
- **Repository failures that are not modelled.** The model's repository operations fail only where modelled: a missing row, a taken order reference on insert, and an upsert batch that touches a row twice. Other database failures of the creates, updates, counts and batch lookups are not modelled.
- **Reference collisions.** Collisions of item and payment references on insert are not modelled.
- **Numeric and soft-delete columns.** Numeric surrogate ids (account and order `ID`), soft deletion (`Product.IsDeleted`, `deleted_at`) and category data are not modelled.
- **GetOrderDetail.** This is a read that assembles an order, its payment and its items into one DTO. It is not part of this model.
- **Params.TotalPage and Params.CeilDiv.** Go computes the page count as `math.Ceil(float64(totalData) / float64(perPage))`; the model uses exact integer ceiling division. The two agree for all counts float64 represents exactly (below 2^53).
- **Formula.CountersApartDiffer.** It requires that the uint64 counter does not wrap between the two calls. Across the wrap the suffix repeats after 1616 steps (Formula.CounterSuffixRepeatsAcrossWrap).
- PaymentService.SubmitPayment: stores the corrected holder-name mask (`MaskNameSpec`, one '*' per character) instead of the byte-counting mask of payment_service.go:107-108; the two agree on ASCII names (PaymentService.SubmitPaymentReceivedAscii) and differ on names with multibyte characters ("É" is stored as "É", where the source stores "Ã*"). See "## Findings".
- PaymentService.SubmitPaymentReceived: states the stored holder name as the corrected mask, not the source's byte mask; on ASCII names the two are equal.
- PaymentService.ResubmitMaskedDetails: holds for the corrected mask; with the source's byte mask it holds only for ASCII names, since a stored "Ã*" masks again to "Ã**".
- **AuthMiddleware.Authenticate.** It folds case in ASCII only. For the fixed word "Bearer" this agrees with `strings.EqualFold`.

## Findings

| source | as written | input that shows it | evidently intended | confidence | as-written member | corrected member |
|---|---|---|---|---|---|---|
| internal/service/payment_service.go:107-108 | `len(part)` counts UTF-8 bytes, and `string(part[0])` turns the first byte into the character with that code point | holder name "É" is masked to "Ã*"; masking "Ã*" again gives "Ã**" | keep each word's first character and replace each further character with one '*', so that masking is idempotent | not executed | Masking.MaskNameAsWrittenGarbles | Masking.MaskNameIdempotent |

The payment model stores the corrected mask (`Masking.MaskName`, specified by `MaskNameSpec`).
`Masking.MaskNameAsWritten` is the code as written. `Masking.MaskNameAgreesOnAscii` shows that
the two agree on ASCII names.
