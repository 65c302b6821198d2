# Online pharmacy backend — a Dafny model

This project models the business core of a Django online-pharmacy backend.
It covers the following parts:

- **Orders.** The order status machine and its history rows, order items with frozen prices and totals, and the cart.
- **Stock.** The stock ledger, all-or-nothing checkout, cancellation and the service role gate.
- **Payments.** The payment state machine, the provider-agnostic payment service, the Click PREPARE/COMPLETE webhook and the Payme JSON-RPC dispatcher.
- **Prescriptions.** The prescription gate and its image cap.
- **Delivery.** The delivery record, its lifecycle and its services.
- **Access.** The access predicates of the order, delivery and prescription APIs.
- **Users and codes.** Phone normalisation, users, login and the one-time-code lifecycle.
- **Notifications and dashboard.** Notification state, and the dashboard's idempotence-guarded counters.

The database is one immutable `Store.World` record.
- Each table is a `Tables.Table<T>`: a map from primary key to row, plus the next key.
- Keys grow with creation time, so "newest first" (`order_by("-created_at").first()`) is the highest matching key (`Tables.Newest`).
- Every service is `@transaction.atomic`. A service is a function returning `Result<…, Error>`, and a `Fail` stands for an exception that rolls the whole call back.
- Money is an `int` count of tiyin (hundredths of a sum).
- `timezone.now()` is a `nat` clock in seconds, and a date is `seconds / 86400`.
- MD5 (Click signatures), base64 decoding (Payme credentials), `uuid4().hex` (payment ids) and `secrets.randbelow` (one-time codes) are parameters of the functions that use them.

Modules follow the program's apps:

| module | file | models |
|---|---|---|
| `Wrappers`, `Errors` | wrappers.dfy | `Option`, `Result` and the named error conditions |
| `Tables` | tables.dfy | keyed tables, inserts, updates, filters, newest match |
| `Text` | text.dfy | digits, strip, decimal rendering, split/join |
| `Orders` | orders.dfy | statuses, `ALLOWED_TRANSITIONS`, items and totals |
| `Store` | world.dfy | the world, `Order.change_status` with history, stock, `OrderPayment`, prescription decisions, `send_otp` |
| `Carts` | cart.dfy | `CartService` |
| `OrderServices` | checkout.dfy | checkout, the status service, cancel |
| `Payments` | payments.dfy | the `Payment` state machine and `clean` |
| `PaymentServices` | payment_service.dfy | `PaymentService` |
| `ClickService` | click.dfy | the Click webhook |
| `PaymeService` | payme.dfy | the Payme authorisation, envelopes and five methods |
| `Prescriptions` | prescriptions.dfy | the prescription gate and images |
| `Deliveries` | delivery.dfy | the `Delivery` record |
| `DeliveryServices` | delivery_service.dfy | `DeliveryService` |
| `Access` | permissions.dfy | permission classes |
| `Users` | users.dfy | phone normalisers, users, register, login |
| `Otp` | otp.dfy | `SMSVerification` and `OTPService` |
| `Notifications` | notifications.dfy | `Notification` and `NotificationService` |
| `Dashboard` | dashboard.dfy | `_date_range` and the `increment_*` counters |

Where the design description and the code disagree, the model follows the code:
- The webhook adapters do not catch every business failure. A second PREPARE, and a Payme perform or cancel that the state machine refuses, raise out of the handler. Here they are a `Fail`, not an error envelope.
- Notification calls are not shielded from the owning transaction. The three `NotificationService.order_*` calls raise `AttributeError` and roll back checkout, the status service and cancel (see "## Findings").

## Model

| member | source | states |
|---|---|---|
| Orders.NoSelfOrTerminalExit | orders/models.py:100-108 | no status lists itself, and DELIVERED and CANCELLED allow no transition at all |
| Orders.TransitionMovesForward | orders/models.py:100-108 | every allowed transition strictly increases the status's position in the lifecycle |
| Orders.RunsAreShort | orders/models.py:100-108 | a chain of allowed transitions never revisits a status, so it holds at most nine statuses |
| Orders.TotalAppend | orders/models.py:150-155 | the aggregate total of items plus one item is the old total plus that item's quantity times frozen price |
| Orders.TotalConcat | orders/models.py:150-155 | the total of two item lists joined is the sum of their totals |
| Orders.TotalRemoveAt | orders/models.py:198-201 | removing one item lowers the total by exactly that item's subtotal |
| Orders.RecalculateTotal | orders/models.py:150-155 | the order's total becomes the sum of quantity × frozen price over its items, 0 for no items, and nothing else changes |
| Orders.EffectivePrice | orders/models.py:192-194 | a missing or zero price is replaced by the product's current price; any other given price is kept |
| Orders.SaveNewItem | orders/models.py:192-196 | saving an item appends it with its effective price and the order total is recomputed to include it |
| Orders.DeleteItem | orders/models.py:198-201 | deleting an item removes exactly that line and the total drops by its subtotal |
| Orders.ChangeStatus | orders/models.py:157-165 | the change succeeds iff the target is in the current status's allowed list, and then only the status changes |
| Store.ChangeOrderStatus | orders/models.py:157-172 | a legal change sets the status and appends exactly one history row (old, new, actor); an illegal one fails and changes nothing |
| Store.TerminalOrdersStay | orders/models.py:100-108 | from DELIVERED or CANCELLED every change of status fails |
| Store.ChangeAllAppends | orders/models.py:157-172 | a successful series of changes appends one history row per change, in order |
| Store.Decrease | orders/services.py:126-134 | the stock falls by exactly the quantity iff it is at least the quantity; otherwise InsufficientStock and no change, so stock never goes negative |
| Store.Increase | orders/services.py:136-140 | the stock rises by the quantity, unconditionally |
| Store.IncreaseUndoesDecrease | orders/services.py:126-140 | increasing after a successful decrease restores the products exactly |
| Store.DecreaseAllExact | orders/services.py:223-224 | decreasing for a list of items succeeds iff every product covers its total quantity, and each stock then falls by exactly that total |
| Store.IncreaseAllExact | orders/services.py:285-286 | restoring a list of items raises each stock by exactly its total quantity |
| Store.IncreaseAllUndoesDecreaseAll | orders/services.py:223-224 | restoring the items of a successful decrease gives back the original products |
| Store.MarkOrderPaymentSuccess | orders/models.py:285-294 | a no-op when already SUCCESS; otherwise stores the transaction id and moves the order to PAID with one history row, failing if the order cannot become PAID |
| Store.ApprovePrescription | prescriptions/services.py:32-56 | succeeds iff the prescription is PENDING; only that prescription row changes |
| Store.RejectPrescription | prescriptions/services.py:57-84 | succeeds iff PENDING and the reason is non-empty; stores the reason; only that row changes |
| Store.ApprovalLeavesOrderWaiting | prescriptions/services.py:32-56 | approving a prescription leaves its order AWAITING_PRESCRIPTION and writes no history row |
| Store.TempUser | users/services.py:146-157 | returns the phone's existing user untouched, or adds a new active, unverified customer whose username is the phone |
| Store.SendOtpThenVerify | users/services.py:54-94 | the code `send_otp` texts is accepted by the verification request until it expires and names the phone |
| Store.SendOtp | users/services.py:54-94 | refused while the phone has a code under 60 s old; otherwise retires the old codes, stores a fresh one, and notifies the phone's user with a PENDING SMS row carrying the code |
| Carts.FindFirst | orders/services.py:55-59 | the position of the first cart line that matches (by product, or by key), or the length when none does |
| Carts.CartTotalFollowsPrice | orders/models.py:41-51 | the cart total reads live prices: changing one product's price moves it by the difference times that product's units in the cart |
| Carts.AddToCart | orders/services.py:40-66 | a missing or inactive product and a stock below the increment are refused; an existing line grows by the increment, otherwise a new line is added |
| Carts.AddChecksOnlyIncrement | orders/services.py:50-64 | a line may end above the stock, because only the increment is compared with it |
| Carts.AddKeepsCartsWellFormed | orders/services.py:40-66 | adding keeps every cart line pointing at an existing product, with at most one line per product |
| Carts.RemoveFromCart | orders/services.py:68-79 | removes exactly the user's line with that key, and fails when there is none |
| Carts.RemoveKeepsCartsWellFormed | orders/services.py:68-79 | removing a line keeps every cart line pointing at an existing product, with at most one line per product |
| Carts.UpdateQuantity | orders/services.py:81-103 | refuses a quantity ≤ 0, a missing line and a quantity above stock; otherwise sets exactly that line's quantity |
| Carts.UpdateRespectsStock | orders/services.py:86-97 | after a successful update the line's quantity is positive and within the stock |
| Carts.ClearCart | orders/services.py:105-114 | empties the user's cart and leaves every other cart alone |
| Carts.ClearKeepsCartsWellFormed | orders/services.py:105-114 | clearing keeps every cart well formed |
| OrderServices.Freeze | orders/services.py:187-196 | each order item takes its line's product, quantity and the product's price at that instant |
| OrderServices.FrozenTotalIsCartTotal | orders/services.py:187-188 | at checkout the frozen total equals the cart's live total |
| OrderServices.CartFollowsPriceOrderDoesNot | orders/models.py:203-205 | after a price change the order keeps the checkout total while the cart total moves by the difference times the units |
| OrderServices.Checkout | orders/services.py:151-226 | CartEmpty for no lines, ProductExpired for an expired product, and otherwise success iff stock covers every line; the new order has the frozen items, their total, and AWAITING_PRESCRIPTION iff some product needs one; each stock falls by its quantity and only the user's cart is emptied |
| OrderServices.GateScope | orders/services.py:242-258 | the gate restricts only PREPARING/READY_FOR_DELIVERY (operator, admin) and ON_THE_WAY/DELIVERED (courier, admin); every other target passes |
| OrderServices.ChangeStatusService | orders/services.py:251-261 | a role outside the gate fails with nothing changed; otherwise the outcome is exactly that of the order's own status change |
| OrderServices.Cancel | orders/services.py:276-288 | only DRAFT, AWAITING_PAYMENT and AWAITING_PRESCRIPTION may be cancelled; every item's quantity returns to stock and the order ends CANCELLED with one history row |
| OrderServices.CheckoutThenCancelRestoresStock | orders/services.py:151-288 | checking out and then cancelling the new order restores every product's stock exactly |
| OrderServices.CheckoutAsWritten | orders/services.py:176-185 | as written, every non-empty cart whose first product is unexpired fails on the missing attribute |
| OrderServices.CheckoutAsWrittenRefusesGoodCarts | orders/services.py:184 | every cart the corrected checkout accepts is refused as written |
| OrderServices.CheckoutNotifyAsWritten | orders/services.py:231 | as written, every checkout that would succeed is rolled back by the undefined notification call |
| OrderServices.ChangeStatusServiceAsWritten | orders/services.py:263 | as written, every legal status change is rolled back by the undefined notification call |
| OrderServices.CancelAsWritten | orders/services.py:290 | as written, cancelling fails for every order: an uncancellable one with InvalidOrderStatus, any other on the undefined notification call |
| Payments.MarkProcessing | payments/models.py:200-207 | succeeds iff PENDING, moving to PROCESSING; any other status is refused |
| Payments.MarkSuccess | payments/models.py:209-224 | a no-op on SUCCESS; from PENDING or PROCESSING sets SUCCESS and completed_at, keeping the old response unless a non-empty one is given, and fails when `clean` fails; refused from FAILED, CANCELLED and REFUNDED |
| Payments.ClickSuccessNeedsTransId | payments/models.py:183-194 | completing a Click payment that has no Click transaction id fails validation |
| Payments.MarkSuccessIdempotent | payments/models.py:209-213 | a second mark_success returns the payment unchanged |
| Payments.MarkFailed | payments/models.py:226-237 | a no-op on FAILED; from every other status, SUCCESS included, sets FAILED and the message |
| Payments.MarkCancelled | payments/models.py:239-247 | refused on SUCCESS and REFUNDED; otherwise sets CANCELLED and cancelled_at |
| Payments.NeverRefunded | payments/models.py:31-37 | no sequence of state-machine steps from a non-refunded payment ever reaches REFUNDED |
| PaymentServices.UpperAll | payments/services.py:164 | upper-casing keeps the length and turns lower-case hex into upper-case hex that lower-cases back |
| PaymentServices.GeneratePaymentId | payments/services.py:161-164 | "PAY-" then 16 upper-case hex characters, the UUID's first 16 digits, 20 characters in all |
| PaymentServices.PaymentById | payments/services.py:241-246 | finds a payment with that id exactly when one exists |
| PaymentServices.CreatePayment | payments/services.py:166-202 | refused unless the order awaits payment; an existing successful payment of the order and provider is returned with nothing changed; otherwise one new PENDING payment and one "created" log |
| PaymentServices.CreatePaymentKeepsLinks | payments/services.py:166-202 | creating keeps every payment pointing at a stored order |
| PaymentServices.CompletePayment | payments/services.py:204-224 | a successful payment changes nothing and logs nothing; otherwise mark_success, one "completed" log, and PAID with one history row only for an order awaiting payment |
| PaymentServices.CompletePaymentKeepsLinks | payments/services.py:204-224 | completing keeps every payment pointing at a stored order |
| PaymentServices.CompletePaymentKeepsIds | payments/services.py:204-224 | completing keeps every payment's key, order and provider ids, and leaves the completed one SUCCESS |
| PaymentServices.CompletePaymentIdempotent | payments/services.py:204-210 | completing a completed payment again changes nothing |
| PaymentServices.FailPayment | payments/services.py:226-239 | the payment becomes FAILED with the message and one "failed" log row is written |
| PaymentServices.CreateAfterCompleteRefused | payments/services.py:166-224 | after completion the order no longer awaits payment, so creating another payment for it is refused |
| ClickService.Respond | payments/services.py:72-94 | a reply echoes Click's transaction id and our payment id as the merchant reference |
| ClickService.HandlePrepare | payments/services.py:261-336 | the checks run in the order -1, -5, -2, -9, each answering with w unchanged; otherwise the payment must be PENDING, gets the Click id, becomes PROCESSING and one "click_prepare" log is written |
| ClickService.HandleComplete | payments/services.py:338-383 | an unknown payment gives -5; error 0 stores the paydoc id and completes; any other error fails the payment and is echoed; no signature is checked |
| ClickService.PrepareTwiceRaises | payments/services.py:321-327 | a second PREPARE of a prepared payment fails instead of answering with a code |
| ClickService.CompleteWithoutPrepareFails | payments/services.py:355-360 | COMPLETE of a Click payment without a Click transaction id rolls back on validation |
| ClickService.CompleteAfterPrepare | payments/services.py:338-369 | COMPLETE of a processing Click payment with its Click id makes it SUCCESS and its order PAID |
| ClickService.PrepareThenComplete | payments/services.py:261-383 | a successful PREPARE followed by COMPLETE with error 0 leaves the payment SUCCESS and the order PAID |
| ClickService.UnsignedCompleteFailsSuccess | payments/services.py:371-383 | an unsigned COMPLETE with a non-zero error turns a successful payment FAILED |
| PaymeService.AuthorizedIff | payments/services.py:112-126 | a header is accepted iff it starts with "Basic " and its token decodes to "Paycom:" plus the secret, for a secret without ':' |
| PaymeService.BasicCredentialAccepted | payments/services.py:112-126 | "Basic " with a token that decodes to "Paycom:"+secret is accepted |
| PaymeService.EnvelopesAreEnvelopes | payments/services.py:128-148 | both envelopes carry the request id, the error one the code, and neither has a "jsonrpc" member |
| PaymeService.CheckPerformTransaction | payments/services.py:425-461 | -31050 for an unknown order, then -31001 for an amount other than total×100, then -31008 unless awaiting payment, else allow |
| PaymeService.CreateTransaction | payments/services.py:463-523 | -31050 for an unknown order; a matching payment answers state 1 if SUCCESS else 0 and changes nothing; otherwise a payment of amount/100 is created, moved to PROCESSING, logged, state 1 |
| PaymeService.PerformTransaction | payments/services.py:525-549 | -31003 for an unknown id; otherwise completes the payment and answers state 2 |
| PaymeService.CancelTransaction | payments/services.py:551-581 | -31003 for an unknown id; otherwise mark_cancelled, one "payme_cancel" log, state -1 |
| PaymeService.CheckTransaction | payments/services.py:583-607 | -31003 for an unknown id; state 2 for a successful payment, else 1; read only |
| PaymeService.HandleRequest | payments/services.py:398-423 | routes only the five method names to their handlers and answers -32601 "Method not found" otherwise |
| PaymeService.RepliesAreEnvelopes | payments/services.py:128-148 | every error reply and every success reply built for a request id is an envelope carrying that id |
| PaymeService.CheckPerformEnvelope | payments/services.py:425-461 | every CheckPerformTransaction reply is an envelope with the request id |
| PaymeService.CheckTransactionEnvelope | payments/services.py:583-607 | every CheckTransaction reply is an envelope with the request id |
| PaymeService.CreateTransactionEnvelope | payments/services.py:463-523 | every CreateTransaction reply is an envelope with the request id |
| PaymeService.PerformTransactionEnvelope | payments/services.py:525-549 | every PerformTransaction reply is an envelope with the request id |
| PaymeService.CancelTransactionEnvelope | payments/services.py:551-581 | every CancelTransaction reply is an envelope with the request id |
| PaymeService.CreatedFresh | payments/services.py:498-507 | a create that succeeds after finding no matching payment met no earlier successful Payme payment of the order (`mark_processing` would have refused it), so `create_payment` inserted a PENDING row under the next key |
| PaymeService.CreatedWorld | payments/services.py:498-514 | that create leaves the inserted row moved to PROCESSING with the Payme id and time, keeps the orders, and answers state 1 |
| PaymeService.CreatedRow | payments/services.py:498-514 | a created transaction leaves a PROCESSING row with the Payme id that the replay query finds |
| PaymeService.CreateTransactionReplay | payments/services.py:482-496 | repeating a successful CreateTransaction creates nothing and answers state 0 |
| PaymeService.PerformedPayment | payments/services.py:525-540 | after a perform the same Payme id still finds the now successful payment |
| PaymeService.PerformIdempotent | payments/services.py:525-549 | a second perform changes nothing and answers state 2 again |
| PaymeService.CancelAfterPerformRefused | payments/services.py:551-566 | a performed transaction can no longer be cancelled |
| Prescriptions.EnsurePending | prescriptions/models.py:94-102 | passes iff the prescription is PENDING, else NotPending |
| Prescriptions.Approve | prescriptions/models.py:104-121 | succeeds iff PENDING; sets APPROVED, the reviewer and time, clears the reason, keeps images, order and owner |
| Prescriptions.Reject | prescriptions/models.py:123-143 | checks pending first, then requires a non-empty reason; on success sets REJECTED with that reason, the reviewer and time |
| Prescriptions.DecisionsAreFinalAndClean | prescriptions/models.py:94-156 | APPROVED and REJECTED admit no further decision, and every decision leaves a record that passes `clean` |
| Prescriptions.AddImage | prescriptions/models.py:206-224 | an image is added iff fewer than five exist |
| Prescriptions.ImagesStayCapped | prescriptions/models.py:206-224 | however many uploads are tried, a prescription never holds more than five images |
| Prescriptions.CreatePrescription | prescriptions/services.py:6-31 | no images or more than five are refused before anything is created; otherwise one PENDING prescription holding exactly those images |
| Prescriptions.AddAllWithinCap | prescriptions/models.py:206-224 | uploads that fit under the cap are all kept, in order |
| Prescriptions.ApproveService | prescriptions/services.py:32-56 | the service decision is exactly the model's `approve` |
| Prescriptions.RejectService | prescriptions/services.py:57-84 | the service decision is exactly the model's `reject` |
| Deliveries.NewDelivery | delivery/models.py:124-134 | a new delivery is READY and active with no delivered or cancelled time |
| Deliveries.Save | delivery/models.py:216-243 | saving succeeds iff the record passes `clean`, which runs before the timestamp autofill, so a saved record is stored as given; a refused one fails validation |
| Deliveries.AutofillNeverRescues | delivery/models.py:195-243 | a DELIVERED or CANCELED record without its timestamp is refused although the autofill would set it |
| Deliveries.PredicatesFollowLifecycle | delivery/models.py:269-279 | can_mark_on_the_way iff READY with a courier, can_mark_delivered iff ON_THE_WAY, can_cancel iff neither DELIVERED nor CANCELED |
| Deliveries.OnePerOrderImpliesOneActive | delivery/models.py:103-182 | one delivery per order implies at most one active delivery per order |
| DeliveryServices.AssignCourier | delivery/services.py:25-69 | the order must be READY_FOR_DELIVERY and the user an active courier; the active delivery gets the courier and time, or one READY delivery is created |
| DeliveryServices.AssignKeepsOnePerOrder | delivery/services.py:25-69 | assigning keeps at most one delivery per order |
| DeliveryServices.ReassignKeepsStatus | delivery/services.py:46-56 | reassigning an active delivery replaces the courier and keeps its status |
| DeliveryServices.MarkOnTheWay | delivery/services.py:75-108 | role and ownership are checked before the status; a READY delivery and its order become ON_THE_WAY with one delivery history row, the order's own history untouched |
| DeliveryServices.MarkDelivered | delivery/services.py:110-148 | the same checks, then ON_THE_WAY is required; the delivery becomes DELIVERED, inactive and stamped, the order DELIVERED, one delivery history row |
| DeliveryServices.OnTheWayThenDelivered | delivery/services.py:75-148 | the courier who took a delivery on the way can mark it delivered |
| DeliveryServices.OnTheWayRevivesCancelledOrder | delivery/services.py:98-99 | the direct status write moves even a CANCELLED order to ON_THE_WAY |
| DeliveryServices.CancelDeliveryAsWritten | delivery/services.py:154-184 | as written, cancelling always fails: DELIVERED is refused and every other delivery hits the undefined status |
| DeliveryServices.CancelDelivery | delivery/services.py:154-184 | DELIVERED is refused; otherwise the delivery becomes CANCELED, inactive, with the reason as note, and the order CANCELLED |
| DeliveryServices.CancelDeliveryDiscrepancy | delivery/services.py:174 | the as-written cancellation fails exactly where the corrected one succeeds |
| DeliveryServices.CancelledDeliveryIsFinal | delivery/services.py:154-184 | after cancelling, the delivery can no longer be taken on the way |
| Access.OrderPermissionIsRoleActions | orders/permissions.py:55-77 | anonymous and role-less users are denied, admins allowed, and anyone else allowed exactly for the actions of their role |
| Access.OrderRoleMatrix | orders/permissions.py:28-48 | customers may create and cancel but not change status; operators and couriers the reverse |
| Access.OrderObjectScope | orders/permissions.py:83-115 | admins and operators see every order, customers their own, couriers those assigned to them |
| Access.DeliveryPermissionsByRole | delivery/permissions.py:18-95 | customers are denied, couriers see their own deliveries read-only, admins and operators everything; only couriers may update status |
| Access.PrescriptionRoles | prescriptions/permissions.py:8-95 | operator and admin exclude each other, both are staff; the owner may only read; staff and superusers may do anything |
| Users.FromDigits | users/serializers.py:31-40 | nine digits get "998", twelve starting with 998 are kept, every other count is refused; a result is "+" and twelve digits |
| Users.NormalizePhone | users/serializers.py:17-40 | empty input is refused; a result is "+998" and nine digits, 13 characters |
| Users.ManagerNormalizePhone | users/models.py:54-80 | the manager's normaliser refuses empty input and otherwise gives a valid stored phone |
| Users.NormalisersAgree | users/models.py:54-80 | both normalisers accept the same inputs and give the same results |
| Users.NormalizeIgnoresNonDigits | users/serializers.py:31 | inputs with the same digits normalise identically |
| Users.NormalizeValidPhone | users/models.py:135-138 | a stored phone is its own normal form |
| Users.NormalizeIdempotent | users/serializers.py:17-40 | normalising a normalised phone returns it unchanged |
| Users.StoredUsername | users/models.py:212-215 | a blank username is replaced by the phone |
| Users.SaveNew | users/models.py:212-215 | a new row is stored iff neither its phone nor its username is taken |
| Users.SaveNewKeepsPhoneUnique | users/models.py:140-145 | storing a new row keeps phone numbers unique |
| Users.CreateUser | users/models.py:82-98 | the phone is normalised, the username defaults to it, no password gives an unusable one, and the user starts active and unverified |
| Users.Register | users/serializers.py:120-134 | a taken phone is refused; otherwise an active, unverified customer with the stripped names and the given password is created |
| Users.RegisterKeepsPhoneUnique | users/serializers.py:120-134 | registration keeps phone numbers unique |
| Users.Authenticate | users/serializers.py:186-199 | succeeds only for the matching, password-checked, verified and active user; unverified is reported before inactive |
| Users.Login | users/serializers.py:182-202 | the input is normalised, then authenticated |
| Users.AuthenticateOwnRow | users/serializers.py:182-199 | with unique phones, logging in with a stored phone is decided by that row alone: password, then verified, then active |
| Users.VerifyUnlocksLogin | users/models.py:203-206 | an active, unverified account is refused as unverified with its own password, and after verify that password logs in |
| Users.RegisteredNeedsVerification | users/serializers.py:120-134 | a freshly registered account cannot log in until it is verified, and then can with its password |
| Users.AuthenticateCredentialsError | users/serializers.py:186-193 | an unknown phone and a wrong password give the same error |
| Users.Verify | users/models.py:203-206 | sets verified and its time, nothing else |
| Users.Deactivate | users/models.py:208-210 | clears is_active only |
| Users.DeactivatedCannotLogin | users/serializers.py:198-199 | a deactivated user cannot log in even with the right password |
| Otp.CanSendSmsIff | users/models.py:249-255 | sending is refused exactly when the phone has a code created within the last 60 s |
| Otp.GenerateCode | users/services.py:47-48 | the code is four digits with value draw + 1000, in [1000, 9999] |
| Otp.SendCode | users/services.py:54-82 | refused while a code under 60 s old exists; otherwise every earlier code of the phone is marked used and one fresh unused code is stored |
| Otp.SendCodeLeavesOneUnused | users/services.py:71-82 | after sending, the phone has exactly one unused code |
| Otp.SendThenVerify | users/services.py:54-125 | the code just sent verifies for its phone until it expires |
| Otp.VerifyCode | users/services.py:100-125 | accepts only an existing, unused, unexpired matching code, and marks it used; a refusal changes nothing |
| Otp.VerifyCodeIff | users/services.py:100-125 | with one unused code per phone, verification succeeds iff such a code exists |
| Otp.VerifyCodeKeepsOneUnused | users/services.py:100-125 | verification keeps at most one unused code per phone |
| Otp.VerifyCodeAtMostOnce | users/services.py:105-122 | a second verification of an accepted code fails |
| Otp.VerifyForPhone | users/serializers.py:145-171 | after normalisation: a code longer than four is refused; the newest unused code under either phone form is accepted and marked used unless expired; CodeInvalid iff none matches |
| Otp.VerifyOtpRequest | users/serializers.py:145-171 | the newest unused code stored under either form of the phone is accepted and marked used unless expired |
| Otp.NewestCodeVerifies | users/serializers.py:150-171 | an unused, unexpired code under the newest key is accepted for the phone form it carries |
| Otp.SendThenVerifyRequest | users/serializers.py:145-171 | the code just sent passes the verification request until it expires, for either phone form, and returns the stored phone |
| Otp.ValidSms | users/serializers.py:59-73 | the newest unused matching code is returned unless expired; CodeInvalid exactly when none exists |
| Otp.CleanupExpired | users/services.py:131-140 | deletes exactly the unused codes older than 120 s and returns how many it deleted |
| Otp.CleanupKeepsOneUnused | users/services.py:131-140 | cleanup keeps at most one unused code per phone |
| Notifications.NewNotification | notifications/models.py:117-139 | a new row is PENDING and unread, with no attempts and three retries allowed |
| Notifications.MarkAsRead | notifications/models.py:174-179 | marks read; only the first call stamps read_at |
| Notifications.MarkAsReadIdempotent | notifications/models.py:174-179 | reading twice is reading once |
| Notifications.MarkAsUnread | notifications/models.py:181-185 | clears both the flag and the time |
| Notifications.UnreadUndoesRead | notifications/models.py:174-185 | unreading undoes a first reading |
| Notifications.MarkProcessing | notifications/models.py:191-195 | sets PROCESSING and the attempt time from any status |
| Notifications.MarkSent | notifications/models.py:197-207 | sets SENT and the sent time from any status |
| Notifications.MarkFailed | notifications/models.py:209-224 | sets FAILED and the error and adds exactly one to the retry count |
| Notifications.FailuresExhaustRetries | notifications/models.py:226-230 | after max_retries failures a fresh row can no longer be retried |
| Notifications.FailAllCounts | notifications/models.py:209-224 | n failures add exactly n to the retry count |
| Notifications.UnreadCount | notifications/models.py:236-238 | counts exactly the user's unread rows |
| Notifications.UnreadCountZero | notifications/models.py:236-238 | the count is 0 iff the user has no unread row |
| Notifications.MarkAllAsRead | notifications/models.py:240-245 | marks exactly the user's unread rows read at that time |
| Notifications.MarkAllAsReadClears | notifications/models.py:240-245 | afterwards the user's unread count is 0 and other users' counts are unchanged |
| Notifications.CleanDestination | notifications/services.py:92-97 | the destination is exactly the digits of the phone, in order |
| Notifications.Send | notifications/services.py:186-207 | non-SMS and SENT rows are untouched; otherwise SENT on success or FAILED with one more retry; it never fails |
| Notifications.SendAfterSentIsNoop | notifications/services.py:186-190 | sending a sent row again changes nothing |
| Notifications.CreateSystem | notifications/services.py:125-154 | a new SYSTEM row, already SENT |
| Notifications.CreateSms | notifications/services.py:156-184 | a new SMS row, PENDING |
| Notifications.Notify | notifications/services.py:212-236 | always one SYSTEM row, and one PENDING SMS row iff an SMS is asked for; existing rows are untouched |
| Notifications.NotifyThenSend | notifications/services.py:186-236 | the SMS row is the only new PENDING row; sending the SYSTEM row is a no-op; a delivered SMS becomes SENT, a raised one FAILED with retries left |
| Notifications.NotifyNotRetried | notifications/services.py:212-253 | `retry_failed` right after `notify` leaves both new rows unchanged |
| Notifications.RetryFailed | notifications/services.py:241-253 | only FAILED SMS rows that can retry and whose last attempt is at least 30 s old are resent |
| Notifications.RetryRespectsLimit | notifications/services.py:241-253 | a row whose retries are used up is never resent |
| Dashboard.DateRange | dashboard/services.py:24-27 | the span ends today and covers exactly the given number of days |
| Dashboard.OrderCreated | dashboard/services.py:80-88 | adds exactly one order to the order's creation day |
| Dashboard.OrderStatusChanged | dashboard/services.py:91-104 | counts a completion only on entry into DELIVERED and a cancellation only on entry into CANCELLED |
| Dashboard.StatusMetricsCountEntriesOnly | dashboard/services.py:91-104 | re-saving an order in its old status changes no counter |
| Dashboard.RevenueChanged | dashboard/services.py:107-121 | adds the amount only when the payment is SUCCESS and was not before |
| Dashboard.RevenueCountedOnce | dashboard/services.py:107-121 | counting the same successful payment again adds nothing |
| Dashboard.ProductSoldAddsPerProduct | dashboard/services.py:124-144 | each product's sold units and revenue rise by exactly its quantity and its frozen price × quantity |
| Dashboard.DeliveryCompleted | dashboard/services.py:147-165 | both courier counters rise by one only for a DELIVERED delivery with a courier |
| Text.Digits | users/serializers.py:31 | the result holds only digits and is no longer than the input |
| Text.DigitsOfChar | users/serializers.py:31 | one character is kept exactly when it is a digit |
| Text.DigitsAppend | users/serializers.py:31 | filtering distributes over concatenation, so every digit is kept in order |
| Text.DigitsOfDigitString | users/serializers.py:31 | a string of digits is kept whole |

## Left out

- I/O and framework glue are not modelled: HTTP views, URL routing, serializer field plumbing, admin pages, signals, `select_for_update` and row locks. Each atomic service is one sequential all-or-nothing step.
- MD5, base64 decoding, `uuid4` and `secrets.randbelow` are function parameters, because their internals are not the core's logic. The current time is a `nat` clock.
- The SMS provider's HTTP calls and retries are not modelled, because they are network I/O. A provider outcome is an input to `Notifications.Send`.
- Django's `transaction.on_commit` is not modelled as a hook. `Store.SendOtp` returns the SMS row's key, and sending it is the separate `Notifications.Send`.
- Template rendering is not modelled, because full `str.format` semantics are out of scope. Rendered messages are inputs to `Notify` and `SendOtp`.
- Image size and extension validators are not modelled, because they are file I/O. `full_clean`'s field validators are assumed to pass, except those the core states: the delivery record rules and payment `clean`.
- The dashboard's aggregate queries, the cache and `recalculate_daily_stats` are reporting, not logic. The dashboard counters are standalone functions, not signal handlers.
- The legacy `Prescription`/`PrescriptionImage` in orders/models.py:217-254 is not modelled. The live gate is prescriptions/models.py.
- Password hashing is abstract: a usable password checks against its raw text. A user created by `get_or_create` has no password, so no password checks against it.
- Decimal money is integer tiyin. Money is never rounded, because every amount in the core has two places.
- ClickService.HandlePrepare: Click sends the amount as decimal text. Parsing it is left out: the request carries both the text (signed) and its value in tiyin (compared).
- PaymentServices.CreatePayment: the "created" log renders the amount in tiyin, not as the decimal sum Python prints.
- PaymeService.CreateTransaction: `Decimal(amount) / 100` is a payment of `amount` tiyin. A request without an amount fails, as `Decimal(None)` would.
- PaymeService.HandleRequest: JSON request ids and parameters are a small `Json` datatype. The "transaction" field is the payment key.
- DeliveryServices.AssignCourier: the delivery history row the source's signals write on assignment is not modelled, because signals are left out.
- DeliveryServices.MarkOnTheWay: the source's `ValidationError` and `PermissionDenied` are the named errors DeliveryValidation and PermissionDenied.
- Store.MarkOrderPaymentSuccess: the unique `transaction_id` column is a UniqueViolation failure. It is checked before the order's status change.
- Users.SaveNew: the unique `phone_number` and `username` columns are the only database constraints modelled.
- Otp.SendCode: `can_send_sms` and `send_otp` read codes "created at or after now − 60 s"; the clock is whole seconds.
- Text.Digits: keeps ASCII digits only. Python's `\D` and `str.isdigit` also keep the other Unicode digits (Arabic-Indic, Devanagari, ...). Modelling them needs the Unicode digit tables, which are out of scope.
- Text.Strip: removes ASCII whitespace only. Python's `str.strip()` also removes U+00A0, U+2000 to U+200A, U+3000 and the other Unicode spaces.
- Users.NormalizePhone: because of the ASCII-only digit filter, a phone written in other Unicode digits (nine Arabic-Indic digits, say) is refused here. The source accepts it and stores "+998" followed by those digits, which `^\+998\d{9}$` also accepts.
- Users.ManagerNormalizePhone: the same ASCII-only digit filter as `Users.NormalizePhone`, against the Unicode `\D` at users/models.py:70.
- Users.Register: names are stripped of ASCII whitespace only. A name with a leading U+00A0 keeps it here, while the source strips it.
- Notifications.CleanDestination: keeps ASCII digits only, while `filter(str.isdigit, …)` keeps every Unicode digit.
- Otp.VerifyOtpRequest: the bare-digits phone form is the ASCII digits, for the same reason.
- Notification calls from orders/services.py:231,263,290 are dropped from the main members. They name methods `NotificationService` does not define (see "## Findings").

## Findings

| source | as written | input that shows it | evidently intended | confidence | as-written member | corrected member |
|---|---|---|---|---|---|---|
| orders/services.py:184 | checkout reads `product.requires_prescription`, which `Product` does not define (its field is `is_prescription_required`) | any non-empty cart whose first product is unexpired | read the product's prescription flag | not executed | OrderServices.CheckoutAsWritten | OrderServices.Checkout |
| orders/services.py:231 | checkout ends with `NotificationService.order_created`, which is not defined | any cart checkout would accept | create the order and notify without failing | not executed | OrderServices.CheckoutNotifyAsWritten | OrderServices.Checkout |
| orders/services.py:263 | the status service ends with `NotificationService.order_status_changed`, which is not defined | a PAID order moved to PREPARING by an operator | keep the legal status change | not executed | OrderServices.ChangeStatusServiceAsWritten | OrderServices.ChangeStatusService |
| orders/services.py:290 | cancel ends with `NotificationService.order_cancelled`, which is not defined | any AWAITING_PAYMENT order | restore stock and keep the order CANCELLED | not executed | OrderServices.CancelAsWritten | OrderServices.Cancel |
| delivery/services.py:174 | cancel_delivery writes `Order.Status.CANCELED`; the enum member is `CANCELLED` | any READY delivery | set the order to CANCELLED | not executed | DeliveryServices.CancelDeliveryAsWritten | DeliveryServices.CancelDelivery |
