# Billing engine, lists and notification feed: a verified model

The project models the Stripe billing engine of the server as a state machine over its tables, and two smaller
parts beside it: user lists with their slugs, and cursor paging of the notification feed. Tables are sequences of
rows; unique indexes are refused writes; a Stripe snapshot is a datatype with the fields the code reads. Where the
server changes rows in place, a class holds the tables and its methods find a row, assign its fields and save it;
each method is proved to leave exactly the state a specification function describes, and the statements about runs,
replays and interleavings are lemmas about those functions.

`dafny verify dfyconfig.toml` checks everything.

## Modules

- `Model`, `Snapshots`, `Store`: rows, tables, unique indexes; Stripe payloads and their translation.
- `Entitlements`, `EntitlementsService`: what a recompute must leave in the (user, feature, source) index, and the
  loops that leave it.
- `Handlers`, `WebhookService`: what each webhook handler does, as functions and as the service's methods.
- `HandlerEffects`: what each event type promises, in Stripe's words and by the tables' columns: its row, every field,
  what stays, and when it is ignored or refused.
- `HandlerInvariants`, `HandlerReplay`, `PaymentLifecycle`, `CheckoutBinding`: what every event keeps, why handling
  one twice is harmless, where payment statuses can go, and in which order a checkout may be completed.
- `InterruptedHandlers`: handlers that fail between two of their saves, and what a replay makes of the tables.
- `EndToEnd`, `AccessStaleness`: from Stripe's snapshots to access, charges and invoices, and which events leave the
  entitlement index behind the billing rows.
- `WebhookLog`: the event log under concurrent deliveries and replays.
- `Idempotency`, `IdempotencyService`: the reservation protocol under any interleaving, and the uninterrupted calls.
- `CanonicalJson`, `JsonText`: the canonical form behind the request hash, and its JSON text read back.
- `RefundRequest`, `AdminRefund`, `RefundLedger`: an administrator's refund over any run of calls, the request behind
  its key, and the refund ledger kept against Stripe's own.
- `SubscriptionCheckout`, `CheckoutKeys`: the transactions under the user lock, the rule of one live subscription, and
  the whole call under its idempotency key.
- `Numerals`, `Slug`, `Lists`, `Notifications`: decimal numerals, slugs, user lists, the feed.

## What turned out false, and exactly when it holds

- A refunded payment does not stay refunded: `PaymentLifecycle.RefundedRegressesExactlyWhen` says which events push
  it back to failed or canceled, and `PaymentLifecycle.LateFailureUndoesRefund` gives one.
- An idempotency key does not keep an administrator's refund from being made twice. When a save or recording the
  success fails after Stripe has made the refund, the catch block marks the key failed, and Stripe is given no key of
  its own: `AdminRefund.FailedSaveRefundsTwice` is a run in which 40 are refunded twice under one key and the tables
  know of one. `AdminRefund.NextRefundsExactlyWhenForgotten` says exactly when the next call refunds again, and
  `AdminRefund.TwoRefundsOnlyAfterForgetting` that nothing else makes two.
- A refund that failed or was canceled at Stripe is booked and counted like any other, so a payment can read more
  refunded than was paid: `RefundLedger.FailedRefundsAreCounted` books 200 on a payment of 100. After a notice of all
  refunds the refunded amount is what Stripe really paid back exactly when no refund on the list failed, and it passes
  the payment's amount exactly when the list's total does (`RefundLedger.FullNoticeCatchesUp`).
- The refunded amount is not always the sum of the refund rows: a refund whose row is saved and whose payment is not
  falls behind by its amount (`RefundLedger.TornSaveFallsBehind`) until the next notice (`RefundLedger.NoticeMends`).
- A checkout completion that moves a payment to another intent cuts its refunds off from Stripe's list
  (`RefundLedger.CompletionCutsRefundsOff`): `RefundLedger.CompletionKeepsBalanceExactlyWhen` gives the guard on the
  tables before the completion.
- The entitlement index does not always follow the billing rows: a refund notice, a charge's success and a checkout's
  completion change what a payment grants without a recompute. `AccessStaleness.BehindExactlyWhen` says which events
  leave the index behind, on the state before, and `AccessStaleness.AccessStaysRight` that no others do over any run.
- One live subscription for each user is kept by the two locked transactions, but not by the writes made after the
  lock is released. `SubscriptionCheckout.StepKeepsOneLiveExactlyWhen` gives the condition for every step;
  `SubscriptionCheckout.UnlockedInsertBreaksOneLive` and `SubscriptionCheckout.SlowAnswerBreaksOneLive` are runs
  that end with two.
- The feed can lose rows whose database stamps differ: the cursor has milliseconds, the stamps have microseconds.
  `Notifications.CompleteExactlyWhenNoSplit` gives the condition, `Notifications.DistinctStampsCanBeLost` an example.
- `custom:` and a 36-character id make 43 characters, while the `list_key` column is declared with 40
  (src/modules/lists/schema/user-list.entity.ts:29): `Lists.NoCustomListFits`. The other list properties are proved
  for every width.
- A subscription checkout that is refused in the ordinary way locks its idempotency key for good: everything between
  the reservation and the try block throws without recording a failure
  (src/billing/services/billing-checkout.service.ts:292-327). `CheckoutKeys.CheckoutLocksExactlyWhenRefused` lists the
  refusals, `CheckoutKeys.LockedExactlyWhenLost` characterises the locked keys over every run, and
  `CheckoutKeys.MissingConfigBarsTheNext` is a refusal that also bars the user's next checkout for thirty minutes.
- A caller that crashes with a reservation locks its key. `Idempotency.LockedExactlyWhenHolderCrashed` shows that a
  key is locked for good exactly when a caller crashed holding it, and `Idempotency.CrashLocksKey` gives a run that
  does. The comment at src/billing/services/billing-idempotency.service.ts:240-245 expects such keys to be claimed
  after expiry; the code answers them with the in-flight error, and the model follows the code.
- A member called `__proto__` does not reach the request hash: `CanonicalJson.ProtoMembersAreLost`. The defect is
  latent: every present caller of `reserve` builds a literal of fixed keys, and for values without such a member the
  form is canonical up to member order alone (`CanonicalJson.CanonicalUpToOrder`).

More comments differ from the code, which the model follows. The description of `recomputeEntitlements`
(src/billing/services/billing-webhook.service.ts:1285-1292) says failures do not propagate, and they do. The comment in
its body (1294-1297) has a retried delivery pick up where a failed one stopped; the retry finds the event's row and is
answered duplicate (204-218), so only a replay dispatches the event again, and it then does pick up
(`InterruptedHandlers.ReplayHealsInterruptions`). `receiveEvent` declares an answer `failed` it never gives: the one
error it answers with instead of rethrowing is thrown only before the row is inserted (197, 256), so every failed
dispatch is rethrown. The header of the entitlements service
(src/billing/services/billing-entitlements.service.ts:21-26) says `canAccess` does not consult `endsAt`, and it does,
with a day of tolerance. `release`, described as freeing the key of an operation that threw before it could be
classified (src/billing/services/billing-idempotency.service.ts:220-228), is called by no service.

## Model

| member | source | states |
|---|---|---|
| Entitlements.ActiveRowsAreTheExpectedOnes | src/billing/services/billing-entitlements.service.ts:176-269 | after a recompute the user's active computed rows are exactly the expected triples, with the expected windows |
| Entitlements.ActiveRowsAreEarned | src/billing/services/billing-entitlements.service.ts:176-311 | after a recompute an active row of the user's that is no manual grant is there exactly when a granting subscription of its plan, or a succeeded one-time payment, is its source, and it starts and ends with the subscription's period, or with the payment's creation and never |
| Entitlements.RecomputeSettles | src/billing/services/billing-entitlements.service.ts:176-271 | row by row: others' rows and manual grants stay, an earned row is active and windowed, an active one no longer earned is closed at the recompute's time, an inactive one stays; new rows are the user's own |
| Entitlements.RecomputeKeepsOneRowPerKey | src/billing/services/billing-entitlements.service.ts:189-248 | one row per user, feature and source survives, even when a plan lists a feature twice |
| Entitlements.RecomputeLeavesOthersAlone | src/billing/services/billing-entitlements.service.ts:179-258 | manual grants and other users' rows are not touched |
| Entitlements.RecomputeTwice | src/billing/services/billing-entitlements.service.ts:176-275 | a second recompute at any later time changes nothing, adds nothing and removes nothing |
| Entitlements.SubscriptionsExpect | src/billing/services/billing-entitlements.service.ts:277-332 | an expectation comes from subscriptions exactly when a granting one's plan lists the feature |
| Entitlements.PaymentsExpect | src/billing/services/billing-entitlements.service.ts:294-388 | the same for succeeded payments of one-time prices |
| Entitlements.AccessAfterRecompute | src/billing/services/billing-entitlements.service.ts:114-136 | after a recompute, canAccess at any time answers as the subscriptions, payments and manual grants do, with 24 hours of tolerance |
| Entitlements.AccessExactlyWhen | src/billing/services/billing-entitlements.service.ts:114-136 | access needs a user id, a feature name and an active row of theirs that has no end or ended less than a day ago |
| Entitlements.JoinedKeyIsInjective | src/billing/services/billing-entitlements.service.ts:250-261 | the joined key of the removal loop identifies its three fields, bars in feature keys included |
| EntitlementsService.KeyTest | src/billing/services/billing-entitlements.service.ts:185-261 | the joined-string test of the removal loop agrees with the three-field match of the keeping loop |
| EntitlementsService.EntitlementsService.CanAccess | src/billing/services/billing-entitlements.service.ts:114-136 | the access decision, with its guards on user id and feature key |
| EntitlementsService.EntitlementsService.BuildExpectedEntitlements | src/billing/services/billing-entitlements.service.ts:277-311 | the two loops collect exactly the expected list |
| EntitlementsService.EntitlementsService.RecomputeForUser | src/billing/services/billing-entitlements.service.ts:176-275 | the loops that update rows in place leave exactly the rows the specification gives, and added, kept and removed count what they say |
| EntitlementsService.MidwayStep | src/billing/services/billing-entitlements.service.ts:196-248 | honouring one more expectation activates the one row with its key or appends that row |
| HandlerInvariants.DispatchKeepsValid | src/billing/services/billing-webhook.service.ts:370-456 | every event keeps the unique indexes, one charge per intent, one row per refund id and one row per grant |
| PaymentLifecycle.RunKeepsValid | src/billing/services/billing-webhook.service.ts:370-456 | and so does every serial run of events, which also never adds or moves a payment |
| HandlerReplay.DispatchTwice | src/billing/services/billing-webhook.service.ts:370-1127 | dispatching any event twice in a row is dispatching it once, up to the stamp of a deletion that carried none |
| HandlerReplay.RefundsRecorded | src/billing/services/billing-webhook.service.ts:745-777 | every listed refund id is on file after the loop |
| HandlerReplay.NoNewRefunds | src/billing/services/billing-webhook.service.ts:748-755 | a list whose ids are all on file adds nothing |
| PaymentLifecycle.OnlyRefundsLeaveSucceeded | src/billing/services/billing-webhook.service.ts:469-1046 | only a refund notice for its own intent takes a payment out of succeeded |
| PaymentLifecycle.RefundedRegressesExactlyWhen | src/billing/services/billing-webhook.service.ts:560-661 | exactly which events take a payment out of its refunded status |
| PaymentLifecycle.LateFailureUndoesRefund | src/billing/services/billing-webhook.service.ts:643-661 | a late failure notice turns a refunded payment into a failed one |
| PaymentLifecycle.FailsExactlyWhen | src/billing/services/billing-webhook.service.ts:469-1046 | exactly which events, told from the tables before, make a payment read failed |
| PaymentLifecycle.FailedHasACause | src/billing/services/billing-webhook.service.ts:643-661 | over any run, a payment that reads failed at the end and did not at the start was turned to failed by some event of the run |
| PaymentLifecycle.NoticesConverge | src/billing/services/billing-webhook.service.ts:603-696 | success and failure notices in any order and number, mixed with events about other payments (their checkouts included), end in succeeded if any success came, else failed if any failure did |
| PaymentLifecycle.OrderDoesNotMatter | src/billing/services/billing-webhook.service.ts:603-696 | two runs of the same notices, ordered and repeated differently, end in the same status |
| PaymentLifecycle.AccessAfterDispatch | src/billing/services/billing-webhook.service.ts:1293-1300 | after the handlers that recompute, access questions about the user are answered from billing state |
| EndToEnd.AccessFollowsSnapshot | src/billing/services/billing-webhook.service.ts:838-977 | after a subscription update, access holds exactly when Stripe's own words grant it (status, plan feature, period end within a day) or something else does |
| EndToEnd.DeletionEndsAccess | src/billing/services/billing-webhook.service.ts:872-902 | after a deletion only other grounds give access |
| EndToEnd.AccessFollowsPayment | src/billing/services/billing-webhook.service.ts:603-641 | after a payment success, access holds exactly when the payment counts as paid for a one-time price listing the feature, or something else grants it |
| EndToEnd.RefundKeepsAccess | src/billing/services/billing-webhook.service.ts:710-814 | a refund notice leaves every access answer as it was until something recomputes the index |
| AccessStaleness.BehindExactlyWhen | src/billing/services/billing-webhook.service.ts:469-814 | an index that is up to date is behind after an event exactly when the event settles or refunds, without a recompute, a one-time purchase of the user's with features |
| AccessStaleness.AccessStaysRight | src/billing/services/billing-webhook.service.ts:1285-1300 | over every run without such an event, every access answer is the one the billing rows give |
| EndToEnd.IntentBooksOneCharge | src/billing/services/billing-webhook.service.ts:1232-1267 | after a payment success exactly one charge row exists for the intent; a new one is of the received amount if positive, else the intent's, else the payment's |
| EndToEnd.PaidInvoicesAreDated | src/billing/services/billing-webhook.service.ts:1110-1114 | over every run, each paid invoice has a paid date |
| EndToEnd.InvoiceMirrorsSnapshot | src/billing/services/billing-webhook.service.ts:1048-1127 | one row for the invoice, each modelled column from the snapshot or, where it is silent, from what was on file: the row, or an empty one of the customer's user and the subscription with the invoice's id; no other row changed |
| InterruptedHandlers.InterruptedStep | src/billing/services/billing-webhook.service.ts:469-1127 | one save more of any handler, recomputes included, changes or appends at most one row of one table |
| InterruptedHandlers.InterruptedEnds | src/billing/services/billing-webhook.service.ts:469-1127 | and enough saves are the whole handler |
| InterruptedHandlers.RecomputeAfterPart | src/billing/services/billing-entitlements.service.ts:176-275 | a recompute that starts on the rows of one that stopped anywhere leaves the rows of an undisturbed one, up to closing stamps |
| InterruptedHandlers.ReplayHealsInterruptions | src/billing/services/billing-webhook.service.ts:1143-1191 | after any number of attempts failed between any two saves, a replay leaves every table, and has the outcome, of one undisturbed dispatch, but for stamps an attempt set |
| InterruptedHandlers.ReplayHealsAccess | src/billing/services/billing-webhook.service.ts:1143-1191 | and answers every access question as after that dispatch |
| CheckoutBinding.CompletionCommutes | src/billing/services/billing-webhook.service.ts:469-541 | the completion of a checkout and a subscription event for its shell can be handled in either order |
| CheckoutBinding.CompletionMayFallAnywhere | src/billing/services/billing-webhook.service.ts:838-977 | where the completion falls among the subscription's events does not change the final tables |
| CheckoutBinding.BoundOnceAndForAll | src/billing/services/billing-webhook.service.ts:912-977 | from its first event on the shell carries the real id, through every later event |
| CheckoutBinding.RenamedOnlyByBinding | src/billing/services/billing-webhook.service.ts:925-950 | a subscription id changes only when a placeholder is replaced or a completion names the row |
| HandlerEffects.CompletionEffect | src/billing/services/billing-webhook.service.ts:469-541 | the payment its metadata names takes the session's ids and, if still open, its payment status; nothing else but the shell may change; it is refused exactly when another payment has the intent or session |
| HandlerEffects.CompletionBindsShell | src/billing/services/billing-webhook.service.ts:503-529 | a subscription session puts its id and session on the shell it names, or fails exactly when another subscription has either; otherwise no subscription changes |
| HandlerEffects.ExpiryEffect | src/billing/services/billing-webhook.service.ts:560-597 | the named payment is canceled unless it succeeded, and gains the session if it had none; it is refused exactly when another payment has that session |
| HandlerEffects.ExpiryExpiresShell | src/billing/services/billing-webhook.service.ts:584-596 | an expiry that cancels its payment expires the named subscription exactly when it is incomplete, and changes no other |
| HandlerEffects.SuccessEffect | src/billing/services/billing-webhook.service.ts:603-641 | the payment's status in Stripe's word unless settled, one charge with every column if the intent had none, and its user's entitlements settled; nothing else |
| HandlerEffects.FailureEffect | src/billing/services/billing-webhook.service.ts:643-670 | the payment with the intent is failed exactly when it had not succeeded, and no other column, row or table changes |
| HandlerEffects.ChargeSuccessEffect | src/billing/services/billing-webhook.service.ts:672-696 | one status, refunded payments excepted, and nothing else |
| HandlerEffects.RefundEffect | src/billing/services/billing-webhook.service.ts:710-814 | the payment's balance and status, and rows for listed refunds only, every column given; without a list the reported total is the balance, and the status is refunded exactly when it reaches the charge's amount |
| HandlerEffects.CustomerEffect | src/billing/services/billing-customer.service.ts:198-228 | email unless empty, name or explicit null, metadata merged key by key; no other customer and no other table |
| HandlerEffects.UpdateEffect | src/billing/services/billing-webhook.service.ts:838-977 | the row with the id, else the one the metadata names, else the shell of the payment it names, takes every column from the snapshot, the real id over a placeholder; its contract and every other row stay, and its user's entitlements are settled |
| HandlerEffects.UpdateIgnoredExactlyWhen | src/billing/services/billing-webhook.service.ts:912-960 | an update is ignored, and changes nothing, exactly when it has no id or is about no row on file |
| HandlerEffects.DeletionEffect | src/billing/services/billing-webhook.service.ts:872-902 | the row with the id is canceled at Stripe's time or now, and nothing else changes but its user's entitlements, which are settled |
| HandlerEffects.InvoiceFailureEffect | src/billing/services/billing-webhook.service.ts:1009-1041 | the invoice mirrored as by any invoice event, the payment with its intent failed unless it succeeded, and the entitlements of the invoice's user settled |
| HandlerEffects.IgnoredExactlyWhen | src/billing/services/billing-webhook.service.ts:370-1046 | an event of a handled kind is ignored, and changes nothing, exactly when no row on file is what it is about |
| HandlerEffects.EventsAreRouted | src/billing/services/billing-webhook.service.ts:370-456 | each of the seventeen types goes to its handler with the object it announces, any other object makes it fail, and any other type is ignored |
| WebhookService.WebhookService.HandleCheckoutSessionCompleted | src/billing/services/billing-webhook.service.ts:469-541 | binds the payment and the shell, and throws after the first save when the second is refused |
| WebhookService.WebhookService.HandleCheckoutSessionExpired | src/billing/services/billing-webhook.service.ts:560-597 | cancels the payment unless it succeeded and expires an incomplete shell |
| WebhookService.WebhookService.HandlePaymentIntentSucceeded | src/billing/services/billing-webhook.service.ts:603-641 | settles the payment, books one charge and recomputes |
| WebhookService.WebhookService.RecordTransactionFromIntent | src/billing/services/billing-webhook.service.ts:1232-1267 | one charge per intent, of the received amount when it is positive |
| WebhookService.WebhookService.HandlePaymentIntentFailed | src/billing/services/billing-webhook.service.ts:643-670 | fails the payment unless it succeeded |
| WebhookService.WebhookService.HandleChargeSucceeded | src/billing/services/billing-webhook.service.ts:672-696 | settles the payment unless it is settled or refunded |
| WebhookService.WebhookService.HandleChargeRefunded | src/billing/services/billing-webhook.service.ts:710-814 | books the listed refunds, sums the payment's refund rows and flips its status; without a list takes Stripe's aggregate |
| WebhookService.WebhookService.HandleCustomerUpsert | src/billing/services/billing-customer.service.ts:198-228 | mirrors email, name and metadata of a known customer |
| WebhookService.WebhookService.UpsertSubscriptionFromStripe | src/billing/services/billing-webhook.service.ts:912-977 | finds the row by real id, local id or placeholder and mirrors the snapshot |
| WebhookService.WebhookService.HandleSubscriptionDeleted | src/billing/services/billing-webhook.service.ts:872-902 | cancels the row and recomputes |
| WebhookService.WebhookService.UpsertInvoiceFromStripe | src/billing/services/billing-webhook.service.ts:1048-1127 | finds or drafts the invoice and mirrors the snapshot, or does nothing for an unknown customer |
| WebhookService.WebhookService.HandleInvoicePaymentFailed | src/billing/services/billing-webhook.service.ts:1009-1041 | fails the invoice's payment unless it succeeded and recomputes |
| WebhookService.WebhookService.Dispatch | src/billing/services/billing-webhook.service.ts:370-456 | routes each type to its handler and keeps every table rule |
| WebhookService.WebhookService.ReceiveEvent | src/billing/services/billing-webhook.service.ts:187-266 | an uninterrupted delivery: malformed, duplicate, or logged, dispatched and marked, with a failed dispatch rethrown |
| WebhookService.WebhookService.ReplayEvent | src/billing/services/billing-webhook.service.ts:1143-1191 | an uninterrupted replay, with the refused payload as a failed attempt |
| WebhookLog.StoredEventsDispatchAlike | src/billing/services/billing-webhook.service.ts:338-359 | an event is rebuilt from its row exactly when it had an id, a type and data, and then dispatches identically |
| WebhookLog.DispatchedAtMostOnce | src/billing/services/billing-webhook.service.ts:204-232 | in every interleaving no Stripe event is dispatched by two deliveries, and the one that is owns the event's row |
| WebhookLog.DuplicatesChangeNothing | src/billing/services/billing-webhook.service.ts:272-303 | a delivery answered duplicate leaves every table and every other call as if it had taken no step |
| WebhookLog.AnsweredDeliveries | src/billing/services/billing-webhook.service.ts:191-232 | once a well-formed delivery is answered exactly one delivery of its event has won, and every other answered one was told duplicate |
| WebhookLog.RunKeepsAccounts | src/billing/services/billing-webhook.service.ts:305-336 | attempts count failures, status is the last mark's, an error message is there exactly while the row reads failed |
| WebhookLog.ServeIsARun | src/billing/services/billing-webhook.service.ts:187-266 | the uninterrupted calls are runs of the interleaved protocol |
| WebhookLog.DeliveryIsLogged | src/billing/services/billing-webhook.service.ts:187-336 | an uninterrupted delivery: malformed, duplicate of a row on file, or one new row with the event's columns and the outcome, its message cut at 4000 characters |
| WebhookLog.ReplayIsMarked | src/billing/services/billing-webhook.service.ts:1143-1191 | an uninterrupted replay dispatches what its row's payload gives back and marks that row alone |
| WebhookLog.ReplayIsHarmless | src/billing/services/billing-webhook.service.ts:1143-1191 | replaying a just received event repeats its outcome and leaves the billing tables as they are |
| Idempotency.EveryRunKeepsInv | src/billing/services/billing-idempotency.service.ts:128-321 | the invariant of the reservation protocol under any interleaving of reads, inserts, claims, records and crashes |
| Idempotency.OneReservationAtATime | src/billing/services/billing-idempotency.service.ts:128-321 | at most one caller holds an unrecorded reservation, and while one does the row is in progress |
| Idempotency.CompletedIsAbsorbing | src/billing/services/billing-idempotency.service.ts:177-218 | a completed row never changes again |
| Idempotency.CachedAnswersAreTheOneSuccess | src/billing/services/billing-idempotency.service.ts:239-254 | at most one execution succeeds, and every cached answer is its response, read from however stale a row |
| Idempotency.OtherRequestsConflict | src/billing/services/billing-idempotency.service.ts:235-237 | the conflict error goes to exactly the requests that are not the key's |
| Idempotency.HashNeverChanges | src/billing/services/billing-idempotency.service.ts:230-321 | a key's request hash never changes |
| Idempotency.InProgressExactlyWhenHeld | src/billing/services/billing-idempotency.service.ts:128-321 | in every run the row is in progress exactly while a caller holds the reservation or went away, by a crash or an error it did not record, still holding it |
| Idempotency.LockedExactlyWhenHolderCrashed | src/billing/services/billing-idempotency.service.ts:282-285 | a key stays in progress in every continuation exactly when a caller crashed holding it |
| Idempotency.CrashLocksKey | src/billing/services/billing-idempotency.service.ts:128-170 | a first request cut off after its insert locks the key |
| Idempotency.ReserveIsARun | src/billing/services/billing-idempotency.service.ts:128-170 | an uninterrupted reserve is a run of the protocol |
| Idempotency.GrantedExactlyWhenFree | src/billing/services/billing-idempotency.service.ts:230-321 | in every run a call is told to run the operation exactly when the key is its request's, nobody holds it, nothing has succeeded and a swept key is past its expiry |
| Idempotency.AnswerExactlyWhen | src/billing/services/billing-idempotency.service.ts:230-321 | each of the five answers of an uninterrupted call under its own exact condition on the row |
| Idempotency.ReservedRowSpelledOut | src/billing/services/billing-idempotency.service.ts:128-321 | a call told to run leaves its hash, in progress, without a response and with a new expiry; any other leaves the row |
| Idempotency.RecordedRowSpelledOut | src/billing/services/billing-idempotency.service.ts:177-218 | a success completes the row with its response, a failure leaves it failed without one |
| IdempotencyService.IdempotencyService.Reserve | src/billing/services/billing-idempotency.service.ts:128-170 | the row it leaves and the answer it gives, in every state of the key |
| IdempotencyService.IdempotencyService.RecordSuccess | src/billing/services/billing-idempotency.service.ts:177-203 | completes the row with the response; a missing row is left missing |
| IdempotencyService.ConflictExactlyWhenRequestsDiffer | src/billing/services/billing-idempotency.service.ts:109-237 | unless the digest collides on the two texts, the conflict error means the requests differ beyond member order |
| CanonicalJson.SortKeysIsCanonical | src/billing/services/billing-idempotency.service.ts:329-346 | two values have one form exactly when they differ in member order, or `__proto__` members, only |
| CanonicalJson.SortKeysIsIdempotent | src/billing/services/billing-idempotency.service.ts:333-346 | rewriting a form changes nothing |
| CanonicalJson.CanonicalUpToOrder | src/billing/services/billing-idempotency.service.ts:329-346 | without `__proto__` members two values have one form exactly when they differ in member order alone |
| JsonText.EqualTextsEqualValues | src/billing/services/billing-idempotency.service.ts:329-331 | JSON text is unambiguous: equal texts are texts of equal values |
| JsonText.HashIdentifiesRequest | src/billing/services/billing-idempotency.service.ts:109-111 | unless the digest collides on the two texts, equal hashes mean the same request |
| CanonicalJson.ProtoMembersAreLost | src/billing/services/billing-idempotency.service.ts:337-344 | a member called `__proto__` does not reach the hash |
| AdminRefund.AdminService.RefundPayment | src/billing/services/billing-admin.service.ts:190-313 | the whole call: reservation for `paymentId` and `amount`, checks in order, ledger row, balance, status, recorded outcome; when Stripe, either save or recording fails, what was saved before stays and the key is marked failed if that goes through |
| AdminRefund.AnswerExactlyWhen | src/billing/services/billing-admin.service.ts:209-312 | a call that is let in is refused, answered with the refund of what it asked for, or fails after Stripe's refund, each under its own exact condition on the payment and the outcomes, in the order of the checks |
| AdminRefund.NotFoundExactlyWhen | src/billing/services/billing-admin.service.ts:209-215 | not found exactly when no payment has the id |
| AdminRefund.RefundWrites | src/billing/services/billing-admin.service.ts:256-278 | nothing before Stripe has refunded; then the row with every column, and then the payment's balance and status, as far as the saves came |
| AdminRefund.KeyAfterCall | src/billing/services/billing-admin.service.ts:190-312 | the key completed with the response, failed, or in progress until a new expiry |
| AdminRefund.TurnedAwayExactlyWhen | src/billing/services/billing-admin.service.ts:190-207 | a call that is not let in changes nothing; conflict, cached response and in flight each under its own condition on the key |
| RefundRequest.HashTellsRequests | src/billing/services/billing-admin.service.ts:196-201 | the hashed request determines the payment and the amount |
| AdminRefund.AnsweredKeyRefundsNoMore | src/billing/services/billing-admin.service.ts:190-207 | over any run, once a call under a key has been answered with its refund every later one changes nothing and refunds nothing: the same request gets the same response, another payment or amount the conflict error |
| AdminRefund.SecondRefundNeedsForgetting | src/billing/services/billing-admin.service.ts:248-312 | of two calls under one key that make Stripe refund, the first failed after Stripe's refund and released the key |
| AdminRefund.NextRefundsExactlyWhenForgotten | src/billing/services/billing-admin.service.ts:248-312 | after a call that made Stripe refund, the next under its key refunds again exactly when the first failed after that and released the key, the requests agree, the checks pass and Stripe does not refuse |
| AdminRefund.TwoRefundsOnlyAfterForgetting | src/billing/services/billing-admin.service.ts:190-312 | over any run Stripe refunds twice under a key only if some call under it failed after Stripe's refund and released it |
| AdminRefund.RefundsAreCounted | src/billing/services/billing-admin.service.ts:190-312 | and at most once more than there were such calls |
| AdminRefund.FailedSaveRefundsTwice | src/billing/services/billing-admin.service.ts:248-312 | a failed save after Stripe's answer, and a retry: 40 refunded twice under one key, one refund on file |
| AdminRefund.RefusedCallMayRetry | src/billing/services/billing-admin.service.ts:209-250 | a refused call changes no billing row, and its key may be used again for the same request exactly when it could be marked failed |
| AdminRefund.RefundFitsBalance | src/billing/services/billing-admin.service.ts:226-278 | an issued refund is positive and never takes the refunded amount past the payment's |
| RefundLedger.RunKeepsBalance | src/billing/services/billing-webhook.service.ts:710-814 | the ledger invariant over any run of administrators' calls with every outcome, refunds and status changes at Stripe, notices, safe completions and other events |
| RefundLedger.LedgerWithinStripe | src/billing/services/billing-webhook.service.ts:779-802 | over every run the refunded amount is the sum of the payment's refund rows, or less while a torn save waits for its notice; without the failed ones it is at most what Stripe paid back, and that at most the amount |
| RefundLedger.RefundedExactlyWhenAllIs | src/billing/services/billing-admin.service.ts:273-278 | after a refund step the status is refunded exactly when all of the amount is |
| RefundLedger.FullNoticeCatchesUp | src/billing/services/billing-webhook.service.ts:745-802 | a notice listing all refunds brings the payment to the list's total, which is what Stripe paid back exactly when no refund listed for the intent failed, and passes the amount exactly when the list does |
| RefundLedger.TornSaveFallsBehind | src/billing/services/billing-admin.service.ts:256-278 | when the payment's save fails after the row's, the payment is behind its rows by that refund |
| RefundLedger.NoticeMends | src/billing/services/billing-webhook.service.ts:779-802 | the next notice brings it back to the sum of its rows |
| RefundLedger.FailedRefundsAreCounted | src/billing/services/billing-webhook.service.ts:757-802 | a payment of 100 with a failed and a repeated refund reads 200 refunded |
| RefundLedger.CompletionKeepsBalanceExactlyWhen | src/billing/services/billing-webhook.service.ts:491-516 | a completion keeps the ledger invariant exactly when, if it gives its payment another intent, no refund is booked on the payment and what Stripe paid back of that intent is within its amount |
| RefundLedger.CompletionCutsRefundsOff | src/billing/services/billing-webhook.service.ts:491-516 | a payment on pi_1 with re_1 booked, and a completion that carries pi_2 |
| SubscriptionCheckout.StepKeepsOneLiveExactlyWhen | src/billing/services/billing-checkout.service.ts:70-77 | for each step, exactly when it keeps every user at one live subscription |
| SubscriptionCheckout.RunKeepsOneLive | src/billing/services/billing-checkout.service.ts:764-899 | over every run whose unlocked writes meet their guard nobody has two live subscriptions |
| SubscriptionCheckout.OpenedIsTheLiveRow | src/billing/services/billing-checkout.service.ts:811-899 | exactly when a checkout opens, and that its shell is then the user's one live row |
| SubscriptionCheckout.OpenedCheckoutWrites | src/billing/services/billing-checkout.service.ts:811-899 | an opened checkout adds exactly its payment of the order's amount and its incomplete subscription on the order's plan, column by column, and expires the abandoned shell |
| SubscriptionCheckout.RefusedExactlyWhen | src/billing/services/billing-checkout.service.ts:811-899 | each refusal under its own exact condition, and none changes anything |
| SubscriptionCheckout.CheckExpiresTheShell | src/billing/services/billing-checkout.service.ts:764-809 | the check alone expires the abandoned shell exactly when it passes |
| SubscriptionCheckout.AnswerPutsSession | src/billing/services/billing-checkout.service.ts:373-418 | a session that fits is put on both rows; when recording it fails and the key is released, the subscription ends expired |
| SubscriptionCheckout.RefusalExpiresShell | src/billing/services/billing-checkout.service.ts:403-418 | when Stripe refuses, the shell is expired if the key is released |
| SubscriptionCheckout.SubscribedRowIsActive | src/billing/services/billing-checkout.service.ts:640-668 | the row made from a payment is added active, unless an id of its is taken |
| SubscriptionCheckout.YoungShellsSurvive | src/billing/services/billing-checkout.service.ts:782-804 | the two transactions expire only live placeholders at least 30 minutes old, and change no other row |
| SubscriptionCheckout.UnlockedInsertBreaksOneLive | src/billing/services/billing-checkout.service.ts:613-668 | a subscription saved after the lock is released can be a second live one |
| SubscriptionCheckout.SlowAnswerBreaksOneLive | src/billing/services/billing-checkout.service.ts:376-379 | a session saved after its shell was expired revives the shell beside a newer one |
| SubscriptionCheckout.CheckoutService.LockAndAssertNoActiveSubscription | src/billing/services/billing-checkout.service.ts:764-809 | its verdict and the one row it may expire |
| SubscriptionCheckout.CheckoutService.LockAndCreateSubscriptionCheckout | src/billing/services/billing-checkout.service.ts:811-899 | its verdict and the rows it inserts, or no change at all |
| SubscriptionCheckout.CheckoutService.FinishCheckout | src/billing/services/billing-checkout.service.ts:373-416 | the saves after Stripe has answered, recording the outcome, and the clean-up when anything failed; it returns exactly when all of it went through |
| SubscriptionCheckout.ThrownCheckoutIsExpired | src/billing/services/billing-checkout.service.ts:396-416 | a checkout whose outcome could not be recorded throws and expires its shell, session and all |
| CheckoutKeys.KeyedCheckout.CreateSubscriptionCheckout | src/billing/services/billing-checkout.service.ts:278-326 | the call up to Stripe: reservation, the checks in order, the locked transaction and the configuration, with the row its key is left with |
| CheckoutKeys.KeyedCheckout.Resume | src/billing/services/billing-checkout.service.ts:327-418 | the rest, once Stripe has answered: the tables, and the key completed, failed or left in progress |
| CheckoutKeys.ScreenedOutExactlyWhen | src/billing/services/billing-checkout.service.ts:302-309 | each check before the lock throws exactly for the calls that passed the ones before it, and nothing is written |
| CheckoutKeys.BarredExactlyWhen | src/billing/services/billing-checkout.service.ts:311-325 | so does each refusal of the locked transaction, and the missing configuration after it |
| CheckoutKeys.OpensWhatWasAsked | src/billing/services/billing-checkout.service.ts:302-326 | what is opened costs unit amount times quantity, is on the price's plan, and is what the call goes on with |
| CheckoutKeys.HashTellsInputs | src/billing/services/billing-checkout.service.ts:285-291 | unless the digest collides, one hash means one price, quantity, reference, trial and promotion flag |
| CheckoutKeys.KeyAfterAnswer | src/billing/services/billing-checkout.service.ts:396-404 | the key completed with the session, failed, or left in progress |
| CheckoutKeys.CheckoutLocksExactlyWhenRefused | src/billing/services/billing-checkout.service.ts:292-326 | a checkout that is let in throws before it reaches Stripe, and leaves its key in progress in every continuation, exactly when one of the listed conditions fails |
| CheckoutKeys.LockedExactlyWhenLost | src/billing/services/billing-checkout.service.ts:278-418 | over every run a key is locked for good exactly when some call was let in and refused, failed without being able to mark it, or crashed while waiting |
| CheckoutKeys.LockedKeyTurnsAway | src/billing/services/billing-idempotency.service.ts:230-321 | such a key answers in flight to its own request, conflict to any other, and nothing changes |
| CheckoutKeys.CompletedKeyAnswers | src/billing/services/billing-checkout.service.ts:292-300 | a completed key answers its own request with the session recorded, any other with a conflict |
| CheckoutKeys.MissingConfigBarsTheNext | src/billing/services/billing-checkout.service.ts:316-325 | with a redirect URL missing the shell is opened first: it bars the user's next checkout for thirty minutes, and that one's key is locked too |
| Slug.SlugJoinsWords | src/modules/lists/helpers/slug.helper.ts:4-12 | the chain of replacements yields the lower-cased input's words, in order, joined by single hyphens |
| Slug.SlugsAreTheFixedPoints | src/modules/lists/helpers/slug.helper.ts:4-12 | results have slug shape, the strings of slug shape are exactly those left alone, and the generator is idempotent |
| Slug.TakenCandidatesFitTable | src/modules/lists/helpers/slug.helper.ts:29-44 | no more candidates can be taken than the table has rows |
| Numerals.DecimalReadsBack | src/modules/lists/helpers/slug.helper.ts:43 | the counter's numeral determines the counter |
| Slug.GenerateUniqueListSlug | src/modules/lists/helpers/slug.helper.ts:14-45 | returns the first candidate not taken, within one probe more than there are rows |
| Slug.GeneratedSlugIsNumbered | src/modules/lists/helpers/slug.helper.ts:14-45 | the name's slug when it is free, else that with the first number, from 1 on, that makes it free |
| Lists.RunKeepsInv | src/modules/lists/lists.service.ts:60-353 | every run keeps unique slugs and keys, reserved slugs to system lists, and items on existing lists without duplicates |
| Lists.ReservedExactlyWhenSystem | src/modules/lists/lists.service.ts:95-123 | a list's slug is reserved exactly when it is a system list |
| Lists.EnsureNeverCollides | src/modules/lists/lists.service.ts:60-91 | ensureSystemLists never fails, answers with one list for each key, and changes nothing when called again |
| Lists.EnsureWrites | src/modules/lists/lists.service.ts:60-91 | what is added are system lists the user lacked, and no list or item changes |
| Lists.SystemListsStay | src/modules/lists/lists.service.ts:283-353 | no run renames or removes a system list |
| Lists.CreatedExactlyWhenFree | src/modules/lists/lists.service.ts:95-123 | creating a list succeeds exactly when the slug, given or generated, is neither reserved nor the user's already and the key fits its column |
| Lists.GeneratedSlugIsFree | src/modules/lists/lists.service.ts:95-123 | a generated slug conflicts exactly when it is reserved |
| Lists.NoCustomListFits | src/modules/lists/schema/user-list.entity.ts:29 | no custom list's key fits the declared column |
| Lists.CreatedListIsAsAsked | src/modules/lists/lists.service.ts:95-123 | a created list has the given name, the slug given or generated, and a custom key; a refused call changes nothing |
| Lists.UpdateWrites | src/modules/lists/lists.service.ts:283-332 | exactly when an update is forbidden or conflicts, and that it writes the given name and slug alone |
| Lists.RemoveWrites | src/modules/lists/lists.service.ts:336-353 | a custom list goes with exactly its items; a system list is forbidden |
| Lists.AddItemWrites | src/modules/lists/lists.service.ts:212-252 | the item already there, a refusal without a title, or the item as asked |
| Lists.RemoveItemWrites | src/modules/lists/lists.service.ts:256-279 | the one item goes, or is reported missing |
| Lists.UnknownListsAreNotFound | src/modules/lists/lists.service.ts:212-353 | an id that is no list of the user's is not found by any operation |
| Lists.SystemListsSpelledOut | src/modules/lists/lists.service.ts:30-41 | the three names, slugs and keys |
| Lists.ListsService.EnsureSystemListsFor | src/modules/lists/lists.service.ts:60-91 | inserts the missing system lists, all or none |
| Lists.ListsService.CreateList | src/modules/lists/lists.service.ts:95-123 | the chosen slug, the conflicts and the new row |
| Lists.ListsService.UpdateList | src/modules/lists/lists.service.ts:283-332 | renames a custom list, or refuses with not found, forbidden or conflict |
| Lists.ListsService.RemoveList | src/modules/lists/lists.service.ts:336-353 | removes a custom list and its items |
| Lists.ListsService.AddListItem | src/modules/lists/lists.service.ts:212-252 | adds the item once; an item already there is returned |
| Lists.ListsService.RemoveListItem | src/modules/lists/lists.service.ts:256-279 | removes the item or reports it missing |
| Notifications.NotificationsService.FindAllForUserCursor | src/notifications/notifications.service.ts:100-140 | the page and the cursor of the next |
| Notifications.PageSpelledOut | src/notifications/notifications.service.ts:113-131 | a page is the first rows older than its cursor, says exactly when there are more, and then ends on the cursor's millisecond |
| Notifications.FeedHoldsTheRows | src/notifications/notifications.service.ts:108-121 | the feed holds the user's undeleted rows, each as often as the table does |
| Notifications.CursorReachesTheEnd | src/notifications/notifications.service.ts:124-131 | following the cursor ends, within one page more than there are rows |
| Notifications.FollowingTheCursor | src/notifications/notifications.service.ts:100-140 | pages show rows in descending order without repeats, and omit only rows of some page's last millisecond |
| Notifications.CompleteExactlyWhenNoSplit | src/notifications/notifications.service.ts:113-131 | the pages are the whole feed exactly when no full page ends inside a millisecond |
| Notifications.DistinctMillisecondsAreComplete | src/notifications/notifications.service.ts:113-131 | so they are when milliseconds are distinct |
| Notifications.DistinctStampsCanBeLost | src/notifications/notifications.service.ts:113-131 | distinct database stamps are not enough |

## Left out

- Stripe SDK calls, signature verification, TypeORM and Postgres themselves: what Stripe answers and the rows' new
  ids are parameters; SHA-256 is an arbitrary digest of the JSON text.
- One dispatch, one recompute, one `refundPayment` and one locked transaction are each one step with its outcomes;
  interleavings inside them are not modelled, so a `charge.refunded` between Stripe's reply and the administrator's save
  is not either. A handler that fails midway is (`InterruptedHandlers`), but in `WebhookLog` a failing dispatch fails
  before its first save.
- Of the calls under an idempotency key, subscription checkout and `refundPayment` are modelled whole; one-time checkout
  and `createSubscriptionPaymentIntent` have the same stretch without a recorded failure and are not.
- CheckoutKeys.KeyedCheckout.Resume: the recorded response is the session id; its URL and client secret are left out.
- Deliveries, replays and idempotency calls are interleaved call by call; `release` on a key is not modelled, and
  neither is trimming the key header.
- List operations run one after another: two `ensureSystemLists` calls racing each other are not interleaved.
- Where the server asks for one of several matching rows without an order, the model takes the first; under the
  invariants there is at most one.
- Columns nothing depends on: currency, descriptions, URLs, the stored invoice snapshot, metadata of rows,
  `updatedAt`; also emitted events, log lines and the redaction of error messages.
- Stripe ids are always present; a local id that is not a well-formed UUID finds no row, where Postgres would raise.
- RefundLedger.LedgerWithinStripe: leaves out `charge.refunded` without a refund list, which overwrites the aggregate
  from Stripe by design.
- CheckoutBinding.CompletionMayFallAnywhere: is about recurring prices, as a subscription checkout's are; a price
  changed to one-time in between would make the payment grant features too.
- SubscriptionCheckout.Overwrite: a save of a remembered shell writes its Stripe id, session and status; the columns
  the shell never set are left as the database has them.
- SubscriptionCheckout.Activate: of createSubscriptionFromPayment only the insert is modelled, not the payment
  update and the recompute that follow it.
- Slug.LowerChar: lower-casing is given for the characters whose lower-case form has an allowed character in it.
- Notifications.Feed: rows with equal stamps come in table order; the database leaves their order open.
- CanonicalJson.SortKeys: a number is the numeral JSON text writes for it, so how JavaScript prints numbers is not
  modelled; a member whose value is `undefined` is not part of the value, as it is not part of the text.
- Creating customers, one-time checkout, catalog and plans, portal, history, offset pagination, getUserEntitlements,
  listing and counting endpoints, marking notifications read or deleted.
