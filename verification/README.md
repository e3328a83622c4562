# A verified model of the shop

This project models the parts of a Telegram shop with crypto payments that decide about
money and stock, and proves what they guarantee. `dfyconfig.toml` lists the sources, so that
`dafny verify dfyconfig.toml` covers the whole project.

Tables are maps whose unique constraints are guards, sessions are open transactions, and
what a session loaded earlier may be stale. The main statements are about every run of
such steps, in any interleaving. Code that updates objects or loops is also given as
classes and methods, proved against the functions the lemmas are about.

| file | what it models |
|---|---|
| `Walks.dfy`, `Lifecycle.dfy` | shortest legal walks over any transition table; the order and payment tables, the guards, the order that follows its payment |
| `Rounding.dfy`, `Decimals.dfy`, `Money.dfy`, `AmountText.dfy` | decimal numbers in Python's 28-digit context, base units, comparison with tolerances, printing and reading of amounts |
| `CouponDiscount.dfy`, `Quote.dfy` | discounts with their caps, and the amount a customer is asked for |
| `Verification.dfy`, `Fingerprint.dfy`, `Verdicts.dfy` | the nine checks on an observed transfer, the choice among candidates, the identity of a transfer, what each answer says about its texts and amounts |
| `Credit.dfy`, `CreditLimits.dfy`, `PaymentDesk.dfy` | claiming a transfer, journalling the credit, manual approval, under overlapping passes |
| `Stock.dfy`, `StockCounts.dfy`, `StockDatabase.dfy` | items, reservations, row locks, counts and the reaper |
| `Coupons.dfy`, `CouponLimits.dfy` | redemption counters under overlapping checkouts and reverts |
| `Ledger.dfy` | insert-once tables under concurrent sessions, and the net total |
| `CreateOrder.dfy` | idempotent order creation through the reseller API |
| `Refunds.dfy` | refund requests, their completion and journal |
| `RedisLock.dfy`, `RateLimit.dfy` | the advisory lock and the fixed-window limiter |
| `Pages.dfy` | pagination |
| `Wrappers.dfy`, `Sets.dfy`, `Totals.dfy` | shared types and facts about finite sets and sums |

## What does not hold

Where the code and its comments or documentation disagree, the model follows the code. For
each point there is a lemma with a concrete case, and a lemma that says when the promise is
kept.

- `approve_manually` promises to refuse a transaction claimed by another intent. It looks at
  claims of the same order only, so one transfer can pay two orders
  (`CreditLimits.OneTransferPaysTwoOrders`, `CreditLimits.ApprovalCondition`). Credits are no more
  than claimed transfers exactly while every approval has a claim of its own
  (`Credit.ApprovalsMustHaveTransfers`). It also lists expired payments as approvable, which fails
  whenever the order expired too.
- A verification pass locks no row. One that loaded a payment in a status that is not final can
  take VERIFIED away again and send a paid order to review
  (`CreditLimits.OnlyFinalSnapshotsAreHarmless`, `CreditLimits.SlowerPassSendsPaidOrderToReview`).
- `create_intent` refuses a paid order and cancels an open payment so that only one is payable. It
  looks at both without a lock: when a pass credits the payment meanwhile, CANCELLED is written over
  VERIFIED, for good, and another payment is opened for the paid order
  (`CreditLimits.ReplacedWhilePaid`, `CreditLimits.ReplacementOverwrites`).
- A good transfer for an order that has expired or was cancelled is neither credited nor
  reviewed: the guard of the order raises and the pass is rolled back
  (`CreditLimits.LateTransferIsRolledBack`, `CreditLimits.VerifiedPassNeedsOpenOrder`). A pass that
  finds nothing for a payment already detected raises too (`CreditLimits.SeenTransferThenNothing`,
  `CreditLimits.NothingFoundNeedsAnUndetectedPayment`).
- `quote_expected_amount` promises never to ask for less than the order is worth. The division
  is rounded before the rounding up, and can lose a unit (`Quote.UnderchargedOrder`,
  `Quote.QuoteCoversExactlyWhen`).
- `base_units` promises an exact conversion. Amounts of more than 28 digits are rounded
  silently (`Money.BaseUnitsCanLoseAUnit`, `Money.BaseUnitsExactness`).
- The amount check compares at eight decimals, so for finer assets it can pass although the
  base units differ (`Verification.AmountCheckCanMissAUnit`, `Verification.FineAmountCheck`).
- A larger subtotal can end up 0.00000001 cheaper (`CouponDiscount.TotalCanDrop`,
  `CouponDiscount.TotalDropsExactlyWhen`).
- A reservation's uniqueness covers ended reservations, so an item can be released once and
  expired once; after that one stuck row blocks every pass of the reaper
  (`StockCounts.SecondReturnIsRefused`, `StockCounts.ReaperGetsStuck`,
  `StockCounts.StuckPassDoesNothing`, `StockCounts.PassReturnsAll`). Acting on a stale reservation can sell an item under another buyer
  (`StockCounts.StaleConsumeSellsAnothersItem`, `Stock.SetHoldExactlyWhenSafe`).
- Overlapping reverts lose a redemption (`Coupons.OverlappingRevertsLoseARedemption`,
  `Coupons.ExactlyPromptStepsCount`), and overlapping checkouts overshoot both limits of a
  coupon (`CouponLimits.OvershootIsReached`, `CouponLimits.UserOvershootIsReached`,
  `CouponLimits.OvershootIsBounded`, `CouponLimits.UserOvershootIsBounded`).
- Idempotency keys are not kept apart by reseller: a shared key shows one reseller the order
  of another (`CreateOrder.SharedKeysShowForeignOrders`, `CreateOrder.OnlySharedKeysShowForeignOrders`).
  Contrary to the comment in the route, a repeated reseller reference without a key makes a second
  order (`CreateOrder.KeylessRequestsAreRepeated`, `CreateOrder.RepeatsAreCaughtByKeyOnly`).
- The refund journal promises never to exceed the payment. Requests that are not yet completed
  are not counted, so two full refunds can both go out (`Refunds.TwoFullRefunds`,
  `Refunds.ReturnsStayWithinPayment`). A session that rejects a refund completed since it was
  loaded lets the payment be returned once more (`Refunds.StaleRejectionPaysTwice`,
  `Refunds.ExactUnlessUndone`).

## Model

| member | source | states |
|---|---|---|
| Walks.ShortestPath | app/domain/state_machines.py:47-78 | for any finite table the search ends, with a legal walk to the target that no other undercuts, or fails exactly when the target is unreachable |
| Walks.ShortestHasNoRepeats | app/domain/state_machines.py:47-58 | a shortest walk enters every status at most once |
| Lifecycle.PaymentPath | app/domain/state_machines.py:47-78 | the canonical path of a payment exists exactly when the stages of the lifecycle allow it, and has at most three steps |
| Lifecycle.OnlyVerifiedAndCancelledAreFinal | app/domain/enums.py:169-255 | exactly VERIFIED and CANCELLED are absorbing, and everything but CANCELLED can still be verified |
| Lifecycle.TwoShortestPaths | app/domain/state_machines.py:47-78 | the shortest path of an awaited payment to VERIFIED is not unique |
| Lifecycle.PaidStaysPaid | app/domain/enums.py:87-150 | a paid order stays paid along every accepted run that avoids manual review |
| Lifecycle.DeliveredIsKept | app/domain/enums.py:114-150 | a delivered order only ever is delivered, completed or refunded |
| Lifecycle.FulfilmentNeedsVerification | app/domain/enums.py:114-150 | no run from CREATED fulfils, delivers or refunds before a verification or a review |
| Lifecycle.StepsBySource | app/domain/enums.py:114-255 | for each status of an order and of a payment, exactly the statuses it can be entered from |
| Lifecycle.WhatMayBecomeOfAnOrder | app/domain/enums.py:114-150 | exactly which statuses an order can still reach from each other |
| Lifecycle.OrderFollowsPayment | app/domain/state_machines.py:23-94 | for the projection of the state machine: exactly for which pairs of order and payment every future of the payment moves the order by accepted steps |
| Lifecycle.ServiceFollowsPayment | app/domain/payments/service.py:627-690 | for the moves the payment service makes: every future is accepted exactly when the payment was cancelled or the order is pending, verified or in review |
| Lifecycle.WalksAreRuns | app/domain/state_machines.py:33-78 | the canonical paths are among the runs the order follows |
| Rounding.NearestEven | app/core/money.py:73-91 | the context rounds to the nearest, and a tie to the even one |
| Rounding.RoundIsExactWhenFits | app/core/money.py:73-91 | the context changes a coefficient exactly when it has more than 28 digits |
| Rounding.RoundMonotone | app/core/money.py:94-123 | rounding to the context never reverses an order |
| Money.BaseUnitsMeaning | app/core/money.py:73-85 | the conversion gives n exactly when the amount, as the context sees it, is n units, and fails exactly when it is no whole number |
| Money.BaseUnitsExactness | app/core/money.py:73-85 | a successful conversion is exact if and only if the amount has at most 28 significant digits |
| Money.BaseUnitsCanLoseAUnit | app/core/money.py:73-85 | an amount of 10^28 + 1 units converts without an error, to 10^28 |
| Money.NoSpareDecimals | app/core/money.py:88-91 | an amount made from base units has no zeros at the end of its decimals |
| Money.UnitsRoundTrip | app/core/money.py:73-91 | units survive the trip to an amount and back exactly when they have at most 28 significant digits |
| Money.UnitsRoundTripIsTight | app/core/money.py:73-91 | 10^28 survives the trip and 10^28 + 1 does not |
| Money.AmountRoundTrip | app/core/money.py:73-91 | an amount that converts comes back as the context sees it, and as it was exactly when it has at most 28 significant digits |
| Money.QuantizeAtScale | app/core/money.py:51-54 | quantising rounds the value to the nearest unit, a half away from zero, read at any finer scale |
| Money.CompareIsMonotone | app/core/money.py:94-123 | receiving more never lowers the verdict |
| Money.VerdictByTolerance | app/core/money.py:94-123 | which verdict every difference gets: exact up to the tolerance of its own side, underpaid or overpaid beyond |
| Money.ExactIsCloseEnough | app/core/money.py:94-123 | an exact verdict bounds the shortfall and the excess by the tolerance of their own side plus one unit |
| Money.ZeroTolerance | app/core/money.py:94-123 | without tolerance, exact means equal at eight decimals |
| AmountText.FormatAmount | app/core/money.py:57-70 | the text, followed by the currency if there is one, reads as the amount at max(dp, 8) decimals, with dp decimals or no zero to spare |
| AmountText.PadFraction | app/core/money.py:57-70 | the padding loop appends zeros up to the asked number of decimals, and changes no value |
| AmountText.DisplayIsFixedText | app/core/money.py:57-70 | the text has the asked decimals or the fewest that show the value, and no trailing zero beyond |
| AmountText.DisplayRoundTrip | app/core/money.py:34-70 | reading the printed text gives the quantised value back |
| CouponDiscount.PriceSplitsSubtotal | app/domain/coupons/service.py:91-114 | discount and new total are not negative and add up to the subtotal exactly |
| CouponDiscount.DiscountIsSmallest | app/domain/coupons/service.py:103-114 | the discount is the smallest of the cap, the subtotal and the value of a fixed coupon or the nearest to the percentage |
| CouponDiscount.PricedWhenSomethingIsTakenOff | app/domain/coupons/service.py:91-114 | a coupon is refused exactly when that is nothing |
| CouponDiscount.DiscountMonotone | app/domain/coupons/service.py:103-114 | a larger subtotal never gets a smaller discount |
| CouponDiscount.TotalMonotone | app/domain/coupons/service.py:91-114 | a larger subtotal never costs less by more than 10^-8, and not at all while both products lose equally many digits |
| CouponDiscount.TotalDropsExactlyWhen | app/domain/coupons/service.py:91-114 | exactly when the larger of two subtotals ends up cheaper, for every kind of coupon and any cap |
| CouponDiscount.TotalCanDrop | app/domain/coupons/service.py:91-114 | the lost 10^-8 does occur |
| Quote.QuoteIsTheNextUnitUp | app/domain/payments/verification.py:337-350 | the quote is less than a unit above the worth of the order, and covers it below 2 * 10^27 units |
| Quote.QuoteAtTheEnds | app/domain/payments/verification.py:337-350 | a rate that is not positive is refused, and a free order costs nothing |
| Quote.QuoteCoversExactlyWhen | app/domain/payments/verification.py:337-350 | every quote of a positive order covers it exactly when the division did not round down onto a multiple of the unit |
| Quote.AsksNoMoreThanNeeded | app/domain/payments/verification.py:337-350 | one unit less would not cover the order |
| Quote.SmallOrdersAreCovered | app/domain/payments/verification.py:337-350 | orders below the bound are always covered |
| Quote.UnderchargedOrder | app/domain/payments/verification.py:337-350 | a concrete order that is quoted below its worth |
| Verification.VerifiedIffAllPass | app/domain/payments/verification.py:74-267 | a transfer is verified if and only if all nine checks pass |
| Verification.FirstFailureDecides | app/domain/payments/verification.py:74-267 | the first failing check in the fixed order names the outcome |
| Verification.WaitsForTheRest | app/domain/payments/verification.py:245-258 | a payment right in all else waits for exactly the confirmations it lacks |
| Verification.SelectBestCandidate | app/domain/payments/verification.py:270-334 | verified exactly when some candidate verifies, waiting when the best one waits, never another address or a failed transfer, nothing when there is nothing else, and of its kind the first of the largest |
| Verification.FirstUnbeaten | app/domain/payments/verification.py:324-325 | the head of the stable sort by rank and falling amount |
| Verification.AmountCheckExactly | app/domain/payments/verification.py:167-188 | without tolerance the amount passes exactly when both amounts agree at eight decimals, whatever the precisions |
| Verification.FineAmountCheck | app/domain/payments/verification.py:167-188 | for an asset finer than eight decimals: exactly when the base units round to the same |
| Verification.VerifiedMeansPaid | app/domain/payments/verification.py:74-267 | a credit without tolerance stands for a settled transfer to the shop, in time, worth the expected amount at eight decimals |
| Verification.AmountCheckByTolerance | app/domain/payments/verification.py:167-188 | the amount passes exactly when the base units agree or the amounts differ within tolerance at eight decimals |
| Verdicts.VerifiedExactly | app/domain/payments/verification.py:74-267 | a transfer is verified exactly when it succeeded, on the network, in the symbol and the declared contract, to the address, with the memo, of the amount, in the window, and confirmed; each said of the texts and numbers themselves |
| Verdicts.WrongAssetExactly | app/domain/payments/verification.py:107-137 | WRONG_ASSET exactly when the symbol differs, or the declared contract is another one or not shown |
| Verdicts.WrongReceiverExactly | app/domain/payments/verification.py:139-153 | WRONG_RECEIVER exactly when the address is not the one given out |
| Verdicts.MemoMismatchExactly | app/domain/payments/verification.py:155-166 | MEMO_MISMATCH exactly when a memo is asked for and another one shown |
| Verdicts.StripIsTheMiddle | app/domain/payments/fingerprint.py:27-55 | only the space around a text is dropped, and all of it |
| Verification.AmountCheckIsExact | app/domain/payments/verification.py:167-188 | up to eight decimals and without tolerance the amount passes exactly when the base units agree |
| Verification.AmountCheckCanMissAUnit | app/domain/payments/verification.py:167-188 | with eighteen decimals a payment one unit short passes |
| Fingerprint.IdentityIsExact | app/domain/payments/fingerprint.py:73-91 | two transfers share a fingerprint text exactly when provider, network, normalised id and index agree |
| Fingerprint.HashInAnyForm | app/domain/payments/fingerprint.py:58-70 | a hash is recognised in any case and with or without its prefix |
| Fingerprint.IdsAreToldApart | app/domain/payments/fingerprint.py:58-70 | ids are told apart to the letter, hexadecimal ones without regard to case |
| Fingerprint.PrefixIsDropped | app/domain/payments/fingerprint.py:58-70 | the prefix of a hash, in either case, makes no difference |
| Fingerprint.NormalizingTwice | app/domain/payments/fingerprint.py:27-55 | normalising an address twice is normalising it once |
| Fingerprint.NormalizingTellsAddressesApart | app/domain/payments/fingerprint.py:27-55 | on every network, exactly which addresses count as the same |
| Credit.CreditIsEarned | app/domain/payments/service.py:299-474 | in every run a transfer is claimed by one intent and an intent claims one transfer, every claim passed all checks, VERIFIED means journalled, and what was not approved is journalled with the amount of its transfer |
| Credit.RunKeepsSound | app/db/repositories/payments.py:512-559 | claims, journal lines and frozen expectations are only ever added to, however passes interleave |
| Credit.NoMoreCreditsThanTransfers | app/domain/payments/service.py:627-672 | the engine never credits more payments than there are claimed transfers |
| Credit.ApprovalsMustHaveTransfers | app/domain/payments/service.py:755-812 | in every run the credited payments are no more than the claimed transfers if and only if every approved one has a claim |
| Credit.VerifyKeepsSound | app/domain/payments/service.py:299-619 | one pass, from claim to status, keeps every credit backed |
| Credit.ApproveKeepsSound | app/domain/payments/service.py:755-812 | an approval journals the credit together with its own entry |
| Credit.InsertClaimCases | app/db/repositories/payments.py:512-559 | a claim that is not held afterwards has changed nothing, and a new one was free on both constraints |
| CreditLimits.OnlyFinalSnapshotsAreHarmless | app/domain/payments/service.py:299-315 | a verification pass can undo a verified payment exactly when it loaded it in a status that is not final, and the same goes for any session, one that replaces the payment included |
| CreditLimits.ReplacementOverwrites | app/domain/payments/service.py:113-153 | a replacement takes VERIFIED away exactly when it loaded the payment open and the order unpaid |
| CreditLimits.ReplacedWhilePaid | app/domain/payments/service.py:113-153 | a reachable shop with a journalled credit on a cancelled payment, and a further payment open for the paid order |
| CreditLimits.CurrentRunsKeepVerified | app/domain/payments/service.py:627-672 | when no pass is overtaken, VERIFIED and journalled are the same and last |
| CreditLimits.VerifiedPassNeedsOpenOrder | app/domain/payments/service.py:627-644 | a good transfer is credited, and its order paid, exactly while the loaded order is pending, in review or paid |
| CreditLimits.LateTransferIsRolledBack | app/domain/payments/service.py:627-644 | a reachable shop with an expired order in which every pass over a good transfer changes nothing |
| CreditLimits.SeenTransferThenNothing | app/domain/payments/service.py:573-585 | a reachable payment waiting for confirmations over which a pass that finds nothing changes nothing |
| CreditLimits.NothingFoundNeedsAnUndetectedPayment | app/domain/payments/service.py:573-585 | a pass that finds nothing finishes exactly for payments not yet detected |
| CreditLimits.UncreditedPass | app/domain/payments/service.py:556-605 | from every status that is not final, a pass without a good transfer moves no money; trouble at the provider never fails a payment, and unexpected money waits for a human with its order |
| CreditLimits.OrdersMoveWithTheirPayment | app/domain/payments/service.py:627-690 | a session not overtaken moves the order just as the moves of the service above say |
| CreditLimits.ApprovalCondition | app/domain/payments/service.py:755-812 | exactly when a manual approval credits, by what it read at its load, with which amount, and that it otherwise changes nothing |
| CreditLimits.ApprovedAtOnce | app/domain/payments/service.py:769-791 | loaded and approved at once, a payment is credited exactly when the two statuses allow it and every claim of the order is its own |
| CreditLimits.RejectedSubmittedLapsed | app/domain/payments/service.py:814-838 | what an operator, the customer and the clock do to a payment, by the status it was loaded with |
| CreditLimits.OneTransferPaysTwoOrders | app/domain/payments/service.py:763-789 | a reachable state in which one claimed transfer has paid two orders |
| CreditLimits.SlowerPassSendsPaidOrderToReview | app/domain/payments/service.py:410-436 | a reachable state in which a paid, journalled order is back in review |
| CreditLimits.DuplicateToReview | app/domain/payments/service.py:410-436 | a transfer that cannot be claimed puts payment and pending order under review and touches nothing else |
| PaymentDesk.Session.Advance | app/domain/payments/service.py:742-751 | walking the path writes the target, or refuses and writes nothing |
| PaymentDesk.Session.ClaimTransfer | app/domain/payments/service.py:438-474 | the claim is inserted unless a constraint refuses it, and a claim already held counts as held |
| PaymentDesk.Session.Credit | app/domain/payments/service.py:627-672 | the statuses and the journal line of a credit, for what was received or else expected, or a refusal |
| PaymentDesk.Session.Settle | app/domain/payments/service.py:556-605 | what each outcome does, and exactly when a guard refuses it |
| PaymentDesk.Session.RunPass | app/domain/payments/service.py:299-436 | a whole pass leaves what the model of it says, rolled back when a guard raises |
| PaymentDesk.Session.ReplaceIntent | app/domain/payments/service.py:104-211 | the open payment cancelled and a new one added, or a refusal by what was loaded |
| PaymentDesk.Session.ApproveByHand | app/domain/payments/service.py:755-812 | a whole approval, rolled back when a guard raises |
| Stock.NoDoubleBooking | app/db/repositories/catalog.py:287-309 | in every interleaving the rows written by open transactions are disjoint and no item has two active or two consumed reservations |
| Stock.SetHoldExactlyWhenSafe | app/db/repositories/catalog.py:411-446 | release, expire and consume keep item and reservations in agreement exactly when the reservation is active or nobody else holds the item |
| Stock.FreshRunsStayBacked | app/db/repositories/catalog.py:411-456 | acting on active reservations only, purges included, an active reservation's item is reserved and a consumed one's sold |
| Stock.FreshRunsStaySettled | app/db/repositories/catalog.py:411-446 | without purges the agreement holds both ways |
| Stock.SoldIsFinal | app/db/repositories/catalog.py:411-456 | a sold item stays sold in every run, stale steps included |
| Stock.EndedReservationsAreFinal | app/db/models/catalog.py:216-217 | ended reservations never change, and an item returns to stock at most twice |
| Stock.OnceMoreChangesNothing | app/db/repositories/catalog.py:411-446 | doing the same to a reservation once more is not refused and changes nothing |
| StockCounts.CountsAddUp | app/db/repositories/catalog.py:256-266 | the counts by status add up to the items of the product |
| StockCounts.CountsAreConserved | app/db/repositories/catalog.py:256-266 | no step of any run changes that sum |
| StockCounts.AvailableCountsFor | app/db/repositories/catalog.py:268-285 | the batched count agrees with the single one for every product asked |
| StockCounts.ClaimTakesFreeItems | app/db/repositories/catalog.py:287-309 | a claim takes unlocked available items of the product, the oldest, and as many as asked for or as there are |
| StockCounts.ReserveMovesCounts | app/domain/inventory/service.py:122-179 | a reservation goes through exactly when enough items are free, and moves exactly the quantity asked for from available to reserved, of this product only |
| StockCounts.PurgeTakesOnlyItsOrder | app/db/repositories/catalog.py:448-456 | no active reservation of the order is left, and nothing else is touched |
| StockCounts.BatchIsAllOrNothing | app/domain/inventory/service.py:190-208 | one refused reservation rolls the whole batch back |
| StockCounts.BatchSetsEveryEntry | app/domain/inventory/service.py:190-208 | a batch without one sets every reservation in it |
| StockCounts.StuckPassDoesNothing | app/domain/inventory/service.py:199-208 | a stuck reservation makes the pass of the reaper change nothing |
| StockCounts.PassReturnsAll | app/domain/inventory/service.py:199-208 | otherwise the pass expires every due reservation |
| StockCounts.SecondReturnIsRefused | app/db/models/catalog.py:216-217 | an item the shop reaches, and whose second release, or second expiry, is refused |
| StockCounts.ReaperGetsStuck | app/domain/inventory/service.py:199-208 | a shop reached with one due reservation over which every pass of the reaper changes nothing |
| StockCounts.StaleConsumeSellsAnothersItem | app/db/repositories/catalog.py:438-446 | an item the shop reaches, sold by a stale consume while another buyer holds it |
| StockDatabase.Database.ClaimAvailable | app/db/repositories/catalog.py:287-309 | the loop claims the oldest available rows nobody else has locked, as many as asked for or as there are |
| StockDatabase.Database.ReserveStock | app/domain/inventory/service.py:122-179 | the claimed rows are marked and reserved, or the session is rolled back |
| StockDatabase.Database.Release | app/db/repositories/catalog.py:411-423 | the new tables after a release |
| StockDatabase.Database.Expire | app/db/repositories/catalog.py:425-436 | the new tables after an expiry |
| StockDatabase.Database.Consume | app/db/repositories/catalog.py:438-446 | the new tables after a sale |
| StockDatabase.Database.PurgeForOrder | app/db/repositories/catalog.py:448-456 | the active rows of the order are deleted, items untouched |
| StockDatabase.Database.ReapExpired | app/domain/inventory/service.py:199-208 | a pass expires all due reservations or none |
| Coupons.CounterNeverExceedsRows | app/db/repositories/orders.py:199-246 | in every interleaving the counter lies between zero and the unreverted rows |
| Coupons.ExactlyPromptStepsCount | app/db/repositories/orders.py:231-246 | a step keeps the counter exact precisely when it gives back a row nobody gave back meanwhile, or finds the counter at zero |
| Coupons.CounterIsExact | app/db/repositories/orders.py:199-246 | while no revert is overtaken the counter is the number of unreverted rows |
| Coupons.AnOrderRedeemsOnce | app/db/models/order.py:83-104 | an order redeems once, and what was given back stays given back |
| Coupons.RevertFreesBothPlaces | app/db/repositories/orders.py:192-246 | a redemption takes one place under each limit, and giving it back frees both |
| Coupons.OverlappingRevertsLoseARedemption | app/db/repositories/orders.py:231-246 | two overlapping reverts leave a standing redemption uncounted |
| Coupons.CouponRepository.RedeemFor | app/db/repositories/orders.py:199-229 | the row and the counter, or nothing for a second row of an order |
| Coupons.CouponRepository.RevertFor | app/db/repositories/orders.py:231-246 | the row and the counter given back once |
| Coupons.CouponRepository.Check | app/domain/coupons/service.py:83-91 | passes exactly when both limits leave room |
| CouponLimits.OvershootIsBounded | app/domain/coupons/service.py:83-91 | with at most k checkouts in between the counter of a coupon exceeds its own limit by at most k - 1 |
| CouponLimits.UserOvershootIsBounded | app/domain/coupons/service.py:86-91 | the same for the rows of one customer |
| CouponLimits.OneAtATimeKeepsBothLimits | app/domain/coupons/service.py:83-91 | one checkout at a time keeps both limits of every coupon exactly |
| CouponLimits.OvershootIsReached | app/domain/coupons/service.py:83-91 | for every k and every coupon the bound is reached |
| CouponLimits.UserOvershootIsReached | app/domain/coupons/service.py:86-91 | and so is that of one customer, unless the total limit is tighter |
| Ledger.FirstEntryStays | app/db/repositories/orders.py:312-358 | over any interleaving a committed entry is never altered |
| Ledger.EveryEntryWasCommitted | app/db/repositories/orders.py:312-358 | every entry carries the amount of the session that committed its key first |
| Ledger.EveryEntryWasRecorded | app/db/repositories/orders.py:312-358 | in every run from an empty table an entry carries the amount handed to the step that recorded it, by the session that committed the key first |
| Ledger.TotalOfWhatWasRecorded | app/db/repositories/orders.py:368-372 | the net total is the sum of these amounts |
| Ledger.OneSession | app/db/repositories/orders.py:312-358 | a session records under a free key and commits, or rolls back and leaves the table alone |
| Ledger.TotalIsConserved | app/db/repositories/orders.py:368-372 | the net total moves by exactly the rows the sessions committed, each key once |
| Ledger.LostRace | app/db/repositories/orders.py:350-357 | what a lost race leaves to commit, with a savepoint and without |
| Ledger.LostRaceLosesWork | app/db/repositories/resellers.py:237-245 | the two differ exactly when the session had written something before |
| Ledger.LedgerSession.Record | app/db/repositories/orders.py:312-358 | the entry is added unless its key is taken; a late conflict empties the session |
| Ledger.LedgerSession.StoreOnce | app/db/repositories/resellers.py:309-335 | a conflict leaves the rest of the session alone |
| CreateOrder.RunKeepsSound | app/api/routes/orders.py:121-175 | in every run at most one order exists per reseller and key, and no stored response lacks its order |
| CreateOrder.FirstResponseIsReplayed | app/api/dependencies/idempotency.py:35-52 | until the purge the same body gets the first response and another is refused, with no table changed |
| CreateOrder.PurgedKeyFindsTheOrder | app/api/routes/orders.py:127-135 | the purge removes the record of the key only, and then the key finds its order, whatever the body |
| CreateOrder.OwnKeysGetOwnOrders | app/api/routes/orders.py:121-175 | when resellers share no key every response shows the asking reseller's own order |
| CreateOrder.OwnKeysAreRecorded | app/db/repositories/resellers.py:309-335 | then every order created under a key stores its response |
| CreateOrder.OnlySharedKeysShowForeignOrders | app/api/routes/orders.py:121-175 | every run over given resellers and keys shows own orders only, exactly when no two of them share a key |
| CreateOrder.SharedKeysShowForeignOrders | app/api/routes/orders.py:121-125 | two resellers with one key: the second sees the first one's order, or a conflict |
| CreateOrder.ServingCreates | app/api/routes/orders.py:121-186 | a request served in full makes the order asked for, and keeps its answer, exactly when its key has neither a stored response nor an order; otherwise it writes nothing |
| CreateOrder.RepeatsAreCaughtByKeyOnly | app/api/routes/orders.py:121-186 | of a request sent twice, with anything in between, both make an order exactly when it carries no key |
| CreateOrder.KeylessRequestsAreRepeated | app/api/routes/orders.py:127-135 | without a key the same reference makes two orders |
| CreateOrder.Endpoint.ReceiveRequest | app/api/dependencies/idempotency.py:35-52 | the replay as a step on the tables |
| CreateOrder.Endpoint.LookupOrder | app/api/routes/orders.py:127-135 | the lookup as a step on the tables |
| CreateOrder.Endpoint.CommitOrder | app/api/routes/orders.py:137-186 | the insert and the record, in one transaction |
| Refunds.JournalIsForGood | app/domain/orders/refunds.py:145-205 | in every run, stale sessions included, a refund is journalled at most once, with its amount, and no line is altered |
| Refunds.ExactUnlessUndone | app/domain/orders/refunds.py:120-178 | a step keeps the journal equal to the completed refunds exactly when it does not approve or reject one completed since it was loaded |
| Refunds.JournalTellsTheRefunds | app/domain/orders/refunds.py:145-205 | as long as it does, the journal adds up to the completed refunds |
| Refunds.ReturnsStayWithinPayment | app/domain/orders/refunds.py:50-120 | while no session is overtaken and nothing more is requested, the money returned stays within the payment exactly when everything still open does too |
| Refunds.RequestsAddUp | app/domain/orders/refunds.py:80-118 | in every run the refunds on record add up to exactly what their requests asked for, in full or in part |
| Refunds.OneAtATimeIsSafe | app/domain/orders/refunds.py:50-120 | with one request at a time and no session overtaken no run returns more than was paid |
| Refunds.TwoFullRefunds | app/domain/orders/refunds.py:60-100 | two full requests are accepted and twice the payment is returned, no session overtaken |
| Refunds.StaleRejectionPaysTwice | app/domain/orders/refunds.py:132-143 | with one request at a time a stale rejection lets twice the payment be returned |
| Refunds.AllCanBeSettled | app/domain/orders/refunds.py:120-205 | every open refund can still be completed |
| Refunds.RefundDesk.AddUpRefunded | app/db/repositories/orders.py:301-306 | the loop adds up the completed and processing refunds |
| Refunds.RefundDesk.QuoteRefund | app/domain/orders/refunds.py:80-100 | a named amount is granted as it is when it is positive and still left, no amount means all that is left, and why nothing else is |
| Refunds.RefundDesk.ApproveRefund | app/domain/orders/refunds.py:120-130 | the approval, by the status that was loaded, and nothing else |
| Refunds.RefundDesk.RejectRefund | app/domain/orders/refunds.py:132-143 | the rejection, by the status that was loaded |
| Refunds.RefundDesk.CompleteRefund | app/domain/orders/refunds.py:145-205 | the status and one journal line per refund |
| RedisLock.OnlyOwnerOrTimeRemoves | app/core/redis.py:29-35 | a live key disappears only by its owner's release or by time, and is not overwritten |
| RedisLock.LeasesAreExclusive | app/core/redis.py:85-150 | in every run two unexpired leases are the same, outages included |
| RedisLock.LeaseIsKept | app/core/redis.py:126-150 | late holders and holders let through by an outage never end another's lease |
| RedisLock.AttemptSucceedsExactly | app/core/redis.py:109-124 | an attempt succeeds exactly when the key is gone or its time is over, or Redis is down, and only then writes a lease for its own time |
| RedisLock.ReleasedIsFree | app/core/redis.py:29-35 | after the owner's release the next attempt gets a lease of its own |
| RedisLock.Acquire | app/core/redis.py:109-124 | the retry loop returns at the first decisive turn and fails only on a taken key after the deadline |
| RateLimit.WindowAllowsTheLimit | app/core/redis.py:38-44 | a window lets exactly min(limit, arrivals) requests through |
| RateLimit.LessThanTwiceTheLimit | app/core/redis.py:153-181 | an interval as long as a window lets fewer than twice the limit through |
| RateLimit.BurstIsAllowed | app/core/redis.py:153-181 | one less than twice the limit is reached |
| RateLimit.Limiter.Call | app/core/redis.py:153-181 | the counter after a call and its verdict; an outage allows |
| Pages.PagesCoverTheRows | app/db/repositories/base.py:27-81 | following has_next from the first page shows every row once, in order |
| Pages.VisitsEveryPage | app/db/repositories/base.py:27-81 | it visits exactly as many pages as the page count says |
| Pages.PageCountHoldsEveryRow | app/db/repositories/base.py:27-34 | the least number of pages that holds every row, one at least |
| Pages.SmallNumbersAreRaised | app/db/repositories/base.py:73-81 | a page or a size below one is read as one |
| Pages.NextExactlyWhenRowsAreLeft | app/db/repositories/base.py:27-34 | a page has a successor exactly when rows are left behind it |

## Left out

- Lifecycle: `order_status_for_payment` has no caller in the repository; what the payment service does to orders is `Lifecycle.ServiceFollowsPayment` and `Credit`.
- Credit: intents, orders, claims and journal only; attempts, evidence, polling times and reconciliation records are not part of this model. Reads of a session are taken at its load, the constraints at its commit. Of the guards of `create_intent` the paid order and the open payment are modelled; those on the method, its rate and its limits only refuse more.
- Money: exponent limits and signals of the decimal context other than the 28 digits; amounts that are not finite.
- AmountText: only plain literals are read, without exponents or surrounding space, and `dp` is not negative.
- Verification: case folding is ASCII only, space is blank, tab, newline and return, and evidence texts of the checks are left out.
- Fingerprint: the SHA-256 of the identity is taken to be injective.
- Stock: adding stock, marking items invalid, allocation to order items, extension of reservations, and the column that ties a reservation to an order item. A stale release also locks the item row here when it matches none.
- Coupons: the checks of `evaluate` other than the two limits only refuse more, and are left out.
- CreateOrder: validation, stock, quote, intent and webhooks of a new order are one flag; request bodies stand for their fingerprints.
- Refunds: the payment of the order is fixed, amounts are whole units of 10^-8, and the status of the order is not moved. A commit sees the journal lines committed before it; one that loses a race over a line is rolled back, as if it never committed.
- RedisLock: `extend`, which does not look at the owner; tokens are taken to be distinct.
- RateLimit: the retry hint; the clock has no skew.
- Pages: the quotient is computed exactly, as floating point does below 2^53 rows.
- The SQL engine, sessions beyond read committed with unique constraints, and migrations are not part of this model.
- Telegram handlers, provider adapters, delivery, notifications, configuration and cryptography would add no deep invariant.
