# The BIDit money engine, modelled and proved

This project models how BIDit holds, reserves and moves money: an append-only double-entry
ledger with holds; the live-auction, offer and fixed-price machines that reserve and spend from
it; the delivery-gated escrow order machine with its timers; and the rails that keep the chain
and the ledger in step (transactional outbox, withdrawals, deposits).

Two kinds of modules work together.

- **Step machines** (`Funds`, `Replay`, `Escrow`, `Outbox`, `Withdrawals`, `Deposits`, `DepositProcess`, `Stock`) cut
  the program at every point another caller can see: each database transaction, each conditional
  claim, each separate read of a check is a step, a call may crash between its steps, and runs
  interleave the steps of any number of calls. The theorems hold for every run; where a promise fails in
  some runs, the run-level theorem is an if-and-only-if and names the steps that break it.
- **Programs** (`Ledger`, `AuctionHouse`, `OfferDesk`, `MarketDesk`, `Charges`, `OrderDesk`,
  `ChainSettler`, `WithdrawalRail`, `DepositWatcher`, `PriceOracle`) are the methods themselves, with the
  source's fields, loops and branches. Their contracts state the whole new state, and `Valid()` says
  that what is stored was *reached by a run* of the step machine, so every theorem about runs holds
  of every state a method leaves. (`DepositWatcher` keeps the invariant of the serial runs instead, and
  `OrderDesk` is reached by runs without harmful stale transitions.)
  Suspended calls of others appear as ghost maps (`calls`, `txns`); a call that needs a row lock
  requires that nobody else holds it.

Money is an integer number of USDC micro-units, ids are numbers, time is in milliseconds. The two
BPS splits, the bid increments and the anti-snipe rule are modelled with their real arithmetic
(packages/shared/src/money.ts and auction.ts). The chain client is the oracle its comments describe: a
send throws only before broadcast, and "confirmed" and "failed" are definite. Prices, addresses and
what a poll returns are parameters.

## What the proofs found

Where the code and its comments disagree, the model follows the code. Each of these is a lemma with a
concrete run or input, next to the exact condition under which the promise holds.

- **The price of an order whose shipping was paid can go to the seller.** The charge, the move of the item and
  the start of the seller's clock are three writes. The manual discard tests the clock inside its claim, the
  timer before it; neither tests the charge. Over every run this happens if and only if a claim is won between
  the charge and the clock, or by the timer after a clock it did not see, or the charge comes after the claim
  (`ForfeitedButPaidIff`). Runs: `DiscardInTheGap`, `TimerForfeitsPaidOrder`, `ChargedAfterForfeit`, and
  `CrashedPaymentIsForfeited`, which needs no race at all.
- **An item whose shipping was paid can be discarded without any claim.** A direct order has no price to claim,
  and the timer writes the item off whether or not its claim is won. Over every run a paid item is discarded if
  and only if it was retired between charge and move, or by the timer after a payment, or charged after its
  retirement, and no payment has moved it into a shipment since (`DiscardedButPaidIff`). Runs:
  `DirectItemIsDiscardedInTheGap`, `TimerDiscardsShippedItem`.
- **A package transition that was read earlier overwrites a decided order.** Status and books agree throughout
  a run if and only if no such write meets an order whose release or refund has posted or is owed
  (`RunAgreesIff`); a conditional update would never do that (`ConditionalWriteIsSafe`). The money is safe all
  the same. Run: `StaleDeliveryUndoesARefund`.
- **The timer reads that a dispute window is over, and claims by the status alone.** Over every run it never
  releases an order less than two days after a delivery (`NoEarlyRelease`); the window is open at the claim if and
  only if the package was delivered again since the read (`ReleasedInsideIff`). Run: `ReleasedInsideTheWindow`.
- **An escrowed order can be forgotten.** Crash recovery, which means to leave none half applied, looks at RELEASED
  and REFUNDED orders only. Over every run an order stays in escrow with nobody to finish it if and only if the
  last call that tended it crashed between its lock and its LOCKED status, or between its CANCELED status and
  its refund, and no stale transition has rewritten its status since (`ForgottenIff`). Runs:
  `PendingAndForgotten`, `CanceledAndForgotten`.
- **The reconciler's NEEDS_REVIEW write is not conditional.** It breaks a daily limit if and only if its row has
  failed meanwhile and a window around the row is full again (`FlagBreaksALimitIff`, `LimitsHoldIff`). Run:
  `StaleFlagBreaksTheLimit`.
- **A debit is stranded** for ever if and only if its request crashed after posting it and before recording the
  broadcast or posting a reversal (`StrandedIff`). Runs: `CrashAfterTheDebit`, `CrashAfterTheBroadcast`.
- **A leg can move twice** when a broadcast is not recorded - the settler crashes, or its write fails. No leg has
  two broadcasts that can land if and only if no tick sends a row whose own unrecorded broadcast has not been
  dropped (`StaysSingleIff`); the wallets are off by exactly what landed again. Run: `LegLandsTwice`.
- **A deposit can be lost between its sweep and its record.** The promise that a crash never loses one holds from
  the record on. Over every run a swept deposit is lost if and only if its tick was killed, or its write failed,
  before the record, or the transfer landed unreported (`LostIff`). Run: `KilledAfterTheSweep`.
- **Reserved shipping is freed with the capture**, before it is charged. It is still there if and only if the
  winner's own transactions in between - debits, bids, offers - cost no more than what was available before and
  what others gave (`ShippingIsStillThereIff`). Run: `AnOfferTakesTheShipping`.
- **Starting an auction re-checks neither stock nor status** when the listing goes live, so the last unit can be
  sold twice (`StartOversellsIff`). Run: `StaleStartOversells`.
- **In the price orders of the feed** the database order is not the merge order. Without ties a page is right if
  and only if every row up to its end is among the top rows of its own source (`PageIsExactIff`). Input:
  `PriceSortHidesTheCheapest`.
- **Wallets that share an address** make the audit report differences although nothing is missing
  (`QuietAuditIsZeroIff`). Run: `SharedAddressIsReported`.
- **The fee stored on an order** and the fees its release posts can differ by one micro-unit
  (`StoredFeeAgainstReleasedFees`). Input: `TwentyStoresAFeeItNeverReleases`.
- **A next bid is a real raise** if and only if the auction's first step is one (`RealRaisesIff`); otherwise two
  equal bids are accepted (`EqualBidsAreAccepted`).

One suspicion came to nothing. The startup deposit pass does not take the poll's guard, but the process awaits
it before it polls or listens, so its passes are serial (`ProcessIsSerial`). Two processes on one database would
not be; `StaysSafeIff` says exactly which steps would then misprice a receipt, and `OverlapMisprices` is such a
run.

## Model

| member | source | states |
|---|---|---|
| `Money.SplitSaleConserves` | packages/shared/src/money.ts:106-116 | the three parts of a release are non-negative and sum to the amount; the seller gets at least 95 percent |
| `Money.FeesAreRoundedDown` | packages/shared/src/money.ts:83-116 | the two released fees are four percent and one, the stored one five, each rounded down to the micro-unit |
| `Money.StoredFeeAgainstReleasedFees` | packages/shared/src/money.ts:83-96 | the two-way fee equals the two released fees exactly when the discarded fractions stay below one micro-unit; otherwise it is one too high |
| `Money.TwentyStoresAFeeItNeverReleases` | packages/shared/src/money.ts:83-96 | an amount for which they differ |
| `Money.StrictStepsIff` | packages/shared/src/auction.ts:43-66 | every next bid, whatever the current one, is strictly above it if and only if the floor is positive or the step is at least 100 percent |
| `Money.RealRaisesIff` | packages/shared/src/auction.ts:43-66 | every step an auction can ask for is a real raise if and only if its first one is: a positive floor, a starting bid in a fixed tier, or a percentage that does not round to nothing |
| `Money.Tiers` | packages/shared/src/auction.ts:43-56 | five dollars from 150 on, two from 50 on, below that the percentage rounded toward zero but at least the floor |
| `Books.ReleaseMovesTheAmount` | packages/backend/src/ledger.ts:590-638 | a release takes exactly the amount out of escrow, into seller, buyback and fee pools, and touches no other account |
| `Books.RefundMovesTheAmount` | packages/backend/src/ledger.ts:641-673 | a refund takes exactly the amount out of escrow and gives it to the order's buyer; every other account is untouched |
| `Books.CreditMoves` | packages/backend/src/ledger.ts:178-213 | a credit brings exactly the amount from outside to its user |
| `Books.DebitMoves` | packages/backend/src/ledger.ts:219-257 | a debit takes exactly the amount from its user to the outside |
| `Books.DirectSaleMoves` | packages/backend/src/ledger.ts:385-441 | a direct sale hands exactly the price from buyer to seller |
| `Books.LockMoves` | packages/backend/src/ledger.ts:507-562 | a lock hands exactly the price from the buyer to escrow |
| `Books.ShippingMoves` | packages/backend/src/ledger.ts:450-496 | a shipping charge hands exactly the fee from the buyer to the fee pool |
| `Books.CaptureIsOwn` | packages/backend/src/ledger.ts:395-409 | a capture closes every active hold of the winner on that auction and touches no other; nobody else's holds change |
| `Books.EnqueueAdds` | packages/backend/src/ledger.ts:105-111 | a queued leg is a positive one whose key is new; it starts pending and unsent; no row is lost or added otherwise |
| `Books.KeyedLegIsWritten` | packages/backend/src/ledger.ts:64-81 | the one keyed leg of an operation is never lost to the zero-leg filter, and no other row written carries a key |
| `Ledger.Ledger.PostEntries` | packages/backend/src/ledger.ts:64-81 | legs are appended all together or not at all; an imbalance is refused, a repeated key aborts; the books stay balanced and keys unique |
| `Ledger.Ledger.Credit` | packages/backend/src/ledger.ts:178-213 | bad amounts throw, a posted key is a no-op, otherwise exactly the two legs are appended; the user gains exactly the amount and no other user's balance changes |
| `Ledger.Ledger.Debit` | packages/backend/src/ledger.ts:219-257 | as above the other way round, and refused without change when settled minus active holds is short |
| `Ledger.Ledger.SettleDirectSale` | packages/backend/src/ledger.ts:385-441 | an auction win is checked against the settled balance and captures its hold in the same transaction; any other sale against what is available; the price goes from buyer to seller and nowhere else; a refusal rolls everything back |
| `Ledger.Ledger.SettleShipping` | packages/backend/src/ledger.ts:450-496 | the fee goes from the buyer to the fee pool once per shipment, and the mirroring wallet leg is queued with it and only then |
| `Ledger.Ledger.EscrowLock` | packages/backend/src/ledger.ts:507-562 | the price goes from the buyer into escrow once per order, with its hold captured and its wallet leg queued, or nothing changes |
| `Ledger.Ledger.EscrowRelease` | packages/backend/src/ledger.ts:590-638 | posts under the key it shares with the refund, so at most one of the two ever posts; seller and pools get their shares and nobody else anything |
| `Ledger.Ledger.EscrowRefund` | packages/backend/src/ledger.ts:641-673 | the whole amount goes from escrow to the buyer, and nowhere else, under that same key |
| `Replay.ReplayRefinesOnce` | packages/backend/src/ledger.ts:184-212 | for every interleaving of repeated calls, also past the pre-check, balances equal those of applying each distinct key once; totals are zero; no returned call lost its keyed row |
| `Replay.OperationsAreWellFormed` | packages/backend/src/ledger.ts:225-256 | every keyed operation has the balanced one-key shape the replay argument needs |
| `Funds.StepKeeps` | packages/backend/src/auction.ts:199-250 | the whole invariant (solvency, hold linkage, rows, reads under lock) is kept by every step of every transaction, unlocked steps in between included |
| `Funds.ReserveIsCovered` | packages/backend/src/ledger.ts:395-418 | the settled balance of a leader covers the standing reserve |
| `FundsTheorems.AvailableNeverNegative` | packages/backend/src/ledger.ts:748-752 | no user's settled balance minus active holds is ever negative, in any interleaving |
| `FundsTheorems.OnlyTheLockHolderLowers` | packages/backend/src/ledger.ts:229-251 | a step that is not the commit of the lock holder can only raise what a user has available |
| `FundsTheorems.LeaderHasExactlyTheReserve` | packages/backend/src/auction.ts:209-250 | a running auction with a leader, and a settling one not yet charged, has exactly one active hold, the leader's, of current bid plus the leading bid's shipping; every other auction has none |
| `FundsTheorems.SettlementCheckNeverFails` | packages/backend/src/ledger.ts:517-530 | the settled-balance check of an auction settlement passes in every run |
| `FundsTheorems.CaptureFreesExactlyTheShipping` | packages/backend/src/ledger.ts:395-409 | capture and charge together leave the winner with exactly the reserved shipping more to spend |
| `Spending.StepChanges` | packages/backend/src/ledger.ts:748-752 | every step changes what a user has available by exactly what its intent costs (debits, bid and offer reserves, less a captured one) and what it gives (credits, the reserve of an outbid leader, a freed offer) |
| `FundsTheorems.ShippingIsStillThereIff` | packages/backend/src/fulfillment.ts:613-675 | whatever runs between the capture and the shipping charge, the shipping can be charged if and only if the winner's own transactions cost no more than was available before the capture and what others gave since; always if there were none |
| `FundsRuns.AnOfferTakesTheShipping` | packages/backend/src/fulfillment.ts:655-664 | a run in which the winner's next offer takes it |
| `FundsTheorems.DeadlinesHold` | packages/backend/src/auction.ts:171-189 | a running deadline never moves earlier, no bid is taken at or after it, no close comes before it, and a marketplace auction never closes within two minutes of its last bid |
| `FundsTheorems.WinnerIsUniqueLastAndHighest` | packages/backend/src/auction.ts:323-359 | exactly one bid is WON: the last accepted, the leader's, and above all others when the auction's steps are real raises |
| `FundsTheorems.OpenOffersAreBacked` | packages/backend/src/offers.ts:97-133 | an open offer has exactly one active hold of amount plus shipping; a closed one none, once its call has freed it |
| `AuctionRules.AcceptKeepsRow` | packages/backend/src/auction.ts:220-270 | an accepted bid becomes the only active and the last one, in time, the highest when steps are real raises, and the deadline does not shrink |
| `AuctionRules.AcceptedBid` | packages/backend/src/auction.ts:220-270 | the accepted bid leads, every earlier one is outbid, and of the row only current bid, leader and deadline change |
| `AuctionRules.DeadlineRules` | packages/shared/src/auction.ts:73-83 | on the marketplace at least the floor remains; in a live room a bid in the last five seconds adds one second, in the last three two, up to five |
| `AuctionRules.CloseCloses` | packages/backend/src/auction.ts:335-374 | with a leader the auction settles and its last bid alone is WON; without one it closes |
| `AuctionRules.EqualBidsAreAccepted` | packages/backend/src/auction.ts:185-190 | without real raises two equal bids pass every check one after the other |
| `AuctionHouse.StartAuction` | packages/backend/src/auction.ts:114-137 | only a pending auction starts, with the deadline one duration away, and its listing goes live |
| `AuctionHouse.PlaceBid` | packages/backend/src/auction.ts:156-280 | each refusal in the code's order, by its own test, changes nothing; an accepted bid leads, outbids every earlier one, is backed by the auction's only hold, takes exactly its reserve from the bidder and gives exactly the old reserve back to the outgoing leader |
| `AuctionHouse.PlaceMarketBid` | packages/backend/src/market.ts:553-602 | refuses strangers to the market, sellers, and bidders without address or lane; reserves the seller's shipping price with the bid, and afterwards at least two minutes remain, and no more than before otherwise |
| `AuctionHouse.CloseOne` | packages/backend/src/auction.ts:323-375 | closes exactly when still due under the lock: with a leader it settles, its last bid is WON and the listing is sold; without one the listing is queued again if stock remains |
| `AuctionHouse.CloseDueAuctions` | packages/backend/src/auction.ts:306-321 | every auction running past its deadline is closed and reported exactly once with its leader, every other one is untouched; a listing changes only if one of its auctions closed, and then as one of them says |
| `AuctionHouse.SettleAuction` | packages/backend/src/orders.ts:130-328 | settles once per auction; the order is between the leader and the listing's seller at the winning bid; the leader pays exactly bid and charged shipping, which goes to the seller in direct mode, into escrow otherwise, to the seller less five percent if digital; what everybody has available changes by that and by the winner's freed reserve, one unit is taken; in a call with nobody in between, reserved marketplace shipping is paid (for what may come in between see `ShippingIsStillThereIff`) |
| `Charges.ShippingIsLeft` | packages/backend/src/orders.ts:216-232 | right after the capture at least the reserved shipping is available |
| `Charges.PrepayShipping` | packages/backend/src/fulfillment.ts:613-675 | paid exactly when item, address and funds allow; a locked order's seller then gets seven business days; otherwise nothing changes |
| `Charges.Deliver` | packages/backend/src/market.ts:770-812 | a digital sale pays the seller at once; a physical one is held for fourteen days, or in a paid shipment with seven business days on the seller's clock |
| `Charges.PostedIsDone` | packages/backend/src/market.ts:688-833 | the rows of charge and delivery change every account by exactly what the deal says: price, payout of a digital item, shipping |
| `Charges.SaleChangeMeans` | packages/backend/src/escrow.ts:92-155 | the buyer loses price and shipping; the seller gains the whole price in direct mode, 95 percent of a digital item, otherwise nothing yet; escrow and pools gain the rest; nobody else anything |
| `MarketDesk.SettleMarketSale` | packages/backend/src/market.ts:688-833 | sold exactly when the listing is for sale on the marketplace and the price is available; the order names buyer, listing's seller and price, every balance changes by exactly price and affordable shipping, one unit is taken; any failure posts nothing and restores the unit |
| `MarketDesk.BuyMarketItem` | packages/backend/src/market.ts:626-669 | refusals in order change nothing; once price and shipping are available both are charged, to the account each belongs to |
| `MarketDesk.PurchaseListing` | packages/backend/src/store.ts:70-220 | the exact condition under which a store purchase succeeds; buyer and seller, or escrow, change by exactly the price, one unit is taken, and a failure restores it |
| `MarketDesk.DelistMarketListing` | packages/backend/src/market.ts:837-856 | takes down only a listing with a unit still for sale, which then cannot be claimed |
| `OfferDesk.MakeOffer` | packages/backend/src/offers.ts:62-152 | the buyer's open offers on that listing, and no others, are canceled; the new one is made exactly if its amount and shipping fit into what is available once theirs have come back, is open for 48 hours and backed by exactly one hold |
| `OfferDesk.CloseOffer` | packages/backend/src/offers.ts:50-55 | leaves no active hold and gives the buyer exactly the reserve back, nobody else anything |
| `OfferDesk.AcceptOffer` | packages/backend/src/offers.ts:258-319 | a counter is sold at the counter, a pending offer at the amount offered; the counter is refused exactly if free money and the offer's own amount fall short of it with the item still there; with item and provider there it cannot bounce; every balance changes by exactly price and affordable shipping; no hold is left |
| `OfferDesk.RespondOffer` | packages/backend/src/offers.ts:161-323 | who may do what in which state, counters between offer and asking price, accepts as above; refusals change nothing; a closed offer gives exactly its reserve back |
| `OfferDesk.ExpireOffers` | packages/backend/src/offers.ts:326-359 | exactly as many open offers past their deadline as it reports expire and give their buyers exactly their reserves back; below the batch size of a hundred none is left |
| `Stock.UnitsAreConserved` | packages/backend/src/store.ts:98-181 | units left, units claimed by purchases under way and units sold add up to the initial quantity at every step of every run |
| `Stock.NeverOversold` | packages/backend/src/auction.ts:361-372 | as long as every auction starts with stock left and nobody else holding a unit, the quantity never goes below zero and no more than the initial units are sold |
| `Stock.StartOversellsIff` | packages/backend/src/auction.ts:114-137 | that condition is exact: a start can be continued to a negative quantity if and only if the stock is gone or another auction or settlement holds a unit |
| `Stock.RecheckIsSafe` | packages/backend/src/sellers.ts:271-274 | the check the seller's control makes, made again when the listing goes live, would be enough |
| `Stock.StaleStartOversells` | packages/backend/src/sellers.ts:264-287 | a run in which the check before the start is stale sells the last unit twice |
| `Escrow.StepKeepsMoney` | packages/backend/src/ledger.ts:575-673 | every step keeps the escrow books: unique keys, settle only after lock, each terminal move written whole |
| `EscrowTheorems.EscrowHoldsWhatIsOwed` | packages/backend/src/orders.ts:491-527 | the escrow balance is at all times the sum of the locked and unsettled orders, and never negative |
| `EscrowTheorems.AtMostOneTerminalMove` | packages/backend/src/orders.ts:357-365 | each order gets at most one of release and refund, under every interleaving; direct orders get none |
| `EscrowTheorems.TerminalMovesAreFinal` | packages/backend/src/orders.ts:558-606 | no later step changes or removes a terminal move |
| `EscrowTheorems.StaleWriteHarmsIff` | packages/backend/src/orders.ts:334-352 | a transition that was read earlier keeps status and books in agreement if and only if no terminal move of the order has posted or is owed when it is written |
| `EscrowTheorems.HarmShows` | packages/backend/src/orders.ts:334-352 | otherwise the books disagree at once or when the owed move is made |
| `EscrowTheorems.ConditionalWriteIsSafe` | packages/backend/src/orders.ts:357-365 | a write that tested the status, as the claims do, would never harm |
| `EscrowTheorems.RunAgreesIff` | packages/backend/src/orders.ts:433-462 | over every run, split reads and crashes included, status and books agree throughout if and only if no step is a harmful stale transition |
| `EscrowTheorems.StatusAgreesWithTheBooks` | packages/backend/src/orders.ts:662-711 | in such runs a posted release means RELEASED and a posted refund CANCELED or REFUNDED |
| `ForfeitTheorems.PaidIffPosted` | packages/backend/src/fulfillment.ts:528-541 | in every run an order counts as paid if and only if the charge of one of its shipments stands in the books, or a free one was prepaid |
| `ForfeitTheorems.TimersArePartitioned` | packages/backend/src/orders.ts:693-727 | no order is open to both timers; the refund timer's order had its shipping paid; the forfeit timer's had not, unless its payment is between charge and clock |
| `ForfeitTheorems.DiscardTakesPaidItemIff` | packages/backend/src/orders.ts:581-606 | a manual discard that wins its claim takes a paid item if and only if the claim falls after the charge and before the clock |
| `ForfeitTheorems.LateClaimTakesPaidItemIff` | packages/backend/src/orders.ts:720-725 | the timer's does so also if the clock started after its test |
| `ForfeitTheorems.ForfeitedButPaidIff` | packages/backend/src/orders.ts:558-606 | over every run an order whose price a claim gave to the seller is paid if and only if some step claimed it in the gap or after the clock, or charged it after the claim |
| `ForfeitTheorems.ForfeitedWasNeverPaid` | packages/backend/src/orders.ts:581-606 | without such a step an order whose price was claimed for the seller was never paid for |
| `DiscardTheorems.WaitingIsPaidIff` | packages/backend/src/fulfillment.ts:543-552 | an item that still waits is paid if and only if its payment is between the charge and the move |
| `DiscardTheorems.DiscardedButPaidIff` | packages/backend/src/orders.ts:600-606 | over every run a paid item is discarded if and only if some step retired it in that gap or by the timer after a payment, or charged it after its retirement, and no payment moved it in since |
| `DiscardTheorems.GivenUpWasNeverPaid` | packages/backend/src/orders.ts:716-727 | without such steps, and without the claims above, whatever was forfeited or discarded was never paid for |
| `EscrowRuns.DiscardInTheGap` | packages/backend/src/fulfillment.ts:528-553 | a run in which a discard is claimed between charge and clock: the seller has the price, the buyer has paid the shipping |
| `EscrowRuns.TimerForfeitsPaidOrder` | packages/backend/src/orders.ts:716-727 | a run in which the payment falls between the timer's test and its claim |
| `EscrowRuns.ChargedAfterForfeit` | packages/backend/src/fulfillment.ts:462-474 | a run in which a payment passes all checks between a discard's claim and its last write |
| `EscrowRuns.CrashedPaymentIsForfeited` | packages/backend/src/fulfillment.ts:543-553 | a run in which a payment crashes after its charge and the timer forfeits the item two weeks later |
| `EscrowRuns.DirectItemIsDiscardedInTheGap` | packages/backend/src/orders.ts:600-606 | a run in which the paid item of a direct order is discarded with no claim at all |
| `EscrowRuns.TimerDiscardsShippedItem` | packages/backend/src/orders.ts:720-725 | a run in which the timer's claim is lost and it discards the item of a shipped parcel all the same |
| `EscrowRuns.StaleDeliveryUndoesARefund` | packages/backend/src/orders.ts:433-462 | a run in which a stale transition overwrites a refunded order's status |
| `ForgottenOrders.ForgottenIff` | packages/backend/src/orders.ts:662-682 | over every run an escrowed order is PENDING or CANCELED with no call, timer or recovery left to finish it, if and only if the last call that tended it crashed while setting it up after the lock, or while it was canceled before the refund, and no stale transition rewrote it since |
| `EscrowRuns.PendingAndForgotten` | packages/backend/src/orders.ts:153-180 | a run in which the settlement crashes between its escrow lock and its LOCKED status |
| `EscrowRuns.CanceledAndForgotten` | packages/backend/src/orders.ts:697-701 | a run in which the timer crashes between the CANCELED status and the refund |
| `OrderDesk.OrderDesk.LockOrder` | packages/backend/src/escrow.ts:92-114 | locks exactly when the buyer can pay; the price goes from the buyer into escrow and the wallet leg is queued; a failed purchase removes its order again, a failed settlement leaves it pending |
| `OrderDesk.OrderDesk.Release` | packages/backend/src/escrow.ts:116-138 | ledger rows and three wallet legs of the same split, once per order; the seller and the pools get exactly their shares |
| `OrderDesk.OrderDesk.Refund` | packages/backend/src/escrow.ts:140-155 | the whole amount back to the order's buyer and its wallet leg, once per order |
| `OrderDesk.OrderDesk.PayShipping` | packages/backend/src/fulfillment.ts:444-556 | done exactly if the listed items are the buyer's, waiting, of live orders and of one seller, and the fee is available; charges once, moves exactly these items, and starts seven business days exactly for the locked orders without a clock - as four steps others can run between |
| `OrderDesk.OrderDesk.OpenDispute` | packages/backend/src/orders.ts:396-421 | succeeds exactly inside the window and before any release |
| `OrderDesk.OrderDesk.ResolveDispute` | packages/backend/src/orders.ts:491-511 | only the winner of the claim moves money, and moves it the decided way |
| `OrderDesk.OrderDesk.ReleaseOrder` | packages/backend/src/orders.ts:514-527 | releases and pays out exactly an undisputed delivered order |
| `OrderDesk.OrderDesk.DiscardItem` | packages/backend/src/orders.ts:575-641 | a locked price goes to the seller unless the clock runs; a seller must wait for the hold to end; read, claim, payout and retiring are steps of their own |
| `OrderDesk.OrderDesk.AdvanceOrders` | packages/backend/src/orders.ts:433-462 | exactly the listed orders in a fitting status move with their package, and exactly those are reported |
| `OrderDesk.OrderDesk.ProcessOrderTimers` | packages/backend/src/orders.ts:652-730 | an order is released exactly if its window is over, refunded exactly if its ship-by deadline passed, forfeited exactly if its hold ran out with no clock; every other order keeps its row and gets no move but a recovered one of the last day; each new move is reported, and every balance changes by exactly the new moves: sellers and pools their shares, buyers everything |
| `WindowTheorems.WindowsAreOpened` | packages/backend/src/orders.ts:433-462 | in every run a dispute window ends two days after a delivery of the order |
| `WindowTheorems.NoEarlyRelease` | packages/backend/src/orders.ts:684-691 | in every run, whenever the timer claims an order after reading that its window was over, a delivery lies at least two days back |
| `WindowTheorems.ReleasedInsideIff` | packages/backend/src/orders.ts:514-527 | over every run the window is open again at that claim if and only if the package was delivered again since the read, less than two days before |
| `EscrowRuns.ReleasedInsideTheWindow` | packages/backend/src/orders.ts:684-691 | a run in which a delivery read earlier opens the window again and the timer releases the order all the same |
| `BusinessDays.AddBusinessDays` | packages/backend/src/fulfillment.ts:103-112 | terminates; the result is the earliest date with n weekdays after the start and up to it, and a weekday itself |
| `BusinessDays.SevenBusinessDaysSpan` | packages/backend/src/fulfillment.ts:117-125 | seven business days always span nine to eleven calendar days |
| `BusinessDays.DeadlineSpan` | packages/backend/src/fulfillment.ts:117-125 | so a seller's deadline is nine to eleven days away and never on a weekend |
| `BusinessDays.KnownDates` | packages/backend/src/fulfillment.ts:103-112 | the calendar: dates before and after the epoch whose weekday is known |
| `Outbox.LegsMirrorTheMove` | packages/backend/src/escrow.ts:92-155 | every ledger move changes what an address backs by exactly what its wallet legs bring there, shared addresses included |
| `OutboxTheorems.WalletsCorrespond` | packages/backend/src/audit.ts:3-13 | in every run and at every address, on-chain balance plus unlanded legs equals the ledger accounts the address backs, plus money crossing the boundary at the treasury |
| `OutboxTheorems.QuietAuditIsZeroIff` | packages/backend/src/audit.ts:74-98 | with nothing in flight an audit difference is zero exactly when the other accounts behind the address sum to zero |
| `OutboxTheorems.SharedAddressIsReported` | packages/backend/src/audit.ts:74-98 | a reachable quiet state at one shared address that the audit reports |
| `OutboxTheorems.OperationsAreBookings` | packages/backend/src/ledger.ts:105-111 | the rows and legs the ledger's operations write are steps of the wallet machine |
| `OutboxTheorems.LegsLandAtMostOnce` | packages/backend/src/chain-settle.ts:59-82 | at most one broadcast of a leg ever lands, however ticks, crashes and the chain interleave |
| `OutboxTheorems.ConfirmedLegsHaveLanded` | packages/backend/src/chain-settle.ts:108-151 | a confirmed leg has landed, unless both its ends are one address, and nothing of it is still in flight |
| `OutboxTheorems.OnlyDeadLegsAreResent` | packages/backend/src/chain-settle.ts:138-147 | a leg is broadcast again only when every earlier broadcast of it is dead, as long as every broadcast is recorded |
| `OutboxCrashes.WalletsCorrespondUpToTheSurplus` | packages/backend/src/chain-settle.ts:113-131 | with unrecorded broadcasts an address is off by exactly what legs brought beyond their first landing |
| `OutboxCrashes.LiveMeansUnrecorded` | packages/backend/src/chain-settle.ts:138-147 | in every run a broadcast of a waiting row that is not dropped was not recorded |
| `OutboxCrashes.UnrecordedWasLeft` | packages/backend/src/chain-settle.ts:113-131 | and each such broadcast was made for its row by a send whose record was lost |
| `OutboxCrashes.StaysSingleIff` | packages/backend/src/chain-settle.ts:113-131 | over every run no leg has two broadcasts that can land if and only if no tick sends a row whose own unrecorded broadcast has not been dropped |
| `OutboxCrashes.SingleRunsCorrespond` | packages/backend/src/chain-settle.ts:13-18 | in such runs nothing moves twice and every address holds what it backs |
| `OutboxCrashes.ResendNeedsUnrecorded` | packages/backend/src/chain-settle.ts:113-131 | such a send follows an earlier send of the very same row whose record was lost |
| `OutboxCrashes.LegLandsTwice` | packages/backend/src/chain-settle.ts:113-131 | a run in which a crash between send and record moves an order's price twice |
| `ChainSettler.ChainSettler.Process` | packages/backend/src/chain-settle.ts:84-148 | a same-address leg is confirmed without a call; a pending one is sent exactly once, and asked about once if its signature was recorded; a submitted one is asked about once and never sent; the row changes as the answer says |
| `ChainSettler.ChainSettler.Broadcast` | packages/backend/src/chain-settle.ts:113-131 | one send; the row is submitted exactly if a signature came back and was recorded, and otherwise waits on with one more attempt; a signature that was not recorded counts as unrecorded |
| `ChainSettler.ChainSettler.Tick` | packages/backend/src/chain-settle.ts:59-82 | does nothing while another runs; otherwise it reads the oldest open legs, attends to each in that way and to no other row, and counts the confirmed |
| `ChainSettler.OldestLegsFirst` | packages/backend/src/chain-settle.ts:64-68 | a leg under way is read unless the batch is full of older ones |
| `ChainSettler.SumOfIsUserTotal` | packages/backend/src/audit.ts:48-50 | the audit's loop over the accounts adds up to every user's money |
| `ChainSettler.ReconcileWallets` | packages/backend/src/audit.ts:38-103 | reports the four differences and the number of legs in flight; reconciled exactly when the segregated differences are zero, the treasury is not short and its SOL could be priced |
| `WithdrawalTheorems.LandedIsNeverReversed` | packages/backend/src/withdrawals.ts:266-328 | a withdrawal whose transfer landed keeps its debit, under repeated, concurrent and crashing calls |
| `WithdrawalTheorems.SentAndReversedAtMostOnce` | packages/backend/src/withdrawals.ts:303-328 | at most one broadcast and at most one reversal row per withdrawal |
| `WithdrawalTheorems.PayoutsNeverExceedDebits` | packages/backend/src/withdrawals.ts:215-258 | what has landed never exceeds the unreversed debits, which are exactly what the external account shows |
| `WithdrawalTheorems.StatusTellsTheTruth` | packages/backend/src/withdrawals.ts:9-23 | CONFIRMED means landed and debited, FAILED means not landed and given back, unsettled means debited with a signature to ask about |
| `WithdrawalCrashes.StrandedIff` | packages/backend/src/withdrawals.ts:215-258 | over every run a debit stands with nobody to look after it if and only if its request crashed after posting it and before recording the broadcast or posting a reversal |
| `WithdrawalCrashes.StrandedStaysStranded` | packages/backend/src/withdrawals.ts:367-375 | and no later step ever resolves it |
| `WithdrawalCrashes.CrashAfterTheDebit` | packages/backend/src/withdrawals.ts:215-234 | a run that ends there with nothing sent |
| `WithdrawalCrashes.CrashAfterTheBroadcast` | packages/backend/src/withdrawals.ts:236-258 | a run that ends there with the transfer landed and no signature on record |
| `WithdrawalTheorems.FlagBreaksALimitIff` | packages/backend/src/withdrawals.ts:386-395 | the unconditional review flag breaks a limit if and only if its row has failed meanwhile and a window around it has no room for it |
| `WithdrawalTheorems.LimitsHoldIff` | packages/backend/src/withdrawals.ts:176-213 | over every run all limits hold over all windows throughout if and only if no such flag is written |
| `WithdrawalTheorems.EveryDayIsWithinTheLimits` | packages/backend/src/withdrawals.ts:176-213 | without one, dollars, count and new destinations stay within their limits over every closed 24-hour window |
| `WithdrawalTheorems.StaleFlagBreaksTheLimit` | packages/backend/src/withdrawals.ts:386-395 | a run in which the flag overwrites FAILED and doubles the day |
| `WithdrawalRail.WithdrawalRail.RequestWithdrawal` | packages/backend/src/withdrawals.ts:131-258 | rejections in order, each by its own test, change nothing; otherwise one row is made; after a successful debit the transfer is sent exactly once, unless the send throws, and asked about three times at most; the request ends with a failed debit, confirmed with the transfer landed, failed with it dead and reversed, or submitted; the user has lost exactly the amount unless it failed, and nobody else anything |
| `WithdrawalRail.WithdrawalRail.SettleWithdrawal` | packages/backend/src/withdrawals.ts:266-294 | asks about that transfer only, until the chain is definite or the attempts are used up; confirmed exactly if landed, reversed once if dead, untouched otherwise; the user gets exactly the amount back |
| `WithdrawalRail.WithdrawalRail.ReverseWithdrawal` | packages/backend/src/withdrawals.ts:303-328 | credits the row's user with its amount once and marks the row failed, unless it is confirmed or reversed already |
| `WithdrawalRail.WithdrawalRail.Tick` | packages/backend/src/withdrawals.ts:367-406 | asks about each of the oldest unsettled rows once, in turn: landed is confirmed, dead is reversed and failed, no answer for half an hour asks for review; touches no other row and counts the terminal ones |
| `WithdrawalRail.OldestWithdrawalsFirst` | packages/backend/src/withdrawals.ts:370-374 | a sent withdrawal without an answer is read unless the batch is full of older ones |
| `Withdrawals.WindowCounts` | packages/backend/src/withdrawals.ts:176-213 | the two daily counts count exactly the user's withdrawals of the closed window that have not failed, the second only the funded ones |
| `Withdrawals.WindowAdds` | packages/backend/src/withdrawals.ts:176-213 | the dollar total adds exactly their amounts |
| `Deposits.ClosedMeansCreditedInFull` | packages/backend/src/deposits.ts:189-275 | a closed receipt was credited in full in one row at the price it stores, or is worth nothing |
| `Deposits.PriceIsFixedBeforeCrediting` | packages/backend/src/deposits.ts:213-241 | a stored price never changes, nor does a credited amount |
| `Deposits.CreditedAtMostOnce` | packages/backend/src/deposits.ts:232-240 | a signature is credited at most once even when passes overlap |
| `Deposits.CreditsNeverExceedTheValuation` | packages/backend/src/audit.ts:66-75 | SOL deposits priced alike were together credited no more than the spread-free valuation of the same lamports |
| `DepositProcess.ProcessIsSerial` | packages/backend/scripts/dev-server.ts:453-462 | the awaited startup pass and the poll's guard make every run of the process, kills and reboots included, a run of one pass at a time |
| `DepositProcess.ProcessClosesInFull` | packages/backend/src/deposits.ts:132-187 | so every receipt the process closes was credited in full at the price it stores |
| `DepositProcess.LostIff` | packages/backend/src/deposits.ts:126-148 | over every run a swept deposit is lost if and only if its tick was killed or its write failed before the record, or the transfer landed unreported |
| `DepositProcess.KilledAfterTheSweep` | packages/backend/src/deposits.ts:126-148 | a run in which that happens |
| `DepositOverlap.StepBreaksIff` | packages/backend/src/deposits.ts:208-243 | with overlapping passes a step breaks a receipt's promise if and only if it prices a credited or closed row anew, credits an amount that is not the row's, or closes a row that is worth something uncredited |
| `DepositOverlap.StaysSafeIff` | packages/backend/src/deposits.ts:195-275 | over every run of overlapping passes all receipts stay true throughout if and only if no step does that |
| `DepositOverlap.OverlapMisprices` | packages/backend/src/deposits.ts:92-96 | a run of two processes - the code says one - in which a receipt is closed at the wrong amount |
| `DepositWatcher.DepositWatcher.CreditPending` | packages/backend/src/deposits.ts:195-275 | every listed receipt ends priced, credited and closed, as far as its own writes succeed and unless it waits for a price nobody gave; the ledger gains exactly their credits, and the count is theirs |
| `DepositWatcher.DepositWatcher.Tick` | packages/backend/src/deposits.ts:132-187 | does nothing while another runs or when the poll fails; otherwise every polled signature is on record unless its write throws, every new receipt has user, asset and amount of the first event with its signature, no old one changes hands; one crediting pass follows, its count is returned and every balance changes by exactly its credits; within the batch size every new USDC receipt without a fault is credited to its user with its amount, and only receipts without a price or with a throwing write stay open |
| `DepositWatcher.PassPays` | packages/backend/src/deposits.ts:195-275 | a pass changes every balance by exactly the receipts it credits, each worth its amount or its lamports at the given price, and each once |
| `DepositWatcher.OldestReceiptsFirst` | packages/backend/src/deposits.ts:196-200 | an open receipt is read unless the batch is full of older ones |
| `Prices.AgreementBounds` | packages/backend/src/prices.ts:108-116 | the divergence guard is symmetric and means neither source is more than two percent below the other |
| `Prices.PriceOracle.GetSolUsdPrice` | packages/backend/src/prices.ts:98-130 | serves a fresh cache, needs two answers to agree, takes one alone, refuses otherwise and then leaves the cache alone |
| `Prices.PythScale` | packages/backend/src/prices.ts:51-55 | a quote is shifted by its exponent to micro-dollars and truncated toward zero |
| `Prices.ConversionRate` | packages/backend/src/prices.ts:136-139 | lamports times price less the spread, rounded down; nothing for nothing |
| `Prices.CreditsWithinValuation` | packages/backend/src/prices.ts:136-139 | credits less their spreads add up to no more than the spread-free value of the sum |
| `MarketPage.ComparatorIsTotal` | packages/backend/src/market.ts:340-349 | the comparator is a total order up to ties in every sort mode, auctions before listings in the default one |
| `MarketPage.ModesMean` | packages/backend/src/market.ts:340-349 | what each mode puts first: the newest, the cheapest or dearest by leading bid or asking price, or the auction that ends soonest and then the newest listing |
| `MarketPage.SortIsStable` | packages/backend/src/market.ts:340-349 | the sort orders, loses and invents nothing, and keeps ties in database order |
| `MarketPage.PageIsExact` | packages/backend/src/market.ts:230-231 | if each source comes in comparator order, sorting only its top rows and slicing gives exactly the page of the whole merged feed, ties included |
| `MarketPage.PageIsTheSlice` | packages/backend/src/market.ts:351-357 | that is rows 24p to 24p+23 of the feed, fewer at its end, with pages clamped to 0..200 |
| `MarketPage.EveryRowHasItsPlace` | packages/backend/src/market.ts:340-357 | in the default order the row of rank r is row r mod 24 of page r div 24, for every row up to the last page |
| `MarketPage.PriceSortHidesTheCheapest` | packages/backend/src/market.ts:250-253 | a concrete feed in which the cheapest-first page hides the cheapest item |
| `PageWindows.PageIsExactIff` | packages/backend/src/market.ts:230-253 | whatever the database orders, a page without ties is the page of the whole feed if and only if every row up to its end is among the top rows of its own source |

## Left out

- DevWalletEscrow and `settlePurchase` without its funds check: they queue no wallet legs or make no check, so the wallet and solvency theorems do not speak of them.
- Weekly bundling and randomizer ("wheel") listings: they follow other stock and clock rules, partly in code that is not part of this model.
- A database error after a purchase has posted its charge: the rollback would then undo a paid order; the model's charge and its transaction are one.
- Outbox rows naming an unknown wallet, and SUBMITTED rows without a signature: no code writes either.
- Orders whose call crashed before the escrow lock: they stay PENDING, but no money of theirs is anywhere.
- ForgottenOrders.ForgottenIff: crash recovery's limit of one day. The machine may recover a RELEASED or REFUNDED order at any time (OrderDesk.ProcessOrderTimers has the limit); the code gives it up after a day.
- The swap of treasury SOL, its spending, and buyback purchases: trades with outside markets, outside the wallet invariant.
- NFT custody, points, referrals, notifications, message threads, ship quotes, carrier labels, login codes, coin creation and giveaways.
- Who may call what beyond buyer, seller and bidder: authentication, admin checks and HTTP routing.
- Address parsing and encryption, shipping estimates and parcel sizes, regions, category and text filters of the feed; the 'newest' order, whose database key is not the comparator's.
- Creating accounts: every user has an account that starts empty.
- Listing edits by sellers, and the statuses only they use.
- WithdrawalTheorems.StatusTellsTheTruth: a database that commits and then reports an error. Every transaction of the model that throws has not committed; a withdrawal's debit that throws after its commit would leave a FAILED row with the debit standing (packages/backend/src/withdrawals.ts:219-235), and charges elsewhere have the same window.
- FundsTheorems.WinnerIsUniqueLastAndHighest: "highest" needs real raises, exactly as Money.RealRaisesIff and AuctionRules.EqualBidsAreAccepted say.
- PageWindows.PageIsExactIff: rows that tie in price and in creation time; MarketPage.PageIsExact covers ties when the database order is the comparator's.
