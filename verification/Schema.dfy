/** The rows and enumerations of the money engine (packages/backend/prisma/schema.prisma).
    Ids are the creation numbers of rows; money is an integer count of USDC micro-units. */
module Schema {

  datatype Option<+T> = None | Some(value: T)

  /** The singleton system accounts, and the one account of each user. */
  datatype Account = External | Escrow | Platform | Fee | User(id: nat)

  /** Idempotency keys: one constructor for each key prefix the program writes. */
  datatype Key =
    | EscrowLockKey(order: nat)
    | EscrowSettleKey(order: nat)
    | DirectSaleKey(order: nat)
    | ShippingKey(shipment: nat)
    | WithdrawKey(withdrawal: nat)
    | WithdrawReverseKey(withdrawal: nat)
    | DepositKey(sig: nat)
    | CallerKey(text: string)

  /** One ledger row. Rows are only ever appended. */
  datatype Entry = Entry(account: Account, amount: int, key: Option<Key>)

  datatype HoldStatus = Held | Released | Captured

  datatype HoldSource = ForAuction(auction: nat) | ForOffer(offer: nat)

  /** Funds of `user` set aside for a leading bid or a live offer. */
  datatype Hold = Hold(user: nat, source: HoldSource, amount: int, status: HoldStatus)

  datatype Wallet = Treasury | EscrowWallet | BuybackWallet | FeeWallet

  datatype LegKey =
    | LockLeg(order: nat)
    | ReleaseSellerLeg(order: nat)
    | ReleaseBuybackLeg(order: nat)
    | ReleaseFeeLeg(order: nat)
    | RefundLeg(order: nat)
    | ShippingLeg(shipment: nat)

  /** An internal wallet-to-wallet move, recorded with the ledger move it mirrors. */
  datatype ChainLeg = ChainLeg(key: LegKey, from: Wallet, to: Wallet, amount: int)

  datatype TransferStatus = TransferPending | TransferSubmitted | TransferConfirmed

  /** An outbox row: a leg, how far it got, and the signature of its latest broadcast. */
  datatype Transfer = Transfer(leg: ChainLeg, status: TransferStatus, sig: Option<nat>, attempts: nat)

  /** What the chain says about a signature (packages/backend/src/chain/types.ts). */
  datatype Fate = Confirmed | Dead | Unknown

  datatype LedgerError =
    | InsufficientFunds(user: nat, available: int, needed: int)
    | InvalidAmount(amount: int)
    | LedgerImbalance(sum: int)

  /** A call that returns nothing, or throws. */
  datatype Outcome<+E> = Ok | Threw(error: E)

  // ---------------------------------------------------------------------------
  // Auctions and offers
  // ---------------------------------------------------------------------------

  datatype IncrementConfig = IncrementConfig(floor: int, bps: int)

  datatype AuctionStatus = Pending | Running | Settling | Closed

  datatype BidStatus = Leading | Outbid | Won

  /** An accepted bid. `at` is the server time it was accepted against, `floorMs` the
      anti-snipe floor it was placed with (marketplace bids only). */
  datatype Bid = Bid(user: nat, amount: int, shippingC: int, status: BidStatus, at: int, floorMs: Option<int>)

  /** An auction with its bids in the order they were accepted. Times are milliseconds. */
  datatype Auction = Auction(
    listing: nat,
    status: AuctionStatus,
    startingBid: int,
    cfg: IncrementConfig,
    durationMs: nat,
    currentBid: Option<int>,
    leader: Option<nat>,
    endsAt: Option<int>,
    bids: seq<Bid>)

  datatype BidRejectReason =
    | AuctionNotFound
    | AuctionEnded
    | BidTooLow
    | AlreadyLeading
    | InsufficientBalance

  datatype OfferStatus = OfferPending | Countered | Accepted | Declined | Canceled | Expired

  datatype Offer = Offer(
    buyer: nat,
    seller: nat,
    listing: nat,
    amount: int,
    shippingC: int,
    counter: Option<int>,
    status: OfferStatus,
    expiresAt: int)

  // ---------------------------------------------------------------------------
  // Orders
  // ---------------------------------------------------------------------------

  /** `OrderRemoved` stands for a row that a failed purchase deleted again. */
  datatype OrderStatus =
    | OrderPending
    | OrderLocked
    | OrderShipped
    | OrderDelivered
    | OrderWindow
    | OrderDisputed
    | OrderReleased
    | OrderRefunded
    | OrderCanceled
    | OrderRemoved

  /** The one fulfillment item of an order. */
  datatype ItemStatus = NoItem | ReadyToShip | InShipment | Discarded

  datatype Order = Order(
    buyer: nat,
    seller: nat,
    amount: nat,
    auction: Option<nat>,
    direct: bool,
    status: OrderStatus,
    noShipDeadline: Option<int>,
    windowEndsAt: Option<int>,
    releasedAt: Option<int>,
    refundedAt: Option<int>,
    item: ItemStatus,
    heldUntil: Option<int>)
}
