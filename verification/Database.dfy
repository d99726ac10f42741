/** The stored rows the auction, offer and sale code works on
    (packages/backend/prisma/schema.prisma). */
module Database {
  import opened Schema
  import opened Books
  import opened Funds
  import opened FundsRuns
  import S = Stock
  import L = Ledger

  /** A listing; `price` is its buy-now price. */
  datatype Listing = Listing(seller: nat, quantity: int, status: S.ListingStatus, price: Option<nat>, marketplace: bool,
      nft: bool, wheel: bool)

  /** Every order and shipment key in the ledger belongs to a row made before. */
  ghost predicate KeysKnown(entries: seq<Entry>, orders: nat, shipments: nat) {
    forall k | KeyPosted(entries, k) ::
      match k
      case EscrowLockKey(o) => o < orders
      case EscrowSettleKey(o) => o < orders
      case DirectSaleKey(o) => o < orders
      case ShippingKey(sh) => sh < shipments
      case _ => true
  }

  predicate HasOrder(orders: seq<Order>, a: nat) {
    exists o :: 0 <= o < |orders| && orders[o].auction == Some(a)
  }

  /** `owed`, `captured` and `txns` record what suspended calls still owe: holds of closed
      offers not freed yet, settlements that have charged, transactions in progress. */
  class Database {
    const ledger: L.Ledger
    var now: int
    var listings: map<nat, Listing>
    var auctions: map<nat, Auction>
    var offers: map<nat, Offer>
    var orders: seq<Order>
    var shipments: nat
    ghost var owed: set<nat>
    ghost var captured: set<nat>
    ghost var txns: map<nat, Txn>

    constructor (ledger: L.Ledger)
      requires ledger.Valid() && ledger.entries == [] && ledger.holds == []
      ensures this.ledger == ledger && Valid()
      ensures listings == map[] && auctions == map[] && offers == map[] && orders == [] && now == 0
    {
      this.ledger := ledger;
      now, listings, auctions, offers, orders, shipments := 0, map[], map[], map[], [], 0;
      owed, captured, txns := {}, {}, map[];
      new;
      EmptyIsReached();
    }

    ghost function View(): State
      reads this, ledger
    {
      State(now, ledger.entries, ledger.holds, auctions, offers, owed, captured, txns)
    }

    /** The stored reserves and balances were reached by a run of the reserve-and-spend
        machine; every key and every settled auction has its order. */
    ghost predicate Valid()
      reads this, ledger
    {
      && ledger.Valid()
      && Reached(View())
      && KeysKnown(ledger.entries, |orders|, shipments)
      && (forall a | a in captured :: HasOrder(orders, a))
      && (forall a | a in auctions :: auctions[a].listing in listings)
    }

    /** Time passes. */
    method Elapse(ms: nat)
      requires Valid()
      modifies this`now
      ensures Valid() && now == old(now) + ms
    {
      Goes(View(), Pass(ms));
      now := now + ms;
    }

    /** A seller lists an item. */
    method AddListing(id: nat, l: Listing)
      requires Valid() && id !in listings
      modifies this`listings
      ensures Valid() && listings == old(listings)[id := l]
    {
      listings := listings[id := l];
    }
  }
}
