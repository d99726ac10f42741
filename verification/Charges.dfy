/** Charging a buyer: what a sale, a settlement and a prepaid shipment do to the ledger and
    to the reserve-and-spend machine (packages/backend/src/ledger.ts, escrow.ts,
    fulfillment.ts). */
module Charges {
  import opened Schema
  import opened Money
  import opened Books
  import opened AuctionRules
  import opened Funds
  import opened FundsRuns
  import opened Database
  import O = Outbox
  import E = Escrow
  import opened BusinessDays
  import L = Ledger

  // ---------------------------------------------------------------------------
  // Legs
  // ---------------------------------------------------------------------------

  /** The ledger rows and the key of a sale, in either payout mode. */
  function SaleLegs(o: nat, buyer: nat, seller: nat, amount: int, direct: bool): seq<Entry> {
    if direct then DirectSaleLegs(o, buyer, seller, amount) else EscrowLockLegs(o, buyer, amount)
  }

  function SaleKey(o: nat, direct: bool): Key {
    if direct then DirectSaleKey(o) else EscrowLockKey(o)
  }

  lemma SaleTakesAtMost(o: nat, buyer: nat, seller: nat, amount: int, direct: bool)
    requires amount > 0
    ensures TakesAtMost(SaleLegs(o, buyer, seller, amount, direct), buyer, amount)
    ensures buyer != seller || !direct ==> Settled(SaleLegs(o, buyer, seller, amount, direct), User(buyer)) == -amount
  {
    forall v: nat { TwoLegs(SaleLegs(o, buyer, seller, amount, direct), User(v)); }
  }

  lemma ShippingTakesAtMost(sh: nat, buyer: nat, amount: int)
    requires amount > 0
    ensures TakesAtMost(ShippingLegs(sh, buyer, amount), buyer, amount)
  {
    forall v: nat { TwoLegs(ShippingLegs(sh, buyer, amount), User(v)); }
  }

  /** Posting under a known key keeps every key known. */
  lemma KeysStayKnown(entries: seq<Entry>, legs: seq<Entry>, k: Key, orders: nat, shipments: nat)
    requires KeysKnown(entries, orders, shipments) && KeyedAt(legs, 0, k)
    requires match k
             case EscrowLockKey(o) => o < orders
             case EscrowSettleKey(o) => o < orders
             case DirectSaleKey(o) => o < orders
             case ShippingKey(sh) => sh < shipments
             case _ => true
    ensures KeysKnown(entries + legs, orders, shipments)
    ensures forall k' :: KeyPosted(entries + legs, k') <==> KeyPosted(entries, k') || k' == k
  {
    AppendPosts(entries, legs, 0, k);
  }

  lemma KeyIsNew(entries: seq<Entry>, orders: nat, shipments: nat, direct: bool)
    requires KeysKnown(entries, orders, shipments)
    ensures !KeyPosted(entries, SaleKey(orders, direct)) && !KeyPosted(entries, EscrowSettleKey(orders))
    ensures !KeyPosted(entries, ShippingKey(shipments))
  {
  }

  lemma HasOrderAppend(orders: seq<Order>, row: Order)
    ensures forall a: nat :: HasOrder(orders, a) ==> HasOrder(orders + [row], a)
    ensures row.auction.Some? ==> HasOrder(orders + [row], row.auction.value)
  {
    assert (orders + [row])[|orders|] == row;
    forall a: nat | HasOrder(orders, a)
      ensures HasOrder(orders + [row], a)
    {
      var o :| 0 <= o < |orders| && orders[o].auction == Some(a);
      assert (orders + [row])[o].auction == Some(a);
    }
  }

  // ---------------------------------------------------------------------------
  // Orders
  // ---------------------------------------------------------------------------

  /** The row a sale starts from. */
  function NewOrder(buyer: nat, seller: nat, amount: nat, auction: Option<nat>, direct: bool, now: int): Order {
    Order(buyer, seller, amount, auction, direct, OrderPending, None, None, if direct then Some(now) else None, None, NoItem, None)
  }

  /** Nothing has been posted for the order. */
  predicate Unpaid(entries: seq<Entry>, o: nat, direct: bool) {
    !KeyPosted(entries, SaleKey(o, direct)) && !KeyPosted(entries, EscrowSettleKey(o))
  }

  method CreateOrder(db: Database, row: Order) returns (o: nat)
    requires db.Valid()
    modifies db`orders
    ensures db.Valid() && o == |old(db.orders)| && db.orders == old(db.orders) + [row]
    ensures Unpaid(db.ledger.entries, o, row.direct)
  {
    o := |db.orders|;
    KeyIsNew(db.ledger.entries, o, db.shipments, row.direct);
    HasOrderAppend(db.orders, row);
    db.orders := db.orders + [row];
  }

  method SetOrder(db: Database, o: nat, row: Order)
    requires db.Valid() && o < |db.orders| && row.auction == db.orders[o].auction
    modifies db`orders
    ensures db.Valid() && db.orders == old(db.orders)[o := row]
  {
    OrdersKeepAuctions(db.orders, o, row);
    db.orders := db.orders[o := row];
  }

  method SetListing(db: Database, id: nat, l: Listing)
    requires db.Valid() && id in db.listings
    modifies db`listings
    ensures db.Valid() && db.listings == old(db.listings)[id := l]
  {
    db.listings := db.listings[id := l];
  }

  lemma OrdersKeepAuctions(orders: seq<Order>, o: nat, row: Order)
    requires o < |orders| && row.auction == orders[o].auction
    ensures forall a: nat :: HasOrder(orders, a) <==> HasOrder(orders[o := row], a)
  {
    forall a: nat
      ensures HasOrder(orders, a) <==> HasOrder(orders[o := row], a)
    {
      if HasOrder(orders, a) {
        var p :| 0 <= p < |orders| && orders[p].auction == Some(a);
        assert orders[o := row][p].auction == Some(a);
      }
    }
  }

  // ---------------------------------------------------------------------------
  // Charging
  // ---------------------------------------------------------------------------

  /** Post the sale of an order that has posted nothing yet: direct, or into escrow with the
      wallet leg. An auction win captures its hold with it. */
  method PostSale(ledger: L.Ledger, o: nat, row: Order) returns (r: Outcome<LedgerError>)
    requires ledger.Valid() && !KeyPosted(ledger.entries, SaleKey(o, row.direct))
    modifies ledger`entries, ledger`holds, ledger`transfers
    ensures ledger.Valid()
    ensures r == Ok <==> 0 < row.amount <= old(ledger.Spendable(row.buyer, row.auction))
    ensures r == Ok ==>
              && ledger.entries == old(ledger.entries) + SaleLegs(o, row.buyer, row.seller, row.amount, row.direct)
              && ledger.holds == (if row.auction.Some? then CaptureHolds(old(ledger.holds), row.auction.value, row.buyer) else old(ledger.holds))
              && ledger.transfers == (if row.direct then old(ledger.transfers) else Enqueue(old(ledger.transfers), O.LockChainLegs(o, row.amount)))
    ensures r != Ok ==> ledger.entries == old(ledger.entries) && ledger.holds == old(ledger.holds) && ledger.transfers == old(ledger.transfers)
  {
    if row.direct {
      r := ledger.SettleDirectSale(row.buyer, row.seller, row.amount, o, row.auction);
    } else {
      r := ledger.EscrowLock(row.buyer, row.amount, o, row.auction, O.LockChainLegs(o, row.amount));
    }
  }

  /** Charge a purchase from what the buyer has available; too little changes nothing. */
  method ChargeBuyer(db: Database, o: nat) returns (r: Outcome<LedgerError>)
    requires db.Valid() && o < |db.orders| && db.orders[o].auction == None
    requires Unpaid(db.ledger.entries, o, db.orders[o].direct)
    requires AccountFree(db.View(), db.orders[o].buyer)
    modifies db.ledger`entries, db.ledger`holds, db.ledger`transfers
    ensures db.Valid() && db.ledger.holds == old(db.ledger.holds)
    ensures !KeyPosted(db.ledger.entries, EscrowSettleKey(o))
    ensures r == Ok <==> 0 < db.orders[o].amount <= old(db.ledger.AvailableTo(db.orders[o].buyer))
    ensures db.ledger.entries == if r == Ok then old(db.ledger.entries) + LegsOf(o, db.orders[o])
            else old(db.ledger.entries)
  {
    var row := db.orders[o];
    ghost var s := db.View();
    r := PostSale(db.ledger, o, row);
    if r == Ok {
      SaleTakesAtMost(o, row.buyer, row.seller, row.amount, row.direct);
      KeysStayKnown(s.entries, LegsOf(o, row), SaleKey(o, row.direct), |db.orders|, db.shipments);
      RunsWhole(s, Charge(row.buyer, row.amount, LegsOf(o, row)));
    }
  }

  function LegsOf(o: nat, row: Order): seq<Entry> {
    SaleLegs(o, row.buyer, row.seller, row.amount, row.direct)
  }

  /** Charge the winner of a settling auction and capture the hold. It always succeeds. */
  method ChargeWinner(db: Database, o: nat, a: nat)
    requires db.Valid() && o < |db.orders| && db.orders[o].auction == Some(a)
    requires Unpaid(db.ledger.entries, o, db.orders[o].direct)
    requires AccountFree(db.View(), db.orders[o].buyer)
    requires Settles(db.View(), a, db.orders[o].buyer, db.orders[o].amount) && a !in db.captured
    modifies db.ledger`entries, db.ledger`holds, db.ledger`transfers, db`captured
    ensures db.Valid()
    ensures !KeyPosted(db.ledger.entries, EscrowSettleKey(o))
    ensures db.ledger.entries == old(db.ledger.entries) + LegsOf(o, db.orders[o])
    ensures db.ledger.holds == CaptureHolds(old(db.ledger.holds), a, db.orders[o].buyer)
    ensures db.captured == old(db.captured) + {a}
  {
    var row := db.orders[o];
    ghost var s := db.View();
    WinnerCanPay(s, a, row.buyer, row.amount);
    var r := PostSale(db.ledger, o, row);
    KeysStayKnown(s.entries, LegsOf(o, row), SaleKey(o, row.direct), |db.orders|, db.shipments);
    db.captured := db.captured + {a};
    CaptureRuns(s, o, row, a);
  }

  /** The settlement's transaction is a run of the machine. */
  lemma CaptureRuns(s: State, o: nat, row: Order, a: nat)
    requires Reached(s) && AccountFree(s, row.buyer) && Settles(s, a, row.buyer, row.amount) && a !in s.captured
    ensures Reached(s.(entries := s.entries + LegsOf(o, row), holds := CaptureHolds(s.holds, a, row.buyer), captured := s.captured + {a}))
  {
    WinnerCanPay(s, a, row.buyer, row.amount);
    SaleTakesAtMost(o, row.buyer, row.seller, row.amount, row.direct);
    RunsWhole(s, Capturing(row.buyer, a, row.amount, LegsOf(o, row)));
  }

  /** The winner of an auction that has not been charged yet has the price in their settled
      balance: their reserve is still standing. */
  lemma WinnerCanPay(s: State, a: nat, user: nat, amount: int)
    requires Reached(s) && Settles(s, a, user, amount) && a !in s.captured
    ensures amount > 0 && Settled(s.entries, User(user)) >= amount
    ensures s.auctions[a].bids != [] && Top(s.auctions[a]).user == user && Top(s.auctions[a]).amount == amount
            && Top(s.auctions[a]).shippingC >= 0
    ensures HoldMatches(s.holds, ForAuction(a), Some((user, amount + Top(s.auctions[a]).shippingC)))
  {
    RowIsKept(s, a);
    HoldIsLinked(s, ForAuction(a));
    var top := Top(s.auctions[a]);
    assert BidInTime(s.auctions[a], top, s.now);
    HeldAmount(s, ForAuction(a), user, amount + top.shippingC);
  }

  /** Capturing the winner's hold and charging the price leaves the reserved shipping free. */
  lemma ShippingIsLeft(s: State, a: nat, user: nat, amount: int, legs: seq<Entry>)
    requires Reached(s) && Settles(s, a, user, amount) && a !in s.captured
    requires Settled(legs, User(user)) >= -amount
    ensures s.auctions[a].bids != []
    ensures Available(s.entries + legs, CaptureHolds(s.holds, a, user), user) >=
            Available(s.entries, s.holds, user) + Top(s.auctions[a]).shippingC
    ensures Available(s.entries + legs, CaptureHolds(s.holds, a, user), user) >= Top(s.auctions[a]).shippingC
  {
    WinnerCanPay(s, a, user, amount);
    HoldsAreNotNegative(s);
    AvailableIsNotNegative(s, user);
    var shippingC := Top(s.auctions[a]).shippingC;
    var i: nat :| OnlyHeld(s.holds, ForAuction(a), i) && s.holds[i].user == user
      && s.holds[i].amount == amount + shippingC;
    CaptureIsUpdate(s.holds, a, i);
    DropHold(s.holds, i, Captured, user);
    SettledConcat(s.entries, legs, User(user));
  }

  /** Pay an escrowed order's seller out. */
  method PayOut(db: Database, o: nat)
    requires db.Valid() && o < |db.orders| && db.orders[o].amount > 0
             && !KeyPosted(db.ledger.entries, EscrowSettleKey(o))
    modifies db.ledger`entries, db.ledger`transfers
    ensures db.Valid()
    ensures db.ledger.entries == old(db.ledger.entries) + NonZero(EscrowReleaseLegs(o, db.orders[o].seller, db.orders[o].amount))
    ensures db.ledger.transfers == Enqueue(old(db.ledger.transfers), O.ReleaseChainLegs(o, db.orders[o].amount))
  {
    var row := db.orders[o];
    ghost var s := db.View();
    ghost var legs := NonZero(EscrowReleaseLegs(o, row.seller, row.amount));
    var r := db.ledger.EscrowRelease(row.seller, row.amount, o, O.ReleaseChainLegs(o, row.amount));
    ghost var j := KeyedLegIsWritten(EscrowReleaseLegs(o, row.seller, row.amount), 0, EscrowSettleKey(o));
    AppendPosts(s.entries, legs, j, EscrowSettleKey(o));
    ReleaseTakesNothing(o, row.seller, row.amount);
    Goes(s, PostUnlocked(legs));
  }

  lemma ReleaseTakesNothing(o: nat, seller: nat, amount: nat)
    ensures forall v: nat :: Settled(NonZero(EscrowReleaseLegs(o, seller, amount)), User(v)) >= 0
  {
    SplitSaleConserves(amount);
    forall v: nat
      ensures Settled(NonZero(EscrowReleaseLegs(o, seller, amount)), User(v)) >= 0
    {
      ReleaseMovesTheAmount(o, seller, amount, User(v));
      NonZeroKeepsBalances(EscrowReleaseLegs(o, seller, amount), User(v));
    }
  }

  /** Whether a prepaid shipment goes through. */
  predicate CanPrepay(item: ItemStatus, shippingC: int, hasAddress: bool, available: int) {
    item == ReadyToShip && hasAddress && (shippingC > 0 ==> shippingC <= available)
  }

  /** Charge a prepaid shipment; one that costs nothing is free to go. */
  method ChargeShipment(db: Database, buyer: nat, shippingC: int) returns (paid: bool)
    requires db.Valid() && AccountFree(db.View(), buyer)
    modifies db`shipments, db.ledger`entries, db.ledger`transfers
    ensures db.Valid()
    ensures paid <==> (shippingC > 0 ==> shippingC <= old(db.ledger.AvailableTo(buyer)))
    ensures db.ledger.entries == if paid && shippingC > 0
            then old(db.ledger.entries) + ShippingLegs(old(db.shipments), buyer, shippingC)
                                 else old(db.ledger.entries)
  {
    ghost var s := db.View();
    var sh := db.shipments;
    KeyIsNew(s.entries, |db.orders|, sh, true);
    if shippingC > 0 {
      var r := db.ledger.SettleShipping(buyer, shippingC, sh);
      if r != Ok {
        return false;
      }
      ShippingTakesAtMost(sh, buyer, shippingC);
      RunsWhole(s, Charge(buyer, shippingC, ShippingLegs(sh, buyer, shippingC)));
      MoreShipments(s.entries, ShippingLegs(sh, buyer, shippingC), |db.orders|, sh);
    }
    db.shipments := sh + 1;
    paid := true;
  }

  /** The order once its shipping is paid: the seller of a locked one gets seven business
      days, unless the clock runs already. */
  ghost predicate ShippingPaid(was: Order, row: Order, now: int) {
    && row == was.(item := InShipment, noShipDeadline := row.noShipDeadline)
    && if was.status == OrderLocked && was.noShipDeadline == None
       then row.noShipDeadline.Some? && ShipDeadline(now, row.noShipDeadline.value)
       else row.noShipDeadline == was.noShipDeadline
  }

  /** Prepay the shipping of an order: charge it, put the item into a shipment and start the
      seller's clock. If that cannot be done the item simply stays ready to ship. */
  method PrepayShipping(db: Database, o: nat, shippingC: int, hasAddress: bool) returns (paid: bool)
    requires db.Valid() && o < |db.orders| && AccountFree(db.View(), db.orders[o].buyer)
    modifies db`orders, db`shipments, db.ledger`entries, db.ledger`transfers
    ensures db.Valid()
    ensures paid <==> CanPrepay(old(db.orders)[o].item, shippingC, hasAddress, old(db.ledger.AvailableTo(db.orders[o].buyer)))
    ensures db.ledger.entries == if paid && shippingC > 0
            then old(db.ledger.entries) + ShippingLegs(old(db.shipments), old(db.orders)[o].buyer, shippingC)
                                 else old(db.ledger.entries)
    ensures |db.orders| == |old(db.orders)|
    ensures forall p | 0 <= p < |db.orders| && p != o :: db.orders[p] == old(db.orders)[p]
    ensures if paid then ShippingPaid(old(db.orders)[o], db.orders[o], db.now) else db.orders == old(db.orders)
  {
    var row := db.orders[o];
    if row.item != ReadyToShip || !hasAddress {
      return false;
    }
    paid := ChargeShipment(db, row.buyer, shippingC);
    if paid {
      row := row.(item := InShipment);
      if row.status == OrderLocked && row.noShipDeadline == None {
        var deadline := AddBusinessDays(db.now, NO_SHIP_BUSINESS_DAYS);
        row := row.(noShipDeadline := Some(deadline));
      }
      SetOrder(db, o, row);
    }
  }

  lemma MoreShipments(entries: seq<Entry>, legs: seq<Entry>, orders: nat, sh: nat)
    requires KeysKnown(entries, orders, sh) && KeyedAt(legs, 0, ShippingKey(sh))
    ensures KeysKnown(entries + legs, orders, sh + 1)
  {
    AppendPosts(entries, legs, 0, ShippingKey(sh));
  }

  // ---------------------------------------------------------------------------
  // Delivery
  // ---------------------------------------------------------------------------

  /** Whether the shipping of a sold item gets prepaid. `prepay` is its price, if the sale
      prepays at all. */
  predicate Prepays(nft: bool, prepay: Option<int>, hasAddress: bool, available: int) {
    !nft && prepay.Some? && CanPrepay(ReadyToShip, prepay.value, hasAddress, available)
  }

  /** The ledger rows of a delivery. */
  function DeliveryLegs(o: nat, sh: nat, row: Order, nft: bool, prepay: Option<int>, paid: bool): seq<Entry> {
    if nft then (if row.direct then [] else NonZero(EscrowReleaseLegs(o, row.seller, row.amount)))
    else if paid && prepay.Some? && prepay.value > 0 then ShippingLegs(sh, row.buyer, prepay.value)
    else []
  }

  /** What a delivery leaves of the order. */
  ghost predicate DeliveredAs(was: Order, row: Order, nft: bool, paid: bool, now: int) {
    && row == was.(status := row.status, item := row.item, noShipDeadline := row.noShipDeadline,
        heldUntil := row.heldUntil, releasedAt := row.releasedAt)
    && row.status == (if nft && !was.direct then OrderReleased else was.status)
    && row.releasedAt == (if nft && !was.direct then Some(now) else was.releasedAt)
    && row.item == (if nft then NoItem else if paid then InShipment else ReadyToShip)
    && row.heldUntil == (if nft then was.heldUntil else Some(now + 14 * DAY_MS))
    && (row.noShipDeadline.Some? <==> !nft && paid && was.status == OrderLocked)
    && (row.noShipDeadline.Some? ==> ShipDeadline(now, row.noShipDeadline.value))
  }

  /** Hand a sold item over: a digital one changes hands at once and its seller is paid at
      once; a physical one becomes ready to ship, its shipping prepaid if the sale says so
      and the buyer has the money. */
  method Deliver(db: Database, o: nat, nft: bool, prepay: Option<int>, hasAddress: bool)
    requires db.Valid() && o < |db.orders| && db.orders[o].amount > 0
             && !KeyPosted(db.ledger.entries, EscrowSettleKey(o))
    requires db.orders[o].item == NoItem && db.orders[o].noShipDeadline == None
    requires db.orders[o].status == if db.orders[o].direct then OrderReleased else OrderLocked
    requires AccountFree(db.View(), db.orders[o].buyer)
    modifies db`orders, db`shipments, db.ledger`entries, db.ledger`transfers
    ensures db.Valid()
    ensures var was := old(db.orders)[o];
            var paid := Prepays(nft, prepay, hasAddress, old(db.ledger.AvailableTo(was.buyer)));
            && |db.orders| == |old(db.orders)|
            && (forall p | 0 <= p < |db.orders| && p != o :: db.orders[p] == old(db.orders)[p])
            && DeliveredAs(was, db.orders[o], nft, paid, db.now)
            && db.ledger.entries == old(db.ledger.entries) + DeliveryLegs(o, old(db.shipments), was, nft, prepay, paid)
  {
    if nft {
      if !db.orders[o].direct {
        SetOrder(db, o, db.orders[o].(status := OrderReleased, releasedAt := Some(db.now)));
        PayOut(db, o);
      }
    } else {
      SetOrder(db, o, db.orders[o].(item := ReadyToShip, heldUntil := Some(db.now + E.SHIP_LATER_HOLD_MS)));
      if prepay.Some? {
        var paid := PrepayShipping(db, o, prepay.value, hasAddress);
      }
    }
  }

  // ---------------------------------------------------------------------------
  // What a sale comes to
  // ---------------------------------------------------------------------------

  /** Who sells what kind of item to whom, at what price. */
  datatype Deal = Deal(buyer: nat, seller: nat, price: nat, auction: Option<nat>, direct: bool, digital: bool)

  /** What a sale changes at account `a`: the price, the payout of a digital item out of
      escrow, and the shipping charged with it. */
  function SaleChange(d: Deal, shipping: int, a: Account): int {
    Change(User(d.buyer), if d.direct then User(d.seller) else Account.Escrow, d.price, a)
    + (if d.digital && !d.direct then PayoutChange(d.seller, d.price, a) else 0)
    + Change(User(d.buyer), Fee, shipping, a)
  }

  /** In words: the buyer pays price and shipping; the price waits in escrow - unless the
      seller is paid at once, in full in direct mode and less five percent for a digital
      item. Nobody else's balance changes. */
  lemma SaleChangeMeans(d: Deal, shipping: int, a: Account)
    requires d.buyer != d.seller
    ensures SaleChange(d, shipping, User(d.buyer)) == -(d.price as int) - shipping
    ensures SaleChange(d, shipping, User(d.seller)) ==
            if d.direct then d.price else if d.digital then d.price - d.price * 4 / 100 - d.price / 100 else 0
    ensures SaleChange(d, shipping, Account.Escrow) == if d.direct || d.digital then 0 else d.price
    ensures SaleChange(d, shipping, Platform) == if d.digital && !d.direct then d.price * 4 / 100 else 0
    ensures SaleChange(d, shipping, Fee) == shipping + if d.digital && !d.direct then d.price / 100 else 0
    ensures a !in {User(d.buyer), User(d.seller), Account.Escrow, Platform, Fee} ==> SaleChange(d, shipping, a) == 0
  {
  }

  /** The order of a deal, delivered: released if its seller has been paid, locked otherwise;
      a physical item is in a shipment whose seller has seven business days, or is held for
      the buyer for fourteen days. */
  ghost predicate OrderFor(row: Order, d: Deal, ships: bool, now: int) {
    && row.buyer == d.buyer && row.seller == d.seller && row.amount == d.price
    && row.auction == d.auction && row.direct == d.direct
    && row.status == (if d.direct || d.digital then OrderReleased else OrderLocked)
    && row.releasedAt == (if d.direct || d.digital then Some(now) else None)
    && row.refundedAt == None && row.windowEndsAt == None
    && row.item == (if d.digital then NoItem else if ships then InShipment else ReadyToShip)
    && row.heldUntil == (if d.digital then None else Some(now + 14 * DAY_MS))
    && if ships && !d.direct && !d.digital
       then row.noShipDeadline.Some? && ShipDeadline(now, row.noShipDeadline.value)
       else row.noShipDeadline == None
  }

  /** A deal done: its order stands, and every balance has changed as the deal says. */
  ghost predicate DealDone(before: seq<Entry>, after: seq<Entry>, row: Order, d: Deal, ships: bool, shipping: int, now: int) {
    && OrderFor(row, d, ships, now)
    && forall a :: Settled(after, a) == Settled(before, a) + SaleChange(d, shipping, a)
  }

  /** The order a deal starts from, once its price is charged. */
  function OrderOf(d: Deal, now: int): Order {
    NewOrder(d.buyer, d.seller, d.price, d.auction, d.direct, now).(status := if d.direct then OrderReleased else OrderLocked)
  }

  lemma SaleLegsMove(o: nat, d: Deal, a: Account)
    ensures Settled(SaleLegs(o, d.buyer, d.seller, d.price, d.direct), a) ==
            Change(User(d.buyer), if d.direct then User(d.seller) else Account.Escrow, d.price, a)
  {
    DirectSaleMoves(o, d.buyer, d.seller, d.price, a);
    LockMoves(o, d.buyer, d.price, a);
  }

  function ShippingTaken(digital: bool, prepay: Option<int>, ships: bool): int {
    if !digital && ships && prepay.Some? && prepay.value > 0 then prepay.value else 0
  }

  lemma DeliveryMoves(o: nat, sh: nat, d: Deal, now: int, prepay: Option<int>, ships: bool, a: Account)
    ensures Settled(DeliveryLegs(o, sh, OrderOf(d, now), d.digital, prepay, ships), a) ==
            (if d.digital && !d.direct then PayoutChange(d.seller, d.price, a) else 0)
            + Change(User(d.buyer), Fee, ShippingTaken(d.digital, prepay, ships), a)
  {
    if d.digital {
      NonZeroKeepsBalances(EscrowReleaseLegs(o, d.seller, d.price), a);
      ReleaseMoves(o, d.seller, d.price, a);
    } else if ships && prepay.Some? && prepay.value > 0 {
      ShippingMoves(sh, d.buyer, prepay.value, a);
    }
  }

  /** What charging and delivering post is what the deal says. */
  lemma PostedIsDone(before: seq<Entry>, o: nat, sh: nat, d: Deal, row: Order, prepay: Option<int>, ships: bool, now: int)
    requires DeliveredAs(OrderOf(d, now), row, d.digital, ships && !d.digital, now)
    ensures DealDone(before, before + SaleLegs(o, d.buyer, d.seller, d.price, d.direct)
                             + DeliveryLegs(o, sh, OrderOf(d, now), d.digital, prepay, ships),
                     row, d, ships, ShippingTaken(d.digital, prepay, ships), now)
  {
    var sale := SaleLegs(o, d.buyer, d.seller, d.price, d.direct);
    var delivery := DeliveryLegs(o, sh, OrderOf(d, now), d.digital, prepay, ships);
    forall a
      ensures Settled(before + sale + delivery, a) ==
              Settled(before, a) + SaleChange(d, ShippingTaken(d.digital, prepay, ships), a)
    {
      SettledConcat(before, sale, a);
      SettledConcat(before + sale, delivery, a);
      SaleLegsMove(o, d, a);
      DeliveryMoves(o, sh, d, now, prepay, ships, a);
    }
  }
}
