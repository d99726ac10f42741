/** Fixed-price sales (packages/backend/src/market.ts, store.ts): claim a unit, charge the
    buyer, undo the claim if the charge fails, deliver. Each method is one call run from
    start to end; Stock says what interleavings do to the units. */
module MarketDesk {
  import opened Schema
  import opened Books
  import opened Funds
  import opened Database
  import opened Charges
  import S = Stock

  datatype SaleResult = Sold(order: nat) | NotAvailable | NotCharged

  /** A unit can be claimed: the test the guarded decrement makes. */
  predicate Claimable(l: Listing, market: bool) {
    l.status == S.Queued && l.price.Some? && l.quantity > 0 && (market ==> l.marketplace)
  }

  /** On the marketplace, at a fixed price, with a unit left. */
  predicate ForSale(l: Listing) {
    l.marketplace && l.price.Some? && l.quantity > 0 && l.status == S.Queued
  }

  /** The listing after one unit was bought. */
  function UnitBought(l: Listing): Listing {
    l.(quantity := l.quantity - 1, status := if l.quantity - 1 <= 0 then S.Sold else l.status)
  }

  /** The order a purchase makes, once it is paid for. */
  function PaidOrder(buyer: nat, seller: nat, amount: nat, direct: bool, now: int): Order {
    NewOrder(buyer, seller, amount, None, direct, now).(status := if direct then OrderReleased else OrderLocked)
  }

  /** Orders are only added, and the new one is as given. */
  predicate OneMore(before: seq<Order>, after: seq<Order>) {
    |after| == |before| + 1 && forall p | 0 <= p < |before| :: after[p] == before[p]
  }

  /** Whether the charge of a purchase goes through. `escrowReady` is false when escrow mode
      has no provider. */
  predicate Funded(amount: nat, direct: bool, escrowReady: bool, available: int) {
    (direct || escrowReady) && 0 < amount <= available
  }

  /** Create the order and charge it; a charge that fails takes the order away again. */
  method OrderAndCharge(db: Database, buyer: nat, seller: nat, amount: nat, direct: bool, escrowReady: bool)
      returns (o: nat, charged: bool)
    requires db.Valid() && AccountFree(db.View(), buyer)
    modifies db`orders, db.ledger`entries, db.ledger`holds, db.ledger`transfers
    ensures db.Valid() && db.ledger.holds == old(db.ledger.holds)
    ensures o == |old(db.orders)| && OneMore(old(db.orders), db.orders)
    ensures charged <==> Funded(amount, direct, escrowReady, old(db.ledger.AvailableTo(buyer)))
    ensures db.orders[o] == if charged then PaidOrder(buyer, seller, amount, direct, db.now)
                            else NewOrder(buyer, seller, amount, None, direct, db.now).(status := OrderRemoved)
    ensures db.ledger.entries == if charged then old(db.ledger.entries) + SaleLegs(o, buyer, seller, amount, direct)
            else old(db.ledger.entries)
    ensures !KeyPosted(db.ledger.entries, EscrowSettleKey(o))
  {
    o := CreateOrder(db, NewOrder(buyer, seller, amount, None, direct, db.now));
    charged := false;
    if direct || escrowReady {
      var outcome := ChargeBuyer(db, o);
      charged := outcome == Ok;
    }
    SetOrder(db, o, db.orders[o].(status := if !charged then OrderRemoved else if direct then OrderReleased else OrderLocked));
  }

  /** Claim, charge, and undo on failure: then the unit is back, nothing was posted and only
      a removed order is left. */
  method ClaimAndCharge(db: Database, id: nat, buyer: nat, amount: nat, direct: bool, escrowReady: bool, market: bool)
      returns (r: SaleResult)
    requires db.Valid() && id in db.listings && AccountFree(db.View(), buyer)
    modifies db`listings, db`orders, db.ledger`entries, db.ledger`holds, db.ledger`transfers
    ensures db.Valid() && db.ledger.holds == old(db.ledger.holds)
    ensures r == NotAvailable <==> !Claimable(old(db.listings)[id], market)
    ensures r.Sold? <==> Claimable(old(db.listings)[id], market) && Funded(amount, direct, escrowReady, old(db.ledger.AvailableTo(buyer)))
    ensures r == NotAvailable ==> db.orders == old(db.orders)
    ensures r == NotCharged ==> OneMore(old(db.orders), db.orders) && db.orders[|old(db.orders)|].status == OrderRemoved
    ensures !r.Sold? ==> db.listings == old(db.listings) && db.ledger.entries == old(db.ledger.entries)
    ensures r.Sold? ==>
              var l := old(db.listings)[id];
              && r.order == |old(db.orders)| && OneMore(old(db.orders), db.orders)
              && db.listings == old(db.listings)[id := UnitBought(l)]
              && db.orders[r.order] == PaidOrder(buyer, l.seller, amount, direct, db.now)
              && db.ledger.entries == old(db.ledger.entries) + SaleLegs(r.order, buyer, l.seller, amount, direct)
              && !KeyPosted(db.ledger.entries, EscrowSettleKey(r.order))
  {
    var l := db.listings[id];
    if !Claimable(l, market) {
      return NotAvailable;
    }
    SetListing(db, id, l.(quantity := l.quantity - 1));
    var o, charged := ChargeClaimed(db, id, buyer, amount, direct, escrowReady);
    assert !charged ==> db.listings == old(db.listings);
    r := if charged then Sold(o) else NotCharged;
  }

  /** Order and charge for a unit that is claimed already. */
  method ChargeClaimed(db: Database, id: nat, buyer: nat, amount: nat, direct: bool, escrowReady: bool)
      returns (o: nat, charged: bool)
    requires db.Valid() && id in db.listings && AccountFree(db.View(), buyer)
    modifies db`listings, db`orders, db.ledger`entries, db.ledger`holds, db.ledger`transfers
    ensures db.Valid() && db.ledger.holds == old(db.ledger.holds)
    ensures o == |old(db.orders)| && OneMore(old(db.orders), db.orders)
    ensures charged <==> Funded(amount, direct, escrowReady, old(db.ledger.AvailableTo(buyer)))
    ensures db.listings == old(db.listings)[id := AfterCharge(old(db.listings)[id], charged)]
    ensures !charged ==> db.orders[o].status == OrderRemoved && db.ledger.entries == old(db.ledger.entries)
    ensures charged ==>
              && db.orders[o] == PaidOrder(buyer, old(db.listings)[id].seller, amount, direct, db.now)
              && db.ledger.entries == old(db.ledger.entries) + LegsOf(o, db.orders[o])
              && !KeyPosted(db.ledger.entries, EscrowSettleKey(o))
  {
    o, charged := OrderAndCharge(db, buyer, db.listings[id].seller, amount, direct, escrowReady);
    SetListing(db, id, AfterCharge(db.listings[id], charged));
  }

  /** A failed charge puts the unit back; a sale that took the last one retires the listing. */
  function AfterCharge(l: Listing, charged: bool): Listing {
    if !charged then l.(quantity := l.quantity + 1)
    else if l.quantity <= 0 then l.(status := S.Sold)
    else l
  }

  /** The ledger rows of a whole sale: the price, then the delivery. */
  function SaleAndDelivery(o: nat, sh: nat, row: Order, nft: bool, prepay: Option<int>, paid: bool): seq<Entry> {
    SaleLegs(o, row.buyer, row.seller, row.amount, row.direct) + DeliveryLegs(o, sh, row, nft, prepay, paid)
  }

  /** What the buyer has left after paying the price. */
  function LeftAfter(o: nat, row: Order, available: int): int {
    available + Settled(SaleLegs(o, row.buyer, row.seller, row.amount, row.direct), User(row.buyer))
  }

  /** What a sale of order `o` leaves, its shipping paid if what is left covers it. */
  ghost predicate SoldAs(before: seq<Entry>, after: seq<Entry>, o: nat, sh: nat, was: Order, row: Order, nft: bool,
                         prepay: Option<int>, hasAddress: bool, available: int, now: int) {
    var paid := Prepays(nft, prepay, hasAddress, LeftAfter(o, was, available));
    && DeliveredAs(was, row, nft, paid, now)
    && after == before + SaleAndDelivery(o, sh, was, nft, prepay, paid)
  }

  /** A sale done: the shipping is paid with it if the address is there and what is left
      after the price covers it. */
  ghost predicate SoldTo(before: seq<Entry>, after: seq<Entry>, row: Order, d: Deal, shippingC: int, hasAddress: bool,
                         available: int, now: int) {
    var left := available - (if d.direct && d.buyer == d.seller then 0 else d.price);
    var ships := !d.digital && hasAddress && (shippingC <= 0 || shippingC <= left);
    DealDone(before, after, row, d, ships, if ships && shippingC > 0 then shippingC else 0, now)
  }

  lemma SoldAsIsSoldTo(before: seq<Entry>, after: seq<Entry>, o: nat, sh: nat, row: Order, d: Deal, shippingC: int,
                       hasAddress: bool, available: int, now: int)
    requires SoldAs(before, after, o, sh, OrderOf(d, now), row, d.digital, Some(shippingC), hasAddress, available, now)
    ensures SoldTo(before, after, row, d, shippingC, hasAddress, available, now)
  {
    var prepay := Some(shippingC);
    var paid := Prepays(d.digital, prepay, hasAddress, LeftAfter(o, OrderOf(d, now), available));
    SaleLegsMove(o, d, User(d.buyer));
    PostedIsDone(before, o, sh, d, row, prepay, paid, now);
    var sale, delivery := SaleLegs(o, d.buyer, d.seller, d.price, d.direct), DeliveryLegs(o, sh, OrderOf(d, now), d.digital, prepay, paid);
    assert before + sale + delivery == before + (sale + delivery);
  }

  /** The sale pipeline of buy-now purchases and accepted offers. A sale posts exactly the
      price, and the shipping if what is left covers it; anything else posts nothing and
      puts the unit back. */
  method SettleMarketSale(db: Database, id: nat, buyer: nat, amount: nat, shippingC: int, direct: bool,
      escrowReady: bool, hasAddress: bool) returns (r: SaleResult)
    requires db.Valid() && AccountFree(db.View(), buyer)
    modifies db`listings, db`orders, db`shipments, db.ledger`entries, db.ledger`holds, db.ledger`transfers
    ensures db.Valid() && db.ledger.holds == old(db.ledger.holds)
    ensures r == NotAvailable <==> id !in old(db.listings) || !ForSale(old(db.listings)[id])
    ensures r.Sold? <==> r != NotAvailable && (direct || escrowReady) && 0 < amount <= old(db.ledger.AvailableTo(buyer))
    ensures !r.Sold? ==> db.listings == old(db.listings) && db.ledger.entries == old(db.ledger.entries)
    ensures r.Sold? ==>
              var l := old(db.listings)[id];
              && r.order == |old(db.orders)| && OneMore(old(db.orders), db.orders)
              && db.listings == old(db.listings)[id := UnitBought(l)]
              && SoldTo(old(db.ledger.entries), db.ledger.entries, db.orders[r.order], Deal(buyer, l.seller, amount, None, direct, l.nft),
                        shippingC, hasAddress, old(db.ledger.AvailableTo(buyer)), db.now)
              && SoldAs(old(db.ledger.entries), db.ledger.entries, r.order, old(db.shipments), PaidOrder(buyer, l.seller, amount, direct, db.now),
                        db.orders[r.order], l.nft, Some(shippingC), hasAddress, old(db.ledger.AvailableTo(buyer)), db.now)
  {
    if id !in db.listings {
      return NotAvailable;
    }
    ghost var l := db.listings[id];
    r := SellUnit(db, id, buyer, amount, shippingC, direct, escrowReady, hasAddress);
    if r.Sold? {
      SoldAsIsSoldTo(old(db.ledger.entries), db.ledger.entries, r.order, old(db.shipments), db.orders[r.order],
                     Deal(buyer, l.seller, amount, None, direct, l.nft), shippingC, hasAddress, old(db.ledger.AvailableTo(buyer)), db.now);
    }
  }

  /** Claim, charge, deliver. */
  method SellUnit(db: Database, id: nat, buyer: nat, amount: nat, shippingC: int, direct: bool, escrowReady: bool,
      hasAddress: bool) returns (r: SaleResult)
    requires db.Valid() && AccountFree(db.View(), buyer) && id in db.listings
    modifies db`listings, db`orders, db`shipments, db.ledger`entries, db.ledger`holds, db.ledger`transfers
    ensures db.Valid() && db.ledger.holds == old(db.ledger.holds)
    ensures r == NotAvailable <==> !Claimable(old(db.listings)[id], true)
    ensures r.Sold? <==> Claimable(old(db.listings)[id], true) && Funded(amount, direct, escrowReady, old(db.ledger.AvailableTo(buyer)))
    ensures !r.Sold? ==> db.listings == old(db.listings) && db.ledger.entries == old(db.ledger.entries)
    ensures r.Sold? ==>
              var l := old(db.listings)[id];
              && r.order == |old(db.orders)| && OneMore(old(db.orders), db.orders)
              && db.listings == old(db.listings)[id := UnitBought(l)]
              && SoldAs(old(db.ledger.entries), db.ledger.entries, r.order, old(db.shipments), PaidOrder(buyer, l.seller, amount, direct, db.now),
                        db.orders[r.order], l.nft, Some(shippingC), hasAddress, old(db.ledger.AvailableTo(buyer)), db.now)
  {
    r := ClaimAndCharge(db, id, buyer, amount, direct, escrowReady, true);
    if r.Sold? {
      DeliverSold(db, r.order, db.listings[id].nft, Some(shippingC), hasAddress, old(db.ledger.entries));
    }
  }

  /** Deliver an order whose charge was the last thing posted. */
  method DeliverSold(db: Database, o: nat, nft: bool, prepay: Option<int>, hasAddress: bool, ghost before: seq<Entry>)
    requires db.Valid() && o < |db.orders| && AccountFree(db.View(), db.orders[o].buyer)
    requires db.orders[o].amount > 0 && db.orders[o].item == NoItem && db.orders[o].noShipDeadline == None
    requires db.orders[o].status == if db.orders[o].direct then OrderReleased else OrderLocked
    requires db.ledger.entries == before + SaleLegs(o, db.orders[o].buyer, db.orders[o].seller, db.orders[o].amount, db.orders[o].direct)
    requires !KeyPosted(db.ledger.entries, EscrowSettleKey(o))
    modifies db`orders, db`shipments, db.ledger`entries, db.ledger`transfers
    ensures db.Valid() && |db.orders| == |old(db.orders)|
    ensures forall p | 0 <= p < |db.orders| && p != o :: db.orders[p] == old(db.orders)[p]
    ensures SoldAs(before, db.ledger.entries, o, old(db.shipments), old(db.orders)[o], db.orders[o], nft, prepay, hasAddress,
                   Available(before, db.ledger.holds, db.orders[o].buyer), db.now)
  {
    var row := db.orders[o];
    SettledConcat(before, SaleLegs(o, row.buyer, row.seller, row.amount, row.direct), User(row.buyer));
    Deliver(db, o, nft, prepay, hasAddress);
    ghost var paid := Prepays(nft, prepay, hasAddress,
        LeftAfter(o, row, Available(before, db.ledger.holds, row.buyer)));
    assert db.ledger.entries == before + SaleAndDelivery(o, old(db.shipments), row, nft, prepay, paid);
  }

  datatype BuyResult = Bought(order: nat) | NotFound | OwnListing | Gone | NoAddress | NoLane | Short | Failed

  /** Buy a marketplace listing outright: price and shipping are required together up front,
      and then both are charged - the shipping too, if the address is complete. `lane` is the
      seller's shipping price for the buyer's region. */
  method BuyMarketItem(db: Database, id: nat, buyer: nat, lane: Option<nat>, hasCountry: bool, hasAddress: bool,
      direct: bool, escrowReady: bool) returns (r: BuyResult)
    requires db.Valid() && AccountFree(db.View(), buyer)
    modifies db`listings, db`orders, db`shipments, db.ledger`entries, db.ledger`holds, db.ledger`transfers
    ensures db.Valid()
    ensures !r.Bought? ==> db.listings == old(db.listings) && db.ledger.entries == old(db.ledger.entries)
    ensures r == match old(Refusal(db.listings, id, buyer, lane, hasCountry, db.ledger.AvailableTo(buyer)))
                 case Some(refusal) => refusal
                 case None =>
                   if (direct || escrowReady) && old(db.listings)[id].price.value > 0 then Bought(|old(db.orders)|)
                     else Failed
    ensures r.Bought? ==>
              var l := old(db.listings)[id];
              var row := PaidOrder(buyer, l.seller, l.price.value, direct, db.now);
              var shippingC := if l.nft then 0 else lane.value;
              var ships := !l.nft && hasAddress;
              && db.listings == old(db.listings)[id := UnitBought(l)]
              && OneMore(old(db.orders), db.orders)
              && DealDone(old(db.ledger.entries), db.ledger.entries, db.orders[r.order],
                          Deal(buyer, l.seller, l.price.value, None, direct, l.nft), ships, if ships then shippingC else 0, db.now)
              && db.ledger.entries == old(db.ledger.entries)
                 + SaleAndDelivery(r.order, old(db.shipments), row, l.nft, Some(shippingC), ships)
  {
    if id !in db.listings || !db.listings[id].marketplace || db.listings[id].price == None || db.listings[id].wheel {
      return NotFound;
    }
    var l := db.listings[id];
    if l.seller == buyer {
      return OwnListing;
    }
    if l.status != S.Queued || l.quantity <= 0 {
      return Gone;
    }
    var shippingC := 0;
    if !l.nft {
      if !hasCountry {
        return NoAddress;
      }
      if lane == None {
        return NoLane;
      }
      shippingC := lane.value;
    }
    if db.ledger.AvailableTo(buyer) < l.price.value + shippingC {
      return Short;
    }
    r := BuyChecked(db, id, buyer, shippingC, direct, escrowReady, hasAddress);
  }

  /** Price and shipping are there, and the item is somebody else's: both are charged. */
  method BuyChecked(db: Database, id: nat, buyer: nat, shippingC: nat, direct: bool, escrowReady: bool,
      hasAddress: bool) returns (r: BuyResult)
    requires db.Valid() && AccountFree(db.View(), buyer)
    requires id in db.listings && ForSale(db.listings[id]) && db.listings[id].seller != buyer
             && db.listings[id].price.value + shippingC <= db.ledger.AvailableTo(buyer)
    modifies db`listings, db`orders, db`shipments, db.ledger`entries, db.ledger`holds, db.ledger`transfers
    ensures db.Valid()
    ensures !r.Bought? ==> db.listings == old(db.listings) && db.ledger.entries == old(db.ledger.entries)
    ensures r == if (direct || escrowReady) && old(db.listings)[id].price.value > 0 then Bought(|old(db.orders)|) else Failed
    ensures r.Bought? ==>
              var l := old(db.listings)[id];
              var row := PaidOrder(buyer, l.seller, l.price.value, direct, db.now);
              var ships := !l.nft && hasAddress;
              && db.listings == old(db.listings)[id := UnitBought(l)]
              && OneMore(old(db.orders), db.orders)
              && DealDone(old(db.ledger.entries), db.ledger.entries, db.orders[r.order],
                          Deal(buyer, l.seller, l.price.value, None, direct, l.nft), ships, if ships then shippingC else 0, db.now)
              && db.ledger.entries == old(db.ledger.entries)
                 + SaleAndDelivery(r.order, old(db.shipments), row, l.nft, Some(shippingC), ships)
  {
    var l := db.listings[id];
    PriceLeaves(|db.orders|, buyer, l.seller, l.price.value, direct);
    var sale := SettleMarketSale(db, id, buyer, l.price.value, shippingC, direct, escrowReady, hasAddress);
    r := if sale.Sold? then Bought(sale.order) else Failed;
  }

  /** The checks before a purchase, in their order. */
  function Refusal(listings: map<nat, Listing>, id: nat, buyer: nat, lane: Option<nat>, hasCountry: bool,
      available: int): Option<BuyResult> {
    if id !in listings || !listings[id].marketplace || listings[id].price == None
      || listings[id].wheel then Some(NotFound)
    else
      var l := listings[id];
      if l.seller == buyer then Some(OwnListing)
      else if l.status != S.Queued || l.quantity <= 0 then Some(Gone)
      else if !l.nft && !hasCountry then Some(NoAddress)
      else if !l.nft && lane == None then Some(NoLane)
      else if available < l.price.value + (if l.nft then 0 else lane.value) then Some(Short)
      else None
  }

  lemma PriceLeaves(o: nat, buyer: nat, seller: nat, amount: nat, direct: bool)
    requires buyer != seller
    ensures Settled(SaleLegs(o, buyer, seller, amount, direct), User(buyer)) == -(amount as int)
  {
    TwoLegs(SaleLegs(o, buyer, seller, amount, direct), User(buyer));
  }

  /** Buy from a seller's store. The item is never digital and never on the marketplace, and
      its shipping is paid later. */
  method PurchaseListing(db: Database, id: nat, buyer: nat, direct: bool) returns (r: BuyResult)
    requires db.Valid() && AccountFree(db.View(), buyer)
    modifies db`listings, db`orders, db`shipments, db.ledger`entries, db.ledger`holds, db.ledger`transfers
    ensures db.Valid()
    ensures !r.Bought? ==> db.listings == old(db.listings) && db.ledger.entries == old(db.ledger.entries)
    ensures r.Bought? <==>
              && id in old(db.listings)
              && var l := old(db.listings)[id];
                 && l.status == S.Queued && l.quantity > 0 && l.price.Some?
                 && l.seller != buyer && !l.wheel && !l.marketplace && !l.nft
                 && 0 < l.price.value <= old(db.ledger.AvailableTo(buyer))
    ensures r.Bought? ==>
              var l := old(db.listings)[id];
              && db.listings == old(db.listings)[id := UnitBought(l)]
              && OneMore(old(db.orders), db.orders) && r.order == |old(db.orders)|
              && DealDone(old(db.ledger.entries), db.ledger.entries, db.orders[r.order],
                          Deal(buyer, l.seller, l.price.value, None, direct, false), false, 0, db.now)
              && db.ledger.entries == old(db.ledger.entries) + SaleLegs(r.order, buyer, l.seller, l.price.value, direct)
  {
    if id !in db.listings || db.listings[id].price == None {
      return Gone;
    }
    var l := db.listings[id];
    if l.seller == buyer {
      return OwnListing;
    }
    if l.wheel || l.marketplace || l.nft {
      return Gone;
    }
    if l.status != S.Queued || l.quantity <= 0 {
      return Gone;
    }
    r := SellFromStore(db, id, buyer, direct);
    if r.Bought? {
      StoreSaleIsDone(old(db.ledger.entries), r.order, db.orders[r.order], buyer, l.seller, l.price.value, direct, db.now);
    }
  }

  lemma StoreSaleIsDone(before: seq<Entry>, o: nat, row: Order, buyer: nat, seller: nat, price: nat, direct: bool, now: int)
    requires DeliveredAs(PaidOrder(buyer, seller, price, direct, now), row, false, false, now)
    ensures DealDone(before, before + SaleLegs(o, buyer, seller, price, direct), row,
                     Deal(buyer, seller, price, None, direct, false), false, 0, now)
  {
    var d := Deal(buyer, seller, price, None, direct, false);
    PostedIsDone(before, o, 0, d, row, None, false, now);
    assert before + SaleLegs(o, buyer, seller, price, direct) + [] == before + SaleLegs(o, buyer, seller, price, direct);
  }

  method SellFromStore(db: Database, id: nat, buyer: nat, direct: bool) returns (r: BuyResult)
    requires db.Valid() && AccountFree(db.View(), buyer) && id in db.listings && Claimable(db.listings[id], false)
    modifies db`listings, db`orders, db`shipments, db.ledger`entries, db.ledger`holds, db.ledger`transfers
    ensures db.Valid() && (r.Bought? || r == Failed)
    ensures !r.Bought? ==> db.listings == old(db.listings) && db.ledger.entries == old(db.ledger.entries)
    ensures r.Bought? <==> Funded(old(db.listings)[id].price.value, direct, true, old(db.ledger.AvailableTo(buyer)))
    ensures r.Bought? ==>
              var l := old(db.listings)[id];
              && db.listings == old(db.listings)[id := UnitBought(l)]
              && OneMore(old(db.orders), db.orders) && r.order == |old(db.orders)|
              && DeliveredAs(PaidOrder(buyer, l.seller, l.price.value, direct, db.now), db.orders[r.order], false, false, db.now)
              && db.ledger.entries == old(db.ledger.entries) + SaleLegs(r.order, buyer, l.seller, l.price.value, direct)
  {
    var l := db.listings[id];
    var sale := ClaimAndCharge(db, id, buyer, l.price.value, direct, true, false);
    if sale.Sold? {
      DeliverSold(db, sale.order, false, None, false, old(db.ledger.entries));
      NothingElsePosted(sale.order, PaidOrder(buyer, l.seller, l.price.value, direct, db.now));
      return Bought(sale.order);
    }
    r := Failed;
  }

  lemma NothingElsePosted(o: nat, row: Order)
    ensures forall sh :: SaleAndDelivery(o, sh, row, false, None, false) == LegsOf(o, row)
  {
  }

  /** Take an unsold buy-now listing down: only while a unit is still there to be bought. */
  method DelistMarketListing(db: Database, id: nat, seller: nat) returns (taken: bool)
    requires db.Valid()
    modifies db`listings
    ensures db.Valid()
    ensures taken <==> id in old(db.listings) && old(db.listings)[id].seller == seller && ForSale(old(db.listings)[id])
    ensures db.listings == if taken then old(db.listings)[id := old(db.listings)[id].(status := S.Delisted)]
            else old(db.listings)
    ensures taken ==> !Claimable(db.listings[id], false)
  {
    taken := id in db.listings && db.listings[id].seller == seller && Claimable(db.listings[id], true);
    if taken {
      SetListing(db, id, db.listings[id].(status := S.Delisted));
    }
  }
}
