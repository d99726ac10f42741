/** Offers on fixed-price listings (packages/backend/src/offers.ts): every open offer is
    backed by a hold of its amount and shipping. Each method is one call run from start to
    end; FundsTheorems says what interleavings keep. */
module OfferDesk {
  import opened Schema
  import opened Books
  import opened AuctionRules
  import opened Funds
  import opened FundsRuns
  import opened Database
  import C = Charges
  import M = MarketDesk
  import S = Stock

  const OFFER_TTL_MS := 48 * 3600 * 1000
  const MIN_OFFER := 1_000_000
  const EXPIRE_BATCH := 100

  function ReserveOf(o: Offer): int {
    o.amount + o.shippingC
  }

  // ---------------------------------------------------------------------------
  // Closing offers
  // ---------------------------------------------------------------------------

  /** Closing an open offer and freeing its hold gives its buyer exactly the reserve back. */
  lemma FreeingGivesBack(s: State, o: nat, v: nat)
    requires Reached(s) && o in s.offers && Live(s.offers[o])
    ensures Available(s.entries, ReleaseHolds(s.holds, o), v) ==
            Available(s.entries, s.holds, v) + (if v == s.offers[o].buyer then ReserveOf(s.offers[o]) else 0)
    ensures HoldMatches(ReleaseHolds(s.holds, o), ForOffer(o), None)
  {
    HoldIsLinked(s, ForOffer(o));
    HoldsAreNotNegative(s);
    var i: nat :| OnlyHeld(s.holds, ForOffer(o), i) && s.holds[i].user == s.offers[o].buyer
      && s.holds[i].amount == ReserveOf(s.offers[o]);
    ReleaseIsUpdate(s.holds, o, i);
    DropHold(s.holds, i, Released, v);
  }

  /** Claim an open offer for a terminal status, then free its hold. */
  method CloseOffer(db: Database, o: nat, to: OfferStatus)
    requires db.Valid() && o in db.offers && Live(db.offers[o]) && to in {Accepted, Declined, Canceled, Expired}
    modifies db`offers, db.ledger`holds
    ensures db.Valid()
    ensures db.offers == old(db.offers)[o := old(db.offers)[o].(status := to)]
    ensures HoldMatches(db.ledger.holds, ForOffer(o), None)
    ensures forall v: nat :: db.ledger.AvailableTo(v) ==
              old(db.ledger.AvailableTo(v)) + (if v == old(db.offers)[o].buyer then ReserveOf(old(db.offers)[o]) else 0)
  {
    ghost var s := db.View();
    OfferIsSound(s, o);
    forall v: nat { FreeingGivesBack(s, o, v); }
    Goes(s, ClaimOffer(o, to));
    Goes(Apply(s, ClaimOffer(o, to)), FreeOffer(o));
    db.offers := db.offers[o := db.offers[o].(status := to)];
    db.ledger.holds := ReleaseHolds(db.ledger.holds, o);
    assert s.owed + {o} - {o} == s.owed;
  }

  /** The offers once the first `k` of the list have been closed. */
  function ClosedUpTo(offers: map<nat, Offer>, ids: seq<nat>, k: nat, to: OfferStatus): map<nat, Offer>
    requires k <= |ids| && forall i | 0 <= i < k :: ids[i] in offers
  {
    if k == 0 then offers else ClosedUpTo(offers, ids, k - 1, to)[ids[k - 1] := offers[ids[k - 1]].(status := to)]
  }

  /** What closing the first `k` of the list gives back to a user. */
  function GivenBack(offers: map<nat, Offer>, ids: seq<nat>, k: nat, user: nat): int
    requires k <= |ids| && forall i | 0 <= i < k :: ids[i] in offers
  {
    if k == 0 then 0
    else GivenBack(offers, ids, k - 1, user) + (if offers[ids[k - 1]].buyer == user then ReserveOf(offers[ids[k - 1]]) else 0)
  }

  lemma {:induction false} ClosedUpToRow(offers: map<nat, Offer>, ids: seq<nat>, k: nat, to: OfferStatus, o: nat)
    requires k <= |ids| && (forall i | 0 <= i < k :: ids[i] in offers) && o in offers
    ensures o in ClosedUpTo(offers, ids, k, to)
    ensures ClosedUpTo(offers, ids, k, to)[o] == if o in ids[..k] then offers[o].(status := to) else offers[o]
  {
    if k > 0 {
      ClosedUpToRow(offers, ids, k - 1, to, o);
      assert ids[..k] == ids[..k - 1] + [ids[k - 1]];
    }
  }

  lemma {:induction false} ClosedUpToKeys(offers: map<nat, Offer>, ids: seq<nat>, k: nat, to: OfferStatus)
    requires k <= |ids| && forall i | 0 <= i < k :: ids[i] in offers
    ensures ClosedUpTo(offers, ids, k, to).Keys == offers.Keys
  {
    if k > 0 {
      ClosedUpToKeys(offers, ids, k - 1, to);
    }
  }

  /** Distinct open offers. */
  predicate OpenOffers(offers: map<nat, Offer>, ids: seq<nat>) {
    && (forall i | 0 <= i < |ids| :: ids[i] in offers && Live(offers[ids[i]]))
    && (forall i, j | 0 <= i < j < |ids| :: ids[i] != ids[j])
  }

  method CloseOffers(db: Database, ids: seq<nat>, to: OfferStatus)
    requires db.Valid() && OpenOffers(db.offers, ids) && to in {Canceled, Expired}
    modifies db`offers, db.ledger`holds
    ensures db.Valid()
    ensures db.offers == ClosedUpTo(old(db.offers), ids, |ids|, to)
    ensures forall v: nat :: db.ledger.AvailableTo(v) == old(db.ledger.AvailableTo(v)) + GivenBack(old(db.offers), ids, |ids|, v)
  {
    var k := 0;
    while k < |ids|
      invariant 0 <= k <= |ids| && db.Valid()
      invariant db.offers == ClosedUpTo(old(db.offers), ids, k, to)
      invariant forall v: nat :: db.ledger.AvailableTo(v) == old(db.ledger.AvailableTo(v)) + GivenBack(old(db.offers), ids, k, v)
    {
      CloseNext(db, old(db.offers), ids, k, to);
      k := k + 1;
    }
  }

  method CloseNext(db: Database, ghost was: map<nat, Offer>, ids: seq<nat>, k: nat, to: OfferStatus)
    requires db.Valid() && k < |ids| && OpenOffers(was, ids) && to in {Canceled, Expired}
    requires db.offers == ClosedUpTo(was, ids, k, to)
    modifies db`offers, db.ledger`holds
    ensures db.Valid() && db.offers == ClosedUpTo(was, ids, k + 1, to)
    ensures forall v: nat :: db.ledger.AvailableTo(v) + GivenBack(was, ids, k, v) == old(db.ledger.AvailableTo(v)) + GivenBack(was, ids, k + 1, v)
  {
    ClosedUpToRow(was, ids, k, to, ids[k]);
    assert ids[k] !in ids[..k];
    CloseOffer(db, ids[k], to);
  }

  /** Some of the overdue open offers, up to the batch size, all of them if they fit. */
  method DueOffers(db: Database) returns (ids: seq<nat>)
    ensures OpenOffers(db.offers, ids) && |ids| <= EXPIRE_BATCH
    ensures forall i | 0 <= i < |ids| :: db.offers[ids[i]].expiresAt <= db.now
    ensures |ids| < EXPIRE_BATCH ==> forall o | o in db.offers && Overdue(db.offers[o], db.now) :: o in ids
  {
    var due := set o | o in db.offers && Overdue(db.offers[o], db.now);
    var todo := due;
    ids := [];
    while todo != {} && |ids| < EXPIRE_BATCH
      invariant todo <= due && |ids| <= EXPIRE_BATCH
      invariant forall o :: o in ids <==> o in due && o !in todo
      invariant forall i, j | 0 <= i < j < |ids| :: ids[i] != ids[j]
      decreases |todo|
    {
      var o :| o in todo;
      ids, todo := ids + [o], todo - {o};
    }
    assert forall i | 0 <= i < |ids| :: ids[i] in ids;
  }

  predicate Overdue(o: Offer, now: int) {
    Live(o) && o.expiresAt <= now
  }

  /** `n` distinct overdue offers. */
  predicate OverdueList(offers: map<nat, Offer>, ids: seq<nat>, n: nat, now: int) {
    |ids| == n && OpenOffers(offers, ids) && forall i | 0 <= i < |ids| :: Overdue(offers[ids[i]], now)
  }

  /** The worker's pass: as many overdue offers as it reports expire, and give their buyers
      exactly their reserves back; below the batch size none is left. */
  method ExpireOffers(db: Database) returns (n: nat)
    requires db.Valid()
    modifies db`offers, db.ledger`holds
    ensures db.Valid() && n <= EXPIRE_BATCH && db.offers.Keys == old(db.offers).Keys
    ensures exists ids ::
              && OverdueList(old(db.offers), ids, n, db.now)
              && db.offers == ClosedUpTo(old(db.offers), ids, n, Expired)
              && forall v: nat :: db.ledger.AvailableTo(v) == old(db.ledger.AvailableTo(v)) + GivenBack(old(db.offers), ids, n, v)
    ensures n < 100 ==> forall o | o in db.offers && db.offers[o].status in {OfferPending, Countered} :: db.offers[o].expiresAt > db.now
    ensures forall o | o in db.offers ::
              var was := old(db.offers)[o];
              || db.offers[o] == was
              || (was.status in {OfferPending, Countered} && was.expiresAt <= db.now && db.offers[o] == was.(status := Expired))
  {
    var ids := DueOffers(db);
    CloseOffers(db, ids, Expired);
    n := |ids|;
    assert OverdueList(old(db.offers), ids, n, db.now);
    ClosedUpToKeys(old(db.offers), ids, |ids|, Expired);
    forall o | o in db.offers
      ensures db.offers[o] == if o in ids then old(db.offers)[o].(status := Expired) else old(db.offers)[o]
    {
      ClosedUpToRow(old(db.offers), ids, |ids|, Expired, o);
      assert ids[..|ids|] == ids;
    }
  }

  // ---------------------------------------------------------------------------
  // Making an offer
  // ---------------------------------------------------------------------------

  datatype MakeResult = Made | NoListing | OwnListing | Gone | TooSmall | AskingPrice | NoAddress | NoLane | Short

  /** The checks before an offer is recorded, in their order; funds come last. */
  function MakeRefusal(listings: map<nat, Listing>, id: nat, buyer: nat, amount: int, lane: Option<nat>,
      hasCountry: bool): Option<MakeResult> {
    if id !in listings || !listings[id].marketplace || listings[id].price == None
      || listings[id].wheel then Some(NoListing)
    else
      var l := listings[id];
      if l.seller == buyer then Some(OwnListing)
      else if l.status != S.Queued || l.quantity <= 0 then Some(Gone)
      else if amount < 1_000_000 then Some(TooSmall)
      else if amount >= l.price.value then Some(AskingPrice)
      else if !l.nft && !hasCountry then Some(NoAddress)
      else if !l.nft && lane == None then Some(NoLane)
      else None
  }

  predicate Previous(o: Offer, id: nat, buyer: nat) {
    o.listing == id && o.buyer == buyer && Live(o)
  }

  method PreviousOffers(db: Database, id: nat, buyer: nat) returns (ids: seq<nat>)
    ensures OpenOffers(db.offers, ids)
    ensures forall o :: o in ids <==> o in db.offers && Previous(db.offers[o], id, buyer)
  {
    var mine := set o | o in db.offers && Previous(db.offers[o], id, buyer);
    var todo := mine;
    ids := [];
    while todo != {}
      invariant todo <= mine && forall o :: o in ids <==> o in mine && o !in todo
      invariant forall i, j | 0 <= i < j < |ids| :: ids[i] != ids[j]
      decreases |todo|
    {
      var o :| o in todo;
      ids, todo := ids + [o], todo - {o};
    }
    assert forall i | 0 <= i < |ids| :: ids[i] in ids;
  }

  method CheckOffer(db: Database, id: nat, buyer: nat, amount: int, lane: Option<nat>, hasCountry: bool)
      returns (refusal: Option<MakeResult>)
    ensures refusal == MakeRefusal(db.listings, id, buyer, amount, lane, hasCountry)
  {
    if id !in db.listings || !db.listings[id].marketplace || db.listings[id].price == None || db.listings[id].wheel {
      return Some(NoListing);
    }
    var l := db.listings[id];
    if l.seller == buyer {
      return Some(OwnListing);
    }
    if l.status != S.Queued || l.quantity <= 0 {
      return Some(Gone);
    }
    if amount < MIN_OFFER {
      return Some(TooSmall);
    }
    if amount >= l.price.value {
      return Some(AskingPrice);
    }
    if !l.nft {
      if !hasCountry {
        return Some(NoAddress);
      }
      if lane == None {
        return Some(NoLane);
      }
    }
    refusal := None;
  }

  /** Make offer `o`. It replaces the buyer's open offers on the listing: their holds are
      freed before the funds are looked at, so their reserves count toward the new one -
      and they stay canceled even if the new one then lacks the money. */
  method MakeOffer(db: Database, o: nat, id: nat, buyer: nat, amount: int, lane: Option<nat>, hasCountry: bool)
      returns (r: MakeResult)
    requires db.Valid() && o !in db.offers && AccountFree(db.View(), buyer)
    modifies db`offers, db.ledger`holds
    ensures db.Valid()
    ensures var refusal := MakeRefusal(db.listings, id, buyer, amount, lane, hasCountry);
            if refusal.Some? then r == refusal.value && db.offers == old(db.offers)
              && db.ledger.holds == old(db.ledger.holds)
            else r == Made || r == Short
    ensures MakeRefusal(db.listings, id, buyer, amount, lane, hasCountry) == None ==>
              var l := db.listings[id];
              var row := Offer(buyer, l.seller, id, amount, if l.nft then 0 else lane.value, None, OfferPending, db.now + 48 * 3_600_000);
              && Replaced(old(db.offers), row, r == Made, old(db.ledger.AvailableTo(buyer)), db.ledger.AvailableTo(buyer))
              && RowsReplaced(old(db.offers), db.offers, o, row, r == Made)
              && (r == Made ==> HoldMatches(db.ledger.holds, ForOffer(o), Some((buyer, amount + row.shippingC))))
  {
    var refusal := CheckOffer(db, id, buyer, amount, lane, hasCountry);
    if refusal.Some? {
      return refusal.value;
    }
    var l := db.listings[id];
    var shippingC := if l.nft then 0 else lane.value;
    var made := ReplaceOffers(db, o, Offer(buyer, l.seller, id, amount, shippingC, None, OfferPending, db.now + OFFER_TTL_MS));
    r := if made then Made else Short;
  }

  /** The buyer's open offers on the listing are canceled, no other changes, and the new one
      is there if it was made. */
  ghost predicate RowsReplaced(before: map<nat, Offer>, after: map<nat, Offer>, o: nat, row: Offer, made: bool) {
    && after.Keys == before.Keys + (if made then {o} else {}) && (made ==> after[o] == row)
    && forall p | p in before ::
         && p in after
         && var was := before[p];
            after[p] == if was.listing == row.listing && was.buyer == row.buyer && was.status in {OfferPending, Countered}
              then was.(status := Canceled) else was
  }

  /** Retire the buyer's open offers on the listing, then reserve for the new one. */
  method ReplaceOffers(db: Database, o: nat, row: Offer) returns (made: bool)
    requires db.Valid() && o !in db.offers && AccountFree(db.View(), row.buyer)
    requires row.status == OfferPending && row.counter == None && row.amount > 0 && row.shippingC >= 0
    modifies db`offers, db.ledger`holds
    ensures db.Valid()
    ensures RowsReplaced(old(db.offers), db.offers, o, row, made)
    ensures made ==> HoldMatches(db.ledger.holds, ForOffer(o), Some((row.buyer, ReserveOf(row))))
    ensures Replaced(old(db.offers), row, made, old(db.ledger.AvailableTo(row.buyer)), db.ledger.AvailableTo(row.buyer))
  {
    var ids := PreviousOffers(db, row.listing, row.buyer);
    CloseOffers(db, ids, Canceled);
    CanceledRows(old(db.offers), ids);
    made := ReserveIfFunded(db, o, row);
    assert IsPrevious(old(db.offers), ids, row.listing, row.buyer);
  }

  /** The reserves of the buyer's open offers on the listing come back first. The new offer
      is made exactly if its own reserve fits into what is available then. */
  ghost predicate Replaced(offers: map<nat, Offer>, row: Offer, made: bool, before: int, after: int) {
    exists ids ::
      && IsPrevious(offers, ids, row.listing, row.buyer)
      && var free := before + GivenBack(offers, ids, |ids|, row.buyer);
         && (made <==> free >= ReserveOf(row))
         && after == free - if made then ReserveOf(row) else 0
  }

  ghost predicate IsPrevious(offers: map<nat, Offer>, ids: seq<nat>, id: nat, buyer: nat) {
    && OpenOffers(offers, ids)
    && forall o :: o in ids <==> o in offers && Previous(offers[o], id, buyer)
  }

  lemma CanceledRows(offers: map<nat, Offer>, ids: seq<nat>)
    requires OpenOffers(offers, ids)
    ensures ClosedUpTo(offers, ids, |ids|, Canceled).Keys == offers.Keys
    ensures forall p | p in offers ::
              ClosedUpTo(offers, ids, |ids|, Canceled)[p] == if p in ids then offers[p].(status := Canceled)
                else offers[p]
  {
    ClosedUpToKeys(offers, ids, |ids|, Canceled);
    forall p | p in offers
      ensures ClosedUpTo(offers, ids, |ids|, Canceled)[p] == if p in ids then offers[p].(status := Canceled)
              else offers[p]
    {
      ClosedUpToRow(offers, ids, |ids|, Canceled, p);
      assert ids[..|ids|] == ids;
    }
  }

  /** The check and the hold land together: the account is locked from one to the other. */
  method ReserveIfFunded(db: Database, o: nat, row: Offer) returns (made: bool)
    requires db.Valid() && o !in db.offers && AccountFree(db.View(), row.buyer)
    requires row.status == OfferPending && row.counter == None && row.amount > 0 && row.shippingC >= 0
    modifies db`offers, db.ledger`holds
    ensures db.Valid()
    ensures made <==> old(db.ledger.AvailableTo(row.buyer)) >= ReserveOf(row)
    ensures !made ==> db.offers == old(db.offers) && db.ledger.holds == old(db.ledger.holds)
    ensures made ==>
              && db.offers == old(db.offers)[o := row]
              && HoldMatches(db.ledger.holds, ForOffer(o), Some((row.buyer, ReserveOf(row))))
              && forall v: nat :: db.ledger.AvailableTo(v) == old(db.ledger.AvailableTo(v)) - (if v == row.buyer then ReserveOf(row) else 0)
  {
    var settled := Settled(db.ledger.entries, User(row.buyer));
    var held := ActiveHolds(db.ledger.holds, row.buyer);
    made := settled - held >= ReserveOf(row);
    if made {
      Reserve(db, o, row);
    }
  }

  /** The row and its hold, under the account lock. */
  method Reserve(db: Database, o: nat, row: Offer)
    requires db.Valid() && o !in db.offers && AccountFree(db.View(), row.buyer)
    requires row.status == OfferPending && row.counter == None && row.amount > 0 && row.shippingC >= 0
    requires db.ledger.AvailableTo(row.buyer) >= ReserveOf(row)
    modifies db`offers, db.ledger`holds
    ensures db.Valid()
    ensures db.offers == old(db.offers)[o := row]
    ensures HoldMatches(db.ledger.holds, ForOffer(o), Some((row.buyer, ReserveOf(row))))
    ensures forall v: nat :: db.ledger.AvailableTo(v) == old(db.ledger.AvailableTo(v)) - (if v == row.buyer then ReserveOf(row) else 0)
  {
    ghost var s := db.View();
    var h := Hold(row.buyer, ForOffer(o), ReserveOf(row), Held);
    HoldIsLinked(s, ForOffer(o));
    MatchAppendOwn(s.holds, h);
    forall v: nat { ActiveHoldsAppend(s.holds, h, v); }
    RunsWhole(s, Offering(row.buyer, o, row));
    db.offers := db.offers[o := row];
    db.ledger.holds := db.ledger.holds + [h];
  }

  // ---------------------------------------------------------------------------
  // Responding
  // ---------------------------------------------------------------------------

  datatype Action = Accept | Decline | Counter(amount: int) | Cancel

  datatype Reply =
    | OfferClosed(status: OfferStatus)
    | CounterMade
    | SoldFor(price: int, order: nat)
    | NotFound
    | NotAllowed
    | CounterTooLow
    | CounterTooHigh
    | ItemGone
    | NeedsMore
    | SaleFailed

  /** Who may do what in which state, before any claim. */
  predicate Allowed(o: Offer, user: nat, action: Action) {
    match action
    case Cancel => user == o.buyer && Live(o)
    case Decline => (user == o.seller && Live(o)) || (user == o.buyer && o.status == Countered)
    case Counter(_) => user == o.seller && o.status == OfferPending
    case Accept => (user == o.seller && o.status == OfferPending) || (user == o.buyer && o.status == Countered)
  }

  /** The agreed price of an accept: the counter when the buyer accepts one. */
  function AgreedPrice(o: Offer, user: nat): int {
    if user == o.buyer && o.status == Countered && o.counter.Some? then o.counter.value else o.amount
  }

  /** How an allowed accept is answered. A counter is accepted at its own price, which the
      buyer's reserve and free money must cover; a pending offer at the amount offered. */
  predicate AcceptReply(offer: Offer, l: Listing, available: int, ready: bool, r: Reply) {
    var countered := offer.status == Countered && offer.counter.Some?;
    if l.status != S.Queued || l.quantity <= 0 then r == ItemGone
    else if countered && available + offer.amount < offer.counter.value then r == NeedsMore
    else if l.marketplace && l.price.Some? && ready then
      r.SoldFor? && r.price == (if countered then offer.counter.value else offer.amount) > 0
    else r == SaleFailed
  }

  /** The seller's counter: above the offer, at most the asking price. The hold stays. */
  method CounterWith(db: Database, o: nat, c: int) returns (r: Reply)
    requires db.Valid() && o in db.offers && db.offers[o].status == OfferPending && db.offers[o].listing in db.listings
    modifies db`offers
    ensures db.Valid()
    ensures r == if c <= old(db.offers)[o].amount then CounterTooLow
                 else if db.listings[old(db.offers)[o].listing].price.Some?
                   && c > db.listings[old(db.offers)[o].listing].price.value then CounterTooHigh
                 else CounterMade
    ensures db.offers == if r == CounterMade
                         then old(db.offers)[o := old(db.offers)[o].(status := Countered, counter := Some(c), expiresAt := db.now + OFFER_TTL_MS)]
                         else old(db.offers)
  {
    var offer := db.offers[o];
    if c <= offer.amount {
      return CounterTooLow;
    }
    var price := db.listings[offer.listing].price;
    if price.Some? && c > price.value {
      return CounterTooHigh;
    }
    Goes(db.View(), CounterOffer(o, c, db.now + OFFER_TTL_MS));
    db.offers := db.offers[o := offer.(status := Countered, counter := Some(c), expiresAt := db.now + OFFER_TTL_MS)];
    r := CounterMade;
  }

  /** Whether a buyer who accepts a counter lacks the difference. The hold's own reserve
      comes back first, so it counts. */
  predicate Lacks(o: Offer, user: nat, available: int) {
    user == o.buyer && o.status == Countered
    && AgreedPrice(o, user) > o.amount
    && available + ReserveOf(o) < AgreedPrice(o, user) + o.shippingC
  }

  /** The sale after the offer was claimed and its hold freed. If it fails the offer expires
      and nothing was charged. */
  method SellAccepted(db: Database, o: nat, price: nat, direct: bool, escrowReady: bool, hasAddress: bool)
      returns (r: Reply)
    requires db.Valid() && o in db.offers && db.offers[o].status == Accepted && db.offers[o].listing in db.listings
    requires AccountFree(db.View(), db.offers[o].buyer)
    modifies db`offers, db`listings, db`orders, db`shipments, db.ledger`entries, db.ledger`holds, db.ledger`transfers
    ensures db.Valid() && db.ledger.holds == old(db.ledger.holds)
    ensures r.SoldFor? <==> M.ForSale(old(db.listings[db.offers[o].listing])) && (direct || escrowReady)
                            && 0 < price <= old(db.ledger.AvailableTo(db.offers[o].buyer))
    ensures !r.SoldFor? ==>
              && r == SaleFailed && db.listings == old(db.listings) && db.ledger.entries == old(db.ledger.entries)
              && db.offers == old(db.offers)[o := old(db.offers)[o].(status := Expired)]
    ensures r.SoldFor? ==>
              var offer := old(db.offers)[o];
              var l := old(db.listings)[offer.listing];
              && r.price == price && r.order == |old(db.orders)| && M.OneMore(old(db.orders), db.orders)
              && db.offers == old(db.offers) && db.listings == old(db.listings)[offer.listing := M.UnitBought(l)]
              && M.SoldTo(old(db.ledger.entries), db.ledger.entries, db.orders[r.order],
                              C.Deal(offer.buyer, l.seller, price, None, direct, l.nft),
                          offer.shippingC, hasAddress, old(db.ledger.AvailableTo(offer.buyer)), db.now)
              && M.SoldAs(old(db.ledger.entries), db.ledger.entries, r.order, old(db.shipments),
                          M.PaidOrder(offer.buyer, l.seller, price, direct, db.now),
                          db.orders[r.order], l.nft, Some(offer.shippingC), hasAddress, old(db.ledger.AvailableTo(offer.buyer)), db.now)
  {
    var offer := db.offers[o];
    var sale := M.SettleMarketSale(db, offer.listing, offer.buyer, price, offer.shippingC, direct, escrowReady, hasAddress);
    if sale.Sold? {
      return SoldFor(price, sale.order);
    }
    Goes(db.View(), FailAccepted(o));
    db.offers := db.offers[o := offer.(status := Expired)];
    r := SaleFailed;
  }

  /** Accept an offer. The sale happens at once at the agreed price. With the item still
      there, and the difference of a counter covered, it cannot bounce: the reserve is freed
      right before the charge. Whatever goes wrong, nothing is charged and no hold is left. */
  method AcceptOffer(db: Database, o: nat, user: nat, direct: bool, escrowReady: bool, hasAddress: bool)
      returns (r: Reply)
    requires db.Valid() && o in db.offers && Allowed(db.offers[o], user, Accept) && db.offers[o].listing in db.listings
    requires AccountFree(db.View(), db.offers[o].buyer)
    modifies db`offers, db`listings, db`orders, db`shipments, db.ledger`entries, db.ledger`holds, db.ledger`transfers
    ensures db.Valid()
    ensures var offer := old(db.offers)[o];
            var l := old(db.listings)[offer.listing];
            && AcceptReply(offer, l, old(db.ledger.AvailableTo(offer.buyer)), direct || escrowReady, r)
            && (r == NeedsMore ==> db.offers == old(db.offers) && db.ledger.holds == old(db.ledger.holds))
            && (r != NeedsMore ==>
                  && HoldMatches(db.ledger.holds, ForOffer(o), None)
                  && db.offers == old(db.offers)[o := offer.(status := if r.SoldFor? then Accepted else Expired)])
            && (!r.SoldFor? ==> db.ledger.entries == old(db.ledger.entries) && db.listings == old(db.listings))
            && (r.SoldFor? ==>
                  && r.price > 0 && r.order == |old(db.orders)| && M.OneMore(old(db.orders), db.orders)
                  && db.listings == old(db.listings)[offer.listing := M.UnitBought(l)]
                  && M.SoldTo(old(db.ledger.entries), db.ledger.entries, db.orders[r.order],
                              C.Deal(offer.buyer, l.seller, r.price, None, direct, l.nft),
                              offer.shippingC, hasAddress, old(db.ledger.AvailableTo(offer.buyer)) + offer.amount + offer.shippingC, db.now)
                  && M.SoldAs(old(db.ledger.entries), db.ledger.entries, r.order, old(db.shipments),
                              M.PaidOrder(offer.buyer, l.seller, r.price, direct, db.now),
                              db.orders[r.order], l.nft, Some(offer.shippingC), hasAddress,
                              old(db.ledger.AvailableTo(offer.buyer)) + ReserveOf(offer), db.now))
  {
    var offer := db.offers[o];
    var l := db.listings[offer.listing];
    var price := AgreedPrice(offer, user);
    OfferIsSound(db.View(), o);
    AvailableIsNotNegative(db.View(), offer.buyer);
    if l.status != S.Queued || l.quantity <= 0 {
      CloseOffer(db, o, Expired);
      return ItemGone;
    }
    if Lacks(offer, user, db.ledger.AvailableTo(offer.buyer)) {
      return NeedsMore;
    }
    r := CloseAndSell(db, o, price, direct, escrowReady, hasAddress);
  }

  /** Claim the offer, free its hold, and sell at a price its reserve and the buyer's free
      money cover. */
  method CloseAndSell(db: Database, o: nat, price: nat, direct: bool, escrowReady: bool, hasAddress: bool)
      returns (r: Reply)
    requires db.Valid() && o in db.offers && Live(db.offers[o]) && db.offers[o].listing in db.listings
    requires AccountFree(db.View(), db.offers[o].buyer)
    requires 0 < price <= db.ledger.AvailableTo(db.offers[o].buyer) + ReserveOf(db.offers[o])
    modifies db`offers, db`listings, db`orders, db`shipments, db.ledger`entries, db.ledger`holds, db.ledger`transfers
    ensures db.Valid()
    ensures var offer := old(db.offers)[o];
            var l := old(db.listings)[offer.listing];
            && (r.SoldFor? <==> M.ForSale(l) && (direct || escrowReady))
            && (!r.SoldFor? ==> r == SaleFailed && db.ledger.entries == old(db.ledger.entries) && db.listings == old(db.listings))
            && HoldMatches(db.ledger.holds, ForOffer(o), None)
            && db.offers == old(db.offers)[o := offer.(status := if r.SoldFor? then Accepted else Expired)]
            && (r.SoldFor? ==>
                  && r.price == price && r.order == |old(db.orders)| && M.OneMore(old(db.orders), db.orders)
                  && db.listings == old(db.listings)[offer.listing := M.UnitBought(l)]
                  && M.SoldTo(old(db.ledger.entries), db.ledger.entries, db.orders[r.order],
                              C.Deal(offer.buyer, l.seller, price, None, direct, l.nft),
                              offer.shippingC, hasAddress, old(db.ledger.AvailableTo(offer.buyer)) + ReserveOf(offer), db.now)
                  && M.SoldAs(old(db.ledger.entries), db.ledger.entries, r.order, old(db.shipments),
                              M.PaidOrder(offer.buyer, l.seller, price, direct, db.now),
                              db.orders[r.order], l.nft, Some(offer.shippingC), hasAddress,
                              old(db.ledger.AvailableTo(offer.buyer)) + ReserveOf(offer), db.now))
  {
    CloseOffer(db, o, Accepted);
    r := SellAccepted(db, o, price, direct, escrowReady, hasAddress);
  }

  /** Act on an offer. A refusal changes nothing. */
  method RespondOffer(db: Database, o: nat, user: nat, action: Action, direct: bool, escrowReady: bool,
      hasAddress: bool) returns (r: Reply)
    requires db.Valid() && (o in db.offers ==> db.offers[o].listing in db.listings && AccountFree(db.View(), db.offers[o].buyer))
    modifies db`offers, db`listings, db`orders, db`shipments, db.ledger`entries, db.ledger`holds, db.ledger`transfers
    ensures db.Valid()
    ensures r == NotFound <==> o !in old(db.offers) || user !in {old(db.offers)[o].buyer, old(db.offers)[o].seller}
    ensures r != NotFound ==>
              var offer := old(db.offers)[o];
              var open := offer.status == OfferPending || offer.status == Countered;
              r != NotAllowed <==>
              match action
              case Cancel => open && user == offer.buyer
              case Decline => (open && user == offer.seller) || (offer.status == Countered && user == offer.buyer)
              case Counter(_) => offer.status == OfferPending && user == offer.seller
              case Accept => (offer.status == OfferPending && user == offer.seller) || (offer.status == Countered && user == offer.buyer)
    ensures r !in {NotFound, NotAllowed} ==>
              var offer := old(db.offers)[o];
              var l := old(db.listings)[offer.listing];
              match action
              case Cancel => r == OfferClosed(Canceled)
              case Decline => r == OfferClosed(Declined)
              case Counter(c) =>
                && r == (if c <= offer.amount then CounterTooLow else if l.price.Some? && c > l.price.value then CounterTooHigh else CounterMade)
                && db.ledger.holds == old(db.ledger.holds)
                && (r == CounterMade ==>
                      db.offers == old(db.offers)[o := offer.(status := Countered, counter := Some(c), expiresAt := db.now + 48 * 3_600_000)])
              case Accept => AcceptReply(offer, l, old(db.ledger.AvailableTo(offer.buyer)), direct || escrowReady, r)
    ensures r in {NotFound, NotAllowed, CounterTooLow, CounterTooHigh, NeedsMore} ==>
              db.offers == old(db.offers) && db.ledger.entries == old(db.ledger.entries)
                && db.ledger.holds == old(db.ledger.holds) && db.listings == old(db.listings)
    ensures r != NotFound && o in db.offers && !Live(db.offers[o]) && Live(old(db.offers)[o]) ==> HoldMatches(db.ledger.holds, ForOffer(o), None)
    ensures !r.SoldFor? ==> db.ledger.entries == old(db.ledger.entries)
    ensures r.SoldFor? ==>
              var offer := old(db.offers)[o];
              var l := old(db.listings)[offer.listing];
              && action == Accept && r.price > 0 && r.order == |old(db.orders)| && M.OneMore(old(db.orders), db.orders)
              && db.offers == old(db.offers)[o := offer.(status := Accepted)]
              && db.listings == old(db.listings)[offer.listing := M.UnitBought(l)]
              && M.SoldTo(old(db.ledger.entries), db.ledger.entries, db.orders[r.order],
                              C.Deal(offer.buyer, l.seller, r.price, None, direct, l.nft),
                          offer.shippingC, hasAddress, old(db.ledger.AvailableTo(offer.buyer)) + offer.amount + offer.shippingC, db.now)
              && M.SoldAs(old(db.ledger.entries), db.ledger.entries, r.order, old(db.shipments),
                          M.PaidOrder(offer.buyer, l.seller, r.price, direct, db.now),
                          db.orders[r.order], l.nft, Some(offer.shippingC), hasAddress,
                          old(db.ledger.AvailableTo(offer.buyer)) + ReserveOf(offer), db.now)
    ensures r.OfferClosed? ==>
              && r.status == (if action == Cancel then Canceled else Declined)
              && db.offers == old(db.offers)[o := old(db.offers)[o].(status := r.status)]
              && forall v: nat :: db.ledger.AvailableTo(v) ==
                   old(db.ledger.AvailableTo(v)) + (if v == old(db.offers)[o].buyer then ReserveOf(old(db.offers)[o]) else 0)
  {
    if o !in db.offers || user !in {db.offers[o].buyer, db.offers[o].seller} {
      return NotFound;
    }
    if !Allowed(db.offers[o], user, action) {
      return NotAllowed;
    }
    match action {
      case Cancel =>
        CloseOffer(db, o, Canceled);
        r := OfferClosed(Canceled);
      case Decline =>
        CloseOffer(db, o, Declined);
        r := OfferClosed(Declined);
      case Counter(c) =>
        r := CounterWith(db, o, c);
      case Accept =>
        r := AcceptOffer(db, o, user, direct, escrowReady, hasAddress);
    }
  }
}
