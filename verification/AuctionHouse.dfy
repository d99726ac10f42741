/** Running auctions (packages/backend/src/auction.ts) and settling them
    (packages/backend/src/orders.ts). Each method is one call run from start to end; other
    calls may be suspended in the middle of theirs, as long as they do not hold a row lock
    this one needs. */
module AuctionHouse {
  import opened Schema
  import opened Money
  import opened Books
  import opened AuctionRules
  import opened Funds
  import opened FundsRuns
  import opened Database
  import opened Charges
  import S = Stock

  datatype BidResult = BidTaken(previousLeader: Option<nat>, extended: bool) | BidRefused(reason: BidRejectReason)

  datatype CloseResult = CloseResult(auction: nat, status: AuctionStatus, winner: Option<nat>)

  // ---------------------------------------------------------------------------
  // What a bid does to balances
  // ---------------------------------------------------------------------------

  /** The reserve behind the leading bid. */
  function Reserve(au: Auction): int {
    if au.bids == [] then 0 else Top(au).amount + Top(au).shippingC
  }

  /** An accepted bid frees exactly the outgoing leader's reserve and takes exactly its own. */
  lemma BidMovesReserves(s: State, a: nat, user: nat, reserve: int, v: nat)
    requires Reached(s) && a in s.auctions && s.auctions[a].status == Running
    ensures Available(s.entries, HoldsAfterBid(s.holds, a, user, reserve), v) ==
            Available(s.entries, s.holds, v)
            + (if s.auctions[a].leader == Some(v) then Reserve(s.auctions[a]) else 0)
            - (if v == user then reserve else 0)
  {
    LeaderIsHeld(s, a);
    HoldsAreNotNegative(s);
    HoldsSwapped(s.holds, a, user, reserve, v);
  }

  /** What an accepted bid does to the sum of a user's holds. */
  lemma HoldsSwapped(holds: seq<Hold>, a: nat, user: nat, reserve: int, v: nat)
    requires forall i | 0 <= i < |holds| :: holds[i].amount >= 0
    ensures var previous := FindHeld(holds, ForAuction(a));
            ActiveHolds(HoldsAfterBid(holds, a, user, reserve), v) == ActiveHolds(holds, v)
              - (if previous.Some? && holds[previous.value].user == v then holds[previous.value].amount else 0)
              + (if v == user then reserve else 0)
  {
    var previous := FindHeld(holds, ForAuction(a));
    var freed := if previous.Some? then holds[previous.value := holds[previous.value].(status := Released)]
      else holds;
    if previous.Some? {
      DropHold(holds, previous.value, Released, v);
    }
    ActiveHoldsAppend(freed, Hold(user, ForAuction(a), reserve, Held), v);
  }

  /** The one active hold of a running auction is its leader's reserve. */
  lemma LeaderIsHeld(s: State, a: nat)
    requires Reached(s) && a in s.auctions && s.auctions[a].status == Running
    ensures var previous := FindHeld(s.holds, ForAuction(a));
            match s.auctions[a].leader
            case None => previous == None
            case Some(leader) =>
              && previous.Some? && s.holds[previous.value].user == leader
              && s.holds[previous.value].amount == Reserve(s.auctions[a])
  {
    RowIsKept(s, a);
    HoldIsLinked(s, ForAuction(a));
  }

  /** After it, the auction's one active hold is the new leader's. */
  lemma BidLeavesOneHold(s: State, a: nat, user: nat, reserve: int)
    requires Reached(s)
    ensures HoldMatches(HoldsAfterBid(s.holds, a, user, reserve), ForAuction(a), Some((user, reserve)))
  {
    HoldIsLinked(s, ForAuction(a));
    BidSwapsReserve(s.holds, a, user, reserve, Wanted(s, ForAuction(a)), ForAuction(a), Wanted(s, ForAuction(a)));
  }

  // ---------------------------------------------------------------------------
  // Auctions
  // ---------------------------------------------------------------------------

  method CreateAuction(db: Database, a: nat, listing: nat, startingBid: int, cfg: IncrementConfig, durationMs: nat)
    requires db.Valid() && listing in db.listings && a !in db.auctions
    modifies db`auctions
    ensures db.Valid()
    ensures db.auctions == old(db.auctions)[a := Auction(listing, Pending, startingBid, cfg, durationMs, None, None, None, [])]
  {
    var row := Auction(listing, Pending, startingBid, cfg, durationMs, None, None, None, []);
    Goes(db.View(), Create(a, row));
    db.auctions := db.auctions[a := row];
  }

  /** Only a pending auction starts; its listing goes live. */
  method StartAuction(db: Database, a: nat) returns (started: bool)
    requires db.Valid() && AuctionFree(db.View(), a)
    modifies db`auctions, db`listings
    ensures db.Valid()
    ensures started <==> a in old(db.auctions) && old(db.auctions)[a].status == Pending
    ensures !started ==> db.auctions == old(db.auctions) && db.listings == old(db.listings)
    ensures started ==>
              var row := old(db.auctions)[a];
              && db.auctions == old(db.auctions)[a := row.(status := Running, endsAt := Some(db.now + row.durationMs))]
              && db.listings == old(db.listings)[row.listing := old(db.listings)[row.listing].(status := S.Live)]
  {
    if a !in db.auctions || db.auctions[a].status != Pending {
      return false;
    }
    Goes(db.View(), Start(a));
    var row := db.auctions[a];
    db.auctions := db.auctions[a := AuctionRules.StartAuction(row, db.now)];
    db.listings := db.listings[row.listing := db.listings[row.listing].(status := S.Live)];
    return true;
  }

  /** Why a bid is refused, if it is; the funds are looked at last. */
  function Refusal(auctions: map<nat, Auction>, a: nat, user: nat, amount: int, shippingC: int, now: int,
      available: int): Option<BidRejectReason> {
    if amount <= 0 then Some(BidTooLow)
    else if a !in auctions then Some(AuctionNotFound)
    else
      var au := auctions[a];
      var bid := if au.currentBid.Some? && au.currentBid.value > 0 then au.currentBid.value else 0;
      if au.status != Running || au.endsAt == None || now >= au.endsAt.value then Some(AuctionEnded)
      else if amount < (if bid > 0 then bid + MinIncrement(bid, au.cfg) else au.startingBid) then Some(BidTooLow)
      else if au.leader == Some(user) then Some(AlreadyLeading)
      else if shippingC < 0 then Some(BidTooLow)
      else if available < amount + shippingC then Some(InsufficientBalance)
      else None
  }

  /** Place a bid. A refusal changes nothing. An accepted bid becomes the only active one of
      its auction, is backed by its only active hold, takes exactly its own reserve from
      the bidder and gives exactly the old one back to the outgoing leader. */
  method PlaceBid(db: Database, a: nat, user: nat, amount: int, shippingC: int, floorMs: Option<int>)
      returns (r: BidResult)
    requires db.Valid() && AuctionFree(db.View(), a) && AccountFree(db.View(), user)
    modifies db`auctions, db.ledger`holds
    ensures db.Valid()
    ensures match old(Refusal(db.auctions, a, user, amount, shippingC, db.now, db.ledger.AvailableTo(user)))
            case Some(reason) => r == BidRefused(reason) && db.auctions == old(db.auctions)
              && db.ledger.holds == old(db.ledger.holds)
            case None =>
              && a in old(db.auctions) && old(db.auctions)[a].endsAt.Some?
              && var was := old(db.auctions)[a];
                 && r == BidTaken(was.leader, NewDeadline(was.endsAt.value, db.now, floorMs) > was.endsAt.value)
                 && a in db.auctions && db.auctions == old(db.auctions)[a := db.auctions[a]]
                 && BidStands(was, db.auctions[a], Bid(user, amount, shippingC, Leading, db.now, floorMs))
                 && db.auctions[a].endsAt == Some(NewDeadline(was.endsAt.value, db.now, floorMs))
                 && HoldMatches(db.ledger.holds, ForAuction(a), Some((user, amount + shippingC)))
                 && (forall v: nat :: db.ledger.AvailableTo(v) == old(db.ledger.AvailableTo(v))
                       + (if was.leader == Some(v) then Reserve(was) else 0) - (if v == user then amount + shippingC else 0))
  {
    if amount <= 0 {
      return BidRefused(BidTooLow);
    }
    if a !in db.auctions {
      return BidRefused(AuctionNotFound);
    }
    var row := db.auctions[a];
    var reason := BidRejected(row, user, amount, shippingC, db.now);
    if reason.Some? {
      return BidRefused(reason.value);
    }
    var settled := Settled(db.ledger.entries, User(user));
    var held := ActiveHolds(db.ledger.holds, user);
    if settled - held < amount + shippingC {
      return BidRefused(InsufficientBalance);
    }
    RowIsKept(db.View(), a);
    AcceptedBid(row, user, amount, shippingC, db.now, floorMs, db.now);
    TakeBid(db, a, user, amount, shippingC, floorMs);
    r := BidTaken(row.leader, NewDeadline(row.endsAt.value, db.now, floorMs) > row.endsAt.value);
  }

  /** Accept a bid that has passed every check. */
  method TakeBid(db: Database, a: nat, user: nat, amount: int, shippingC: int, floorMs: Option<int>)
    requires db.Valid() && AuctionFree(db.View(), a) && AccountFree(db.View(), user)
    requires a in db.auctions && BidRejected(db.auctions[a], user, amount, shippingC, db.now) == None
    requires db.ledger.AvailableTo(user) >= amount + shippingC
    modifies db`auctions, db.ledger`holds
    ensures db.Valid()
    ensures old(db.auctions)[a].endsAt.Some?
    ensures db.auctions == old(db.auctions)[a := AcceptBid(old(db.auctions)[a], user, amount, shippingC, db.now, floorMs)]
    ensures HoldMatches(db.ledger.holds, ForAuction(a), Some((user, amount + shippingC)))
    ensures forall v: nat :: db.ledger.AvailableTo(v) == old(db.ledger.AvailableTo(v))
              + (if old(db.auctions)[a].leader == Some(v) then Reserve(old(db.auctions)[a]) else 0) - (if v == user then amount + shippingC else 0)
  {
    ghost var s := db.View();
    BidLeavesOneHold(s, a, user, amount + shippingC);
    forall v: nat { BidMovesReserves(s, a, user, amount + shippingC, v); }
    RunsWhole(s, Bidding(user, a, amount, shippingC, floorMs, db.now));
    db.ledger.holds := HoldsAfterBid(db.ledger.holds, a, user, amount + shippingC);
    db.auctions := db.auctions[a := AcceptBid(db.auctions[a], user, amount, shippingC, db.now, floorMs)];
  }

  datatype MarketBidResult = NotOnMarket | OwnListing | NoAddress | NoLane | Placed(result: BidResult)

  /** A marketplace bid: the seller's shipping price for the bidder's region is reserved with
      it, and if it is taken the auction stays open for at least two more minutes. */
  method PlaceMarketBid(db: Database, a: nat, user: nat, amount: int, lane: Option<nat>, hasCountry: bool)
      returns (r: MarketBidResult)
    requires db.Valid() && AuctionFree(db.View(), a) && AccountFree(db.View(), user)
    modifies db`auctions, db.ledger`holds
    ensures db.Valid()
    ensures if a !in old(db.auctions) || !db.listings[old(db.auctions)[a].listing].marketplace then r == NotOnMarket
            else
              var l := db.listings[old(db.auctions)[a].listing];
              if l.seller == user then r == OwnListing
              else if !l.nft && !hasCountry then r == NoAddress
              else if !l.nft && lane == None then r == NoLane
              else
                && r.Placed?
                && match old(Refusal(db.auctions, a, user, amount, if db.listings[db.auctions[a].listing].nft then 0 else lane.value, db.now,
                                     db.ledger.AvailableTo(user)))
                   case Some(reason) => r.result == BidRefused(reason)
                   case None => r.result.BidTaken?
    ensures !(r.Placed? && r.result.BidTaken?) ==> db.auctions == old(db.auctions) && db.ledger.holds == old(db.ledger.holds)
    ensures r.Placed? && r.result.BidTaken? ==>
              var shippingC := if db.listings[old(db.auctions)[a].listing].nft then 0 else lane.value;
              && HoldMatches(db.ledger.holds, ForAuction(a), Some((user, amount + shippingC)))
              && a in db.auctions && old(db.auctions)[a].endsAt.Some?
              && BidStands(old(db.auctions)[a], db.auctions[a], Bid(user, amount, shippingC, Leading, db.now, Some(120_000)))
              && var end := old(db.auctions)[a].endsAt.value;
                 db.auctions[a].endsAt == Some(if end < db.now + 120_000 then db.now + 120_000 else end)
  {
    if a !in db.auctions || !db.listings[db.auctions[a].listing].marketplace {
      return NotOnMarket;
    }
    var l := db.listings[db.auctions[a].listing];
    if l.seller == user {
      return OwnListing;
    }
    var shippingC := 0;
    if !l.nft {
      if !hasCountry {
        return NoAddress;
      }
      if lane == None {
        return NoLane;
      }
      shippingC := lane.value;
    }
    ghost var was := db.auctions[a];
    var result := PlaceBid(db, a, user, amount, shippingC, Some(MARKET_ANTI_SNIPE_MS));
    if result.BidTaken? {
      DeadlineRules(was.endsAt.value, db.now, Some(MARKET_ANTI_SNIPE_MS));
    }
    r := Placed(result);
  }

  // ---------------------------------------------------------------------------
  // Closing
  // ---------------------------------------------------------------------------

  function Closed(l: Listing, won: bool): Listing {
    l.(status := if won then S.Sold else if l.quantity > 0 then S.Queued else S.Unsold)
  }

  /** Close one auction, if it is still due: the deadline is read again, since a late bid
      may have moved it. */
  method CloseOne(db: Database, a: nat) returns (r: Option<CloseResult>)
    requires db.Valid() && AuctionFree(db.View(), a)
    modifies db`auctions, db`listings
    ensures db.Valid() && db.auctions.Keys == old(db.auctions).Keys && db.listings.Keys == old(db.listings).Keys
    ensures r.Some? <==>
              && a in old(db.auctions) && old(db.auctions)[a].status == Running
              && old(db.auctions)[a].endsAt.Some? && old(db.auctions)[a].endsAt.value <= db.now
    ensures r.None? ==> db.auctions == old(db.auctions) && db.listings == old(db.listings)
    ensures r.Some? ==>
              var was := old(db.auctions)[a];
              && r.value == CloseResult(a, if was.leader.Some? then Settling else AuctionStatus.Closed, was.leader)
              && db.auctions == old(db.auctions)[a := CloseAuction(was)]
              && ClosedAs(was, db.auctions[a])
              && var l := old(db.listings)[was.listing];
                 && was.listing in db.listings && db.listings == old(db.listings)[was.listing := db.listings[was.listing]]
                 && ListingClosed(l, db.listings[was.listing], was.leader.Some?)
  {
    if a !in db.auctions || db.auctions[a].status != Running {
      return None;
    }
    var row := db.auctions[a];
    if row.endsAt == None || row.endsAt.value > db.now {
      return None;
    }
    RowIsKept(db.View(), a);
    CloseCloses(row, db.now);
    Goes(db.View(), Close(a));
    db.auctions := db.auctions[a := CloseAuction(row)];
    db.listings := db.listings[row.listing := Closed(db.listings[row.listing], row.leader.Some?)];
    r := Some(CloseResult(a, if row.leader.Some? then Settling else AuctionStatus.Closed, row.leader));
  }

  /** The auctions whose deadline has passed. */
  method DueIds(db: Database) returns (ids: seq<nat>)
    ensures forall a :: a in ids <==> a in db.auctions && Due(db.auctions[a], db.now)
    ensures forall i, j | 0 <= i < j < |ids| :: ids[i] != ids[j]
  {
    var due := set a | a in db.auctions && Due(db.auctions[a], db.now);
    var todo := due;
    ids := [];
    while todo != {}
      invariant todo <= due && forall a :: a in ids <==> a in due && a !in todo
      invariant forall i, j | 0 <= i < j < |ids| :: ids[i] != ids[j]
      decreases |todo|
    {
      var a :| a in todo;
      ids, todo := ids + [a], todo - {a};
    }
  }

  function Report(a: nat, was: Auction): CloseResult {
    CloseResult(a, if was.leader.Some? then Settling else AuctionStatus.Closed, was.leader)
  }

  /** The auctions once the first `k` of the list are closed. */
  function ClosedUpTo(auctions: map<nat, Auction>, ids: seq<nat>, k: nat): map<nat, Auction>
    requires k <= |ids| && forall i | 0 <= i < k :: ids[i] in auctions
  {
    if k == 0 then auctions else ClosedUpTo(auctions, ids, k - 1)[ids[k - 1] := CloseAuction(auctions[ids[k - 1]])]
  }

  lemma {:induction false} ClosedUpToRow(auctions: map<nat, Auction>, ids: seq<nat>, k: nat, a: nat)
    requires k <= |ids| && (forall i | 0 <= i < k :: ids[i] in auctions) && a in auctions
    ensures a in ClosedUpTo(auctions, ids, k)
    ensures ClosedUpTo(auctions, ids, k)[a] == if a in ids[..k] then CloseAuction(auctions[a]) else auctions[a]
  {
    if k > 0 {
      ClosedUpToRow(auctions, ids, k - 1, a);
      assert ids[..k] == ids[..k - 1] + [ids[k - 1]];
    }
  }

  lemma {:induction false} ClosedUpToKeys(auctions: map<nat, Auction>, ids: seq<nat>, k: nat)
    requires k <= |ids| && forall i | 0 <= i < k :: ids[i] in auctions
    ensures ClosedUpTo(auctions, ids, k).Keys == auctions.Keys
  {
    if k > 0 {
      ClosedUpToKeys(auctions, ids, k - 1);
    }
  }

  /** The reports name every due auction once, and no other. */
  ghost predicate ReportsDue(results: seq<CloseResult>, auctions: map<nat, Auction>, now: int) {
    && (forall i, j | 0 <= i < j < |results| :: results[i].auction != results[j].auction)
    && (forall i | 0 <= i < |results| :: results[i].auction in auctions && Due(auctions[results[i].auction], now)
                                         && results[i] == Report(results[i].auction, auctions[results[i].auction]))
    && (forall a | a in auctions && Due(auctions[a], now) :: Report(a, auctions[a]) in results)
  }

  function ReportsUpTo(auctions: map<nat, Auction>, ids: seq<nat>, k: nat): seq<CloseResult>
    requires k <= |ids| && forall i | 0 <= i < k :: ids[i] in auctions
  {
    if k == 0 then [] else ReportsUpTo(auctions, ids, k - 1) + [Report(ids[k - 1], auctions[ids[k - 1]])]
  }

  lemma {:induction false} ReportsUpToAt(auctions: map<nat, Auction>, ids: seq<nat>, k: nat)
    requires k <= |ids| && forall i | 0 <= i < k :: ids[i] in auctions
    ensures |ReportsUpTo(auctions, ids, k)| == k
    ensures forall i | 0 <= i < k :: ReportsUpTo(auctions, ids, k)[i] == Report(ids[i], auctions[ids[i]])
  {
    if k > 0 {
      ReportsUpToAt(auctions, ids, k - 1);
    }
  }

  lemma ReportsOf(ids: seq<nat>, auctions: map<nat, Auction>, now: int)
    requires forall a :: a in ids <==> a in auctions && Due(auctions[a], now)
    requires forall i, j | 0 <= i < j < |ids| :: ids[i] != ids[j]
    ensures ReportsDue(ReportsUpTo(auctions, ids, |ids|), auctions, now)
  {
    ReportsUpToAt(auctions, ids, |ids|);
    var results := ReportsUpTo(auctions, ids, |ids|);
    forall a | a in auctions && Due(auctions[a], now)
      ensures Report(a, auctions[a]) in results
    {
      assert a in ids;
      var i :| 0 <= i < |ids| && ids[i] == a;
      assert results[i] == Report(a, auctions[a]);
    }
  }

  lemma AllClosed(auctions: map<nat, Auction>, ids: seq<nat>, now: int)
    requires forall a :: a in ids <==> a in auctions && Due(auctions[a], now)
    ensures ClosedUpTo(auctions, ids, |ids|).Keys == auctions.Keys
    ensures forall a | a in auctions ::
              ClosedUpTo(auctions, ids, |ids|)[a] == if Due(auctions[a], now) then CloseAuction(auctions[a])
                else auctions[a]
  {
    ClosedUpToKeys(auctions, ids, |ids|);
    forall a | a in auctions
      ensures ClosedUpTo(auctions, ids, |ids|)[a] == if Due(auctions[a], now) then CloseAuction(auctions[a])
              else auctions[a]
    {
      ClosedUpToRow(auctions, ids, |ids|, a);
      assert ids[..|ids|] == ids;
    }
  }

  /** The poll: every auction that was due is closed and reported once, with its leader as
      the winner; every other one is untouched; nothing due is left. */
  method CloseDueAuctions(db: Database) returns (results: seq<CloseResult>)
    requires db.Valid() && NoBids(db.txns)
    modifies db`auctions, db`listings
    ensures db.Valid() && db.auctions.Keys == old(db.auctions).Keys
    ensures forall a | a in db.auctions ::
              var was := old(db.auctions)[a];
              if was.status == Running && was.endsAt.Some? && was.endsAt.value <= db.now then ClosedAs(was, db.auctions[a])
              else db.auctions[a] == was
    ensures ReportsDue(results, old(db.auctions), db.now)
    ensures ListingsClosed(old(db.auctions), old(db.listings), db.listings, results)
  {
    ghost var s := db.View();
    var ids := DueIds(db);
    assert forall i | 0 <= i < |ids| :: ids[i] in ids;
    results := CloseAll(db, ids);
    AllClosed(old(db.auctions), ids, db.now);
    ReportsOf(ids, old(db.auctions), db.now);
    AllListingsOf(old(db.auctions), old(db.listings), ids);
    DueRowsClose(s);
  }

  lemma DueRowsClose(s: State)
    requires Reached(s)
    ensures forall a | a in s.auctions && Due(s.auctions[a], s.now) :: ClosedAs(s.auctions[a], CloseAuction(s.auctions[a]))
  {
    forall a | a in s.auctions && Due(s.auctions[a], s.now)
      ensures ClosedAs(s.auctions[a], CloseAuction(s.auctions[a]))
    {
      RowIsKept(s, a);
      CloseCloses(s.auctions[a], s.now);
    }
  }

  lemma AllListingsOf(auctions: map<nat, Auction>, listings: map<nat, Listing>, ids: seq<nat>)
    requires AllListed(auctions, listings) && forall i | 0 <= i < |ids| :: ids[i] in auctions
    ensures ListingsClosed(auctions, listings, ListingsUpTo(auctions, listings, ids, |ids|), ReportsUpTo(auctions, ids, |ids|))
  {
    forall l | l in listings { ListingOf(auctions, listings, ids, |ids|, l); }
  }

  predicate AllListed(auctions: map<nat, Auction>, listings: map<nat, Listing>) {
    forall a | a in auctions :: auctions[a].listing in listings
  }

  /** The listings once the auctions of the first `k` of the list are closed. */
  function ListingsUpTo(auctions: map<nat, Auction>, listings: map<nat, Listing>, ids: seq<nat>, k: nat): (r: map<nat, Listing>)
    requires AllListed(auctions, listings) && k <= |ids| && forall i | 0 <= i < k :: ids[i] in auctions
    ensures r.Keys == listings.Keys
  {
    if k == 0 then listings
    else
      var before := ListingsUpTo(auctions, listings, ids, k - 1);
      var au := auctions[ids[k - 1]];
      before[au.listing := Closed(before[au.listing], au.leader.Some?)]
  }

  lemma {:induction false} ListingOf(auctions: map<nat, Auction>, listings: map<nat, Listing>, ids: seq<nat>, k: nat, l: nat)
    requires AllListed(auctions, listings) && k <= |ids| && (forall i | 0 <= i < k :: ids[i] in auctions) && l in listings
    ensures ListingLeft(auctions, ReportsUpTo(auctions, ids, k), l, listings[l], ListingsUpTo(auctions, listings, ids, k)[l])
  {
    if k > 0 {
      ListingOf(auctions, listings, ids, k - 1, l);
      OneMoreClosed(auctions, ReportsUpTo(auctions, ids, k - 1), Report(ids[k - 1], auctions[ids[k - 1]]), l,
                    listings[l], ListingsUpTo(auctions, listings, ids, k - 1)[l]);
    }
  }

  /** What closing an auction makes of its listing: sold to the leader, and otherwise back in
      the queue while stock remains. */
  predicate ListingClosed(was: Listing, l: Listing, won: bool) {
    l == was.(status := if won then S.Sold else if was.quantity > 0 then S.Queued else S.Unsold)
  }

  /** A listing changes only if one of its auctions was closed, and then as one of them says. */
  ghost predicate ListingsClosed(auctions: map<nat, Auction>, before: map<nat, Listing>, after: map<nat, Listing>,
                                 results: seq<CloseResult>) {
    && after.Keys == before.Keys
    && forall l | l in before :: ListingLeft(auctions, results, l, before[l], after[l])
  }

  ghost predicate ListingLeft(auctions: map<nat, Auction>, results: seq<CloseResult>, id: nat, was: Listing, l: Listing) {
    if forall i | 0 <= i < |results| :: !OfListing(auctions, results[i].auction, id) then l == was
    else exists i :: 0 <= i < |results| && OfListing(auctions, results[i].auction, id)
                     && ListingClosed(was, l, results[i].winner.Some?)
  }

  predicate OfListing(auctions: map<nat, Auction>, a: nat, l: nat) {
    a in auctions && auctions[a].listing == l
  }

  lemma OneMoreClosed(auctions: map<nat, Auction>, results: seq<CloseResult>, r: CloseResult, id: nat, was: Listing, l: Listing)
    requires ListingLeft(auctions, results, id, was, l) && r.auction in auctions
    ensures ListingLeft(auctions, results + [r], id, was,
                        if auctions[r.auction].listing == id then Closed(l, r.winner.Some?) else l)
  {
    var more := results + [r];
    if auctions[r.auction].listing == id {
      assert more[|results|] == r && OfListing(auctions, more[|results|].auction, id);
    } else {
      LaterListings(auctions, results, r, id);
    }
  }

  lemma LaterListings(auctions: map<nat, Auction>, results: seq<CloseResult>, r: CloseResult, l: nat)
    requires !OfListing(auctions, r.auction, l)
    ensures var more := results + [r];
            && (forall i | 0 <= i < |results| :: more[i] == results[i])
            && ((forall i | 0 <= i < |results| :: !OfListing(auctions, results[i].auction, l)) <==>
                (forall i | 0 <= i < |more| :: !OfListing(auctions, more[i].auction, l)))
  {
    var more := results + [r];
    assert forall i | 0 <= i < |results| :: more[i] == results[i];
    assert forall i | 0 <= i < |results| :: OfListing(auctions, results[i].auction, l) ==> OfListing(auctions, more[i].auction, l);
  }

  /** Nobody is in the middle of placing a bid. */
  predicate NoBids(txns: map<nat, Txn>) {
    forall t | t in txns :: !txns[t].intent.Bidding?
  }

  method CloseAll(db: Database, ids: seq<nat>) returns (results: seq<CloseResult>)
    requires db.Valid() && NoBids(db.txns)
    requires forall i | 0 <= i < |ids| :: ids[i] in db.auctions && Due(db.auctions[ids[i]], db.now)
    requires forall i, j | 0 <= i < j < |ids| :: ids[i] != ids[j]
    modifies db`auctions, db`listings
    ensures db.Valid()
    ensures db.auctions == ClosedUpTo(old(db.auctions), ids, |ids|)
    ensures db.listings == ListingsUpTo(old(db.auctions), old(db.listings), ids, |ids|)
    ensures results == ReportsUpTo(old(db.auctions), ids, |ids|)
  {
    results := [];
    var k := 0;
    while k < |ids|
      invariant 0 <= k <= |ids| && db.Valid()
      invariant db.auctions == ClosedUpTo(old(db.auctions), ids, k)
      invariant db.listings == ListingsUpTo(old(db.auctions), old(db.listings), ids, k)
      invariant results == ReportsUpTo(old(db.auctions), ids, k)
    {
      var r := CloseNext(db, old(db.auctions), old(db.listings), ids, k);
      results := results + [r];
      k := k + 1;
    }
  }

  method CloseNext(db: Database, ghost was: map<nat, Auction>, ghost before: map<nat, Listing>, ids: seq<nat>, k: nat)
      returns (r: CloseResult)
    requires db.Valid() && NoBids(db.txns) && k < |ids|
    requires forall i | 0 <= i < |ids| :: ids[i] in was && Due(was[ids[i]], db.now)
    requires forall i, j | 0 <= i < j < |ids| :: ids[i] != ids[j]
    requires AllListed(was, before) && db.auctions == ClosedUpTo(was, ids, k) && db.listings == ListingsUpTo(was, before, ids, k)
    modifies db`auctions, db`listings
    ensures db.Valid() && db.auctions == ClosedUpTo(was, ids, k + 1)
    ensures r == Report(ids[k], was[ids[k]])
    ensures db.listings == ListingsUpTo(was, before, ids, k + 1)
  {
    ClosedUpToRow(was, ids, k, ids[k]);
    assert ids[k] !in ids[..k];
    var closed := CloseOne(db, ids[k]);
    r := closed.value;
  }

  // ---------------------------------------------------------------------------
  // Settling
  // ---------------------------------------------------------------------------

  function FindOrder(orders: seq<Order>, a: nat): (r: Option<nat>)
    ensures r.Some? ==> r.value < |orders| && orders[r.value].auction == Some(a)
    ensures r.None? ==> !HasOrder(orders, a)
  {
    if orders == [] then None
    else
      var n := |orders| - 1;
      var earlier := FindOrder(orders[..n], a);
      if earlier.Some? then earlier
      else if orders[n].auction == Some(a) then Some(n)
      else None
  }

  predicate Settleable(au: Auction) {
    au.status == Settling && au.leader.Some? && au.currentBid.Some?
  }

  /** One unit of a won listing gone. */
  function UnitSold(l: Listing): Listing {
    l.(quantity := l.quantity - 1, status := if l.quantity - 1 > 0 then S.Queued else S.Sold)
  }

  /** The order a won auction makes, once it is paid for. */
  function WonOrder(au: Auction, a: nat, l: Listing, direct: bool, now: int): Order
    requires Settleable(au) && au.currentBid.value >= 0
  {
    NewOrder(au.leader.value, l.seller, au.currentBid.value, Some(a), direct, now).(status := if direct then OrderReleased else OrderLocked)
  }

  /** Settle a won auction: the order, the charge, the captured hold. It never lacks the
      money, since the winner's reserve is still standing - shipping included. */
  method ChargeWon(db: Database, a: nat, direct: bool) returns (o: nat)
    requires db.Valid() && a in db.auctions && Settleable(db.auctions[a]) && !HasOrder(db.orders, a)
    requires AccountFree(db.View(), db.auctions[a].leader.value)
    modifies db`orders, db`captured, db.ledger`entries, db.ledger`holds, db.ledger`transfers
    ensures db.Valid()
    ensures db.auctions[a].bids != [] && db.auctions[a].currentBid.value > 0
    ensures o == |old(db.orders)| && |db.orders| == o + 1 && db.orders[..o] == old(db.orders)
    ensures db.orders[o] == WonOrder(db.auctions[a], a, db.listings[db.auctions[a].listing], direct, db.now)
    ensures db.ledger.entries == old(db.ledger.entries) + LegsOf(o, db.orders[o])
    ensures db.ledger.holds == CaptureHolds(old(db.ledger.holds), a, db.auctions[a].leader.value)
    ensures db.captured == old(db.captured) + {a}
    ensures db.ledger.AvailableTo(db.auctions[a].leader.value) >= Top(db.auctions[a]).shippingC
    ensures !KeyPosted(db.ledger.entries, EscrowSettleKey(o))
  {
    var au := db.auctions[a];
    var l := db.listings[au.listing];
    WinnerCanPay(db.View(), a, au.leader.value, au.currentBid.value);
    var row := WonOrder(au, a, l, direct, db.now);
    WinnerKeepsShipping(db.View(), a, |db.orders|, row);
    o := CreateOrder(db, row.(status := if direct then OrderReleased else OrderPending));
    ChargeWinner(db, o, a);
    SetOrder(db, o, row);
  }

  lemma WinnerKeepsShipping(s: State, a: nat, o: nat, row: Order)
    requires Reached(s) && Settles(s, a, row.buyer, row.amount) && a !in s.captured
    ensures s.auctions[a].bids != []
    ensures Available(s.entries + LegsOf(o, row), CaptureHolds(s.holds, a, row.buyer), row.buyer) >= Top(s.auctions[a]).shippingC
  {
    WinnerCanPay(s, a, row.buyer, row.amount);
    SaleTakesAtMost(o, row.buyer, row.seller, row.amount, row.direct);
    ShippingIsLeft(s, a, row.buyer, row.amount, LegsOf(o, row));
  }

  /** Settle an auction. It is settled once. The price is paid in full and the winner's hold
      captured with it; a digital item pays its seller at once; and the shipping reserved
      with a marketplace bid is there to be charged, if nobody comes in between. */
  method SettleAuction(db: Database, a: nat, direct: bool, hasAddress: bool) returns (order: Option<nat>)
    requires db.Valid()
    requires a in db.auctions && db.auctions[a].leader.Some? ==> AccountFree(db.View(), db.auctions[a].leader.value)
    modifies db`orders, db`listings, db`captured, db`shipments, db.ledger`entries, db.ledger`holds, db.ledger`transfers
    ensures db.Valid()
    ensures HasOrder(old(db.orders), a) || a !in db.auctions || db.auctions[a].status != Settling ==>
              && order == FindOrder(old(db.orders), a)
              && db.orders == old(db.orders) && db.listings == old(db.listings)
              && db.ledger.entries == old(db.ledger.entries) && db.ledger.holds == old(db.ledger.holds)
    ensures !HasOrder(old(db.orders), a) && a in db.auctions && db.auctions[a].status == Settling ==>
              db.auctions[a].leader.Some? && db.auctions[a].currentBid.Some? &&
              var au := db.auctions[a];
              var l := old(db.listings)[au.listing];
              && au.bids != [] && au.currentBid.value > 0 &&
              var d := Deal(au.leader.value, l.seller, au.currentBid.value, Some(a), direct, l.nft);
              var ships := !l.nft && l.marketplace && hasAddress;
              var shipping := if ships then Top(au).shippingC else 0;
              && order == Some(|old(db.orders)|) && |db.orders| == |old(db.orders)| + 1
              && db.orders[..order.value] == old(db.orders)
              && DealDone(old(db.ledger.entries), db.ledger.entries, db.orders[order.value], d, ships, shipping, db.now)
              && (forall v: nat :: db.ledger.AvailableTo(v) == old(db.ledger.AvailableTo(v)) + SaleChange(d, shipping, User(v))
                    + if v == au.leader.value then au.currentBid.value + Top(au).shippingC else 0)
              && HoldMatches(db.ledger.holds, ForAuction(a), None)
              && SettledAs(old(db.ledger.entries), db.ledger.entries, order.value, old(db.shipments),
                           WonOrder(au, a, l, direct, db.now), db.orders[order.value], l, Top(au).shippingC, hasAddress, db.now)
              && db.ledger.holds == CaptureHolds(old(db.ledger.holds), a, au.leader.value)
              && db.captured == old(db.captured) + {a}
              && db.listings == old(db.listings)[au.listing :=
                     l.(quantity := l.quantity - 1, status := if l.quantity > 1 then S.Queued else S.Sold)]
  {
    order := FindOrder(db.orders, a);
    if a in db.auctions {
      RowIsKept(db.View(), a);
    }
    if order.Some? || a !in db.auctions || !Settleable(db.auctions[a]) {
      return;
    }
    ghost var s := db.View();
    var o := SettleWon(db, a, direct, hasAddress);
    order := Some(o);
    ghost var au, l := db.auctions[a], old(db.listings)[db.auctions[a].listing];
    ghost var d := Deal(au.leader.value, l.seller, au.currentBid.value, Some(a), direct, l.nft);
    SettledIsDone(s, db.ledger.entries, a, o, old(db.shipments), d, db.orders[o], l, hasAddress);
  }

  /** What a settlement leaves is the deal done, and the winner's reserve free. */
  lemma SettledIsDone(s: State, after: seq<Entry>, a: nat, o: nat, sh: nat, d: Deal, row: Order, l: Listing, hasAddress: bool)
    requires Reached(s) && Settles(s, a, d.buyer, d.price) && a !in s.captured && d.digital == l.nft
    requires s.auctions[a].bids != []
    requires SettledAs(s.entries, after, o, sh, OrderOf(d, s.now), row, l, Top(s.auctions[a]).shippingC, hasAddress, s.now)
    ensures var ships := !l.nft && l.marketplace && hasAddress;
            var shipping := if ships then Top(s.auctions[a]).shippingC else 0;
            var holds := CaptureHolds(s.holds, a, d.buyer);
            && DealDone(s.entries, after, row, d, ships, shipping, s.now)
            && HoldMatches(holds, ForAuction(a), None)
            && forall v: nat :: Available(after, holds, v) == Available(s.entries, s.holds, v) + SaleChange(d, shipping, User(v))
                 + if v == d.buyer then d.price + Top(s.auctions[a]).shippingC else 0
  {
    WinnerCanPay(s, a, d.buyer, d.price);
    var shippingC := Top(s.auctions[a]).shippingC;
    PostedIsDone(s.entries, o, sh, d, row, if l.marketplace then Some(shippingC) else None, l.marketplace && hasAddress, s.now);
    CaptureFrees(s, a, d.buyer, d.price + shippingC);
  }

  /** Capturing the winner's hold frees exactly the reserve. */
  lemma CaptureFrees(s: State, a: nat, user: nat, reserve: int)
    requires Reached(s) && HoldMatches(s.holds, ForAuction(a), Some((user, reserve)))
    ensures HoldMatches(CaptureHolds(s.holds, a, user), ForAuction(a), None)
    ensures forall v: nat :: ActiveHolds(CaptureHolds(s.holds, a, user), v) == ActiveHolds(s.holds, v) - if v == user then reserve else 0
  {
    var i: nat :| OnlyHeld(s.holds, ForAuction(a), i) && s.holds[i].user == user && s.holds[i].amount == reserve;
    CaptureIsUpdate(s.holds, a, i);
    forall v: nat { ActiveHoldsUpdate(s.holds, i, s.holds[i].(status := Captured), v); }
  }

  /** Charge, take the unit, deliver. */
  method SettleWon(db: Database, a: nat, direct: bool, hasAddress: bool) returns (o: nat)
    requires db.Valid() && a in db.auctions && Settleable(db.auctions[a]) && !HasOrder(db.orders, a)
    requires AccountFree(db.View(), db.auctions[a].leader.value)
    modifies db`orders, db`listings, db`captured, db`shipments, db.ledger`entries, db.ledger`holds, db.ledger`transfers
    ensures db.Valid()
    ensures db.auctions[a].bids != [] && db.auctions[a].currentBid.value > 0
    ensures o == |old(db.orders)| && |db.orders| == o + 1 && db.orders[..o] == old(db.orders)
    ensures db.listings == old(db.listings)[db.auctions[a].listing := UnitSold(old(db.listings)[db.auctions[a].listing])]
    ensures db.captured == old(db.captured) + {a}
    ensures db.ledger.holds == CaptureHolds(old(db.ledger.holds), a, db.auctions[a].leader.value)
    ensures var l := old(db.listings)[db.auctions[a].listing];
            SettledAs(old(db.ledger.entries), db.ledger.entries, o, old(db.shipments), WonOrder(db.auctions[a], a, l, direct, db.now),
                      db.orders[o], l, Top(db.auctions[a]).shippingC, hasAddress, db.now)
  {
    var au := db.auctions[a];
    var l := db.listings[au.listing];
    o := ChargeAndTake(db, a, direct);
    DeliverWon(db, o, l, Top(au).shippingC, hasAddress, old(db.ledger.entries));
  }

  /** The charge, and one unit off the listing. */
  method ChargeAndTake(db: Database, a: nat, direct: bool) returns (o: nat)
    requires db.Valid() && a in db.auctions && Settleable(db.auctions[a]) && !HasOrder(db.orders, a)
    requires AccountFree(db.View(), db.auctions[a].leader.value)
    modifies db`orders, db`captured, db`listings, db.ledger`entries, db.ledger`holds, db.ledger`transfers
    ensures db.Valid()
    ensures db.auctions[a].bids != [] && db.auctions[a].currentBid.value > 0
    ensures o == |old(db.orders)| && |db.orders| == o + 1 && db.orders[..o] == old(db.orders)
    ensures db.orders[o] == WonOrder(db.auctions[a], a, old(db.listings)[db.auctions[a].listing], direct, db.now)
    ensures db.listings == old(db.listings)[db.auctions[a].listing := UnitSold(old(db.listings)[db.auctions[a].listing])]
    ensures db.ledger.entries == old(db.ledger.entries) + LegsOf(o, db.orders[o])
    ensures db.ledger.holds == CaptureHolds(old(db.ledger.holds), a, db.auctions[a].leader.value)
    ensures db.captured == old(db.captured) + {a}
    ensures db.ledger.AvailableTo(db.auctions[a].leader.value) >= Top(db.auctions[a]).shippingC
    ensures !KeyPosted(db.ledger.entries, EscrowSettleKey(o))
    ensures AccountFree(db.View(), db.auctions[a].leader.value)
    ensures db.orders[o].amount > 0 && db.orders[o].item == NoItem && db.orders[o].noShipDeadline == None
            && db.orders[o].status == (if db.orders[o].direct then OrderReleased else OrderLocked)
            && db.orders[o].buyer == db.auctions[a].leader.value
  {
    o := ChargeWon(db, a, direct);
    SetListing(db, db.auctions[a].listing, UnitSold(db.listings[db.auctions[a].listing]));
  }

  /** What an uninterrupted settlement leaves: the price posted, then the delivery, its
      shipping paid if the address is there. */
  ghost predicate SettledAs(before: seq<Entry>, after: seq<Entry>, o: nat, sh: nat, was: Order, row: Order, l: Listing,
                            shippingC: int, hasAddress: bool, now: int) {
    var prepay := if l.marketplace then Some(shippingC) else None;
    && DeliveredAs(was, row, l.nft, l.marketplace && hasAddress, now)
    && after == before + LegsOf(o, was) + DeliveryLegs(o, sh, was, l.nft, prepay, hasAddress)
  }

  method DeliverWon(db: Database, o: nat, l: Listing, shippingC: int, hasAddress: bool, ghost before: seq<Entry>)
    requires db.Valid() && o < |db.orders| && AccountFree(db.View(), db.orders[o].buyer)
    requires db.orders[o].amount > 0 && db.orders[o].item == NoItem && db.orders[o].noShipDeadline == None
    requires db.orders[o].status == if db.orders[o].direct then OrderReleased else OrderLocked
    requires db.ledger.entries == before + LegsOf(o, db.orders[o]) && !KeyPosted(db.ledger.entries, EscrowSettleKey(o))
    requires db.ledger.AvailableTo(db.orders[o].buyer) >= shippingC
    modifies db`orders, db`shipments, db.ledger`entries, db.ledger`transfers
    ensures db.Valid() && |db.orders| == |old(db.orders)| && db.orders[..o] == old(db.orders)[..o]
    ensures SettledAs(before, db.ledger.entries, o, old(db.shipments), old(db.orders)[o], db.orders[o], l, shippingC, hasAddress, db.now)
  {
    Deliver(db, o, l.nft, if l.marketplace then Some(shippingC) else None, hasAddress);
  }
}
