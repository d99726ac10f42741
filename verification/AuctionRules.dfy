/** What one auction transaction checks and changes (packages/backend/src/auction.ts,
    packages/backend/src/offers.ts): the row effects, shared by the step machine and by
    the classes that run the transactions. */
module AuctionRules {
  import opened Schema
  import opened Money
  import opened Books

  /** Marketplace anti-snipe window (packages/backend/src/market.ts). */
  const MARKET_ANTI_SNIPE_MS := 2 * 60 * 1000

  // ---------------------------------------------------------------------------
  // Auction rows
  // ---------------------------------------------------------------------------

  /** The checks placeBid makes before it looks at money. */
  function BidRejected(au: Auction, user: nat, amount: int, shippingC: int, now: int): Option<BidRejectReason> {
    if amount <= 0 then Some(BidTooLow)
    else if au.status != Running || au.endsAt == None then Some(AuctionEnded)
    else if now >= au.endsAt.value then Some(AuctionEnded)
    else if amount < MinNextBid(au.currentBid, au.startingBid, au.cfg) then Some(BidTooLow)
    else if au.leader == Some(user) then Some(AlreadyLeading)
    else if shippingC < 0 then Some(BidTooLow)
    else None
  }

  /** The deadline after a bid at `now`. */
  function NewDeadline(endsAt: int, now: int, floorMs: Option<int>): int {
    var remaining := endsAt - now;
    var newRemaining :=
      if floorMs.Some? then (if remaining > floorMs.value then remaining else floorMs.value)
      else AntiSnipeRemaining(remaining);
    if newRemaining > remaining then now + newRemaining else endsAt
  }

  /** Mark the bids of the outgoing leader. */
  function MarkBids(bids: seq<Bid>, user: nat, status: BidStatus): seq<Bid> {
    seq(|bids|, i requires 0 <= i < |bids| =>
      if bids[i].user == user && bids[i].status == Leading then bids[i].(status := status) else bids[i])
  }

  function AcceptBid(au: Auction, user: nat, amount: int, shippingC: int, now: int, floorMs: Option<int>): Auction
    requires au.endsAt.Some?
  {
    var outbid := if au.leader.Some? then MarkBids(au.bids, au.leader.value, Outbid) else au.bids;
    au.(bids := outbid + [Bid(user, amount, shippingC, Leading, now, floorMs)],
        currentBid := Some(amount),
        leader := Some(user),
        endsAt := Some(NewDeadline(au.endsAt.value, now, floorMs)))
  }

  function StartAuction(au: Auction, now: int): Auction {
    au.(status := Running, endsAt := Some(now + au.durationMs))
  }

  /** A closing auction settles if it has a leader, and otherwise just closes. */
  function CloseAuction(au: Auction): Auction {
    if au.leader.Some? then au.(status := Settling, bids := MarkBids(au.bids, au.leader.value, Won))
    else au.(status := Closed)
  }

  predicate Due(au: Auction, now: int) {
    au.status == Running && au.endsAt.Some? && au.endsAt.value <= now
  }

  function Top(au: Auction): Bid
    requires au.bids != []
  {
    au.bids[|au.bids| - 1]
  }

  /** What the fields of an auction row say about its bids. */
  ghost predicate WellKept(au: Auction, now: int) {
    && (au.leader.None? <==> au.bids == [])
    && (au.leader.None? <==> au.currentBid.None?)
    && (au.status == Pending ==> au.bids == [])
    && (au.status == Closed ==> au.bids == [])
    && (au.status == Settling ==> au.bids != [])
    && (au.status != Pending ==> au.endsAt.Some?)
    && (au.bids != [] ==>
          && au.endsAt.Some?
          && au.leader == Some(Top(au).user)
          && au.currentBid == Some(Top(au).amount)
          && Top(au).status == if au.status == Settling then Won else Leading)
    && (forall i | 0 <= i < |au.bids| - 1 :: au.bids[i].status == Outbid)
    && (au.bids != [] ==> au.bids[0].amount >= au.startingBid)
    && (RealRaises(au.startingBid, au.cfg) ==> forall i, j | 0 <= i < j < |au.bids| ::
        au.bids[i].amount < au.bids[j].amount)
    && (forall i | 0 <= i < |au.bids| :: BidInTime(au, au.bids[i], now))
  }

  /** The bid was accepted before the deadline, which has since kept its distance. */
  ghost predicate BidInTime(au: Auction, b: Bid, now: int) {
    && au.endsAt.Some?
    && b.amount > 0 && b.shippingC >= 0
    && b.at < au.endsAt.value
    && b.at <= now
    && (b.floorMs.Some? ==> au.endsAt.value >= b.at + b.floorMs.value)
  }

  lemma DeadlineNeverEarlier(endsAt: int, now: int, floorMs: Option<int>)
    ensures NewDeadline(endsAt, now, floorMs) >= endsAt
    ensures floorMs.Some? ==> NewDeadline(endsAt, now, floorMs) >= now + floorMs.value
  {
  }

  /** The two anti-snipe rules. On the marketplace at least the floor remains. In a live room
      a bid in the last five seconds adds one second, in the last three two, up to five. */
  lemma DeadlineRules(endsAt: int, now: int, floorMs: Option<int>)
    requires now < endsAt
    ensures floorMs.Some? ==> NewDeadline(endsAt, now, floorMs) == if endsAt < now + floorMs.value then now + floorMs.value else endsAt
    ensures floorMs == None && now + 5_000 < endsAt ==> NewDeadline(endsAt, now, floorMs) == endsAt
    ensures floorMs == None && now + 4_000 <= endsAt <= now + 5_000 ==> NewDeadline(endsAt, now, floorMs) == now + 5_000
    ensures floorMs == None && now + 3_000 <= endsAt <= now + 4_000 ==> NewDeadline(endsAt, now, floorMs) == endsAt + 1_000
    ensures floorMs == None && endsAt < now + 3_000 ==> NewDeadline(endsAt, now, floorMs) == endsAt + 2_000
  {
  }

  /** An accepted bid, field by field. */
  lemma AcceptedBid(au: Auction, user: nat, amount: int, shippingC: int, at: int, floorMs: Option<int>, now: int)
    requires WellKept(au, now) && BidRejected(au, user, amount, shippingC, at) == None
    ensures BidStands(au, AcceptBid(au, user, amount, shippingC, at, floorMs), Bid(user, amount, shippingC, Leading, at, floorMs))
  {
  }

  /** The new bid leads; every earlier one is outbid; nothing else but the deadline changes. */
  predicate BidStands(was: Auction, au: Auction, b: Bid) {
    && |au.bids| == |was.bids| + 1 && au.bids[|was.bids|] == b
    && (forall i | 0 <= i < |was.bids| :: au.bids[i] == was.bids[i].(status := Outbid))
    && au == was.(bids := au.bids, currentBid := Some(b.amount), leader := Some(b.user), endsAt := au.endsAt)
  }

  /** A closed auction, field by field: with a leader its last bid has won. */
  predicate ClosedAs(was: Auction, au: Auction) {
    if was.leader.Some? then
      && |au.bids| == |was.bids| > 0
      && (forall i | 0 <= i < |was.bids| - 1 :: au.bids[i] == was.bids[i] && was.bids[i].status == Outbid)
      && au.bids[|was.bids| - 1] == was.bids[|was.bids| - 1].(status := Won)
      && au == was.(status := Settling, bids := au.bids)
    else au == was.(status := Closed)
  }

  lemma CloseCloses(au: Auction, now: int)
    requires WellKept(au, now) && Due(au, now)
    ensures ClosedAs(au, CloseAuction(au))
  {
  }

  lemma AcceptedInTime(au: Auction, user: nat, amount: int, shippingC: int, at: int, floorMs: Option<int>, now: int)
    requires WellKept(au, now) && at <= now
    requires BidRejected(au, user, amount, shippingC, at) == None
    ensures var after := AcceptBid(au, user, amount, shippingC, at, floorMs);
            forall i | 0 <= i < |after.bids| :: BidInTime(after, after.bids[i], now)
  {
    DeadlineNeverEarlier(au.endsAt.value, at, floorMs);
    var after := AcceptBid(au, user, amount, shippingC, at, floorMs);
    forall i | 0 <= i < |after.bids|
      ensures BidInTime(after, after.bids[i], now)
    {
      if i < |au.bids| {
        assert BidInTime(au, au.bids[i], now);
      }
    }
  }

  lemma AcceptedRises(au: Auction, user: nat, amount: int, shippingC: int, at: int, floorMs: Option<int>, now: int)
    requires WellKept(au, now) && RealRaises(au.startingBid, au.cfg)
    requires BidRejected(au, user, amount, shippingC, at) == None
    ensures var after := AcceptBid(au, user, amount, shippingC, at, floorMs);
            forall i, j | 0 <= i < j < |after.bids| :: after.bids[i].amount < after.bids[j].amount
  {
    if au.bids != [] {
      assert BidInTime(au, Top(au), now);
      RaisesFrom(LowestBid(au.startingBid), au.currentBid.value, au.cfg);
      assert Top(au).amount < amount;
    }
  }

  /** Without real raises the rules accept two equal bids, so nothing more can be promised. */
  lemma EqualBidsAreAccepted(au: Auction, now: int)
    requires au.status == Running && au.bids == [] && au.leader == None && au.currentBid == None
    requires au.endsAt.Some? && now < au.endsAt.value && !RealRaises(au.startingBid, au.cfg)
    ensures var amount := LowestBid(au.startingBid);
            var first := AcceptBid(au, 1, amount, 0, now, None);
            var second := AcceptBid(first, 2, amount, 0, now, None);
            && BidRejected(au, 1, amount, 0, now) == None && BidRejected(first, 2, amount, 0, now) == None
            && |second.bids| == 2 && second.bids[0].amount == second.bids[1].amount && second.leader == Some(2)
  {
    DeadlineNeverEarlier(au.endsAt.value, now, None);
  }

  lemma AcceptKeepsRow(au: Auction, user: nat, amount: int, shippingC: int, at: int, floorMs: Option<int>, now: int)
    requires WellKept(au, now) && at <= now
    requires BidRejected(au, user, amount, shippingC, at) == None
    ensures var after := AcceptBid(au, user, amount, shippingC, at, floorMs);
            && WellKept(after, now)
            && after.endsAt.value >= au.endsAt.value
            && Top(after) == Bid(user, amount, shippingC, Leading, at, floorMs)
  {
    DeadlineNeverEarlier(au.endsAt.value, at, floorMs);
    AcceptedInTime(au, user, amount, shippingC, at, floorMs, now);
    if RealRaises(au.startingBid, au.cfg) {
      AcceptedRises(au, user, amount, shippingC, at, floorMs, now);
    }
  }

  lemma CloseKeepsRow(au: Auction, now: int)
    requires WellKept(au, now) && Due(au, now)
    ensures WellKept(CloseAuction(au), now)
    ensures au.bids != [] ==> Top(CloseAuction(au)) == Top(au).(status := Won)
  {
  }

  lemma TimePassesKeepsRow(au: Auction, now: int, later: int)
    requires WellKept(au, now) && now <= later
    ensures WellKept(au, later)
  {
    forall i | 0 <= i < |au.bids|
      ensures BidInTime(au, au.bids[i], later)
    {
      assert BidInTime(au, au.bids[i], now);
    }
  }

  // ---------------------------------------------------------------------------
  // Hold rows
  // ---------------------------------------------------------------------------

  predicate HeldFrom(h: Hold, source: HoldSource) {
    h.source == source && h.status == Held
  }

  /** Some active hold of this source, if there is one. */
  function FindHeld(holds: seq<Hold>, source: HoldSource): (r: Option<nat>)
    ensures r.Some? ==> r.value < |holds| && HeldFrom(holds[r.value], source)
    ensures r.None? ==> forall i | 0 <= i < |holds| :: !HeldFrom(holds[i], source)
  {
    if holds == [] then None
    else
      var n := |holds| - 1;
      var earlier := FindHeld(holds[..n], source);
      if earlier.Some? then earlier
      else if HeldFrom(holds[n], source) then Some(n)
      else None
  }

  /** An accepted bid frees the previous leader's hold and places its own. */
  function HoldsAfterBid(holds: seq<Hold>, auction: nat, user: nat, reserve: int): seq<Hold> {
    var previous := FindHeld(holds, ForAuction(auction));
    var freed := if previous.Some? then holds[previous.value := holds[previous.value].(status := Released)] else holds;
    freed + [Hold(user, ForAuction(auction), reserve, Held)]
  }

  /** Release every active hold of an offer. */
  function ReleaseHolds(holds: seq<Hold>, offer: nat): seq<Hold> {
    seq(|holds|, i requires 0 <= i < |holds| =>
      if HeldFrom(holds[i], ForOffer(offer)) then holds[i].(status := Released) else holds[i])
  }

  ghost predicate OnlyHeld(holds: seq<Hold>, source: HoldSource, i: nat) {
    && i < |holds|
    && HeldFrom(holds[i], source)
    && forall j | 0 <= j < |holds| && j != i :: !HeldFrom(holds[j], source)
  }

  /** The active holds of a source are exactly what `want` asks for: none, or one of the
      given user and amount. */
  ghost predicate HoldMatches(holds: seq<Hold>, source: HoldSource, want: Option<(nat, int)>) {
    match want
    case None => forall i | 0 <= i < |holds| :: !HeldFrom(holds[i], source)
    case Some((user, amount)) =>
      exists i: nat :: OnlyHeld(holds, source, i) && holds[i].user == user && holds[i].amount == amount
  }

  lemma MatchAppendOther(holds: seq<Hold>, h: Hold, source: HoldSource, want: Option<(nat, int)>)
    requires HoldMatches(holds, source, want) && h.source != source
    ensures HoldMatches(holds + [h], source, want)
  {
    if want.Some? {
      var i: nat :| OnlyHeld(holds, source, i) && holds[i].user == want.value.0 && holds[i].amount == want.value.1;
      assert OnlyHeld(holds + [h], source, i);
    }
  }

  lemma MatchAppendOwn(holds: seq<Hold>, h: Hold)
    requires HoldMatches(holds, h.source, None) && h.status == Held
    ensures HoldMatches(holds + [h], h.source, Some((h.user, h.amount)))
  {
    assert OnlyHeld(holds + [h], h.source, |holds|);
  }

  lemma MatchUpdateOther(holds: seq<Hold>, i: nat, h: Hold, source: HoldSource, want: Option<(nat, int)>)
    requires HoldMatches(holds, source, want) && i < |holds| && holds[i].source == h.source != source
    ensures HoldMatches(holds[i := h], source, want)
  {
    if want.Some? {
      var j: nat :| OnlyHeld(holds, source, j) && holds[j].user == want.value.0 && holds[j].amount == want.value.1;
      assert OnlyHeld(holds[i := h], source, j);
    }
  }

  /** With one active hold at most, releasing all of them is releasing that one. */
  lemma ReleaseIsUpdate(holds: seq<Hold>, offer: nat, i: nat)
    requires OnlyHeld(holds, ForOffer(offer), i)
    ensures ReleaseHolds(holds, offer) == holds[i := holds[i].(status := Released)]
  {
  }

  lemma ReleaseNothing(holds: seq<Hold>, offer: nat)
    requires HoldMatches(holds, ForOffer(offer), None)
    ensures ReleaseHolds(holds, offer) == holds
  {
  }

  lemma CaptureIsUpdate(holds: seq<Hold>, auction: nat, i: nat)
    requires OnlyHeld(holds, ForAuction(auction), i)
    ensures CaptureHolds(holds, auction, holds[i].user) == holds[i := holds[i].(status := Captured)]
  {
  }
}
