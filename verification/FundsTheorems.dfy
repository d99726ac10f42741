/** What every run of the reserve-and-spend machine guarantees. */
module FundsTheorems {
  import opened Schema
  import opened Money
  import opened Books
  import opened AuctionRules
  import opened Funds
  import opened Spending

  /** However bids, offers, withdrawals, purchases, shipping charges, settlements, credits
      and freed reserves interleave, nobody's available balance is ever negative. */
  lemma AvailableNeverNegative(steps: seq<Step>, user: nat)
    requires IsRun(Empty, steps)
    ensures var s := After(Empty, steps); Available(s.entries, s.holds, user) >= 0
  {
    RunKeeps(steps);
  }

  /** The reason: a step that is not the commit of a transaction holding the user's account
      lock can only raise what the user has available. */
  lemma OnlyTheLockHolderLowers(s: State, step: Step, user: nat)
    requires Inv(s) && Enabled(s, step)
    requires step.Commit? ==> s.txns[step.txn].intent.user != user
    ensures var s' := Apply(s, step);
            Available(s'.entries, s'.holds, user) >= Available(s.entries, s.holds, user)
  {
    match step
    case PostUnlocked(legs) => SettledConcat(s.entries, legs, User(user));
    case FreeOffer(o) =>
      var own := ForOffer(o);
      assert HoldMatches(s.holds, own, Wanted(s, own));
      if o in s.owed {
        var i: nat :| OnlyHeld(s.holds, own, i);
        ReleaseIsUpdate(s.holds, o, i);
        DropHold(s.holds, i, Released, user);
      } else {
        ReleaseNothing(s.holds, o);
      }
    case Commit(t) =>
      var s' := Apply(s, step);
      assert IntentSafe(s, s.txns[t]);
      match s.txns[t].intent {
        case Charge(_, _, _) => CommitChargeBalances(s, s', t);
        case Offering(_, _, _) => CommitOfferingBalances(s, s', t);
        case Bidding(_, _, _, _, _, _) => CommitBiddingBalances(s, t);
        case Capturing(u, a, amount, _) =>
          var k := CapturedHold(s, a, u, amount);
          CommitCapturingBalances(s, s', t, k);
      }
    case _ =>
  }

  // ---------------------------------------------------------------------------
  // Hold linkage and settlement
  // ---------------------------------------------------------------------------

  /** Exactly one active hold, the leader's, of the leading bid plus its shipping - as long
      as the auction runs or its winner has not been charged; none otherwise. */
  ghost predicate LeaderReserved(s: State, a: nat) {
    if a in s.auctions && s.auctions[a].leader.Some? && !(s.auctions[a].status == Settling && a in s.captured)
    then
      var au := s.auctions[a];
      && au.bids != [] && Top(au).user == au.leader.value
      && exists i: nat :: OnlyHeld(s.holds, ForAuction(a), i)
                          && s.holds[i].user == au.leader.value
                          && au.currentBid == Some(s.holds[i].amount - Top(au).shippingC)
    else HoldMatches(s.holds, ForAuction(a), None)
  }

  lemma LinkSaysReserved(s: State, a: nat)
    requires a in s.auctions ==> WellKept(s.auctions[a], s.now)
    requires HoldMatches(s.holds, ForAuction(a), Wanted(s, ForAuction(a)))
    ensures LeaderReserved(s, a)
  {
  }

  /** Hold linkage, in every run. */
  lemma LeaderHasExactlyTheReserve(steps: seq<Step>, a: nat)
    requires IsRun(Empty, steps)
    ensures LeaderReserved(After(Empty, steps), a)
  {
    RunKeepsLink(steps, ForAuction(a));
    if a in After(Empty, steps).auctions {
      RunKeepsRow(steps, a);
    }
    LinkSaysReserved(After(Empty, steps), a);
  }

  /** The settlement of an auction compares the settled balance, not the available one.
      In every run it passes: the reserve is still inside the settled balance. */
  lemma SettlementCheckNeverFails(steps: seq<Step>, t: nat)
    requires IsRun(Empty, steps)
    requires var s := After(Empty, steps);
             && t in s.txns && s.txns[t].intent.Capturing? && s.txns[t].settled.Some?
             && s.txns[t].intent.auction !in s.captured
    ensures var s := After(Empty, steps);
            && s.txns[t].settled.value >= s.txns[t].intent.amount
            && Enabled(s, Commit(t))
  {
    RunKeeps(steps);
    var s := After(Empty, steps);
    assert IntentSafe(s, s.txns[t]) && ReadsSafe(s, s.txns[t]);
  }

  /** Capturing the hold and charging the winning bid leaves the winner with exactly the
      reserved shipping more to spend, ready for the shipping charge that follows. */
  lemma CaptureFreesExactlyTheShipping(s: State, t: nat)
    requires Inv(s) && Enabled(s, Commit(t)) && s.txns[t].intent.Capturing?
    requires var i := s.txns[t].intent; Settled(i.legs, User(i.user)) == -i.amount
    ensures var i := s.txns[t].intent;
            var s' := Apply(s, Commit(t));
            && i.auction in s.auctions && s.auctions[i.auction].bids != []
            && Available(s'.entries, s'.holds, i.user) ==
               Available(s.entries, s.holds, i.user) + Top(s.auctions[i.auction]).shippingC
  {
    var i := s.txns[t].intent;
    assert IntentSafe(s, s.txns[t]);
    assert WellKept(s.auctions[i.auction], s.now);
    var k := CapturedHold(s, i.auction, i.user, i.amount);
    SettledConcat(s.entries, i.legs, User(i.user));
    DropHold(s.holds, k, Captured, i.user);
  }

  /** The shipping a bid reserved is charged in a transaction of its own, after the capture.
      Whatever happens in between, it is still there to be charged exactly if the winner's
      own transactions - debits, bids, offers - cost no more than what the winner had
      available before the capture and what others gave since: certainly if there were none. */
  lemma ShippingIsStillThereIff(s: State, t: nat, steps: seq<Step>)
    requires Inv(s) && Enabled(s, Commit(t)) && s.txns[t].intent.Capturing?
    requires var i := s.txns[t].intent; Settled(i.legs, User(i.user)) == -i.amount
    requires IsRun(Apply(s, Commit(t)), steps)
    ensures var i := s.txns[t].intent;
            var (s', end) := (Apply(s, Commit(t)), After(Apply(s, Commit(t)), steps));
            && i.auction in s.auctions && s.auctions[i.auction].bids != []
            && (Available(end.entries, end.holds, i.user) >= Top(s.auctions[i.auction]).shippingC
                <==> Spent(s', steps, i.user) <= Available(s.entries, s.holds, i.user) + Received(s', steps, i.user))
            && (NoOwnCommits(s', steps, i.user) ==>
                  Available(end.entries, end.holds, i.user) >= Top(s.auctions[i.auction]).shippingC)
  {
    var i := s.txns[t].intent;
    var s' := Apply(s, Commit(t));
    CaptureFreesExactlyTheShipping(s, t);
    StepKeeps(s, Commit(t));
    AvailableOver(s', steps, i.user);
    ReceivedIsNotNegative(s', steps, i.user);
    assert Available(s.entries, s.holds, i.user) >= 0;
    if NoOwnCommits(s', steps, i.user) {
      NothingSpent(s', steps, i.user);
    }
  }

  // ---------------------------------------------------------------------------
  // Auction timing and the winner
  // ---------------------------------------------------------------------------

  /** What one step may do to a running auction: the deadline never moves earlier, a new bid
      was timed before the deadline it found, and the auction stops running only at or
      after its deadline - for a marketplace auction, no sooner than the anti-snipe window
      after its last accepted bid. */
  ghost predicate InTime(au: Auction, after: Auction, now: int) {
    && au.endsAt.Some? && after.endsAt.Some?
    && after.endsAt.value >= au.endsAt.value
    && (|after.bids| > |au.bids| ==>
          |after.bids| == |au.bids| + 1 && Top(after).at < au.endsAt.value)
    && (after.status != Running ==>
          && au.endsAt.value <= now
          && (au.bids != [] && Top(au).floorMs == Some(MARKET_ANTI_SNIPE_MS) ==>
              now >= Top(au).at + MARKET_ANTI_SNIPE_MS))
  }

  lemma CloseIsInTime(au: Auction, now: int)
    requires WellKept(au, now) && Due(au, now)
    ensures InTime(au, CloseAuction(au), now)
  {
    if au.bids != [] {
      assert BidInTime(au, Top(au), now);
    }
  }

  lemma BidIsInTime(au: Auction, user: nat, amount: int, shippingC: int, at: int, floorMs: Option<int>, now: int)
    requires au.status == Running && BidRejected(au, user, amount, shippingC, at) == None
    ensures InTime(au, AcceptBid(au, user, amount, shippingC, at, floorMs), now)
  {
    DeadlineNeverEarlier(au.endsAt.value, at, floorMs);
  }

  /** A running auction is touched by closing it and by a bid on it, by nothing else. */
  lemma OtherwiseUntouched(s: State, step: Step, a: nat)
    requires Enabled(s, step) && a in s.auctions && s.auctions[a].status == Running
    requires step != Close(a)
    requires step.Commit? ==> s.txns[step.txn].intent.Bidding? ==> s.txns[step.txn].intent.auction != a
    ensures a in Apply(s, step).auctions && Apply(s, step).auctions[a] == s.auctions[a]
  {
  }

  /** In every run, at every step, every running auction keeps its time. */
  lemma DeadlinesHold(s: State, step: Step, a: nat)
    requires Inv(s) && Enabled(s, step)
    requires a in s.auctions && s.auctions[a].status == Running
    ensures a in Apply(s, step).auctions && InTime(s.auctions[a], Apply(s, step).auctions[a], s.now)
  {
    assert WellKept(s.auctions[a], s.now);
    if step == Close(a) {
      CloseIsInTime(s.auctions[a], s.now);
    } else if step.Commit? && s.txns[step.txn].intent.Bidding? && s.txns[step.txn].intent.auction == a {
      var i := s.txns[step.txn].intent;
      IntentOf(s, step.txn);
      BidIsInTime(s.auctions[a], i.user, i.amount, i.shippingC, i.at, i.floorMs, s.now);
    } else {
      OtherwiseUntouched(s, step, a);
    }
  }

  /** Exactly one winning bid: the last one accepted, the leader's, and - when the auction's
      steps are real raises - above every other bid. */
  predicate OneWinner(au: Auction) {
    && au.bids != []
    && (forall i | 0 <= i < |au.bids| :: au.bids[i].status == Won <==> i == |au.bids| - 1)
    && au.leader == Some(Top(au).user) && au.currentBid == Some(Top(au).amount)
    && (RealRaises(au.startingBid, au.cfg) ==> forall i | 0 <= i < |au.bids| - 1 :: au.bids[i].amount < Top(au).amount)
  }

  lemma SettlingHasOneWinner(au: Auction, now: int)
    requires WellKept(au, now) && au.status == Settling
    ensures OneWinner(au)
  {
  }

  lemma WinnerIsUniqueLastAndHighest(steps: seq<Step>, a: nat)
    requires IsRun(Empty, steps)
    requires a in After(Empty, steps).auctions && After(Empty, steps).auctions[a].status == Settling
    ensures OneWinner(After(Empty, steps).auctions[a])
  {
    RunKeepsRow(steps, a);
    SettlingHasOneWinner(After(Empty, steps).auctions[a], After(Empty, steps).now);
  }

  // ---------------------------------------------------------------------------
  // Offers
  // ---------------------------------------------------------------------------

  /** An open offer has exactly one active hold, of its amount plus shipping. A closed one
      has none once the call that closed it has freed it - and keeps exactly its own if
      that call never got so far. */
  lemma OpenOffersAreBacked(steps: seq<Step>, o: nat)
    requires IsRun(Empty, steps)
    ensures var s := After(Empty, steps);
            if o in s.offers && (Live(s.offers[o]) || o in s.owed)
            then exists i: nat :: OnlyHeld(s.holds, ForOffer(o), i)
                                  && s.holds[i].user == s.offers[o].buyer
                                  && s.holds[i].amount == s.offers[o].amount + s.offers[o].shippingC
            else HoldMatches(s.holds, ForOffer(o), None)
  {
    RunKeepsLink(steps, ForOffer(o));
  }
}
