/** What each transaction takes and what each step brings, read off the intents and the rows
    (packages/backend/src/auction.ts, offers.ts, ledger.ts). */
module Spending {
  import opened Schema
  import opened Books
  import opened AuctionRules
  import opened Funds

  /** The reserve of the auction's leading bid. */
  function LeadersReserve(s: State, a: nat): int {
    if a in s.auctions && s.auctions[a].bids != [] then Top(s.auctions[a]).amount + Top(s.auctions[a]).shippingC else 0
  }

  /** What of it user `v` holds. */
  function HeldByLeader(s: State, a: nat, v: nat): int {
    if a in s.auctions && s.auctions[a].bids != [] && Top(s.auctions[a]).user == v then LeadersReserve(s, a) else 0
  }

  /** What the commit of an intent takes from its own user: what its legs debit and what it
      reserves, less the reserve that a capture frees. A bid frees no reserve of its own
      user, who would be leading already. */
  function Cost(s: State, i: Intent): int {
    match i
    case Charge(user, _, legs) => -Settled(legs, User(user))
    case Offering(_, _, row) => row.amount + row.shippingC
    case Bidding(_, _, amount, shippingC, _, _) => amount + shippingC
    case Capturing(user, a, _, legs) => -Settled(legs, User(user)) - LeadersReserve(s, a)
  }

  /** What the commit of an intent brings another user: credits of its legs, or the reserve of
      a bid that is outbid. */
  function Brings(s: State, i: Intent, user: nat): int {
    match i
    case Charge(_, _, legs) => Settled(legs, User(user))
    case Offering(_, _, _) => 0
    case Bidding(_, a, _, _, _, _) => HeldByLeader(s, a, user)
    case Capturing(_, _, _, legs) => Settled(legs, User(user))
  }

  predicate OwnCommit(s: State, step: Step, user: nat) {
    step.Commit? && step.txn in s.txns && s.txns[step.txn].intent.user == user
  }

  /** What a step takes from the user: the cost of the user's own transactions. */
  function Takes(s: State, step: Step, user: nat): int {
    if OwnCommit(s, step, user) then Cost(s, s.txns[step.txn].intent) else 0
  }

  /** What any other step brings the user. */
  function Gives(s: State, step: Step, user: nat): int {
    match step
    case PostUnlocked(legs) => Settled(legs, User(user))
    case FreeOffer(o) =>
      if o in s.owed && o in s.offers && s.offers[o].buyer == user
        then s.offers[o].amount + s.offers[o].shippingC else 0
    case Commit(t) =>
      if t in s.txns && s.txns[t].intent.user != user then Brings(s, s.txns[t].intent, user) else 0
    case _ => 0
  }

  // ---------------------------------------------------------------------------
  // They account for every change
  // ---------------------------------------------------------------------------

  lemma ChargeChanges(s: State, t: nat, v: nat)
    requires Enabled(s, Commit(t)) && s.txns[t].intent.Charge?
    ensures var s' := Apply(s, Commit(t));
            Available(s'.entries, s'.holds, v) == Available(s.entries, s.holds, v) + Settled(s.txns[t].intent.legs, User(v))
  {
    SettledConcat(s.entries, s.txns[t].intent.legs, User(v));
  }

  lemma OfferChanges(s: State, t: nat, v: nat)
    requires Enabled(s, Commit(t)) && s.txns[t].intent.Offering?
    ensures var (i, s') := (s.txns[t].intent, Apply(s, Commit(t)));
            Available(s'.entries, s'.holds, v) ==
            Available(s.entries, s.holds, v) - if v == i.user then i.row.amount + i.row.shippingC else 0
  {
    var i := s.txns[t].intent;
    ActiveHoldsAppend(s.holds, Hold(i.user, ForOffer(i.offer), i.row.amount + i.row.shippingC, Held), v);
  }

  /** The one reserve a bid frees is the leader's. */
  lemma HoldsAfterBidChange(s: State, a: nat, user: nat, reserve: int, v: nat)
    requires HoldMatches(s.holds, ForAuction(a), Wanted(s, ForAuction(a))) && a in s.auctions
             && s.auctions[a].status == Running
    requires forall i | 0 <= i < |s.holds| :: s.holds[i].amount >= 0
    ensures ActiveHolds(HoldsAfterBid(s.holds, a, user, reserve), v) ==
            ActiveHolds(s.holds, v) - HeldByLeader(s, a, v) + if v == user then reserve else 0
  {
    var previous := FindHeld(s.holds, ForAuction(a));
    var freed := s.holds;
    if s.auctions[a].bids != [] {
      var top := Top(s.auctions[a]);
      var k: nat :| OnlyHeld(s.holds, ForAuction(a), k) && s.holds[k].user == top.user
        && s.holds[k].amount == top.amount + top.shippingC;
      assert previous == Some(k);
      freed := s.holds[k := s.holds[k].(status := Released)];
      DropHold(s.holds, k, Released, v);
    }
    ActiveHoldsAppend(freed, Hold(user, ForAuction(a), reserve, Held), v);
  }

  /** A bidder does not lead already. */
  lemma BidderIsNotLeading(s: State, t: nat)
    requires RowsKept(s) && TxnsSafe(s) && t in s.txns && s.txns[t].intent.Bidding?
    ensures var i := s.txns[t].intent;
            && i.auction in s.auctions && s.auctions[i.auction].status == Running && s.auctions[i.auction].endsAt.Some?
            && HeldByLeader(s, i.auction, i.user) == 0
  {
    var i := s.txns[t].intent;
    IntentOf(s, t);
    assert WellKept(s.auctions[i.auction], s.now);
  }

  lemma BidChanges(s: State, t: nat, v: nat)
    requires HoldsLinked(s) && RowsKept(s) && TxnsSafe(s) && Enabled(s, Commit(t)) && s.txns[t].intent.Bidding?
    ensures var (i, s') := (s.txns[t].intent, Apply(s, Commit(t)));
            Available(s'.entries, s'.holds, v) ==
            Available(s.entries, s.holds, v) + (if v == i.user then 0 else HeldByLeader(s, i.auction, v))
            - if v == i.user then i.amount + i.shippingC else 0
  {
    var i := s.txns[t].intent;
    BidderIsNotLeading(s, t);
    assert HoldMatches(s.holds, ForAuction(i.auction), Wanted(s, ForAuction(i.auction)));
    HoldsAfterBidChange(s, i.auction, i.user, i.amount + i.shippingC, v);
  }

  lemma CaptureChanges(s: State, t: nat, v: nat)
    requires Inv(s) && Enabled(s, Commit(t)) && s.txns[t].intent.Capturing?
    ensures var (i, s') := (s.txns[t].intent, Apply(s, Commit(t)));
            Available(s'.entries, s'.holds, v) ==
            Available(s.entries, s.holds, v) + Settled(i.legs, User(v)) + if v == i.user
              then LeadersReserve(s, i.auction) else 0
  {
    var i := s.txns[t].intent;
    assert IntentSafe(s, s.txns[t]);
    assert WellKept(s.auctions[i.auction], s.now);
    var k := CapturedHold(s, i.auction, i.user, i.amount);
    SettledConcat(s.entries, i.legs, User(v));
    DropHold(s.holds, k, Captured, v);
  }

  lemma FreeOfferChanges(s: State, o: nat, v: nat)
    requires HoldsLinked(s) && RowsKept(s) && Enabled(s, FreeOffer(o))
    ensures var s' := Apply(s, FreeOffer(o));
            Available(s'.entries, s'.holds, v) == Available(s.entries, s.holds, v) + Gives(s, FreeOffer(o), v)
  {
    var own := ForOffer(o);
    assert HoldMatches(s.holds, own, Wanted(s, own));
    if o in s.owed {
      var offer := s.offers[o];
      var i: nat :| OnlyHeld(s.holds, own, i) && s.holds[i].user == offer.buyer
        && s.holds[i].amount == offer.amount + offer.shippingC;
      ReleaseIsUpdate(s.holds, o, i);
      DropHold(s.holds, i, Released, v);
    } else {
      ReleaseNothing(s.holds, o);
    }
  }

  lemma CommitChanges(s: State, t: nat, v: nat)
    requires Inv(s) && Enabled(s, Commit(t))
    ensures var s' := Apply(s, Commit(t));
            Available(s'.entries, s'.holds, v) ==
            Available(s.entries, s.holds, v) - Takes(s, Commit(t), v) + Gives(s, Commit(t), v)
  {
    match s.txns[t].intent
    case Charge(_, _, _) => ChargeChanges(s, t, v);
    case Offering(_, _, _) => OfferChanges(s, t, v);
    case Bidding(_, _, _, _, _, _) => BidChanges(s, t, v);
    case Capturing(_, _, _, _) => CaptureChanges(s, t, v);
  }

  /** Every step changes what a user has available by exactly what it gives less what it
      takes. */
  lemma StepChanges(s: State, step: Step, v: nat)
    requires Inv(s) && Enabled(s, step)
    ensures var s' := Apply(s, step);
            Available(s'.entries, s'.holds, v) == Available(s.entries, s.holds, v) - Takes(s, step, v) + Gives(s, step, v)
  {
    match step
    case PostUnlocked(legs) => SettledConcat(s.entries, legs, User(v));
    case FreeOffer(o) => FreeOfferChanges(s, o, v);
    case Commit(t) => CommitChanges(s, t, v);
    case _ =>
  }

  // ---------------------------------------------------------------------------
  // Over a run
  // ---------------------------------------------------------------------------

  /** What the user's own transactions cost, over a run from `s`. */
  function Spent(s: State, steps: seq<Step>, user: nat): int {
    if steps == [] then 0
    else
      var n := |steps| - 1;
      Spent(s, steps[..n], user) + Takes(After(s, steps[..n]), steps[n], user)
  }

  /** What everything else gave the user. */
  function Received(s: State, steps: seq<Step>, user: nat): int {
    if steps == [] then 0
    else
      var n := |steps| - 1;
      Received(s, steps[..n], user) + Gives(After(s, steps[..n]), steps[n], user)
  }

  lemma {:induction false} AvailableOver(s: State, steps: seq<Step>, user: nat)
    requires Inv(s) && IsRun(s, steps)
    ensures Inv(After(s, steps))
    ensures Available(After(s, steps).entries, After(s, steps).holds, user) ==
            Available(s.entries, s.holds, user) - Spent(s, steps, user) + Received(s, steps, user)
  {
    if steps != [] {
      var n := |steps| - 1;
      AvailableOver(s, steps[..n], user);
      StepKeeps(After(s, steps[..n]), steps[n]);
      StepChanges(After(s, steps[..n]), steps[n], user);
    }
  }

  /** Nothing a user is given is negative. */
  lemma GivesNothingNegative(s: State, step: Step, user: nat)
    requires Inv(s) && Enabled(s, step)
    ensures Gives(s, step, user) >= 0
  {
    if step.Commit? {
      IntentOf(s, step.txn);
      var i := s.txns[step.txn].intent;
      if i.Bidding? && s.auctions[i.auction].bids != [] {
        assert WellKept(s.auctions[i.auction], s.now);
        assert BidInTime(s.auctions[i.auction], Top(s.auctions[i.auction]), s.now);
      }
    } else if step.FreeOffer? && step.offer in s.owed {
      assert OfferSane(s.offers[step.offer]);
    }
  }

  lemma {:induction false} ReceivedIsNotNegative(s: State, steps: seq<Step>, user: nat)
    requires Inv(s) && IsRun(s, steps)
    ensures Received(s, steps, user) >= 0
  {
    if steps != [] {
      var n := |steps| - 1;
      ReceivedIsNotNegative(s, steps[..n], user);
      AvailableOver(s, steps[..n], user);
      GivesNothingNegative(After(s, steps[..n]), steps[n], user);
    }
  }

  predicate NoOwnCommits(s: State, steps: seq<Step>, user: nat) {
    steps == [] ||
    (NoOwnCommits(s, steps[..|steps| - 1], user) && !OwnCommit(After(s, steps[..|steps| - 1]), steps[|steps| - 1], user))
  }

  lemma {:induction false} NothingSpent(s: State, steps: seq<Step>, user: nat)
    requires NoOwnCommits(s, steps, user)
    ensures Spent(s, steps, user) == 0
  {
    if steps != [] {
      NothingSpent(s, steps[..|steps| - 1], user);
    }
  }
}
