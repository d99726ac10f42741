/** States the reserve-and-spend machine can reach, and what whole transactions do to them. */
module FundsRuns {
  import opened Schema
  import opened Books
  import opened AuctionRules
  import opened Funds
  import opened Ids

  ghost predicate RunTo(steps: seq<Step>, s: State) {
    IsRun(Empty, steps) && After(Empty, steps) == s
  }

  /** Some run ends here. */
  ghost predicate Reached(s: State) {
    exists steps :: RunTo(steps, s)
  }

  lemma EmptyIsReached()
    ensures Reached(Empty)
  {
    assert RunTo([], Empty);
  }

  lemma Goes(s: State, step: Step)
    requires Reached(s) && Enabled(s, step)
    ensures Reached(Apply(s, step))
  {
    var steps :| RunTo(steps, s);
    var more := steps + [step];
    assert more[..|more| - 1] == steps;
    assert RunTo(more, Apply(s, step));
  }

  lemma ReachedIsSafe(s: State)
    requires Reached(s)
    ensures Inv(s)
  {
    var steps :| RunTo(steps, s);
    RunKeeps(steps);
  }

  /** What the transaction will have read by the time it commits. */
  function Ready(s: State, i: Intent): Txn {
    Txn(i, true, Some(Settled(s.entries, User(i.user))), Some(ActiveHolds(s.holds, i.user)))
  }

  /** A transaction that runs from its first statement to its commit with nobody between
      is five steps of the machine. */
  lemma AtomicTxn(s: State, t: nat, i: Intent)
    requires Reached(s) && t !in s.txns && MayBegin(s, i) && AccountFree(s, i.user)
    requires MayCommit(s, Ready(s, i))
    ensures Reached(Committed(s, i))
  {
    BeginAndLock(s, t, i);
    ReadBoth(s, t, i);
    CommitOf(s, t, i);
    Goes(SetTxn(s, t, Ready(s, i)), Commit(t));
  }

  lemma BeginAndLock(s: State, t: nat, i: Intent)
    requires Reached(s) && t !in s.txns && MayBegin(s, i) && AccountFree(s, i.user)
    ensures Reached(SetTxn(s, t, Txn(i, true, None, None)))
  {
    Goes(s, Begin(t, i));
    var s1 := SetTxn(s, t, Txn(i, false, None, None));
    assert forall u | u in s.txns :: s1.txns[u] == s.txns[u];
    Goes(s1, LockAccount(t));
    assert SetTxn(s1, t, Txn(i, true, None, None)) == SetTxn(s, t, Txn(i, true, None, None));
  }

  lemma ReadBoth(s: State, t: nat, i: Intent)
    requires Reached(SetTxn(s, t, Txn(i, true, None, None)))
    ensures Reached(SetTxn(s, t, Ready(s, i)))
  {
    var s2 := SetTxn(s, t, Txn(i, true, None, None));
    Goes(s2, ReadSettled(t));
    var s3 := Apply(s2, ReadSettled(t));
    Goes(s3, ReadHolds(t));
    assert Apply(s3, ReadHolds(t)) == SetTxn(s, t, Ready(s, i));
  }

  lemma CommitOf(s: State, t: nat, i: Intent)
    requires t !in s.txns && MayCommit(s, Ready(s, i))
    ensures var s4 := SetTxn(s, t, Ready(s, i));
            Enabled(s4, Commit(t)) && Apply(s4, Commit(t)) == Committed(s, i)
  {
    var s4 := SetTxn(s, t, Ready(s, i));
    assert s4.txns - {t} == s.txns;
  }

  lemma FreshTxn(s: State) returns (t: nat)
    ensures t !in s.txns
  {
    var taken := s.txns.Keys;
    t := AboveAll(taken);
  }

  /** A transaction with nobody in between. */
  lemma RunsWhole(s: State, i: Intent)
    requires Reached(s) && MayBegin(s, i) && AccountFree(s, i.user) && MayCommit(s, Ready(s, i))
    ensures Reached(Committed(s, i))
  {
    var t := FreshTxn(s);
    AtomicTxn(s, t, i);
  }

  // ---------------------------------------------------------------------------
  // Facts about reached states
  // ---------------------------------------------------------------------------

  lemma AvailableIsNotNegative(s: State, user: nat)
    requires Reached(s)
    ensures Available(s.entries, s.holds, user) >= 0
  {
    ReachedIsSafe(s);
  }

  lemma RowIsKept(s: State, a: nat)
    requires Reached(s) && a in s.auctions
    ensures WellKept(s.auctions[a], s.now)
  {
    ReachedIsSafe(s);
  }

  lemma HoldIsLinked(s: State, source: HoldSource)
    requires Reached(s)
    ensures HoldMatches(s.holds, source, Wanted(s, source))
  {
    ReachedIsSafe(s);
  }

  lemma HoldsAreNotNegative(s: State)
    requires Reached(s)
    ensures forall i | 0 <= i < |s.holds| :: s.holds[i].amount >= 0
  {
    ReachedIsSafe(s);
  }

  lemma OfferIsSound(s: State, o: nat)
    requires Reached(s) && o in s.offers
    ensures OfferSane(s.offers[o])
    ensures o in s.owed ==> !Live(s.offers[o])
  {
    ReachedIsSafe(s);
  }

  /** What an active hold of a source takes from its owner's available balance. */
  lemma HeldAmount(s: State, source: HoldSource, user: nat, amount: int)
    requires Reached(s) && HoldMatches(s.holds, source, Some((user, amount)))
    ensures ActiveHolds(s.holds, user) >= amount >= 0
    ensures Settled(s.entries, User(user)) >= amount
  {
    var i: nat :| OnlyHeld(s.holds, source, i) && s.holds[i].user == user && s.holds[i].amount == amount;
    HoldsAreNotNegative(s);
    ActiveHoldsAtLeast(s.holds, i, user);
    AvailableIsNotNegative(s, user);
  }

  // ---------------------------------------------------------------------------
  // A run in which the reserved shipping is gone
  // ---------------------------------------------------------------------------

  const Lot := Auction(0, Running, 100, IncrementConfig(1, 0), 10, None, None, Some(10), [])

  const Paid110 := [Entry(User(7), 110, None)]

  /** User 7 has 110; an auction that asks for 100 runs. */
  lemma AuctionRuns() returns (s: State)
    ensures Reached(s) && s == Empty.(entries := Paid110, auctions := map[0 := Lot])
  {
    EmptyIsReached();
    var s1 := Empty.(entries := Paid110);
    assert [] + Paid110 == Paid110 && Paid110[..0] == [];
    Goes(Empty, PostUnlocked(Paid110));
    var row := Lot.(status := Pending, endsAt := None);
    Goes(s1, Create(0, row));
    var s2 := s1.(auctions := map[0 := row]);
    assert Apply(s1, Create(0, row)) == s2;
    Goes(s2, Start(0));
    s := Apply(s2, Start(0));
  }

  const Led := AcceptBid(Lot, 7, 100, 10, 0, None)

  /** They bid 100 with 10 for shipping, and win. */
  lemma AuctionIsWon() returns (s: State)
    ensures Reached(s)
    ensures s == State(3000, Paid110, [Hold(7, ForAuction(0), 110, Held)], map[0 := CloseAuction(Led)], map[], {}, {}, map[])
  {
    var s3 := AuctionRuns();
    var bid := Bidding(7, 0, 100, 10, None, 0);
    assert Paid110[..0] == [];
    RunsWhole(s3, bid);
    var s4 := Committed(s3, bid);
    assert s4.holds == [Hold(7, ForAuction(0), 110, Held)];
    Goes(s4, Pass(3000));
    var s5 := s4.(now := 3000);
    Goes(s5, Close(0));
    s := Apply(s5, Close(0));
  }

  /** The price is charged: exactly the shipping is left. */
  lemma WinIsCaptured() returns (s: State)
    ensures Reached(s)
    ensures s == State(3000, Paid110 + EscrowLockLegs(0, 7, 100), [Hold(7, ForAuction(0), 110, Captured)],
              map[0 := CloseAuction(Led)], map[], {}, {0}, map[])
  {
    var s6 := AuctionIsWon();
    var legs := EscrowLockLegs(0, 7, 100);
    forall v: nat
      ensures Settled(legs, User(v)) == if v == 7 then -100 else 0
    {
      TwoLegs(legs, User(v));
    }
    assert Paid110[..0] == [];
    RunsWhole(s6, Capturing(7, 0, 100, legs));
    s := Committed(s6, Capturing(7, 0, 100, legs));
  }

  /** Before it is charged the winner makes an offer of 10: nothing is available any more. */
  lemma AnOfferTakesTheShipping() returns (s: State)
    ensures Reached(s) && 0 in s.captured && 0 in s.auctions && s.auctions[0].bids != []
    ensures Top(s.auctions[0]).shippingC == 10 && Available(s.entries, s.holds, 7) == 0
  {
    var s7 := WinIsCaptured();
    var legs := EscrowLockLegs(0, 7, 100);
    TwoLegs(legs, User(7));
    SettledConcat(Paid110, legs, User(7));
    assert Paid110[..0] == [] && s7.holds[..0] == [];
    var offer := Offering(7, 0, Schema.Offer(7, 8, 0, 10, 0, None, OfferPending, 9000));
    RunsWhole(s7, offer);
    s := Committed(s7, offer);
    ActiveHoldsAppend(s7.holds, Hold(7, ForOffer(0), 10, Held), 7);
  }
}
