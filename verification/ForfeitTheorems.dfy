/** Exactly when a buyer who paid for shipping loses the price to a forfeit (packages/backend/
    src/orders.ts, fulfillment.ts): the two timers, the manual discard, and the payment that
    runs into either of them. */
module ForfeitTheorems {
  import opened Schema
  import opened Books
  import opened Escrow
  import opened ShippingTheorems

  // ---------------------------------------------------------------------------
  // What counts as paid
  // ---------------------------------------------------------------------------

  /** Some shipment of the order stands charged in the books. */
  ghost predicate ChargePosted(s: State, o: nat) {
    exists sh: nat :: Covers(s, sh, o) && KeyPosted(s.entries, ShippingKey(sh))
  }

  /** A shipment that cost nothing counts as paid once its call is past the charge. */
  ghost predicate FreeShipment(s: State, o: nat) {
    exists sh: nat :: PaidBy(s, sh, o) && s.shipments[sh].fee <= 0
  }

  /** In every run an order is paid exactly if the charge of one of its shipments is posted,
      or a free one has been prepaid. */
  lemma PaidIffPosted(states: seq<State>, i: nat, o: nat)
    requires IsRun(states) && i < |states|
    ensures Paid(states[i], o) <==> ChargePosted(states[i], o) || FreeShipment(states[i], o)
  {
    RunKeepsShipping(states, i);
    var s := states[i];
    if Paid(s, o) {
      var sh: nat :| PaidBy(s, sh, o);
      assert KeyOk(s, sh);
    }
    if ChargePosted(s, o) {
      var sh: nat :| Covers(s, sh, o) && KeyPosted(s.entries, ShippingKey(sh));
      assert KeyOk(s, sh);
      assert PaidBy(s, sh, o);
    }
  }

  /** A locked order is paid exactly if its clock runs or the payment is between the charge
      and the clock. */
  lemma LockedIsPaidIff(s: State, o: nat)
    requires ShippingInv(s) && o < |s.orders| && s.orders[o].status == OrderLocked
    ensures Paid(s, o) <==> InGap(s, o) || s.orders[o].noShipDeadline.Some?
  {
    assert RunningOk(s, o);
    if Paid(s, o) && s.orders[o].noShipDeadline == None {
      var sh: nat :| PaidBy(s, sh, o);
      assert ClockedOk(s, sh, o);
      assert InGapBy(s, sh, o);
    } else if InGap(s, o) {
      var sh: nat :| InGapBy(s, sh, o);
      assert PaidBy(s, sh, o);
    }
  }

  // ---------------------------------------------------------------------------
  // The two timers
  // ---------------------------------------------------------------------------

  /** In every run: no order is open to both timers; one open to the refund timer has its
      shipping paid; one open to the forfeit timer has not, unless the payment is between
      its charge and its clock; and whoever the timer refunded had paid. */
  lemma TimersArePartitioned(states: seq<State>, i: nat, o: nat)
    requires IsRun(states) && i < |states| && o < |states[i].orders|
    ensures var s := states[i];
            && !(Abandoned(s.orders[o], s.now) && Unshipped(s.orders[o], s.now))
            && (Unshipped(s.orders[o], s.now) ==> Paid(s, o))
            && (Abandoned(s.orders[o], s.now) ==> (Paid(s, o) <==> InGap(s, o)))
            && (o in s.autoRefunded ==> Paid(s, o))
  {
    RunKeepsShipping(states, i);
    assert RefundedOk(states[i], o);
    if states[i].orders[o].status == OrderLocked {
      LockedIsPaidIff(states[i], o);
    }
  }

  // ---------------------------------------------------------------------------
  // One claim
  // ---------------------------------------------------------------------------

  /** Call `c` wins its claim of order `o` now. */
  predicate ClaimWins(s: State, c: nat, o: nat) {
    CallOn(s, c) && s.calls[c].WillClaim? && s.calls[c].order == o && WinsClaim(s.orders[o], s.calls[c].byTimer)
  }

  lemma WonClaim(s: State, c: nat, s': State, o: nat)
    requires Follows(s, ClaimForfeit(c), s') && ClaimWins(s, c, o)
    ensures s'.forfeited == s.forfeited + {o} && s'.shipments == s.shipments && s.orders[o].status == OrderLocked
    ensures !s.calls[c].byTimer ==> s.orders[o].noShipDeadline == None
  {
  }

  lemma SamePaid(s: State, s': State, o: nat)
    requires s'.shipments == s.shipments
    ensures Paid(s', o) <==> Paid(s, o)
  {
    if Paid(s, o) {
      var sh: nat :| PaidBy(s, sh, o);
      assert PaidBy(s', sh, o);
    } else if Paid(s', o) {
      var sh: nat :| PaidBy(s', sh, o);
      assert PaidBy(s, sh, o);
    }
  }

  /** The manual discard tests the clock inside its claim, and still takes a paid item
      exactly when the claim falls between the charge and the clock. */
  lemma DiscardTakesPaidItemIff(s: State, c: nat, s': State, o: nat)
    requires ShippingInv(s) && Next(s, ClaimForfeit(c), s') && ClaimWins(s, c, o) && !s.calls[c].byTimer
    ensures o in s'.forfeited && (Paid(s', o) <==> InGap(s, o))
  {
    WonClaim(s, c, s', o);
    LockedIsPaidIff(s, o);
    SamePaid(s, s', o);
  }

  /** The timer tests the clock before its claim, so a second case is added: the clock
      started between the two. */
  lemma LateClaimTakesPaidItemIff(s: State, c: nat, s': State, o: nat)
    requires ShippingInv(s) && Next(s, ClaimForfeit(c), s') && ClaimWins(s, c, o) && s.calls[c].byTimer
    ensures o in s'.forfeited && (Paid(s', o) <==> InGap(s, o) || s.orders[o].noShipDeadline.Some?)
  {
    WonClaim(s, c, s', o);
    LockedIsPaidIff(s, o);
    SamePaid(s, s', o);
  }

  // ---------------------------------------------------------------------------
  // Whole runs
  // ---------------------------------------------------------------------------

  /** The price went to the seller because the buyer gave the item up, yet the buyer paid to
      have it sent. */
  ghost predicate Lost(s: State, o: nat) {
    o in s.forfeited && Paid(s, o)
  }

  /** A claim that is won while the payment is between charge and clock, or after it. */
  ghost predicate ClaimsPaid(s: State, s': State, o: nat) {
    && (InGap(s, o) || (o < |s.orders| && s.orders[o].noShipDeadline.Some?))
    && exists c: nat :: Next(s, ClaimForfeit(c), s') && ClaimWins(s, c, o)
  }

  /** A charge for a shipment of an order that is forfeited by now. */
  ghost predicate ChargesForfeited(s: State, s': State, o: nat) {
    o in s.forfeited && exists sh: nat :: Next(s, ChargeShipping(sh), s') && Covers(s, sh, o)
  }

  ghost predicate Harms(s: State, s': State, o: nat) {
    ClaimsPaid(s, s', o) || ChargesForfeited(s, s', o)
  }

  lemma ForfeitedAfterInstant(s: State, step: Step, s': State)
    requires Instantly(s, step, s')
    ensures s'.forfeited == s.forfeited
  {
  }

  lemma ForfeitedAfterShipping(s: State, step: Step, s': State)
    requires Ships(s, step, s')
    ensures s'.forfeited == s.forfeited
  {
  }

  lemma ForfeitedAfterDecision(s: State, step: Step, s': State)
    requires Decides(s, step, s')
    ensures s'.forfeited == s.forfeited
  {
  }

  lemma ForfeitedAfterCall(s: State, step: Step, s': State, o: nat)
    requires Follows(s, step, s')
    ensures o in s.forfeited ==> o in s'.forfeited
    ensures o in s'.forfeited && o !in s.forfeited ==> step.ClaimForfeit? && ClaimWins(s, step.call, o)
  {
  }

  lemma ForfeitedOnlyGrows(s: State, step: Step, s': State, o: nat)
    requires Next(s, step, s')
    ensures o in s.forfeited ==> o in s'.forfeited
    ensures o in s'.forfeited && o !in s.forfeited ==> step.ClaimForfeit? && ClaimWins(s, step.call, o)
  {
    if Instant(step) {
      ForfeitedAfterInstant(s, step, s');
    } else if OfShipment(step) {
      ForfeitedAfterShipping(s, step, s');
    } else if Decision(step) {
      ForfeitedAfterDecision(s, step, s');
    } else {
      ForfeitedAfterCall(s, step, s', o);
    }
  }

  lemma NewlyPaidBy(s: State, step: Step, s': State, sh: nat, o: nat)
    requires Ships(s, step, s') && PaidBy(s', sh, o) && !PaidBy(s, sh, o)
    ensures step.ChargeShipping? && Covers(s, step.shipment, o)
  {
  }

  lemma NewlyPaid(s: State, step: Step, s': State, o: nat)
    requires Next(s, step, s') && Paid(s', o) && !Paid(s, o)
    ensures step.ChargeShipping? && Covers(s, step.shipment, o)
  {
    var sh: nat :| PaidBy(s', sh, o);
    assert !PaidBy(s, sh, o);
    if OfShipment(step) {
      NewlyPaidBy(s, step, s', sh, o);
    } else {
      SameShipments(s, step, s');
      SamePaid(s, s', o);
    }
  }

  lemma ChargePays(s: State, sh: nat, s': State, o: nat)
    requires Ships(s, ChargeShipping(sh), s') && Covers(s, sh, o)
    ensures Paid(s', o)
  {
    assert PaidBy(s', sh, o);
  }

  lemma LostStays(s: State, step: Step, s': State, o: nat)
    requires Next(s, step, s') && Lost(s, o)
    ensures Lost(s', o)
  {
    ForfeitedOnlyGrows(s, step, s', o);
    ShipmentsGoForward(s, step, s');
    PaidStays(s, s', o);
  }

  lemma HarmLoses(s: State, s': State, o: nat)
    requires ShippingInv(s) && Harms(s, s', o)
    ensures Lost(s', o)
  {
    if ClaimsPaid(s, s', o) {
      var c: nat :| Next(s, ClaimForfeit(c), s') && ClaimWins(s, c, o);
      WonClaim(s, c, s', o);
      LockedIsPaidIff(s, o);
      SamePaid(s, s', o);
    } else {
      var sh: nat :| Next(s, ChargeShipping(sh), s') && Covers(s, sh, o);
      ForfeitedOnlyGrows(s, ChargeShipping(sh), s', o);
      ChargePays(s, sh, s', o);
    }
  }

  lemma LossIsHarm(s: State, step: Step, s': State, o: nat)
    requires ShippingInv(s) && Next(s, step, s') && Lost(s', o) && !Lost(s, o)
    ensures Harms(s, s', o)
  {
    ForfeitedOnlyGrows(s, step, s', o);
    if o in s.forfeited {
      NewlyPaid(s, step, s', o);
      assert ChargesForfeited(s, s', o);
    } else {
      WonClaim(s, step.call, s', o);
      SamePaid(s, s', o);
      LockedIsPaidIff(s, o);
      assert ClaimsPaid(s, s', o);
    }
  }

  /** Over one step: the loss is there already, or this step makes it. */
  lemma StepLosesIff(s: State, s': State, o: nat)
    requires ShippingInv(s) && CanStep(s, s')
    ensures Lost(s', o) <==> Lost(s, o) || Harms(s, s', o)
  {
    var step :| Next(s, step, s');
    if Lost(s, o) {
      LostStays(s, step, s', o);
    } else if Harms(s, s', o) {
      HarmLoses(s, s', o);
    } else if Lost(s', o) {
      LossIsHarm(s, step, s', o);
    }
  }

  ghost predicate HarmsAt(states: seq<State>, i: nat, o: nat) {
    i + 1 < |states| && Harms(states[i], states[i + 1], o)
  }

  lemma RunStepLosesIff(states: seq<State>, i: nat, o: nat)
    requires IsRun(states) && i + 1 < |states|
    ensures Lost(states[i + 1], o) <==> Lost(states[i], o) || HarmsAt(states, i, o)
  {
    RunKeepsShipping(states, i);
    assert CanStep(states[i], states[i + 1]);
    StepLosesIff(states[i], states[i + 1], o);
  }

  /** Over every run, every interleaving and every crash: the price of an order whose shipping
      was paid has been given to the seller by a claim if and only if some claim was won
      between the charge and the clock, or by the timer after the clock, or the charge came
      after the claim. (For items discarded without a claim see DiscardTheorems.) */
  lemma {:induction false} ForfeitedButPaidIff(states: seq<State>, n: nat, o: nat)
    requires IsRun(states) && n < |states|
    ensures Lost(states[n], o) <==> exists i | 0 <= i < n :: HarmsAt(states, i, o)
  {
    if n > 0 {
      ForfeitedButPaidIff(states, n - 1, o);
      RunStepLosesIff(states, n - 1, o);
    }
  }

  /** So where no step harms, an order whose price was claimed for the seller was never paid
      for. */
  lemma ForfeitedWasNeverPaid(states: seq<State>, n: nat, o: nat)
    requires IsRun(states) && n < |states| && o in states[n].forfeited
    requires forall i | 0 <= i < n :: !HarmsAt(states, i, o)
    ensures !Paid(states[n], o) && !ChargePosted(states[n], o)
  {
    ForfeitedButPaidIff(states, n, o);
    PaidIffPosted(states, n, o);
  }
}
