/** Exactly when an item is discarded although its buyer paid for shipping (packages/backend/
    src/orders.ts, fulfillment.ts). An item is retired by writes of their own, which need not
    follow a won claim: a direct order has no price to claim, and the timer does not look at
    the outcome of its claim. */
module DiscardTheorems {
  import opened Schema
  import opened Escrow
  import opened EscrowTheorems
  import opened ShippingTheorems
  import opened ForfeitTheorems

  // ---------------------------------------------------------------------------
  // Items in paid shipments
  // ---------------------------------------------------------------------------

  predicate TakenStage(stage: Stage) {
    stage == ItemsIn || stage == Clocked
  }

  predicate TakenItem(row: Order) {
    row.item == InShipment || row.item == Discarded
  }

  /** Once a shipment has taken its items, they do not wait any more. */
  predicate TakenOk(s: State, sh: nat, o: nat) {
    Covers(s, sh, o) && TakenStage(s.shipments[sh].stage) && o < |s.orders| ==> TakenItem(s.orders[o])
  }

  ghost predicate TakenInv(s: State) {
    forall sh: nat, o: nat :: TakenOk(s, sh, o)
  }

  lemma TakenAfterInstant(s: State, step: Step, s': State, o: nat)
    requires Instantly(s, step, s') && o < |s.orders| <= |s'.orders| && TakenItem(s.orders[o])
    ensures TakenItem(s'.orders[o])
  {
  }

  lemma TakenAfterShipping(s: State, step: Step, s': State, o: nat)
    requires Ships(s, step, s') && o < |s.orders| <= |s'.orders| && TakenItem(s.orders[o])
    ensures TakenItem(s'.orders[o])
  {
  }

  lemma TakenAfterDecision(s: State, step: Step, s': State, o: nat)
    requires Decides(s, step, s') && o < |s.orders| <= |s'.orders| && TakenItem(s.orders[o])
    ensures TakenItem(s'.orders[o])
  {
  }

  lemma TakenAfterCall(s: State, step: Step, s': State, o: nat)
    requires Follows(s, step, s') && o < |s.orders| <= |s'.orders| && TakenItem(s.orders[o])
    ensures TakenItem(s'.orders[o])
  {
  }

  lemma TakenItemStays(s: State, step: Step, s': State, o: nat)
    requires Next(s, step, s') && o < |s.orders| <= |s'.orders| && TakenItem(s.orders[o])
    ensures TakenItem(s'.orders[o])
  {
    if Instant(step) {
      TakenAfterInstant(s, step, s', o);
    } else if OfShipment(step) {
      TakenAfterShipping(s, step, s', o);
    } else if Decision(step) {
      TakenAfterDecision(s, step, s', o);
    } else {
      TakenAfterCall(s, step, s', o);
    }
  }

  lemma NewlyTaken(s: State, step: Step, s': State, sh: nat, o: nat)
    requires Ships(s, step, s') && Covers(s', sh, o) && o < |s.orders| && TakenOk(s, sh, o)
    requires TakenStage(s'.shipments[sh].stage)
    requires !TakenItem(s.orders[o])
    ensures |s'.orders| == |s.orders| && TakenItem(s'.orders[o])
  {
  }

  lemma TakenStaysOk(s: State, step: Step, s': State, sh: nat, o: nat)
    requires RowsInv(s) && TakenOk(s, sh, o) && Next(s, step, s')
    ensures TakenOk(s', sh, o)
  {
    RowsStay(s, step, s');
    if o < |s.orders| && TakenItem(s.orders[o]) {
      TakenItemStays(s, step, s', o);
    } else if OfShipment(step) {
      RowCountAfterShipping(s, step, s');
      if Covers(s', sh, o) && o < |s.orders| && TakenStage(s'.shipments[sh].stage) {
        NewlyTaken(s, step, s', sh, o);
      }
    } else {
      SameShipments(s, step, s');
      assert ItemsOk(s, sh, o);
    }
  }

  lemma StepKeepsTaken(s: State, step: Step, s': State)
    requires RowsInv(s) && TakenInv(s) && Next(s, step, s')
    ensures TakenInv(s')
  {
    forall sh: nat, o: nat
      ensures TakenOk(s', sh, o)
    {
      assert TakenOk(s, sh, o);
      TakenStaysOk(s, step, s', sh, o);
    }
  }

  lemma RunStepKeepsTaken(states: seq<State>, i: nat)
    requires IsRun(states) && i + 1 < |states| && TakenInv(states[i])
    ensures TakenInv(states[i + 1])
  {
    RunKeepsShipping(states, i);
    assert CanStep(states[i], states[i + 1]);
    var step :| Next(states[i], step, states[i + 1]);
    StepKeepsTaken(states[i], step, states[i + 1]);
  }

  lemma {:induction false} RunKeepsTaken(states: seq<State>, i: nat)
    requires IsRun(states) && i < |states|
    ensures TakenInv(states[i])
  {
    if i > 0 {
      RunKeepsTaken(states, i - 1);
      RunStepKeepsTaken(states, i - 1);
    }
  }

  predicate InMoveGapBy(s: State, sh: nat, o: nat) {
    Covers(s, sh, o) && s.shipments[sh].stage == Charged
  }

  /** A shipment of the order has been charged, and its call has not moved the items in. */
  ghost predicate InMoveGap(s: State, o: nat) {
    exists sh: nat :: InMoveGapBy(s, sh, o)
  }

  /** An item that still waits is paid exactly if its payment is between the charge and the
      move. */
  lemma WaitingIsPaidIff(s: State, o: nat)
    requires TakenInv(s) && o < |s.orders| && s.orders[o].item == ReadyToShip
    ensures Paid(s, o) <==> InMoveGap(s, o)
  {
    if Paid(s, o) {
      var sh: nat :| PaidBy(s, sh, o);
      assert TakenOk(s, sh, o);
      assert InMoveGapBy(s, sh, o);
    }
    if InMoveGap(s, o) {
      var sh: nat :| InMoveGapBy(s, sh, o);
      assert PaidBy(s, sh, o);
    }
  }

  // ---------------------------------------------------------------------------
  // One step
  // ---------------------------------------------------------------------------

  predicate IsDiscarded(s: State, o: nat) {
    o < |s.orders| && s.orders[o].item == Discarded
  }

  /** The item is discarded, and its buyer paid to have it sent. */
  ghost predicate Wasted(s: State, o: nat) {
    IsDiscarded(s, o) && Paid(s, o)
  }

  /** The call is about to write the item of order `o` off. */
  predicate Retires(s: State, c: nat, o: nat) {
    CallOn(s, c) && s.calls[c].WillRetire? && s.calls[c].order == o
  }

  /** A retirement of a paid item: the timer's at any time, every other one's while the
      payment is between its charge and its move. */
  ghost predicate RetiresPaid(s: State, s': State, o: nat) {
    exists c: nat ::
      && Next(s, RetireItem(c), s') && Retires(s, c, o)
      && if s.calls[c].byTimer then Paid(s, o) else s.orders[o].item == ReadyToShip && InMoveGap(s, o)
  }

  /** A charge for a shipment of an item that is discarded by now. */
  ghost predicate ChargesRetired(s: State, s': State, o: nat) {
    IsDiscarded(s, o) && exists sh: nat :: Next(s, ChargeShipping(sh), s') && Covers(s, sh, o)
  }

  ghost predicate Wastes(s: State, s': State, o: nat) {
    RetiresPaid(s, s', o) || ChargesRetired(s, s', o)
  }

  /** A payment goes on after its charge and takes the item out of the discards again. */
  ghost predicate MovesIn(s: State, s': State, o: nat) {
    exists sh: nat :: Next(s, MoveItems(sh), s') && Covers(s, sh, o)
  }

  lemma ItemAfterInstant(s: State, step: Step, s': State, o: nat)
    requires Instantly(s, step, s') && o < |s.orders|
    ensures IsDiscarded(s', o) <==> IsDiscarded(s, o)
  {
  }

  lemma ItemAfterShipping(s: State, step: Step, s': State, o: nat)
    requires Ships(s, step, s') && o < |s.orders|
    ensures IsDiscarded(s', o) <==> IsDiscarded(s, o) && !(step.MoveItems? && Covers(s, step.shipment, o))
  {
  }

  lemma ItemAfterDecision(s: State, step: Step, s': State, o: nat)
    requires Decides(s, step, s') && o < |s.orders|
    ensures IsDiscarded(s', o) <==> IsDiscarded(s, o)
  {
  }

  /** The retirement of a call finds the item of order `o` fit to be written off. */
  predicate WritesOff(s: State, c: nat, o: nat) {
    Retires(s, c, o) && (s.calls[c].byTimer || s.orders[o].item == ReadyToShip)
  }

  lemma ItemAfterCall(s: State, step: Step, s': State, o: nat)
    requires Follows(s, step, s') && o < |s.orders|
    ensures IsDiscarded(s', o) <==> IsDiscarded(s, o) || (step.RetireItem? && WritesOff(s, step.call, o))
  {
  }

  /** Only a retirement discards an item, and only a move into a shipment takes it back. */
  lemma ItemMoves(s: State, step: Step, s': State, o: nat)
    requires Next(s, step, s') && o < |s.orders|
    ensures IsDiscarded(s', o) <==>
            || (IsDiscarded(s, o) && !(step.MoveItems? && Covers(s, step.shipment, o)))
            || (step.RetireItem? && WritesOff(s, step.call, o))
  {
    if Instant(step) {
      ItemAfterInstant(s, step, s', o);
    } else if OfShipment(step) {
      ItemAfterShipping(s, step, s', o);
    } else if Decision(step) {
      ItemAfterDecision(s, step, s', o);
    } else {
      ItemAfterCall(s, step, s', o);
    }
  }

  lemma RetiringWastes(s: State, s': State, o: nat)
    requires TakenInv(s) && RetiresPaid(s, s', o)
    ensures Wasted(s', o)
  {
    var c: nat :|
      && Next(s, RetireItem(c), s') && Retires(s, c, o)
      && if s.calls[c].byTimer then Paid(s, o) else s.orders[o].item == ReadyToShip && InMoveGap(s, o);
    ItemMoves(s, RetireItem(c), s', o);
    SameShipments(s, RetireItem(c), s');
    SamePaid(s, s', o);
    if !s.calls[c].byTimer {
      WaitingIsPaidIff(s, o);
    }
  }

  lemma ChargingWastes(s: State, s': State, o: nat)
    requires ChargesRetired(s, s', o)
    ensures Wasted(s', o)
  {
    var sh: nat :| Next(s, ChargeShipping(sh), s') && Covers(s, sh, o);
    ItemMoves(s, ChargeShipping(sh), s', o);
    ChargePays(s, sh, s', o);
  }

  lemma MovingSaves(s: State, s': State, o: nat)
    requires o < |s.orders| && MovesIn(s, s', o)
    ensures !IsDiscarded(s', o)
  {
    var sh: nat :| Next(s, MoveItems(sh), s') && Covers(s, sh, o);
    ItemMoves(s, MoveItems(sh), s', o);
  }

  lemma WastedStays(s: State, step: Step, s': State, o: nat)
    requires Next(s, step, s') && Wasted(s, o) && !MovesIn(s, s', o)
    ensures Wasted(s', o)
  {
    ItemMoves(s, step, s', o);
    ShipmentsGoForward(s, step, s');
    PaidStays(s, s', o);
  }

  lemma WasteIsHarm(s: State, step: Step, s': State, o: nat)
    requires TakenInv(s) && Next(s, step, s') && o < |s.orders| && Wasted(s', o) && !Wasted(s, o)
    ensures Wastes(s, s', o)
  {
    ItemMoves(s, step, s', o);
    if IsDiscarded(s, o) {
      NewlyPaid(s, step, s', o);
      assert ChargesRetired(s, s', o);
    } else {
      SameShipments(s, step, s');
      SamePaid(s, s', o);
      if !s.calls[step.call].byTimer {
        WaitingIsPaidIff(s, o);
      }
      assert RetiresPaid(s, s', o);
    }
  }

  /** Over one step: the item is wasted already and stays so, or this step wastes it. */
  lemma StepWastesIff(s: State, s': State, o: nat)
    requires TakenInv(s) && CanStep(s, s')
    ensures Wasted(s', o) <==> (Wasted(s, o) && !MovesIn(s, s', o)) || Wastes(s, s', o)
  {
    var step :| Next(s, step, s');
    if RetiresPaid(s, s', o) {
      RetiringWastes(s, s', o);
    } else if ChargesRetired(s, s', o) {
      ChargingWastes(s, s', o);
    } else if |s.orders| <= o {
      if o < |s'.orders| {
        NewRow(s, step, s', o);
      }
    } else if Wasted(s, o) {
      if MovesIn(s, s', o) {
        MovingSaves(s, s', o);
      } else {
        WastedStays(s, step, s', o);
      }
    } else if Wasted(s', o) {
      WasteIsHarm(s, step, s', o);
    }
  }

  // ---------------------------------------------------------------------------
  // Whole runs
  // ---------------------------------------------------------------------------

  ghost predicate WastesAt(states: seq<State>, i: nat, o: nat) {
    i + 1 < |states| && Wastes(states[i], states[i + 1], o)
  }

  ghost predicate MovesInAt(states: seq<State>, i: nat, o: nat) {
    i + 1 < |states| && MovesIn(states[i], states[i + 1], o)
  }

  /** No payment moves the item in after step `i` and up to state `n`. */
  ghost predicate LeftAlone(states: seq<State>, i: nat, n: nat, o: nat)
    decreases n
  {
    n <= i + 1 || (LeftAlone(states, i, n - 1, o) && !MovesInAt(states, n - 1, o))
  }

  /** Step `i` wastes the item, and it stays so up to state `n`. */
  ghost predicate WastedSince(states: seq<State>, i: nat, n: nat, o: nat) {
    WastesAt(states, i, o) && LeftAlone(states, i, n, o)
  }

  lemma RunStepWastesIff(states: seq<State>, i: nat, o: nat)
    requires IsRun(states) && i + 1 < |states|
    ensures Wasted(states[i + 1], o) <==> (Wasted(states[i], o) && !MovesInAt(states, i, o)) || WastesAt(states, i, o)
  {
    RunKeepsTaken(states, i);
    assert CanStep(states[i], states[i + 1]);
    StepWastesIff(states[i], states[i + 1], o);
  }

  ghost predicate WastedBefore(states: seq<State>, n: nat, o: nat) {
    exists i: nat :: i < n && WastedSince(states, i, n, o)
  }

  lemma EarlierWasteStays(states: seq<State>, i: nat, n: nat, o: nat)
    requires i < n && WastedSince(states, i, n, o) && !MovesInAt(states, n, o)
    ensures WastedSince(states, i, n + 1, o)
  {
  }

  lemma EarlierWaste(states: seq<State>, i: nat, n: nat, o: nat)
    requires i < n && WastedSince(states, i, n + 1, o)
    ensures WastedSince(states, i, n, o) && !MovesInAt(states, n, o)
  {
  }

  lemma LatestWaste(states: seq<State>, n: nat, o: nat)
    ensures WastedSince(states, n, n + 1, o) <==> WastesAt(states, n, o)
  {
  }

  /** One more step: either it wastes the item itself, or it leaves an earlier waste alone. */
  lemma WastedBeforeNext(states: seq<State>, n: nat, o: nat)
    ensures WastedBefore(states, n + 1, o) <==>
            (WastedBefore(states, n, o) && !MovesInAt(states, n, o)) || WastesAt(states, n, o)
  {
    LatestWaste(states, n, o);
    if WastedBefore(states, n + 1, o) {
      var i: nat :| i < n + 1 && WastedSince(states, i, n + 1, o);
      if i < n {
        EarlierWaste(states, i, n, o);
      }
    }
    if WastedBefore(states, n, o) && !MovesInAt(states, n, o) {
      var i: nat :| i < n && WastedSince(states, i, n, o);
      EarlierWasteStays(states, i, n, o);
    }
  }

  /** Over every run, every interleaving and every crash: an item whose shipping was paid is
      discarded if and only if some step retired it between charge and move, or by the timer
      after a payment, or charged it after its retirement - and no payment has moved it into
      a shipment since. */
  lemma {:induction false} DiscardedButPaidIff(states: seq<State>, n: nat, o: nat)
    requires IsRun(states) && n < |states|
    ensures Wasted(states[n], o) <==> WastedBefore(states, n, o)
  {
    if n > 0 {
      DiscardedButPaidIff(states, n - 1, o);
      RunStepWastesIff(states, n - 1, o);
      WastedBeforeNext(states, n - 1, o);
    }
  }

  /** Where no step wastes an item, and none takes a paid one from its buyer, whatever is
      discarded or forfeited was never paid for. */
  lemma GivenUpWasNeverPaid(states: seq<State>, n: nat, o: nat)
    requires IsRun(states) && n < |states| && (o in states[n].forfeited || IsDiscarded(states[n], o))
    requires forall i | 0 <= i < n :: !HarmsAt(states, i, o) && !WastesAt(states, i, o)
    ensures !Paid(states[n], o) && !ChargePosted(states[n], o)
  {
    ForfeitedButPaidIff(states, n, o);
    DiscardedButPaidIff(states, n, o);
    PaidIffPosted(states, n, o);
  }
}
