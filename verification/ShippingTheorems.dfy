/** Who paid for shipping, and who loses the item all the same (packages/backend/src/
    fulfillment.ts, orders.ts). The charge, the move of the items and the start of the
    seller's clock are three writes; a discard or the forfeit timer may claim in between. */
module ShippingTheorems {
  import opened Schema
  import opened Books
  import opened Escrow
  import opened EscrowTheorems

  // ---------------------------------------------------------------------------
  // Paid, and not on the clock yet
  // ---------------------------------------------------------------------------

  predicate Covers(s: State, sh: nat, o: nat) {
    sh < |s.shipments| && o in s.shipments[sh].items
  }

  predicate PaidBy(s: State, sh: nat, o: nat) {
    Covers(s, sh, o) && s.shipments[sh].stage != Unpaid
  }

  /** The shipping of the order has been settled. */
  ghost predicate Paid(s: State, o: nat) {
    exists sh: nat :: PaidBy(s, sh, o)
  }

  predicate InGapBy(s: State, sh: nat, o: nat) {
    Covers(s, sh, o) && (s.shipments[sh].stage == Charged || s.shipments[sh].stage == ItemsIn)
  }

  /** A shipment of the order has been charged, and its call has not started the clock - it
      is still under way, or has crashed. */
  ghost predicate InGap(s: State, o: nat) {
    exists sh: nat :: InGapBy(s, sh, o)
  }

  // ---------------------------------------------------------------------------
  // Invariants of every run
  // ---------------------------------------------------------------------------

  predicate ItemsOk(s: State, sh: nat, o: nat) {
    Covers(s, sh, o) ==> o < |s.orders| && s.orders[o].status != OrderPending
  }

  /** Once a shipment's clock step has run, its locked orders have a deadline. */
  predicate ClockedOk(s: State, sh: nat, o: nat) {
    Covers(s, sh, o) && s.shipments[sh].stage == Clocked && o < |s.orders| && s.orders[o].status == OrderLocked ==>
      s.orders[o].noShipDeadline.Some?
  }

  ghost predicate RunningOk(s: State, o: nat) {
    o < |s.orders| && s.orders[o].noShipDeadline.Some? ==> Paid(s, o)
  }

  predicate FreshOk(s: State, o: nat) {
    o < |s.orders| && s.orders[o].status == OrderPending ==> s.orders[o].item == NoItem
  }

  ghost predicate RefundedOk(s: State, o: nat) {
    o in s.autoRefunded ==> Paid(s, o)
  }

  predicate SetUpOk(s: State, c: nat) {
    c in s.calls ==>
      && s.calls[c].order < |s.orders|
      && (SettingUp(s.calls[c]) <==> s.orders[s.calls[c].order].status == OrderPending)
  }

  /** A shipment that costs something is charged exactly if its key stands in the books. */
  predicate KeyOk(s: State, sh: nat) {
    KeyPosted(s.entries, ShippingKey(sh)) <==> sh < |s.shipments| && s.shipments[sh].stage != Unpaid && s.shipments[sh].fee > 0
  }

  ghost predicate RowsInv(s: State) {
    && (forall sh: nat, o: nat :: ItemsOk(s, sh, o))
    && (forall sh: nat, o: nat :: ClockedOk(s, sh, o))
    && (forall o: nat :: RunningOk(s, o))
    && (forall o: nat :: FreshOk(s, o))
    && (forall o: nat :: RefundedOk(s, o))
  }

  ghost predicate ShippingInv(s: State) {
    && RowsInv(s)
    && (forall c: nat :: SetUpOk(s, c))
    && (forall c: nat, d: nat :: NoRivals(s, c, d))
    && (forall sh: nat :: KeyOk(s, sh))
  }

  // ---------------------------------------------------------------------------
  // Shipments only go forward
  // ---------------------------------------------------------------------------

  ghost predicate Forward(s: State, s': State) {
    && |s.shipments| <= |s'.shipments|
    && forall sh | 0 <= sh < |s.shipments| ::
         && s'.shipments[sh].items == s.shipments[sh].items && s'.shipments[sh].fee == s.shipments[sh].fee
         && (s.shipments[sh].stage != Unpaid ==> s'.shipments[sh].stage != Unpaid)
  }

  lemma ForwardAfterShipping(s: State, step: Step, s': State)
    requires Ships(s, step, s')
    ensures Forward(s, s')
  {
  }

  lemma SameShipmentsAfterInstant(s: State, step: Step, s': State)
    requires Instantly(s, step, s')
    ensures s'.shipments == s.shipments
  {
  }

  lemma SameShipmentsAfterDecision(s: State, step: Step, s': State)
    requires Decides(s, step, s')
    ensures s'.shipments == s.shipments
  {
  }

  lemma SameShipmentsAfterCall(s: State, step: Step, s': State)
    requires Follows(s, step, s')
    ensures s'.shipments == s.shipments
  {
  }

  lemma SameShipments(s: State, step: Step, s': State)
    requires Next(s, step, s') && !OfShipment(step)
    ensures s'.shipments == s.shipments
  {
    if Instant(step) {
      SameShipmentsAfterInstant(s, step, s');
    } else if Decision(step) {
      SameShipmentsAfterDecision(s, step, s');
    } else {
      SameShipmentsAfterCall(s, step, s');
    }
  }

  lemma ShipmentsGoForward(s: State, step: Step, s': State)
    requires Next(s, step, s')
    ensures Forward(s, s')
  {
    if OfShipment(step) {
      ForwardAfterShipping(s, step, s');
    } else {
      SameShipments(s, step, s');
    }
  }

  lemma PaidStays(s: State, s': State, o: nat)
    requires Forward(s, s') && Paid(s, o)
    ensures Paid(s', o)
  {
    var sh: nat :| PaidBy(s, sh, o);
    assert PaidBy(s', sh, o);
  }

  // ---------------------------------------------------------------------------
  // Rows
  // ---------------------------------------------------------------------------

  /** What a step may do to one order, as far as shipping is concerned. */
  ghost predicate RowStep(was: Order, row: Order) {
    && (row.status == OrderPending ==> was.status == OrderPending && row.item == was.item)
    && (row.status == OrderLocked ==> was.status == OrderLocked || was.status == OrderPending)
    && (was.status == OrderLocked && was.noShipDeadline.Some? ==> row.noShipDeadline == was.noShipDeadline)
    && (was.status != OrderPending && was.noShipDeadline.Some? ==> row.noShipDeadline == was.noShipDeadline)
  }

  lemma RowAfterInstant(s: State, step: Step, s': State, o: nat)
    requires Instantly(s, step, s') && o < |s.orders| <= |s'.orders|
    ensures RowStep(s.orders[o], s'.orders[o]) && s'.orders[o].noShipDeadline == s.orders[o].noShipDeadline
  {
  }

  lemma RowAfterShipping(s: State, step: Step, s': State, o: nat)
    requires Ships(s, step, s') && o < |s.orders| <= |s'.orders|
    requires forall sh: nat :: ItemsOk(s, sh, o)
    ensures RowStep(s.orders[o], s'.orders[o])
    ensures s'.orders[o].noShipDeadline != s.orders[o].noShipDeadline ==> step.StartClock? && Covers(s, step.shipment, o)
  {
    if step.MoveItems? || step.StartClock? {
      assert ItemsOk(s, step.shipment, o);
    }
  }

  lemma RowAfterDecision(s: State, step: Step, s': State, o: nat)
    requires Decides(s, step, s') && o < |s.orders| <= |s'.orders|
    ensures RowStep(s.orders[o], s'.orders[o]) && s'.orders[o].noShipDeadline == s.orders[o].noShipDeadline
  {
  }

  lemma RowAfterCall(s: State, step: Step, s': State, o: nat)
    requires Follows(s, step, s') && o < |s.orders| <= |s'.orders| && SetUpOk(s, step.call) && FreshOk(s, o)
    requires step.WriteTransition? ==> s.calls[step.call].to in {OrderShipped, OrderWindow}
    ensures RowStep(s.orders[o], s'.orders[o])
    ensures s'.orders[o].noShipDeadline.Some? ==> s'.orders[o].noShipDeadline == s.orders[o].noShipDeadline
  {
  }

  lemma RowMoves(s: State, step: Step, s': State, o: nat)
    requires Next(s, step, s') && o < |s.orders| <= |s'.orders|
    requires (forall sh: nat :: ItemsOk(s, sh, o)) && FreshOk(s, o)
    requires Caller(step).Some? ==> SetUpOk(s, Caller(step).value)
    requires step.WriteTransition? ==> s.calls[step.call].to in {OrderShipped, OrderWindow}
    ensures RowStep(s.orders[o], s'.orders[o])
    ensures s'.orders[o].noShipDeadline.Some? && s.orders[o].noShipDeadline == None ==> step.StartClock? && Covers(s, step.shipment, o)
  {
    if Instant(step) {
      RowAfterInstant(s, step, s', o);
    } else if OfShipment(step) {
      RowAfterShipping(s, step, s', o);
    } else if Decision(step) {
      RowAfterDecision(s, step, s', o);
    } else {
      RowAfterCall(s, step, s', o);
    }
  }

  lemma NewRowAfterInstant(s: State, step: Step, s': State, o: nat)
    requires Instantly(s, step, s') && |s.orders| <= o < |s'.orders|
    ensures FreshRow(s'.orders[o])
  {
  }

  lemma NewRowAfterDecision(s: State, step: Step, s': State, o: nat)
    requires Decides(s, step, s') && |s.orders| <= o < |s'.orders|
    ensures FreshRow(s'.orders[o])
  {
  }

  lemma RowCountAfterCall(s: State, step: Step, s': State)
    requires Follows(s, step, s')
    ensures |s'.orders| == |s.orders|
  {
  }

  lemma RowCountAfterShipping(s: State, step: Step, s': State)
    requires Ships(s, step, s')
    ensures |s'.orders| == |s.orders|
  {
  }

  /** Rows that were not there before. */
  lemma NewRow(s: State, step: Step, s': State, o: nat)
    requires Next(s, step, s') && |s.orders| <= o < |s'.orders|
    ensures FreshRow(s'.orders[o])
  {
    if Instant(step) {
      NewRowAfterInstant(s, step, s', o);
    } else if OfShipment(step) {
      RowCountAfterShipping(s, step, s');
    } else if Decision(step) {
      NewRowAfterDecision(s, step, s', o);
    } else {
      RowCountAfterCall(s, step, s');
    }
  }

  // ---------------------------------------------------------------------------
  // Calls
  // ---------------------------------------------------------------------------

  lemma OwnSetUpAfterDecision(s: State, step: Step, s': State)
    requires Decides(s, step, s') && forall o: nat :: FreshOk(s, o)
    ensures SetUpOk(s', Caller(step).value)
  {
    if step.BeginDiscard? || step.FindAbandoned? {
      assert FreshOk(s, step.order);
    }
  }

  lemma OwnSetUpAfterCall(s: State, step: Step, s': State)
    requires Follows(s, step, s') && SetUpOk(s, step.call)
    requires step.WriteTransition? ==> s.calls[step.call].to in {OrderShipped, OrderWindow}
    ensures SetUpOk(s', step.call)
  {
  }

  /** An order under set-up stays pending as long as its own call does nothing. */
  lemma PendingStays(s: State, step: Step, s': State, d: nat)
    requires Next(s, step, s') && Caller(step) != Some(d) && d in s.calls && SetUpOk(s, d) && SettingUp(s.calls[d])
    requires !s.orders[s.calls[d].order].direct && |s.orders| <= |s'.orders|
    requires Caller(step).Some? ==> SetUpOk(s, Caller(step).value) && NoRivals(s, Caller(step).value, d)
    requires forall sh: nat :: ItemsOk(s, sh, s.calls[d].order)
    ensures s'.orders[s.calls[d].order].status == OrderPending
  {
    if Instant(step) {
      PendingAfterInstant(s, step, s', s.calls[d].order);
    } else if OfShipment(step) {
      PendingAfterShipping(s, step, s', s.calls[d].order);
    } else if Decision(step) {
      PendingAfterDecision(s, step, s', s.calls[d].order);
    } else {
      PendingAfterCall(s, step, s', d);
    }
  }

  lemma PendingAfterInstant(s: State, step: Step, s': State, o: nat)
    requires Instantly(s, step, s') && o < |s.orders| <= |s'.orders| && !s.orders[o].direct
             && s.orders[o].status == OrderPending
    ensures s'.orders[o].status == OrderPending
  {
  }

  lemma PendingAfterShipping(s: State, step: Step, s': State, o: nat)
    requires Ships(s, step, s') && o < |s.orders| <= |s'.orders| && s.orders[o].status == OrderPending
    ensures s'.orders[o].status == OrderPending
  {
  }

  lemma PendingAfterDecision(s: State, step: Step, s': State, o: nat)
    requires Decides(s, step, s') && o < |s.orders| <= |s'.orders| && s.orders[o].status == OrderPending
    ensures s'.orders[o].status == OrderPending
  {
  }

  lemma PendingAfterCall(s: State, step: Step, s': State, d: nat)
    requires Follows(s, step, s') && step.call != d && d in s.calls && SetUpOk(s, d) && SettingUp(s.calls[d])
             && |s.orders| <= |s'.orders|
    requires SetUpOk(s, step.call) && NoRivals(s, step.call, d)
    ensures s'.orders[s.calls[d].order].status == OrderPending
  {
  }

  lemma SetUpStaysOk(s: State, step: Step, s': State, c: nat)
    requires Next(s, step, s') && SetUpOk(s, c) && RowsInv(s)
    requires c in s.calls && SettingUp(s.calls[c]) ==> !s.orders[s.calls[c].order].direct
    requires Caller(step).Some? ==> SetUpOk(s, Caller(step).value) && NoRivals(s, Caller(step).value, c)
    requires step.WriteTransition? ==> s.calls[step.call].to in {OrderShipped, OrderWindow}
    ensures SetUpOk(s', c)
  {
    if Caller(step) == Some(c) {
      if Decision(step) {
        OwnSetUpAfterDecision(s, step, s');
      } else {
        OwnSetUpAfterCall(s, step, s');
      }
    } else {
      OtherCalls(s, step, s', c);
      RowsStay(s, step, s');
      if c in s.calls {
        RowMoves(s, step, s', s.calls[c].order);
        if SettingUp(s.calls[c]) {
          PendingStays(s, step, s', c);
        }
      }
    }
  }

  // ---------------------------------------------------------------------------
  // Each invariant, each step
  // ---------------------------------------------------------------------------

  lemma ItemsStayOk(s: State, step: Step, s': State, sh: nat, o: nat)
    requires Next(s, step, s') && RowsInv(s) && |s.orders| <= |s'.orders| && Forward(s, s')
    requires o < |s.orders| ==> RowStep(s.orders[o], s'.orders[o])
    ensures ItemsOk(s', sh, o)
  {
    assert ItemsOk(s, sh, o) && FreshOk(s, o);
    if Covers(s', sh, o) && !Covers(s, sh, o) {
      NewShipment(s, step, s', sh);
    }
  }

  lemma NewShipment(s: State, step: Step, s': State, sh: nat)
    requires Next(s, step, s') && |s.shipments| <= sh < |s'.shipments|
    ensures s'.shipments[sh].stage == Unpaid && s'.orders == s.orders
    ensures forall o | o in s'.shipments[sh].items :: o < |s.orders| && s.orders[o].item == ReadyToShip
  {
    if OfShipment(step) {
      BegunShipment(s, step, s', sh);
    } else {
      SameShipments(s, step, s');
    }
  }

  lemma BegunShipment(s: State, step: Step, s': State, sh: nat)
    requires Ships(s, step, s') && |s.shipments| <= sh < |s'.shipments|
    ensures s'.shipments[sh].stage == Unpaid && s'.orders == s.orders
    ensures forall o | o in s'.shipments[sh].items :: o < |s.orders| && s.orders[o].item == ReadyToShip
  {
  }

  lemma ClockedStaysOk(s: State, step: Step, s': State, sh: nat, o: nat)
    requires Next(s, step, s') && RowsInv(s) && |s.orders| <= |s'.orders| && Forward(s, s')
    requires o < |s.orders| ==> RowStep(s.orders[o], s'.orders[o])
    ensures ClockedOk(s', sh, o)
  {
    assert ItemsOk(s, sh, o) && ClockedOk(s, sh, o);
    if Covers(s', sh, o) && !Covers(s, sh, o) {
      NewShipment(s, step, s', sh);
    } else if Covers(s, sh, o) && s'.shipments[sh].stage == Clocked && s.shipments[sh].stage != Clocked {
      ClockStarts(s, step, s', sh, o);
    }
  }

  lemma ClockStarts(s: State, step: Step, s': State, sh: nat, o: nat)
    requires Next(s, step, s') && Covers(s, sh, o) && sh < |s'.shipments| && o < |s.orders|
    requires s'.shipments[sh].stage == Clocked && s.shipments[sh].stage != Clocked
    ensures step.StartClock? && |s'.orders| == |s.orders|
            && (s'.orders[o].status == OrderLocked ==> s'.orders[o].noShipDeadline.Some?)
  {
    if OfShipment(step) {
      OwnClockStarts(s, step, s', sh, o);
    } else {
      SameShipments(s, step, s');
    }
  }

  lemma OwnClockStarts(s: State, step: Step, s': State, sh: nat, o: nat)
    requires Ships(s, step, s') && Covers(s, sh, o) && sh < |s'.shipments| && o < |s.orders|
    requires s'.shipments[sh].stage == Clocked && s.shipments[sh].stage != Clocked
    ensures step.StartClock? && |s'.orders| == |s.orders|
            && (s'.orders[o].status == OrderLocked ==> s'.orders[o].noShipDeadline.Some?)
  {
  }

  lemma RunningStaysOk(s: State, step: Step, s': State, o: nat)
    requires Next(s, step, s') && RowsInv(s) && |s.orders| <= |s'.orders| && Forward(s, s')
    requires o < |s.orders| && s'.orders[o].noShipDeadline.Some? && s.orders[o].noShipDeadline == None ==>
               step.StartClock? && Covers(s, step.shipment, o)
    ensures RunningOk(s', o)
  {
    assert RunningOk(s, o);
    if o < |s.orders| && s.orders[o].noShipDeadline.Some? {
      PaidStays(s, s', o);
    } else if o < |s.orders| && s'.orders[o].noShipDeadline.Some? {
      assert PaidBy(s', step.shipment, o);
    } else if |s.orders| <= o < |s'.orders| {
      NewRow(s, step, s', o);
    }
  }

  lemma FreshStaysOk(s: State, step: Step, s': State, o: nat)
    requires Next(s, step, s') && FreshOk(s, o) && |s.orders| <= |s'.orders|
    requires o < |s.orders| ==> RowStep(s.orders[o], s'.orders[o])
    ensures FreshOk(s', o)
  {
    if |s.orders| <= o < |s'.orders| {
      NewRow(s, step, s', o);
    }
  }

  lemma RefundedStaysOk(s: State, step: Step, s': State, o: nat)
    requires Next(s, step, s') && RowsInv(s) && Forward(s, s')
    ensures RefundedOk(s', o)
  {
    assert RefundedOk(s, o) && RunningOk(s, o);
    if o in s.autoRefunded {
      PaidStays(s, s', o);
    } else if o in s'.autoRefunded {
      NewlyRefunded(s, step, s', o);
      PaidStays(s, s', o);
    }
  }

  lemma NewlyRefunded(s: State, step: Step, s': State, o: nat)
    requires Next(s, step, s') && o in s'.autoRefunded && o !in s.autoRefunded
    ensures o < |s.orders| && s.orders[o].noShipDeadline.Some?
  {
  }

  lemma StepKeepsRows(s: State, step: Step, s': State)
    requires RowsInv(s) && Next(s, step, s')
    requires Caller(step).Some? ==> SetUpOk(s, Caller(step).value)
    requires step.WriteTransition? ==> s.calls[step.call].to in {OrderShipped, OrderWindow}
    ensures RowsInv(s')
  {
    RowsStay(s, step, s');
    ShipmentsGoForward(s, step, s');
    forall o: nat | o < |s.orders| { RowMoves(s, step, s', o); }
    forall sh: nat, o: nat { ItemsStayOk(s, step, s', sh, o); }
    forall sh: nat, o: nat { ClockedStaysOk(s, step, s', sh, o); }
    forall o: nat { RunningStaysOk(s, step, s', o); }
    forall o: nat { FreshStaysOk(s, step, s', o); }
    forall o: nat { RefundedStaysOk(s, step, s', o); }
  }

  // ---------------------------------------------------------------------------
  // Keys
  // ---------------------------------------------------------------------------

  /** Rows without a shipping key leave the shipping keys as they are. */
  lemma NoShippingKey(entries: seq<Entry>, legs: seq<Entry>, k: Key)
    requires k.ShippingKey? && forall i | 0 <= i < |legs| :: legs[i].key != Some(k)
    ensures KeyPosted(entries + legs, k) <==> KeyPosted(entries, k)
  {
    var after := entries + legs;
    if KeyPosted(entries, k) {
      var i :| 0 <= i < |entries| && entries[i].key == Some(k);
      assert after[i].key == Some(k);
    }
    if KeyPosted(after, k) {
      var i :| 0 <= i < |after| && after[i].key == Some(k);
      assert i < |entries| && entries[i].key == Some(k);
    }
  }

  lemma MoveHasNoShippingKey(s: State, o: nat, move: Move, k: Key)
    requires o < |s.orders| && s.orders[o].amount > 0 && k.ShippingKey?
    ensures KeyPosted(Moved(s, o, move).entries, k) <==> KeyPosted(s.entries, k)
  {
    if !SettlePosted(s, o) {
      var legs := MoveLegs(o, s.orders[o], move);
      var i := MoveLegsShape(o, s.orders[o], move);
      NoShippingKey(s.entries, legs, k);
    }
  }

  lemma ChargePostsKey(s: State, sh: nat, s': State, k: nat)
    requires Ships(s, ChargeShipping(sh), s') && KeyOk(s, sh) && KeyOk(s, k)
    ensures KeyOk(s', k)
  {
    var x := s.shipments[sh];
    if x.fee > 0 {
      AppendPosts(s.entries, ShippingLegs(sh, x.buyer, x.fee), 0, ShippingKey(sh));
    }
  }

  lemma OtherKeepsShippingKey(s: State, legs: seq<Entry>, s': State, k: nat)
    requires Instantly(s, Other(legs), s') && KeyOk(s, k)
    ensures KeyOk(s', k)
  {
    NoShippingKey(s.entries, legs, ShippingKey(k));
  }

  lemma LockKeepsShippingKey(s: State, c: nat, s': State, k: nat)
    requires Follows(s, PostLock(c), s') && KeyOk(s, k)
    ensures KeyOk(s', k)
  {
    var o := s.calls[c].order;
    NoShippingKey(s.entries, EscrowLockLegs(o, s.orders[o].buyer, s.orders[o].amount), ShippingKey(k));
  }

  lemma MoneyKeepsShippingKey(s: State, c: nat, s': State, k: nat)
    requires OrdersSafe(s) && CallsSafe(s) && Next(s, MoveMoney(c), s') && KeyOk(s, k)
    ensures KeyOk(s', k)
  {
    MoveMoneyEffect(s, c, s');
    var o := s.calls[c].order;
    assert OrderSafe(s.orders[o], LockPosted(s, o));
    MoveHasNoShippingKey(s, o, MoveOf(s.calls[c]), ShippingKey(k));
  }

  lemma ShippingKeepsKey(s: State, step: Step, s': State, k: nat)
    requires Ships(s, step, s') && !step.ChargeShipping? && KeyOk(s, k)
    ensures KeyOk(s', k)
  {
  }

  lemma QuietKeepsKey(s: State, step: Step, s': State, k: nat)
    requires Next(s, step, s') && !TouchesBooks(step) && KeyOk(s, k)
    ensures KeyOk(s', k)
  {
    if OfShipment(step) {
      ShippingKeepsKey(s, step, s', k);
    } else {
      RowStepShape(s, step, s');
      SameShipments(s, step, s');
    }
  }

  lemma KeyStaysOk(s: State, step: Step, s': State, k: nat)
    requires OrdersSafe(s) && CallsSafe(s) && Next(s, step, s') && KeyOk(s, k)
    requires step.ChargeShipping? ==> KeyOk(s, step.shipment)
    ensures KeyOk(s', k)
  {
    if step.ChargeShipping? {
      ChargePostsKey(s, step.shipment, s', k);
    } else if step.Other? {
      OtherKeepsShippingKey(s, step.legs, s', k);
    } else if step.PostLock? {
      LockKeepsShippingKey(s, step.call, s', k);
    } else if step.MoveMoney? {
      MoneyKeepsShippingKey(s, step.call, s', k);
    } else {
      QuietKeepsKey(s, step, s', k);
    }
  }

  // ---------------------------------------------------------------------------
  // Every run
  // ---------------------------------------------------------------------------

  lemma StepKeepsShipping(s: State, step: Step, s': State)
    requires MoneyInv(s) && ShippingInv(s) && Next(s, step, s')
    ensures ShippingInv(s')
  {
    WriteTarget(s, step, s');
    StepKeepsRows(s, step, s');
    forall c: nat
      ensures SetUpOk(s', c)
    {
      assert c in s.calls ==> CallOn(s, c);
      SetUpStaysOk(s, step, s', c);
    }
    forall c: nat, d: nat
      ensures NoRivals(s', c, d)
    {
      assert SetUpOk(s, c) && SetUpOk(s, d);
      RivalsStayAway(s, step, s', c, d);
    }
    forall k: nat { KeyStaysOk(s, step, s', k); }
  }

  lemma WriteTarget(s: State, step: Step, s': State)
    requires CallsSafe(s) && Next(s, step, s')
    ensures step.WriteTransition? ==> s.calls[step.call].to in {OrderShipped, OrderWindow}
  {
    if step.WriteTransition? {
      assert CallOn(s, step.call);
    }
  }

  lemma EmptyShips()
    ensures ShippingInv(Empty)
  {
  }

  lemma {:induction false} RunKeepsShipping(states: seq<State>, i: nat)
    requires IsRun(states) && i < |states|
    ensures MoneyInv(states[i]) && ShippingInv(states[i])
  {
    RunKeepsMoney(states, i);
    if i == 0 {
      EmptyShips();
    } else {
      RunKeepsShipping(states, i - 1);
      assert CanStep(states[i - 1], states[i - 1 + 1]);
      var step :| Next(states[i - 1], step, states[i]);
      StepKeepsShipping(states[i - 1], step, states[i]);
    }
  }

  /** An order under set-up has no clock. */
  lemma PendingHasNoClock(s: State, c: nat)
    requires ShippingInv(s) && c in s.calls && SettingUp(s.calls[c])
    ensures var o := s.calls[c].order; o < |s.orders| && s.orders[o].status == OrderPending && s.orders[o].noShipDeadline == None
  {
    assert SetUpOk(s, c);
    var o := s.calls[c].order;
    assert RunningOk(s, o);
    forall sh: nat
      ensures !PaidBy(s, sh, o)
    {
      assert ItemsOk(s, sh, o);
    }
  }
}
