/** Concrete runs of the escrow machine: one for each way a promise can fail. */
module EscrowRuns {
  import opened Schema
  import opened Books
  import opened BusinessDays
  import opened Escrow
  import opened ShippingTheorems
  import opened ForfeitTheorems
  import opened DiscardTheorems
  import opened ForgottenOrders
  import opened WindowTheorems

  lemma Extend(states: seq<State>, step: Step, s': State) returns (more: seq<State>)
    requires IsRun(states) && Next(states[|states| - 1], step, s')
    ensures IsRun(more) && more == states + [s']
  {
    more := states + [s'];
    forall i | 0 <= i < |more| - 1
      ensures CanStep(more[i], more[i + 1])
    {
      if i < |states| - 1 {
        assert CanStep(states[i], states[i + 1]);
      }
    }
  }

  const Row := Order(1, 2, 100, None, false, OrderPending, None, None, None, None, NoItem, None)

  const Waiting := Row.(status := OrderLocked, item := ReadyToShip, heldUntil := Some(SHIP_LATER_HOLD_MS))

  lemma NewWin() returns (states: seq<State>)
    ensures IsRun(states)
    ensures states[|states| - 1] == State(0, [], [Row], map[0 := WillLock(0)], map[], [], {}, {})
  {
    states := Extend([Empty], NewEscrowOrder(0, Row), State(0, [], [Row], map[0 := WillLock(0)], map[], [], {}, {}));
  }

  lemma PaidInto() returns (states: seq<State>)
    ensures IsRun(states)
    ensures states[|states| - 1] == State(0, EscrowLockLegs(0, 1, 100), [Row], map[0 := WillMarkLocked(0)], map[], [], {}, {})
  {
    states := NewWin();
    assert [] + EscrowLockLegs(0, 1, 100) == EscrowLockLegs(0, 1, 100);
    states := Extend(states, PostLock(0), State(0, EscrowLockLegs(0, 1, 100), [Row], map[0 := WillMarkLocked(0)], map[], [], {}, {}));
  }

  /** A buyer wins, the price is locked, and the item waits to be shipped. */
  lemma LockedOrder() returns (states: seq<State>)
    ensures IsRun(states)
    ensures states[|states| - 1] == State(0, EscrowLockLegs(0, 1, 100), [Waiting], map[], map[], [], {}, {})
  {
    states := PaidInto();
    var s3 := EndCall(SetRow(states[|states| - 1], 0, Row.(status := OrderLocked)), 0);
    states := Extend(states, MarkLocked(0), s3);
    var s4 := SetRow(s3, 0, s3.orders[0].(item := ReadyToShip, heldUntil := Some(SHIP_LATER_HOLD_MS)));
    states := Extend(states, AddItem(0), s4);
  }

  const Parcel := Shipment({0}, 1, 10, false, Unpaid, true)

  function ShippingPosted(): seq<Entry> {
    EscrowLockLegs(0, 1, 100) + ShippingLegs(0, 1, 10)
  }

  lemma PaymentCharged(states: seq<State>) returns (more: seq<State>)
    requires IsRun(states)
    requires var s := states[|states| - 1];
             |s.orders| == 1 && Shippable(s.orders[0], false) && s.shipments == []
               && !KeyPosted(s.entries, ShippingKey(0))
    ensures IsRun(more)
    ensures var s := states[|states| - 1];
            more[|more| - 1] == s.(entries := s.entries + ShippingLegs(0, 1, 10), shipments := [Parcel.(stage := Charged)])
  {
    var s := states[|states| - 1];
    var s1 := s.(shipments := [Parcel]);
    more := Extend(states, BeginShipment({0}, 1, 10, false), s1);
    var s2 := SetShipment(s1, 0, Parcel.(stage := Charged)).(entries := s.entries + ShippingLegs(0, 1, 10));
    more := Extend(more, ChargeShipping(0), s2);
  }

  /** Its buyer is charged for shipping; the payment is not over. */
  lemma ChargedOrder() returns (states: seq<State>)
    ensures IsRun(states)
    ensures states[|states| - 1] == State(0, ShippingPosted(), [Waiting], map[], map[], [Parcel.(stage := Charged)], {}, {})
  {
    states := LockedOrder();
    states := PaymentCharged(states);
  }

  /** The end of each run below: the price is the seller's, and the buyer has paid to have
      the item sent. */
  ghost predicate LostForGood(s: State) {
    && |s.orders| == 1 && s.orders[0].status == OrderReleased
    && Lost(s, 0) && KeyPosted(s.entries, ShippingKey(0)) && 0 in s.moves && s.moves[0] == PaidOut
  }

  /** A won claim of order 0, and the release it owes. */
  lemma ClaimAndRelease(states: seq<State>, c: nat) returns (more: seq<State>)
    requires IsRun(states)
    requires var s := states[|states| - 1];
             |s.orders| == 1 && ClaimWins(s, c, 0) && s.moves == map[] && !SettlePosted(s, 0)
    ensures IsRun(more)
    ensures var (s, t) := (states[|states| - 1], more[|more| - 1]);
            && t == Moved(s, 0, PaidOut).(orders := t.orders, calls := t.calls, forfeited := s.forfeited + {0})
            && |t.orders| == 1 && t.orders[0] == s.orders[0].(status := OrderReleased, releasedAt := Some(s.now))
  {
    var s := states[|states| - 1];
    var s1 := ClaimRelease(s, c, 0, Some(s.calls[c].byTimer)).(forfeited := s.forfeited + {0});
    more := Extend(states, ClaimForfeit(c), s1);
    var s2 := SetCall(Moved(s1, 0, PaidOut), c, WillRetire(0, s.calls[c].byTimer));
    assert !SettlePosted(s1, 0);
    more := Extend(more, MoveMoney(c), s2);
  }

  lemma MovedAndLost(s: State, was: State)
    requires |was.orders| == 1 && |s.orders| == 1 && s.orders[0].status == OrderReleased && !SettlePosted(was, 0)
    requires s == Moved(was, 0, PaidOut).(orders := s.orders, calls := s.calls, forfeited := {0})
    requires PaidBy(was, 0, 0) && KeyPosted(was.entries, ShippingKey(0))
    ensures LostForGood(s)
  {
    assert PaidBy(s, 0, 0);
    var i :| 0 <= i < |was.entries| && was.entries[i].key == Some(ShippingKey(0));
    assert s.entries[i].key == Some(ShippingKey(0));
  }

  lemma ShippingIsPosted()
    ensures KeyPosted(ShippingPosted(), ShippingKey(0)) && !KeyPosted(ShippingPosted(), EscrowSettleKey(0))
  {
    assert ShippingPosted()[2].key == Some(ShippingKey(0));
  }

  /** The manual discard takes a paid item: its claim, which tests the clock, comes after the
      charge and before the clock starts. */
  lemma DiscardInTheGap() returns (states: seq<State>)
    ensures IsRun(states) && LostForGood(states[|states| - 1])
  {
    states := ChargedOrder();
    var s := states[|states| - 1];
    var s1 := SetCall(s, 9, WillReadOrder(0, false));
    states := Extend(states, BeginDiscard(9, 0), s1);
    var s2 := SetCall(s1, 9, WillClaim(0, false));
    states := Extend(states, ReadOrder(9), s2);
    ShippingIsPosted();
    states := ClaimAndRelease(states, 9);
    MovedAndLost(states[|states| - 1], s2);
  }

  /** A payment that crashed after its charge never starts the clock: when the hold is over
      the timer forfeits the paid item, with no race at all. */
  lemma CrashedPaymentIsForfeited() returns (states: seq<State>)
    ensures IsRun(states) && LostForGood(states[|states| - 1])
  {
    states := ChargedOrder();
    var s := states[|states| - 1];
    var s1 := SetShipment(s, 0, s.shipments[0].(alive := false));
    states := Extend(states, CrashShipment(0), s1);
    var s2 := s1.(now := SHIP_LATER_HOLD_MS);
    states := Extend(states, Pass(SHIP_LATER_HOLD_MS), s2);
    var s3 := SetCall(s2, 9, WillReadOrder(0, true));
    states := Extend(states, FindAbandoned(9, 0), s3);
    var s4 := SetCall(s3, 9, WillClaim(0, true));
    states := Extend(states, ReadOrder(9), s4);
    ShippingIsPosted();
    states := ClaimAndRelease(states, 9);
    MovedAndLost(states[|states| - 1], s4);
  }

  /** The hold is over, and the timer has just seen that no clock runs. */
  lemma TimerLooked() returns (states: seq<State>)
    ensures IsRun(states)
    ensures states[|states| - 1] ==
            State(SHIP_LATER_HOLD_MS, EscrowLockLegs(0, 1, 100), [Waiting], map[9 := WillClaim(0, true)], map[], [], {}, {})
  {
    states := LockedOrder();
    var s1 := states[|states| - 1].(now := SHIP_LATER_HOLD_MS);
    states := Extend(states, Pass(SHIP_LATER_HOLD_MS), s1);
    var s2 := SetCall(s1, 9, WillReadOrder(0, true));
    states := Extend(states, FindAbandoned(9, 0), s2);
    var s3 := SetCall(s2, 9, WillClaim(0, true));
    states := Extend(states, ReadOrder(9), s3);
  }

  lemma PaymentClocked(states: seq<State>, due: int) returns (more: seq<State>)
    requires IsRun(states)
    requires var s := states[|states| - 1];
             s.orders == [Waiting] && s.shipments == [Parcel.(stage := Charged)] && ShipDeadline(s.now, due)
    ensures IsRun(more)
    ensures var s := states[|states| - 1];
            more[|more| - 1] == s.(shipments := [Parcel.(stage := Clocked, alive := false)],
                                   orders := [Waiting.(item := InShipment, noShipDeadline := Some(due))])
  {
    var s := states[|states| - 1];
    var s1 := SetShipment(s, 0, Parcel.(stage := ItemsIn)).(orders := ItemsShipped([Waiting], {0}));
    more := Extend(states, MoveItems(0), s1);
    var s2 := SetShipment(s1, 0, Parcel.(stage := Clocked, alive := false)).(orders := ClocksStarted(s1.orders, {0}, due));
    more := Extend(more, StartClock(0, due), s2);
    assert s2.orders == [Waiting.(item := InShipment, noShipDeadline := Some(due))];
  }

  /** A whole payment for shipment 0 of order 0. */
  lemma WholePayment(states: seq<State>, due: int) returns (more: seq<State>)
    requires IsRun(states)
    requires var s := states[|states| - 1];
             && s.orders == [Waiting] && s.shipments == [] && !KeyPosted(s.entries, ShippingKey(0))
                && ShipDeadline(s.now, due)
    ensures IsRun(more)
    ensures var s := states[|states| - 1];
            more[|more| - 1] ==
            s.(entries := s.entries + ShippingLegs(0, 1, 10), shipments := [Parcel.(stage := Clocked, alive := false)],
               orders := [Waiting.(item := InShipment, noShipDeadline := Some(due))])
  {
    more := PaymentCharged(states);
    more := PaymentClocked(more, due);
  }

  /** The buyer of a 14-day-old win pays for shipping just after the timer looked, and the
      order is released to the seller all the same. */
  lemma TimerForfeitsPaidOrder() returns (states: seq<State>)
    ensures IsRun(states) && LostForGood(states[|states| - 1])
  {
    states := TimerLooked();
    DeadlineFromThursday(SHIP_LATER_HOLD_MS);
    states := WholePayment(states, DaysAfter(SHIP_LATER_HOLD_MS, 11));
    var s := states[|states| - 1];
    ShippingIsPosted();
    states := ClaimAndRelease(states, 9);
    MovedAndLost(states[|states| - 1], s);
  }

  /** Between the claim of a discard and its last write the order is RELEASED and its item
      still waits: a payment passes every check and is charged. */
  lemma ChargedAfterForfeit() returns (states: seq<State>)
    ensures IsRun(states) && LostForGood(states[|states| - 1])
  {
    states := LockedOrder();
    var s := states[|states| - 1];
    var s1 := SetCall(s, 9, WillReadOrder(0, false));
    states := Extend(states, BeginDiscard(9, 0), s1);
    var s2 := SetCall(s1, 9, WillClaim(0, false));
    states := Extend(states, ReadOrder(9), s2);
    MoveHasNoShippingKey(s2, 0, PaidOut, ShippingKey(0));
    states := ClaimAndRelease(states, 9);
    states := PaymentCharged(states);
    var end := states[|states| - 1];
    assert PaidBy(end, 0, 0) && end.entries[|end.entries| - 2].key == Some(ShippingKey(0));
  }

  // ---------------------------------------------------------------------------
  // Discarded without a claim
  // ---------------------------------------------------------------------------

  /** The item is written off although its shipping stands charged; nobody claimed the
      order's price. */
  ghost predicate WrittenOff(s: State) {
    Wasted(s, 0) && KeyPosted(s.entries, ShippingKey(0)) && s.forfeited == {}
  }

  /** A purchase that paid its seller at once, charged for shipping; the payment is not over. */
  lemma DirectOrderCharged() returns (states: seq<State>)
    ensures IsRun(states)
    ensures states[|states| - 1] ==
            State(0, ShippingLegs(0, 1, 10), [Waiting.(direct := true, status := OrderReleased)], map[], map[],
                  [Parcel.(stage := Charged)], {}, {})
  {
    var row := Row.(direct := true, status := OrderReleased);
    var s1 := Empty.(orders := [row]);
    states := Extend([Empty], NewDirectOrder(row), s1);
    var s2 := s1.(orders := [Waiting.(direct := true, status := OrderReleased)]);
    states := Extend(states, AddItem(0), s2);
    assert [] + ShippingLegs(0, 1, 10) == ShippingLegs(0, 1, 10);
    states := PaymentCharged(states);
  }

  /** Its buyer discards the item: the claim is skipped, and the item is about to be retired. */
  lemma DirectItemAboutToRetire() returns (states: seq<State>)
    ensures IsRun(states)
    ensures states[|states| - 1] ==
            State(0, ShippingLegs(0, 1, 10), [Waiting.(direct := true, status := OrderReleased)],
                  map[9 := WillRetire(0, false)], map[], [Parcel.(stage := Charged)], {}, {})
  {
    states := DirectOrderCharged();
    var s := SetCall(states[|states| - 1], 9, WillReadOrder(0, false));
    states := Extend(states, BeginDiscard(9, 0), s);
    states := Extend(states, ReadOrder(9), SetCall(s, 9, WillRetire(0, false)));
  }

  /** It is retired before the payment moves it; then the payment crashes. */
  lemma DirectItemIsDiscardedInTheGap() returns (states: seq<State>)
    ensures IsRun(states) && WrittenOff(states[|states| - 1]) && !states[|states| - 1].shipments[0].alive
  {
    states := DirectItemAboutToRetire();
    var s := states[|states| - 1];
    s := EndCall(SetRow(s, 0, s.orders[0].(item := Discarded)), 9);
    states := Extend(states, RetireItem(9), s);
    s := SetShipment(s, 0, s.shipments[0].(alive := false));
    states := Extend(states, CrashShipment(0), s);
    assert PaidBy(s, 0, 0) && s.entries[0].key == Some(ShippingKey(0));
  }

  /** The timer has looked, the buyer pays, and the seller ships at once. */
  lemma ShippedMeanwhile() returns (states: seq<State>, due: int)
    ensures IsRun(states)
    ensures states[|states| - 1] ==
            State(SHIP_LATER_HOLD_MS, ShippingPosted(),
                  [Waiting.(item := InShipment, noShipDeadline := Some(due), status := OrderShipped)],
                  map[9 := WillClaim(0, true)], map[], [Parcel.(stage := Clocked, alive := false)], {}, {})
  {
    states := TimerLooked();
    DeadlineFromThursday(SHIP_LATER_HOLD_MS);
    due := DaysAfter(SHIP_LATER_HOLD_MS, 11);
    states := WholePayment(states, due);
    var s := states[|states| - 1];
    states := Extend(states, Transition(0, OrderShipped), SetRow(s, 0, s.orders[0].(status := OrderShipped)));
  }

  /** The timer's claim is lost, and it discards the item of the parcel all the same. */
  lemma TimerDiscardsShippedItem() returns (states: seq<State>)
    ensures IsRun(states) && WrittenOff(states[|states| - 1])
    ensures states[|states| - 1].orders[0].status == OrderShipped
  {
    var due;
    states, due := ShippedMeanwhile();
    var s := states[|states| - 1];
    var s1 := SetCall(s, 9, WillRetire(0, true));
    states := Extend(states, ClaimForfeit(9), s1);
    var s2 := EndCall(SetRow(s1, 0, s1.orders[0].(item := Discarded)), 9);
    states := Extend(states, RetireItem(9), s2);
    ShippingIsPosted();
    assert PaidBy(s2, 0, 0);
  }

  // ---------------------------------------------------------------------------
  // Stale transitions
  // ---------------------------------------------------------------------------

  /** The seller of a paid order lets the deadline pass. */
  lemma OverdueOrder() returns (states: seq<State>, due: int)
    ensures IsRun(states)
    ensures states[|states| - 1] ==
            State(due, ShippingPosted(), [Waiting.(item := InShipment, noShipDeadline := Some(due))],
                  map[], map[], [Parcel.(stage := Clocked, alive := false)], {}, {})
  {
    states := LockedOrder();
    due := DaysAfter(0, 11);
    DeadlineFromThursday(0);
    states := WholePayment(states, due);
    states := Extend(states, Pass(due), states[|states| - 1].(now := due));
  }

  /** Somebody has just read that it may be delivered. */
  lemma UnshippedOrder() returns (states: seq<State>, due: int)
    ensures IsRun(states)
    ensures states[|states| - 1] ==
            State(due, ShippingPosted(), [Waiting.(item := InShipment, noShipDeadline := Some(due))],
                  map[9 := WillWrite(0, OrderWindow)], map[], [Parcel.(stage := Clocked, alive := false)], {}, {})
  {
    states, due := OverdueOrder();
    states := Extend(states, ReadTransition(9, 0, OrderWindow), SetCall(states[|states| - 1], 9, WillWrite(0, OrderWindow)));
  }

  /** The delivery read before the refund of that order and written after it leaves the
      refunded order in its dispute window. */
  lemma StaleDeliveryUndoesARefund() returns (states: seq<State>)
    ensures IsRun(states)
    ensures var s := states[|states| - 1];
            |s.orders| == 1 && 0 in s.moves && s.moves[0] == PaidBack && s.orders[0].status == OrderWindow
  {
    var due;
    states, due := UnshippedOrder();
    var s := states[|states| - 1];
    var s1 := SetCall(SetRow(s, 0, s.orders[0].(status := OrderCanceled)), 5, WillRefund(0, true)).(autoRefunded := {0});
    states := Extend(states, RefundUnshipped(5, 0), s1);
    ShippingIsPosted();
    var s2 := SetCall(Moved(s1, 0, PaidBack), 5, WillMarkRefunded(0));
    states := Extend(states, MoveMoney(5), s2);
    var s3 := SetCall(SetRow(s2, 0, s2.orders[0].(status := OrderRefunded, refundedAt := Some(due))), 5, WillRetire(0, false));
    states := Extend(states, MarkRefunded(5), s3);
    var s4 := EndCall(SetRow(s3, 0, Advanced(s3.orders[0], OrderWindow, due)), 9);
    states := Extend(states, WriteTransition(9), s4);
  }

  const Windowed := Waiting.(status := OrderWindow, windowEndsAt := Some(2 * DAY_MS))

  /** An order is delivered by two calls; the second one has read the order and not written. */
  lemma DeliveredTwice() returns (states: seq<State>)
    ensures IsRun(states)
    ensures states[|states| - 1] ==
            State(2 * DAY_MS, EscrowLockLegs(0, 1, 100), [Windowed], map[9 := WillWrite(0, OrderWindow)], map[], [], {}, {})
  {
    states := LockedOrder();
    var s := SetCall(states[|states| - 1], 9, WillWrite(0, OrderWindow));
    states := Extend(states, ReadTransition(9, 0, OrderWindow), s);
    s := SetRow(s, 0, Windowed);
    states := Extend(states, Transition(0, OrderWindow), s);
    states := Extend(states, Pass(2 * DAY_MS), s.(now := 2 * DAY_MS));
  }

  /** The timer may read that the window is over; then the second delivery opens it again. */
  lemma Reopened() returns (states: seq<State>)
    ensures IsRun(states) && |states| >= 2 && ReadsOver(states[|states| - 2], 0)
    ensures states[|states| - 1] ==
            State(2 * DAY_MS, EscrowLockLegs(0, 1, 100), [Windowed.(windowEndsAt := Some(4 * DAY_MS))], map[], map[], [], {}, {})
  {
    states := DeliveredTwice();
    var s := states[|states| - 1];
    states := Extend(states, WriteTransition(9), EndCall(SetRow(s, 0, Windowed.(windowEndsAt := Some(4 * DAY_MS))), 9));
  }

  /** The timer has read that the window is over; the second delivery opens it for two more
      days; the timer releases the order at once. */
  lemma ReleasedInsideTheWindow() returns (states: seq<State>)
    ensures IsRun(states) && |states| >= 3
    ensures var (j, i) := (|states| - 3, |states| - 2);
            && ReadsOver(states[j], 0)
            && |states[i].orders| == 1 && states[i].orders[0].status == OrderWindow
            && states[i].orders[0].windowEndsAt == Some(states[i].now + TWO_DAYS)
            && |states[i + 1].orders| == 1 && states[i + 1].orders[0].status == OrderReleased && states[i + 1].now == states[i].now
  {
    states := Reopened();
    states := Extend(states, ReleaseWindow(5, 0), ClaimRelease(states[|states| - 1], 5, 0, None));
  }

  // ---------------------------------------------------------------------------
  // Forgotten orders
  // ---------------------------------------------------------------------------

  /** A winner's price is in escrow, and the call that locked it crashes before it marks the
      order: the order stays PENDING. */
  lemma PendingAndForgotten() returns (states: seq<State>)
    ensures IsRun(states)
    ensures Forgotten(states[|states| - 1], 0) && states[|states| - 1].orders[0].status == OrderPending
  {
    states := PaidInto();
    var s := states[|states| - 1];
    assert s.entries[0].key == Some(EscrowLockKey(0));
    states := Extend(states, Crash(0), EndCall(s, 0));
  }

  /** The timer cancels an order that was not shipped in time, and crashes before the refund:
      the buyer's money stays in escrow. */
  lemma CanceledAndForgotten() returns (states: seq<State>)
    ensures IsRun(states)
    ensures Forgotten(states[|states| - 1], 0) && states[|states| - 1].orders[0].status == OrderCanceled
  {
    var due;
    states, due := OverdueOrder();
    var s := states[|states| - 1];
    var s1 := SetCall(SetRow(s, 0, s.orders[0].(status := OrderCanceled)), 5, WillRefund(0, true)).(autoRefunded := {0});
    states := Extend(states, RefundUnshipped(5, 0), s1);
    ShippingIsPosted();
    assert s1.entries[0].key == Some(EscrowLockKey(0));
    states := Extend(states, Crash(5), EndCall(s1, 5));
  }
}
