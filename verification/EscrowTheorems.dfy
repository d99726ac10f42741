/** What every run of the escrow machine guarantees. */
module EscrowTheorems {
  import opened Schema
  import opened Books
  import opened Escrow

  // ---------------------------------------------------------------------------
  // Money, under every interleaving and crash
  // ---------------------------------------------------------------------------

  /** The escrow account always holds exactly the amounts of the orders that are locked and
      not settled, so it is never overdrawn. */
  lemma EscrowHoldsWhatIsOwed(states: seq<State>, i: nat)
    requires IsRun(states) && i < |states|
    ensures var s := states[i];
            && Settled(s.entries, Account.Escrow) == HeldUpTo(s, |s.orders|)
            && Settled(s.entries, Account.Escrow) >= 0
  {
    RunKeepsMoney(states, i);
    HeldNotNegative(states[i], |states[i].orders|);
  }

  /** Every order gets at most one terminal move: its settle key stands in the books at most
      once, with the rows of that one move, and only after its lock. Direct orders never
      get one. */
  lemma AtMostOneTerminalMove(states: seq<State>, i: nat, o: nat)
    requires IsRun(states) && i < |states| && o < |states[i].orders|
    ensures var s := states[i];
            && (forall p, q | 0 <= p < q < |s.entries| ::
                  !(s.entries[p].key == Some(EscrowSettleKey(o)) && s.entries[q].key == Some(EscrowSettleKey(o))))
            && (o in s.moves <==> SettlePosted(s, o))
            && (o in s.moves ==> LockPosted(s, o) && !s.orders[o].direct && LegsAt(s.entries, MoveLegs(o, s.orders[o], s.moves[o])))
  {
    RunKeepsMoney(states, i);
  }

  /** A terminal move is final: no later step changes or removes it. */
  lemma TerminalMovesAreFinal(s: State, step: Step, s': State, o: nat)
    requires MoneyInv(s) && Next(s, step, s') && o in s.moves
    ensures o in s'.moves && s'.moves[o] == s.moves[o]
  {
    if TouchesBooks(step) {
      BooksStepMoves(s, step, s', o);
    } else {
      RowStepShape(s, step, s');
    }
  }

  lemma BooksStepMoves(s: State, step: Step, s': State, o: nat)
    requires Next(s, step, s') && TouchesBooks(step) && o in s.moves && SettlePosted(s, o)
    ensures o in s'.moves && s'.moves[o] == s.moves[o]
  {
  }

  // ---------------------------------------------------------------------------
  // Status against ledger
  // ---------------------------------------------------------------------------

  predicate SettingUp(call: Call) {
    call.WillLock? || call.WillMarkLocked?
  }

  /** What a pending decision says about the status it was taken on. */
  predicate CallAgrees(call: Call, row: Order, moved: bool) {
    match call
    case WillLock(_) => row.status == OrderPending
    case WillMarkLocked(_) => row.status == OrderPending
    case WillWrite(_, _) => row.status != OrderPending
    case WillRelease(_, _) => row.status == OrderReleased
    case WillRefund(_, _) => row.status in {OrderCanceled, OrderRefunded}
    case WillMarkRefunded(_) => row.status in {OrderCanceled, OrderRefunded} && moved
    case _ => true
  }

  predicate CallOk(s: State, c: nat) {
    c in s.calls ==> s.calls[c].order < |s.orders| && CallAgrees(s.calls[c], s.orders[s.calls[c].order], s.calls[c].order in s.moves)
  }

  /** A posted release stands against RELEASED, a posted refund against CANCELED or REFUNDED. */
  predicate MoveOk(s: State, o: nat) {
    o in s.moves && o < |s.orders| ==>
      if s.moves[o] == PaidOut then s.orders[o].status == OrderReleased
      else s.orders[o].status in {OrderCanceled, OrderRefunded}
  }

  /** No two calls set the same order up. */
  predicate NoRivals(s: State, c: nat, d: nat) {
    c in s.calls && d in s.calls && c != d && SettingUp(s.calls[c]) && SettingUp(s.calls[d]) ==>
      s.calls[c].order != s.calls[d].order
  }

  ghost predicate Agreement(s: State) {
    && (forall c: nat :: CallOk(s, c))
    && (forall o: nat :: MoveOk(s, o))
    && (forall c: nat, d: nat :: NoRivals(s, c, d))
  }

  lemma BooksStepShape(s: State, step: Step, s': State)
    requires Next(s, step, s') && TouchesBooks(step)
    ensures |s'.orders| == |s.orders| && forall o | o in s.moves :: o in s'.moves
  {
  }

  /** Orders and terminal moves are only added. */
  lemma RowsStay(s: State, step: Step, s': State)
    requires Next(s, step, s')
    ensures |s.orders| <= |s'.orders| && forall o | o in s.moves :: o in s'.moves
  {
    if TouchesBooks(step) {
      BooksStepShape(s, step, s');
    } else {
      RowStepShape(s, step, s');
    }
  }

  lemma OtherCallStaysOk(s: State, step: Step, s': State, d: nat)
    requires Next(s, step, s') && !step.WriteTransition? && Caller(step) != Some(d)
    requires CallOk(s, d)
    requires d in s.calls && !OnlyDiscards(s.calls[d]) ==> !s.orders[s.calls[d].order].direct
    requires Caller(step).Some? ==> CallOk(s, Caller(step).value) && NoRivals(s, Caller(step).value, d)
    ensures CallOk(s', d)
  {
    OtherCalls(s, step, s', d);
    RowsStay(s, step, s');
    if d in s.calls {
      OtherStatusStaysOk(s, step, s', d);
    }
  }

  /** The status another call relies on is left alone. */
  lemma OtherStatusStaysOk(s: State, step: Step, s': State, d: nat)
    requires Next(s, step, s') && !step.WriteTransition? && Caller(step) != Some(d) && d in s.calls
    requires CallOk(s, d) && |s.orders| <= |s'.orders|
    requires !OnlyDiscards(s.calls[d]) ==> !s.orders[s.calls[d].order].direct
    requires Caller(step).Some? ==> CallOk(s, Caller(step).value) && NoRivals(s, Caller(step).value, d)
    ensures CallAgrees(s.calls[d], s'.orders[s.calls[d].order], s.calls[d].order in s.moves)
  {
    if Instant(step) {
      OtherStatusAfterInstant(s, step, s', d);
    } else if OfShipment(step) {
      OtherStatusAfterShipping(s, step, s', d);
    } else if Decision(step) {
      OtherStatusAfterDecision(s, step, s', d);
    } else {
      OtherStatusAfterCall(s, step, s', d);
    }
  }

  lemma OtherStatusAfterInstant(s: State, step: Step, s': State, d: nat)
    requires Instantly(s, step, s') && d in s.calls && CallOk(s, d) && |s.orders| <= |s'.orders|
    requires !OnlyDiscards(s.calls[d]) ==> !s.orders[s.calls[d].order].direct
    ensures CallAgrees(s.calls[d], s'.orders[s.calls[d].order], s.calls[d].order in s.moves)
  {
  }

  lemma OtherStatusAfterShipping(s: State, step: Step, s': State, d: nat)
    requires Ships(s, step, s') && d in s.calls && CallOk(s, d) && |s.orders| <= |s'.orders|
    ensures CallAgrees(s.calls[d], s'.orders[s.calls[d].order], s.calls[d].order in s.moves)
  {
  }

  lemma OtherStatusAfterDecision(s: State, step: Step, s': State, d: nat)
    requires Decides(s, step, s') && d in s.calls && CallOk(s, d) && |s.orders| <= |s'.orders|
    ensures CallAgrees(s.calls[d], s'.orders[s.calls[d].order], s.calls[d].order in s.moves)
  {
  }

  lemma OtherStatusAfterCall(s: State, step: Step, s': State, d: nat)
    requires Follows(s, step, s') && !step.WriteTransition? && step.call != d && d in s.calls
    requires CallOk(s, d) && CallOk(s, step.call) && NoRivals(s, step.call, d) && |s.orders| <= |s'.orders|
    ensures CallAgrees(s.calls[d], s'.orders[s.calls[d].order], s.calls[d].order in s.moves)
  {
  }

  lemma OwnCallOkAfterDecision(s: State, step: Step, s': State)
    requires Decides(s, step, s') && Caller(step).Some?
    ensures CallOk(s', Caller(step).value)
  {
  }

  lemma OwnCallOkAfterCall(s: State, step: Step, s': State)
    requires Follows(s, step, s') && Caller(step).Some? && CallOk(s, Caller(step).value)
    requires Caller(step).value in s.calls ==> (s.calls[Caller(step).value].order in s.moves <==> SettlePosted(s, s.calls[Caller(step).value].order))
    ensures CallOk(s', Caller(step).value)
  {
  }

  lemma OwnCallStaysOk(s: State, step: Step, s': State)
    requires Next(s, step, s') && Caller(step).Some? && CallOk(s, Caller(step).value)
    requires Caller(step).value in s.calls ==> (s.calls[Caller(step).value].order in s.moves <==> SettlePosted(s, s.calls[Caller(step).value].order))
    ensures CallOk(s', Caller(step).value)
  {
    if Decision(step) {
      OwnCallOkAfterDecision(s, step, s');
    } else {
      OwnCallOkAfterCall(s, step, s');
    }
  }

  lemma MoveStaysOkAfterInstant(s: State, step: Step, s': State, o: nat)
    requires Instantly(s, step, s') && MoveOk(s, o)
    requires o in s.moves ==> o < |s.orders| && NeedsLock(s.orders[o]) && !s.orders[o].direct && s.orders[o].status != OrderPending
    ensures MoveOk(s', o)
  {
  }

  lemma MoveStaysOkAfterShipping(s: State, step: Step, s': State, o: nat)
    requires Ships(s, step, s') && MoveOk(s, o)
    ensures MoveOk(s', o)
  {
  }

  lemma MoveStaysOkAfterDecision(s: State, step: Step, s': State, o: nat)
    requires Decides(s, step, s') && MoveOk(s, o)
    requires o in s.moves ==> o < |s.orders| && NeedsLock(s.orders[o]) && !s.orders[o].direct && s.orders[o].status != OrderPending
    ensures MoveOk(s', o)
  {
  }

  lemma MoveStaysOkAfterCall(s: State, step: Step, s': State, o: nat)
    requires Follows(s, step, s') && !step.WriteTransition? && MoveOk(s, o) && CallOk(s, step.call)
    requires o in s.moves ==> o < |s.orders| && NeedsLock(s.orders[o]) && !s.orders[o].direct && s.orders[o].status != OrderPending
    ensures MoveOk(s', o)
  {
  }

  lemma MoveStaysOk(s: State, step: Step, s': State, o: nat)
    requires Next(s, step, s') && !step.WriteTransition? && MoveOk(s, o)
    requires Caller(step).Some? ==> CallOk(s, Caller(step).value)
    requires o in s.moves ==> o < |s.orders| && NeedsLock(s.orders[o]) && !s.orders[o].direct && s.orders[o].status != OrderPending
    ensures MoveOk(s', o)
  {
    if Instant(step) {
      MoveStaysOkAfterInstant(s, step, s', o);
    } else if OfShipment(step) {
      MoveStaysOkAfterShipping(s, step, s', o);
    } else if Decision(step) {
      MoveStaysOkAfterDecision(s, step, s', o);
    } else {
      MoveStaysOkAfterCall(s, step, s', o);
    }
  }

  /** A call that sets an order up did so before, or has just made the order. */
  lemma SetUpAfterDecision(s: State, step: Step, s': State, c: nat)
    requires Decides(s, step, s') && Caller(step) == Some(c) && c in s'.calls && SettingUp(s'.calls[c])
    ensures s'.calls[c].order == |s.orders|
  {
  }

  lemma SetUpAfterCall(s: State, step: Step, s': State, c: nat)
    requires Follows(s, step, s') && Caller(step) == Some(c) && c in s'.calls && SettingUp(s'.calls[c])
    ensures c in s.calls && SettingUp(s.calls[c]) && s'.calls[c].order == s.calls[c].order
  {
  }

  lemma SetUpComesFrom(s: State, step: Step, s': State, c: nat)
    requires Next(s, step, s') && c in s'.calls && SettingUp(s'.calls[c])
    ensures (c in s.calls && s'.calls[c].order == s.calls[c].order && SettingUp(s.calls[c]))
            || (Caller(step) == Some(c) && s'.calls[c].order == |s.orders|)
  {
    if Caller(step) != Some(c) {
      OtherCalls(s, step, s', c);
    } else if Decision(step) {
      SetUpAfterDecision(s, step, s', c);
    } else {
      SetUpAfterCall(s, step, s', c);
    }
  }

  lemma RivalsStayAway(s: State, step: Step, s': State, c: nat, d: nat)
    requires Next(s, step, s')
    requires NoRivals(s, c, d)
    requires c in s.calls ==> s.calls[c].order < |s.orders|
    requires d in s.calls ==> s.calls[d].order < |s.orders|
    ensures NoRivals(s', c, d)
  {
    if c in s'.calls && d in s'.calls && SettingUp(s'.calls[c]) && SettingUp(s'.calls[d]) {
      SetUpComesFrom(s, step, s', c);
      SetUpComesFrom(s, step, s', d);
    }
  }

  lemma MovedOrdersAreOpen(s: State, o: nat)
    requires MoneyInv(s) && MoveOk(s, o) && o in s.moves
    ensures o < |s.orders| && NeedsLock(s.orders[o]) && !s.orders[o].direct && s.orders[o].status != OrderPending
  {
    assert SettlePosted(s, o) && LockPosted(s, o);
  }

  lemma StepAgrees(s: State, step: Step, s': State)
    requires MoneyInv(s) && Agreement(s) && Next(s, step, s') && !step.WriteTransition?
    ensures Agreement(s')
  {
    forall d: nat
      ensures CallOk(s', d)
    {
      if Caller(step) == Some(d) {
        OwnCallStaysOk(s, step, s');
      } else {
        assert d in s.calls ==> CallOn(s, d);
        OtherCallStaysOk(s, step, s', d);
      }
    }
    forall o: nat
      ensures MoveOk(s', o)
    {
      if o in s.moves {
        MovedOrdersAreOpen(s, o);
      }
      MoveStaysOk(s, step, s', o);
    }
    RivalsStayAwayAll(s, step, s');
  }

  lemma RivalsStayAwayAll(s: State, step: Step, s': State)
    requires Agreement(s) && Next(s, step, s')
    ensures forall c: nat, d: nat :: NoRivals(s', c, d)
  {
    forall c: nat, d: nat
      ensures NoRivals(s', c, d)
    {
      assert CallOk(s, c) && CallOk(s, d);
      RivalsStayAway(s, step, s', c, d);
    }
  }

  // ---------------------------------------------------------------------------
  // Stale transitions
  // ---------------------------------------------------------------------------

  predicate OwesMove(call: Call, o: nat) {
    (call.WillRelease? || call.WillRefund? || call.WillMarkRefunded?) && call.order == o
  }

  /** No terminal move of the order has posted, and none is owed. */
  predicate StillOpen(s: State, o: nat) {
    !SettlePosted(s, o) && forall d | d in s.calls :: !OwesMove(s.calls[d], o)
  }

  /** A transition that was read earlier, at the moment it is written. */
  ghost predicate Writes(s: State, c: nat, s': State, o: nat) {
    Next(s, WriteTransition(c), s') && s.calls[c].order == o
  }

  /** What the write changes: the call ends, and the order is under way again. */
  ghost predicate Wrote(s: State, c: nat, s': State, o: nat) {
    && CallOn(s, c) && s.calls[c].WillWrite? && s.calls[c].order == o && |s'.orders| == |s.orders|
    && s'.entries == s.entries && s'.moves == s.moves && s'.calls == s.calls - {c}
    && (forall p | 0 <= p < |s.orders| && p != o :: s'.orders[p] == s.orders[p])
    && s'.orders[o].status in {OrderShipped, OrderWindow}
  }

  lemma WriteIsWrote(s: State, c: nat, s': State, o: nat)
    requires CallsSafe(s) && Writes(s, c, s', o)
    ensures Wrote(s, c, s', o)
  {
    assert CallOn(s, c);
  }

  lemma OpenWriteAgrees(s: State, c: nat, s': State, o: nat)
    requires BooksSafe(s) && Agreement(s) && Wrote(s, c, s', o) && StillOpen(s, o)
    ensures forall d: nat :: CallOk(s', d)
    ensures forall p: nat :: MoveOk(s', p)
  {
    assert CallOk(s, c);
    forall d: nat
      ensures CallOk(s', d)
    {
      assert CallOk(s, d);
    }
    assert o !in s.moves;
    forall p: nat
      ensures MoveOk(s', p)
    {
      assert MoveOk(s, p);
    }
  }

  lemma ClosedWriteDisagrees(s: State, c: nat, s': State, o: nat)
    requires BooksSafe(s) && Wrote(s, c, s', o) && !StillOpen(s, o)
    ensures !Agreement(s')
  {
    if SettlePosted(s, o) {
      assert o in s.moves && !MoveOk(s', o);
    } else {
      var d :| d in s.calls && OwesMove(s.calls[d], o);
      assert !CallOk(s', d);
    }
  }

  /** Exactly when a stale transition harms: when a release or refund of the order has
      posted by then, or is owed by a call that has won its claim. */
  lemma StaleWriteHarmsIff(s: State, c: nat, s': State, o: nat)
    requires MoneyInv(s) && Agreement(s) && Writes(s, c, s', o)
    ensures Agreement(s') <==> StillOpen(s, o)
  {
    WriteIsWrote(s, c, s', o);
    if StillOpen(s, o) {
      OpenWriteAgrees(s, c, s', o);
      RivalsStayAwayAll(s, WriteTransition(c), s');
    } else {
      ClosedWriteDisagrees(s, c, s', o);
    }
  }

  /** Some call can make the move it owes, and it will not agree with the status. */
  ghost predicate MoveWillDisagree(s: State, o: nat) {
    exists d, s' :: Next(s, MoveMoney(d), s') && !MoveOk(s', o)
  }

  /** The harm shows in the books: at once, or when the owed move is made. */
  lemma HarmShows(s: State, c: nat, s': State, o: nat)
    requires MoneyInv(s) && Agreement(s) && Writes(s, c, s', o) && !StillOpen(s, o)
    ensures !MoveOk(s', o) || MoveWillDisagree(s', o)
  {
    WriteIsWrote(s, c, s', o);
    WroteShows(s, c, s', o);
  }

  lemma WroteShows(s: State, c: nat, s': State, o: nat)
    requires BooksSafe(s) && Agreement(s) && Wrote(s, c, s', o) && !StillOpen(s, o)
    ensures !MoveOk(s', o) || MoveWillDisagree(s', o)
  {
    if !SettlePosted(s, o) {
      var d :| d in s.calls && OwesMove(s.calls[d], o);
      assert CallOk(s, d);
      OwedMoveShows(s', d, o);
    } else {
      assert o in s.moves;
    }
  }

  lemma OwedMoveShows(s: State, d: nat, o: nat)
    requires d in s.calls && (s.calls[d].WillRelease? || s.calls[d].WillRefund?) && s.calls[d].order == o < |s.orders|
    requires s.orders[o].status in {OrderShipped, OrderWindow} && !SettlePosted(s, o)
    ensures MoveWillDisagree(s, o)
  {
    var after := AfterMove(s, d);
    assert Next(s, MoveMoney(d), after);
    assert !MoveOk(after, o);
  }

  /** The state once call `d` has made the move it owes. */
  function AfterMove(s: State, d: nat): State
    requires d in s.calls && (s.calls[d].WillRelease? || s.calls[d].WillRefund?) && s.calls[d].order < |s.orders|
  {
    var o := s.calls[d].order;
    if s.calls[d].WillRelease? then
      if s.calls[d].thenRetire.Some? then SetCall(Moved(s, o, PaidOut), d, WillRetire(o, s.calls[d].thenRetire.value))
      else EndCall(Moved(s, o, PaidOut), d)
    else if s.calls[d].thenMark then SetCall(Moved(s, o, PaidBack), d, WillMarkRefunded(o))
    else EndCall(Moved(s, o, PaidBack), d)
  }

  /** A conditional update - write only if the status still allows the transition - would
      never harm. */
  lemma ConditionalWriteIsSafe(s: State, o: nat, to: OrderStatus)
    requires BooksSafe(s) && Agreement(s) && o < |s.orders| && MayAdvance(s.orders[o].status, to)
    ensures StillOpen(s, o)
  {
    assert MoveOk(s, o);
    forall d | d in s.calls
      ensures !OwesMove(s.calls[d], o)
    {
      assert CallOk(s, d);
    }
  }

  // ---------------------------------------------------------------------------
  // Whole runs
  // ---------------------------------------------------------------------------

  /** The step is a stale transition of an order whose money has moved or is about to. */
  ghost predicate HarmfulWrite(s: State, s': State) {
    exists c, o :: Writes(s, c, s', o) && !StillOpen(s, o)
  }

  lemma StepAgreesIff(s: State, s': State)
    requires MoneyInv(s) && Agreement(s) && CanStep(s, s')
    ensures Agreement(s') <==> !HarmfulWrite(s, s')
  {
    if HarmfulWrite(s, s') {
      var c, o :| Writes(s, c, s', o) && !StillOpen(s, o);
      StaleWriteHarmsIff(s, c, s', o);
    } else {
      var step :| Next(s, step, s');
      if step.WriteTransition? {
        assert Writes(s, step.call, s', s.calls[step.call].order);
        StaleWriteHarmsIff(s, step.call, s', s.calls[step.call].order);
      } else {
        StepAgrees(s, step, s');
      }
    }
  }

  lemma EmptyAgrees()
    ensures Agreement(Empty)
  {
  }

  /** Over every run of every interleaving, split reads of the timer included: status and
      books agree throughout if and only if no step of it is a harmful stale transition. */
  lemma {:induction false} RunAgreesIff(states: seq<State>, n: nat)
    requires IsRun(states) && n < |states|
    ensures (forall i | 0 <= i <= n :: Agreement(states[i])) <==>
            (forall i | 0 <= i < n :: !HarmfulWrite(states[i], states[i + 1]))
  {
    if n == 0 {
      EmptyAgrees();
    } else {
      RunAgreesIff(states, n - 1);
      RunKeepsMoney(states, n - 1);
      if forall i | 0 <= i <= n - 1 :: Agreement(states[i]) {
        assert CanStep(states[n - 1], states[n - 1 + 1]);
        StepAgreesIff(states[n - 1], states[n]);
      }
    }
  }

  /** A run without harmful stale transitions. */
  ghost predicate IsCarefulRun(states: seq<State>) {
    IsRun(states) && forall i | 0 <= i < |states| - 1 :: !HarmfulWrite(states[i], states[i + 1])
  }

  lemma CarefulRunAgrees(states: seq<State>, i: nat)
    requires IsCarefulRun(states) && i < |states|
    ensures MoneyInv(states[i]) && Agreement(states[i])
  {
    RunKeepsMoney(states, i);
    RunAgreesIff(states, i);
  }

  // ---------------------------------------------------------------------------
  // Locks are posted once
  // ---------------------------------------------------------------------------

  /** A call that is about to post the lock of an order finds it not posted. */
  predicate LockFree(s: State, c: nat) {
    c in s.calls && s.calls[c].WillLock? ==> !LockPosted(s, s.calls[c].order)
  }

  lemma PostedByItsCall(s: State, c: nat, s': State, o: nat)
    requires Follows(s, PostLock(c), s') && LockPosted(s', o) && !LockPosted(s, o)
    ensures c in s.calls && SettingUp(s.calls[c]) && s.calls[c].order == o
  {
    var i :| 0 <= i < |s'.entries| && s'.entries[i].key == Some(EscrowLockKey(o));
    assert i >= |s.entries|;
  }

  /** Only the call that sets an order up posts its lock. */
  lemma NewLocks(s: State, step: Step, s': State, o: nat)
    requires MoneyInv(s) && Next(s, step, s') && LockPosted(s', o) && !LockPosted(s, o)
    ensures step.PostLock? && step.call in s.calls && SettingUp(s.calls[step.call]) && s.calls[step.call].order == o
  {
    if step.PostLock? {
      PostedByItsCall(s, step.call, s', o);
    } else if step.MoveMoney? {
      MoveMoneyKeepsBooks(s, step.call, s');
    } else if step.Other? {
      OtherKeys(s.entries, step.legs, EscrowLockKey(o));
    } else if step.ChargeShipping? {
      ChargeLocksNothing(s, step.shipment, s', o);
    } else {
      RowStepShape(s, step, s');
    }
  }

  lemma ChargeLocksNothing(s: State, sh: nat, s': State, o: nat)
    requires UniqueKeys(s.entries) && Ships(s, ChargeShipping(sh), s')
    ensures LockPosted(s', o) <==> LockPosted(s, o)
  {
    var x := s.shipments[sh];
    if s'.entries != s.entries {
      ChargeIsOutside(s.entries, sh, x);
      OtherKeys(s.entries, ShippingLegs(sh, x.buyer, x.fee), EscrowLockKey(o));
    }
  }

  lemma NewLockCall(s: State, step: Step, s': State, c: nat)
    requires Next(s, step, s') && Caller(step) == Some(c) && c in s'.calls && s'.calls[c].WillLock?
    ensures s'.calls[c].order == |s.orders| && !step.PostLock?
  {
    if Decision(step) {
      SetUpAfterDecision(s, step, s', c);
    } else {
      StillLocking(s, step, s', c);
    }
  }

  lemma StillLocking(s: State, step: Step, s': State, c: nat)
    requires Follows(s, step, s') && Caller(step) == Some(c)
    ensures c in s'.calls ==> !s'.calls[c].WillLock?
  {
  }

  lemma LockStaysFree(s: State, step: Step, s': State, c: nat)
    requires MoneyInv(s) && Next(s, step, s') && LockFree(s, c) && forall d: nat, e: nat :: NoRivals(s, d, e)
    ensures LockFree(s', c)
  {
    assert Caller(step).Some? ==> NoRivals(s, c, Caller(step).value);
    if c in s'.calls && s'.calls[c].WillLock? && LockPosted(s', s'.calls[c].order) {
      var o := s'.calls[c].order;
      if Caller(step) == Some(c) {
        NewLockCall(s, step, s', c);
        assert !LockPosted(s, |s.orders|);
        NewLocks(s, step, s', o);
      } else {
        OtherCalls(s, step, s', c);
        NewLocks(s, step, s', o);
      }
    }
  }

  lemma {:induction false} CarefulRunLocksOnce(states: seq<State>, i: nat, c: nat)
    requires IsCarefulRun(states) && i < |states|
    ensures LockFree(states[i], c)
  {
    if i > 0 {
      CarefulRunLocksOnce(states, i - 1, c);
      CarefulRunAgrees(states, i - 1);
      assert CanStep(states[i - 1], states[i - 1 + 1]);
      var step :| Next(states[i - 1], step, states[i]);
      LockStaysFree(states[i - 1], step, states[i], c);
    }
  }

  lemma CarefulRunGrows(states: seq<State>, step: Step, s': State)
    requires IsCarefulRun(states) && Next(states[|states| - 1], step, s') && !step.WriteTransition?
    ensures IsCarefulRun(states + [s'])
  {
    var (s, more) := (states[|states| - 1], states + [s']);
    CarefulRunAgrees(states, |states| - 1);
    StepAgrees(s, step, s');
    assert CanStep(s, s');
    StepAgreesIff(s, s');
    forall i | 0 <= i < |more| - 1
      ensures CanStep(more[i], more[i + 1]) && !HarmfulWrite(more[i], more[i + 1])
    {
      if i < |states| - 1 {
        assert CanStep(states[i], states[i + 1]);
      }
    }
  }

  /** With crashes allowed anywhere between a claim and its money move: a posted release
      means the order is RELEASED, a posted refund that it is CANCELED or REFUNDED. */
  lemma StatusAgreesWithTheBooks(states: seq<State>, i: nat, o: nat)
    requires IsCarefulRun(states) && i < |states| && o < |states[i].orders| && SettlePosted(states[i], o)
    ensures var s := states[i];
            && o in s.moves && LegsAt(s.entries, MoveLegs(o, s.orders[o], s.moves[o]))
            && (s.moves[o] == PaidOut ==> s.orders[o].status == OrderReleased)
            && (s.moves[o] == PaidBack ==> s.orders[o].status in {OrderCanceled, OrderRefunded})
  {
    CarefulRunAgrees(states, i);
    assert MoveOk(states[i], o);
  }
}
