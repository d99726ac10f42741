/** Orders whose money stays in escrow (packages/backend/src/orders.ts). Crash
    recovery looks at RELEASED and REFUNDED orders only; one that crashed while it was set up
    or while it was canceled is looked at by nobody. */
module ForgottenOrders {
  import opened Schema
  import opened Books
  import opened Escrow
  import opened EscrowTheorems

  /** The call sets the order up, or owes it a terminal move. */
  predicate Tends(call: Call, o: nat) {
    (SettingUp(call) && call.order == o) || OwesMove(call, o)
  }

  predicate Untended(s: State, o: nat) {
    forall d | d in s.calls :: !Tends(s.calls[d], o)
  }

  /** The price is in escrow, and the status is one that no timer and no recovery looks for. */
  predicate HalfApplied(s: State, o: nat) {
    && o < |s.orders| && LockPosted(s, o) && !SettlePosted(s, o)
    && s.orders[o].status in {OrderPending, OrderCanceled}
  }

  /** Half applied, and nobody is going to finish it. */
  predicate Forgotten(s: State, o: nat) {
    HalfApplied(s, o) && Untended(s, o)
  }

  /** The last call that tends a half-applied order crashes. */
  ghost predicate Forgets(s: State, s': State, o: nat) {
    exists c: nat :: Next(s, Crash(c), s') && HalfApplied(s, o) && CallOn(s, c) && Tends(s.calls[c], o) && Untended(s', o)
  }

  /** A stale transition gives the order a status that the timers know. */
  ghost predicate Rewrites(s: State, s': State, o: nat) {
    exists c: nat :: Writes(s, c, s', o)
  }

  // ---------------------------------------------------------------------------
  // Keys stay, and come from their own calls
  // ---------------------------------------------------------------------------

  lemma PostedStays(s: State, s': State, k: Key)
    requires KeyPosted(s.entries, k) && |s.entries| <= |s'.entries| && s'.entries[..|s.entries|] == s.entries
    ensures KeyPosted(s'.entries, k)
  {
    var i :| 0 <= i < |s.entries| && s.entries[i].key == Some(k);
    assert s'.entries[i] == s'.entries[..|s.entries|][i];
  }

  lemma BooksStepAppends(s: State, step: Step, s': State)
    requires Next(s, step, s') && TouchesBooks(step)
    ensures |s.entries| <= |s'.entries| && s'.entries[..|s.entries|] == s.entries
  {
  }

  lemma EntriesAppend(s: State, step: Step, s': State)
    requires Next(s, step, s')
    ensures |s.entries| <= |s'.entries| && s'.entries[..|s.entries|] == s.entries
  {
    if TouchesBooks(step) {
      BooksStepAppends(s, step, s');
    } else {
      RowStepShape(s, step, s');
    }
  }

  lemma LockSettlesNothing(s: State, c: nat, s': State, o: nat)
    requires Follows(s, PostLock(c), s')
    ensures SettlePosted(s', o) <==> SettlePosted(s, o)
  {
    if SettlePosted(s, o) {
      PostedStays(s, s', EscrowSettleKey(o));
    }
  }

  lemma ChargeSettlesNothing(s: State, sh: nat, s': State, o: nat)
    requires UniqueKeys(s.entries) && Ships(s, ChargeShipping(sh), s')
    ensures SettlePosted(s', o) <==> SettlePosted(s, o)
  {
    var x := s.shipments[sh];
    if s'.entries != s.entries {
      ChargeIsOutside(s.entries, sh, x);
      OtherKeys(s.entries, ShippingLegs(sh, x.buyer, x.fee), EscrowSettleKey(o));
    }
  }

  /** Only a call that owes the move posts it. */
  lemma NewSettles(s: State, step: Step, s': State, o: nat)
    requires MoneyInv(s) && Next(s, step, s') && SettlePosted(s', o) && !SettlePosted(s, o)
    ensures step.MoveMoney? && step.call in s.calls && OwesMove(s.calls[step.call], o)
  {
    if step.PostLock? {
      LockSettlesNothing(s, step.call, s', o);
    } else if step.MoveMoney? {
      MoveMoneyKeepsBooks(s, step.call, s');
      MoveMoneyEffect(s, step.call, s');
    } else if step.Other? {
      OtherKeys(s.entries, step.legs, EscrowSettleKey(o));
    } else if step.ChargeShipping? {
      ChargeSettlesNothing(s, step.shipment, s', o);
    } else {
      RowStepShape(s, step, s');
    }
  }

  // ---------------------------------------------------------------------------
  // Statuses
  // ---------------------------------------------------------------------------

  predicate Unwatched(row: Order) {
    row.status == OrderPending || row.status == OrderCanceled
  }

  lemma StatusAfterInstant(s: State, step: Step, s': State, o: nat)
    requires Instantly(s, step, s') && o < |s.orders| <= |s'.orders| && !s.orders[o].direct
    ensures Unwatched(s'.orders[o]) <==> Unwatched(s.orders[o])
  {
  }

  lemma StatusAfterShipping(s: State, step: Step, s': State, o: nat)
    requires Ships(s, step, s') && o < |s.orders| <= |s'.orders|
    ensures Unwatched(s'.orders[o]) <==> Unwatched(s.orders[o])
  {
  }

  lemma StatusAfterDecision(s: State, step: Step, s': State, o: nat)
    requires Decides(s, step, s') && o < |s.orders| <= |s'.orders|
    ensures Unwatched(s.orders[o]) ==> Unwatched(s'.orders[o])
    ensures Unwatched(s'.orders[o]) && !Unwatched(s.orders[o]) ==> !Untended(s', o)
  {
    if step.RefundUnshipped? && step.order == o {
      assert Tends(s'.calls[step.call], o);
    }
  }

  lemma StatusAfterCall(s: State, step: Step, s': State, o: nat)
    requires Follows(s, step, s') && o < |s.orders| <= |s'.orders| && CallOn(s, step.call)
    ensures Unwatched(s.orders[o]) && !Unwatched(s'.orders[o]) ==>
              (step.WriteTransition? && s.calls[step.call].order == o) || Tends(s.calls[step.call], o)
    ensures Unwatched(s'.orders[o]) && !Unwatched(s.orders[o]) ==> step.WriteTransition?
  {
  }

  lemma WriteGoesOn(s: State, c: nat, s': State, o: nat)
    requires CallsSafe(s) && Follows(s, WriteTransition(c), s') && o < |s.orders| <= |s'.orders|
    ensures Unwatched(s'.orders[o]) ==> Unwatched(s.orders[o])
  {
    assert CallOn(s, c);
  }

  // ---------------------------------------------------------------------------
  // Calls
  // ---------------------------------------------------------------------------

  lemma OwnAfterDecision(s: State, step: Step, s': State, o: nat)
    requires Decides(s, step, s') && o < |s.orders| && Unwatched(s.orders[o])
    ensures !Tends(s'.calls[Caller(step).value], o)
  {
  }

  lemma OwnAfterCall(s: State, step: Step, s': State, o: nat)
    requires Follows(s, step, s') && o < |s.orders| && Unwatched(s.orders[o])
    requires step.call in s'.calls && Tends(s'.calls[step.call], o)
    ensures step.call in s.calls && Tends(s.calls[step.call], o)
  {
  }

  /** Nobody takes up an order that no timer looks for. */
  lemma StaysUntended(s: State, step: Step, s': State, o: nat)
    requires Next(s, step, s') && o < |s.orders| && Unwatched(s.orders[o]) && Untended(s, o)
    ensures Untended(s', o)
  {
    forall d | d in s'.calls
      ensures !Tends(s'.calls[d], o)
    {
      if Caller(step) != Some(d) {
        OtherCalls(s, step, s', d);
      } else if Decision(step) {
        OwnAfterDecision(s, step, s', o);
      } else if Tends(s'.calls[d], o) {
        OwnAfterCall(s, step, s', o);
      }
    }
  }

  lemma OwnCallGone(s: State, step: Step, s': State, o: nat)
    requires Follows(s, step, s') && CallOn(s, step.call) && Tends(s.calls[step.call], o)
    requires step.call in s'.calls ==> !Tends(s'.calls[step.call], o)
    requires o < |s.orders| <= |s'.orders| && Unwatched(s'.orders[o])
    ensures step.Crash? || step.MoveMoney?
  {
  }

  lemma MoneyMoved(s: State, c: nat, s': State)
    requires MoneyInv(s) && Next(s, MoveMoney(c), s')
    ensures c in s.calls && SettlePosted(s', s.calls[c].order)
  {
    MoveMoneyKeepsBooks(s, c, s');
    MoveMoneyShape(s, c, s');
  }

  lemma LastCallCrashed(s: State, step: Step, s': State, o: nat)
    requires MoneyInv(s) && Next(s, step, s') && HalfApplied(s, o) && !Untended(s, o) && Forgotten(s', o)
    ensures Forgets(s, s', o)
  {
    RowsStay(s, step, s');
    var d: nat :| d in s.calls && Tends(s.calls[d], o);
    assert CallOn(s, d);
    if Caller(step) != Some(d) {
      OtherCalls(s, step, s', d);
    } else if Decision(step) {
      DecidersAreIdle(s, step, s');
    } else {
      OwnCallGone(s, step, s', o);
      if step.MoveMoney? {
        MoneyMoved(s, d, s');
      }
    }
  }

  lemma DecidersAreIdle(s: State, step: Step, s': State)
    requires Decides(s, step, s')
    ensures Caller(step).Some? && Caller(step).value !in s.calls
  {
  }

  // ---------------------------------------------------------------------------
  // One step
  // ---------------------------------------------------------------------------

  lemma NotDirect(s: State, o: nat)
    requires MoneyInv(s) && LockPosted(s, o)
    ensures o < |s.orders| && !s.orders[o].direct
  {
    assert OrderSafe(s.orders[o], LockPosted(s, o));
  }

  lemma WriteRewrites(s: State, c: nat, s': State, o: nat)
    requires CallsSafe(s) && Follows(s, WriteTransition(c), s')
    ensures s.calls[c].order == o ==> Rewrites(s, s', o)
  {
    assert s.calls[c].order == o ==> Writes(s, c, s', o);
  }

  lemma StatusStays(s: State, step: Step, s': State, o: nat)
    requires MoneyInv(s) && Next(s, step, s') && Forgotten(s, o) && |s.orders| <= |s'.orders| && !Rewrites(s, s', o)
    ensures Unwatched(s'.orders[o])
  {
    NotDirect(s, o);
    if Instant(step) {
      StatusAfterInstant(s, step, s', o);
    } else if OfShipment(step) {
      StatusAfterShipping(s, step, s', o);
    } else if Decision(step) {
      StatusAfterDecision(s, step, s', o);
    } else {
      CallerIsOn(s, step, s');
      if step.WriteTransition? {
        WriteRewrites(s, step.call, s', o);
      }
      StatusAfterCall(s, step, s', o);
    }
  }

  lemma ForgottenStays(s: State, step: Step, s': State, o: nat)
    requires MoneyInv(s) && Next(s, step, s') && Forgotten(s, o) && !Rewrites(s, s', o)
    ensures Forgotten(s', o)
  {
    RowsStay(s, step, s');
    EntriesAppend(s, step, s');
    PostedStays(s, s', EscrowLockKey(o));
    if SettlePosted(s', o) {
      NewSettles(s, step, s', o);
    }
    StatusStays(s, step, s', o);
    StaysUntended(s, step, s', o);
  }

  lemma ForgettingForgets(s: State, s': State, o: nat)
    requires Forgets(s, s', o)
    ensures Forgotten(s', o)
  {
  }

  lemma RewritingSaves(s: State, s': State, o: nat)
    requires MoneyInv(s) && Rewrites(s, s', o)
    ensures !Forgotten(s', o)
  {
    var c: nat :| Writes(s, c, s', o);
    WriteIsWrote(s, c, s', o);
  }

  /** A half-applied order was half applied before, unless a call tends it now. */
  lemma HalfAppliedBefore(s: State, step: Step, s': State, o: nat)
    requires MoneyInv(s) && Next(s, step, s') && Forgotten(s', o)
    ensures HalfApplied(s, o)
  {
    RowsStay(s, step, s');
    EntriesAppend(s, step, s');
    if SettlePosted(s, o) {
      PostedStays(s, s', EscrowSettleKey(o));
    }
    if !LockPosted(s, o) {
      NewLocks(s, step, s', o);
      LockGoesOn(s, step.call, s', o);
    }
    NotDirect(s, o);
    if Instant(step) {
      StatusAfterInstant(s, step, s', o);
    } else if OfShipment(step) {
      StatusAfterShipping(s, step, s', o);
    } else if Decision(step) {
      StatusAfterDecision(s, step, s', o);
    } else {
      CallerIsOn(s, step, s');
      StatusAfterCall(s, step, s', o);
      if step.WriteTransition? {
        WriteGoesOn(s, step.call, s', o);
      }
    }
  }

  lemma CallerIsOn(s: State, step: Step, s': State)
    requires CallsSafe(s) && Follows(s, step, s')
    ensures CallOn(s, step.call)
  {
    assert step.call in s.calls;
  }

  lemma LockGoesOn(s: State, c: nat, s': State, o: nat)
    requires Follows(s, PostLock(c), s') && s.calls[c].order == o
    ensures !Untended(s', o)
  {
    assert Tends(s'.calls[c], o);
  }

  /** Over one step: the order is forgotten already and stays so, or this step forgets it. */
  lemma StepForgetsIff(s: State, s': State, o: nat)
    requires MoneyInv(s) && CanStep(s, s')
    ensures Forgotten(s', o) <==> (Forgotten(s, o) && !Rewrites(s, s', o)) || Forgets(s, s', o)
  {
    var step :| Next(s, step, s');
    if Forgets(s, s', o) {
      ForgettingForgets(s, s', o);
    } else if Rewrites(s, s', o) {
      RewritingSaves(s, s', o);
    } else if Forgotten(s, o) {
      ForgottenStays(s, step, s', o);
    } else if Forgotten(s', o) {
      HalfAppliedBefore(s, step, s', o);
      LastCallCrashed(s, step, s', o);
    }
  }

  // ---------------------------------------------------------------------------
  // Whole runs
  // ---------------------------------------------------------------------------

  ghost predicate ForgetsAt(states: seq<State>, i: nat, o: nat) {
    i + 1 < |states| && Forgets(states[i], states[i + 1], o)
  }

  ghost predicate RewritesAt(states: seq<State>, i: nat, o: nat) {
    i + 1 < |states| && Rewrites(states[i], states[i + 1], o)
  }

  lemma RunStepForgetsIff(states: seq<State>, i: nat, o: nat)
    requires IsRun(states) && i + 1 < |states|
    ensures Forgotten(states[i + 1], o) <==>
            (Forgotten(states[i], o) && !RewritesAt(states, i, o)) || ForgetsAt(states, i, o)
  {
    RunKeepsMoney(states, i);
    assert CanStep(states[i], states[i + 1]);
    StepForgetsIff(states[i], states[i + 1], o);
  }

  /** No stale transition reaches the order after step `i` and up to state `n`. */
  ghost predicate LeftAlone(states: seq<State>, i: nat, n: nat, o: nat)
    decreases n
  {
    n <= i + 1 || (LeftAlone(states, i, n - 1, o) && !RewritesAt(states, n - 1, o))
  }

  /** Step `i` forgets the order, and it stays so up to state `n`. */
  ghost predicate ForgottenSince(states: seq<State>, i: nat, n: nat, o: nat) {
    ForgetsAt(states, i, o) && LeftAlone(states, i, n, o)
  }

  ghost predicate ForgottenBefore(states: seq<State>, n: nat, o: nat) {
    exists i: nat :: i < n && ForgottenSince(states, i, n, o)
  }

  lemma EarlierStays(states: seq<State>, i: nat, n: nat, o: nat)
    requires i < n
    ensures ForgottenSince(states, i, n + 1, o) <==> ForgottenSince(states, i, n, o) && !RewritesAt(states, n, o)
  {
  }

  lemma ForgottenBeforeNext(states: seq<State>, n: nat, o: nat)
    ensures ForgottenBefore(states, n + 1, o) <==>
            (ForgottenBefore(states, n, o) && !RewritesAt(states, n, o)) || ForgetsAt(states, n, o)
  {
    assert ForgottenSince(states, n, n + 1, o) <==> ForgetsAt(states, n, o);
    if ForgottenBefore(states, n + 1, o) {
      var i: nat :| i < n + 1 && ForgottenSince(states, i, n + 1, o);
      if i < n {
        EarlierStays(states, i, n, o);
      }
    }
    if ForgottenBefore(states, n, o) && !RewritesAt(states, n, o) {
      var i: nat :| i < n && ForgottenSince(states, i, n, o);
      EarlierStays(states, i, n, o);
    }
  }

  /** Crash recovery means to leave no escrowed order half applied. Over every run, one is
      left so with nobody to finish it if and only if the last call that tended it crashed
      while it was being set up, after its lock, or while it was canceled, before its refund -
      and no stale transition has given it another status since. */
  lemma {:induction false} ForgottenIff(states: seq<State>, n: nat, o: nat)
    requires IsRun(states) && n < |states|
    ensures Forgotten(states[n], o) <==> ForgottenBefore(states, n, o)
  {
    if n > 0 {
      ForgottenIff(states, n - 1, o);
      RunStepForgetsIff(states, n - 1, o);
      ForgottenBeforeNext(states, n - 1, o);
    } else {
      assert states[0].orders == [];
    }
  }
}
