/** The dispute window (packages/backend/src/orders.ts): two days from the delivery. The timer
    reads that a window is over, and claims the order afterwards by its status alone. */
module WindowTheorems {
  import opened Schema
  import opened Escrow

  const TWO_DAYS := 2 * 24 * 3_600_000

  /** The step delivers the package of the order, now or as it was read earlier. */
  ghost predicate Delivers(s: State, s': State, o: nat) {
    || Next(s, Transition(o, OrderWindow), s')
    || exists c: nat :: c in s.calls && s.calls[c] == WillWrite(o, OrderWindow) && Next(s, WriteTransition(c), s')
  }

  function WindowOf(s: State, o: nat): Option<int> {
    if o < |s.orders| then s.orders[o].windowEndsAt else None
  }

  /** What the timer reads: delivered, and the window over. */
  predicate ReadsOver(s: State, o: nat) {
    o < |s.orders| && s.orders[o].status == OrderWindow && WindowOf(s, o).Some? && WindowOf(s, o).value <= s.now
  }

  // ---------------------------------------------------------------------------
  // One step
  // ---------------------------------------------------------------------------

  lemma DeliveryOpens(s: State, s': State, o: nat)
    requires Delivers(s, s', o)
    ensures WindowOf(s', o) == Some(s.now + TWO_DAYS) && s'.orders[o].status == OrderWindow && s'.now == s.now
  {
  }

  lemma WindowAfterInstant(s: State, step: Step, s': State, o: nat)
    requires Instantly(s, step, s') && step != Transition(o, OrderWindow)
    ensures WindowOf(s', o) == WindowOf(s, o) && s'.now >= s.now
  {
  }

  lemma WindowAfterShipping(s: State, step: Step, s': State, o: nat)
    requires Ships(s, step, s')
    ensures WindowOf(s', o) == WindowOf(s, o) && s'.now == s.now
  {
  }

  lemma WindowAfterDecision(s: State, step: Step, s': State, o: nat)
    requires Decides(s, step, s')
    ensures WindowOf(s', o) == WindowOf(s, o) && s'.now == s.now
  {
  }

  lemma WindowAfterCall(s: State, step: Step, s': State, o: nat)
    requires Follows(s, step, s')
    requires step.WriteTransition? ==> s.calls[step.call] != WillWrite(o, OrderWindow)
    ensures WindowOf(s', o) == WindowOf(s, o) && s'.now == s.now
  {
  }

  /** Only a delivery writes the end of a window. */
  lemma WindowStep(s: State, step: Step, s': State, o: nat)
    requires Next(s, step, s')
    ensures s'.now >= s.now
    ensures Delivers(s, s', o) || WindowOf(s', o) == WindowOf(s, o)
  {
    if Instant(step) {
      if step == Transition(o, OrderWindow) {
        DeliveryOpens(s, s', o);
      } else {
        WindowAfterInstant(s, step, s', o);
      }
    } else if OfShipment(step) {
      WindowAfterShipping(s, step, s', o);
    } else if Decision(step) {
      WindowAfterDecision(s, step, s', o);
    } else if step.WriteTransition? && s.calls[step.call] == WillWrite(o, OrderWindow) {
      assert step == WriteTransition(step.call);
      assert Delivers(s, s', o);
      DeliveryOpens(s, s', o);
    } else {
      WindowAfterCall(s, step, s', o);
    }
  }

  // ---------------------------------------------------------------------------
  // Whole runs
  // ---------------------------------------------------------------------------

  ghost predicate DeliveredAt(states: seq<State>, k: nat, o: nat) {
    k + 1 < |states| && Delivers(states[k], states[k + 1], o)
  }

  /** A state of a run, as far as the window of one order goes: the time, the end of the
      window, and whether the step taken then delivers. */
  datatype Tick = Tick(now: int, window: Option<int>, delivers: bool)

  ghost function Trace(states: seq<State>, o: nat): seq<Tick> {
    seq(|states|, k requires 0 <= k < |states| => Tick(states[k].now, WindowOf(states[k], o), DeliveredAt(states, k, o)))
  }

  predicate After(x: Tick, y: Tick) {
    x.now <= y.now && y.window == if x.delivers then Some(x.now + TWO_DAYS) else x.window
  }

  predicate IsTrace(ticks: seq<Tick>) {
    && ticks != [] && ticks[0].window == None
    && forall k | 0 <= k < |ticks| - 1 :: After(ticks[k], ticks[k + 1])
  }

  lemma StepTicks(s: State, s': State, o: nat)
    requires CanStep(s, s')
    ensures s.now <= s'.now && WindowOf(s', o) == if Delivers(s, s', o) then Some(s.now + TWO_DAYS) else WindowOf(s, o)
  {
    var step :| Next(s, step, s');
    WindowStep(s, step, s', o);
    if Delivers(s, s', o) {
      DeliveryOpens(s, s', o);
    }
  }

  lemma RunSteps(states: seq<State>, k: nat)
    requires IsRun(states) && k + 1 < |states|
    ensures CanStep(states[k], states[k + 1])
  {
  }

  lemma TraceGoesOn(states: seq<State>, o: nat, k: nat)
    requires IsRun(states) && k + 1 < |states|
    ensures After(Trace(states, o)[k], Trace(states, o)[k + 1])
  {
    RunSteps(states, k);
    StepTicks(states[k], states[k + 1], o);
  }

  lemma RunIsTrace(states: seq<State>, o: nat)
    requires IsRun(states)
    ensures IsTrace(Trace(states, o))
  {
    forall k | 0 <= k < |states| - 1
      ensures After(Trace(states, o)[k], Trace(states, o)[k + 1])
    {
      TraceGoesOn(states, o, k);
    }
  }

  lemma {:induction false} TimeGrows(ticks: seq<Tick>, j: nat, i: nat)
    requires IsTrace(ticks) && j <= i < |ticks|
    ensures ticks[j].now <= ticks[i].now
  {
    if j < i {
      TimeGrows(ticks, j, i - 1);
      assert After(ticks[i - 1], ticks[i - 1 + 1]);
    }
  }

  /** The last delivery since `j`, if there was one, set the window. */
  lemma {:induction false} LastDelivery(ticks: seq<Tick>, j: nat, i: nat) returns (k: nat)
    requires IsTrace(ticks) && j <= i < |ticks|
    ensures j <= k <= i
    ensures k == i ==> ticks[i].window == ticks[j].window
    ensures k < i ==> ticks[k].delivers && ticks[i].window == Some(ticks[k].now + TWO_DAYS)
    ensures forall m | j <= m < i && ticks[m].delivers :: m <= k < i
  {
    if i == j {
      k := i;
    } else {
      assert After(ticks[i - 1], ticks[i - 1 + 1]);
      k := LastDelivery(ticks, j, i - 1);
      if ticks[i - 1].delivers {
        k := i - 1;
      } else if k == i - 1 {
        k := i;
      }
    }
  }

  /** Every window was opened by a delivery two days before its end. */
  lemma WindowsAreOpened(states: seq<State>, j: nat, o: nat) returns (k: nat)
    requires IsRun(states) && j < |states| && WindowOf(states[j], o).Some?
    ensures k < j && DeliveredAt(states, k, o) && WindowOf(states[j], o) == Some(states[k].now + TWO_DAYS)
  {
    RunIsTrace(states, o);
    k := LastDelivery(Trace(states, o), 0, j);
  }

  /** The timer never releases an order less than two days after a delivery of its package:
      whenever it claims one after reading, at any earlier moment, that the window was over. */
  lemma NoEarlyRelease(states: seq<State>, j: nat, i: nat, o: nat) returns (k: nat)
    requires IsRun(states) && j <= i < |states| && ReadsOver(states[j], o)
    ensures k < j && DeliveredAt(states, k, o) && states[i].now >= states[k].now + TWO_DAYS
  {
    k := WindowsAreOpened(states, j, o);
    RunIsTrace(states, o);
    TimeGrows(Trace(states, o), j, i);
  }

  ghost predicate DeliveredAgain(states: seq<State>, j: nat, i: nat, o: nat) {
    exists k: nat :: j <= k < i < |states| && DeliveredAt(states, k, o) && states[i].now < states[k].now + TWO_DAYS
  }

  /** The claim looks at the status alone. When it comes, the window is open again if and
      only if the package was delivered again since the read, less than two days before. */
  lemma ReleasedInsideIff(states: seq<State>, j: nat, i: nat, o: nat)
    requires IsRun(states) && j <= i < |states| && ReadsOver(states[j], o)
    requires o < |states[i].orders| && states[i].orders[o].status == OrderWindow
    ensures !ReadsOver(states[i], o) <==> DeliveredAgain(states, j, i, o)
  {
    RunIsTrace(states, o);
    var ticks := Trace(states, o);
    var k := LastDelivery(ticks, j, i);
    TimeGrows(ticks, j, i);
    if k < i {
      assert DeliveredAt(states, k, o);
    }
    if DeliveredAgain(states, j, i, o) {
      var m: nat :| j <= m < i < |states| && DeliveredAt(states, m, o) && states[i].now < states[m].now + TWO_DAYS;
      assert ticks[m].delivers;
      TimeGrows(ticks, m, k);
    }
  }
}
