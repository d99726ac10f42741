/** What every run of the withdrawal rail guarantees. */
module WithdrawalTheorems {
  import opened Schema
  import opened Books
  import opened Withdrawals

  // ---------------------------------------------------------------------------
  // No payout is handed back
  // ---------------------------------------------------------------------------

  /** A withdrawal whose transfer landed was debited and is never reversed, however settle
      calls repeat, overlap and crash. */
  lemma LandedIsNeverReversed(states: seq<State>, i: nat, w: nat)
    requires IsRun(states) && i < |states| && HasLanded(states[i].txs, w)
    ensures DebitPosted(states[i], w) && !ReversalPosted(states[i], w)
  {
    RunKeeps(states, i);
    var s := states[i];
    var g :| 0 <= g < |s.txs| && s.txs[g] == Tx(w, Landed);
    assert s.txs[g].payout < |s.rows|;
    assert RowSafe(s.rows[w], w, s.entries, s.txs);
  }

  /** A withdrawal is broadcast at most once, and reversed by at most one ledger row. */
  lemma SentAndReversedAtMostOnce(states: seq<State>, i: nat, w: nat)
    requires IsRun(states) && i < |states|
    ensures var s := states[i];
            && (forall g, h | 0 <= g < |s.txs| && 0 <= h < |s.txs| && s.txs[g].payout == w
                && s.txs[h].payout == w :: g == h)
            && (forall x, y | 0 <= x < |s.entries| && 0 <= y < |s.entries|
                  && s.entries[x].key == Some(WithdrawReverseKey(w))
                     && s.entries[y].key == Some(WithdrawReverseKey(w)) :: x == y)
  {
    RunKeeps(states, i);
  }

  function LandedTotal(txs: seq<Tx>, rows: seq<Payout>): int {
    if rows == [] then 0
    else
      var n := |rows| - 1;
      LandedTotal(txs, rows[..n]) + (if HasLanded(txs, n) then rows[n].amount else 0)
  }

  lemma {:induction false} LandedWithinOutstanding(s: State, n: nat)
    requires Inv(s) && n <= |s.rows|
    ensures LandedTotal(s.txs, s.rows[..n]) <= TotalOutstanding(s.entries, s.rows[..n])
  {
    if n > 0 {
      LandedWithinOutstanding(s, n - 1);
      assert s.rows[..n][..n - 1] == s.rows[..n - 1];
      assert RowSafe(s.rows[n - 1], n - 1, s.entries, s.txs);
    }
  }

  /** In every run, what has left on chain never exceeds the debits that stand - and those
      are exactly what the ledger's external account shows. */
  lemma PayoutsNeverExceedDebits(states: seq<State>, i: nat)
    requires IsRun(states) && i < |states|
    ensures var s := states[i];
            && LandedTotal(s.txs, s.rows) <= TotalOutstanding(s.entries, s.rows)
            && TotalOutstanding(s.entries, s.rows) == Settled(s.entries, External) - s.elsewhere
  {
    RunKeeps(states, i);
    LandedWithinOutstanding(states[i], |states[i].rows|);
    assert states[i].rows[..|states[i].rows|] == states[i].rows;
  }

  /** The status of a row can be believed. */
  lemma StatusTellsTheTruth(states: seq<State>, i: nat, w: nat)
    requires IsRun(states) && i < |states| && w < |states[i].rows|
    ensures var s := states[i];
            match s.rows[w].status
            case PayoutConfirmed => HasLanded(s.txs, w) && DebitPosted(s, w) && !ReversalPosted(s, w)
            case PayoutFailed => !HasLanded(s.txs, w) && (DebitPosted(s, w) ==> ReversalPosted(s, w))
            case PayoutPending => true
            case _ => DebitPosted(s, w) && s.rows[w].sig.Some?
  {
    RunKeeps(states, i);
    var s := states[i];
    assert RowSafe(s.rows[w], w, s.entries, s.txs);
    if s.rows[w].sig.Some? {
      assert s.txs[s.rows[w].sig.value].payout == w;
    }
    if s.rows[w].status == PayoutConfirmed {
      assert s.txs[s.rows[w].sig.value] == Tx(w, Landed);
    }
  }

  // ---------------------------------------------------------------------------
  // The rolling limits
  // ---------------------------------------------------------------------------

  predicate WindowOk(s: State, m: Measure, user: nat, from: int) {
    WindowTotal(m, s.rows, user, from, from + DAY_MS) <= Limit(m, s.limits)
  }

  /** Over every closed 24-hour window, a user's withdrawals that have not failed are within
      each of the three limits. */
  ghost predicate EveryWindow(s: State) {
    forall m, user, from :: WindowOk(s, m, user, from)
  }

  predicate RowTimes(rows: seq<Payout>, now: int) {
    forall v | 0 <= v < |rows| :: rows[v].createdAt <= now && rows[v].amount >= 0
  }

  /** Rows only change their standing, and a failed one stays failed. */
  predicate OnlyFail(rows: seq<Payout>, after: seq<Payout>) {
    && |after| == |rows|
    && forall v | 0 <= v < |rows| ::
         && after[v].user == rows[v].user && after[v].amount == rows[v].amount
         && after[v].createdAt == rows[v].createdAt && after[v].funded == rows[v].funded
         && (rows[v].status == PayoutFailed ==> after[v].status == PayoutFailed)
  }

  lemma {:induction false} FailingLowers(m: Measure, rows: seq<Payout>, after: seq<Payout>, user: nat,
      from: int, to: int)
    requires OnlyFail(rows, after)
    requires forall v | 0 <= v < |rows| :: rows[v].amount >= 0
    ensures WindowTotal(m, after, user, from, to) <= WindowTotal(m, rows, user, from, to)
  {
    if rows != [] {
      FailingLowers(m, rows[..|rows| - 1], after[..|rows| - 1], user, from, to);
    }
  }

  lemma WriteKeepsWindows(s: State, s': State)
    requires EveryWindow(s) && RowTimes(s.rows, s.now) && OnlyFail(s.rows, s'.rows) && s'.limits == s.limits
    ensures EveryWindow(s')
  {
    forall m, user, from
      ensures WindowOk(s', m, user, from)
    {
      assert WindowOk(s, m, user, from);
      FailingLowers(m, s.rows, s'.rows, user, from, from + DAY_MS);
    }
  }

  /** When every row is from no later than `c`, a window that starts no earlier holds no more. */
  lemma {:induction false} WiderHoldsMore(m: Measure, rows: seq<Payout>, user: nat, from: int, to: int, c: int)
    requires forall v | 0 <= v < |rows| :: rows[v].createdAt <= c && rows[v].amount >= 0
    requires c - DAY_MS <= from
    ensures WindowTotal(m, rows, user, from, to) <= WindowTotal(m, rows, user, c - DAY_MS, c)
  {
    if rows != [] {
      WiderHoldsMore(m, rows[..|rows| - 1], user, from, to, c);
    }
  }

  /** The request tests one window, the day up to now; that is enough for all of them. */
  lemma CreateKeepsWindows(s: State, step: Step, s': State)
    requires EveryWindow(s) && RowTimes(s.rows, s.now) && Next(s, step, s') && step.Create?
    ensures EveryWindow(s')
  {
    var n := |s.rows|;
    assert s'.rows[..n] == s.rows;
    forall m, user, from
      ensures WindowOk(s', m, user, from)
    {
      assert WindowOk(s, m, user, from);
      if InWindow(s'.rows[n], user, from, from + DAY_MS) {
        WiderHoldsMore(m, s.rows, user, from, from + DAY_MS, s.now);
      }
    }
  }

  // ---------------------------------------------------------------------------
  // The flag for review
  // ---------------------------------------------------------------------------

  predicate OverfullOver(s: State, w: nat, m: Measure, from: int)
    requires w < |s.rows|
  {
    && from <= s.rows[w].createdAt <= from + DAY_MS
    && WindowTotal(m, s.rows, s.rows[w].user, from, from + DAY_MS) + Weight(m, s.rows[w]) > Limit(m, s.limits)
  }

  /** The row has failed, and some window around it has no room for it any more. */
  ghost predicate Overfull(s: State, w: nat) {
    w < |s.rows| && s.rows[w].status == PayoutFailed && exists m, from :: OverfullOver(s, w, m, from)
  }

  /** What a flag adds to a window: the row itself, if it had failed. */
  lemma {:induction false} FlagAdds(m: Measure, rows: seq<Payout>, w: nat, user: nat, from: int, to: int)
    requires w < |rows|
    ensures var p := rows[w];
            WindowTotal(m, rows[w := p.(status := PayoutNeedsReview)], user, from, to)
            == WindowTotal(m, rows, user, from, to)
               + if p.status == PayoutFailed && p.user == user && from <= p.createdAt <= to then Weight(m, p) else 0
  {
    var n := |rows| - 1;
    var after := rows[w := rows[w].(status := PayoutNeedsReview)];
    if w == n {
      assert after[..n] == rows[..n];
    } else {
      assert after[..n] == rows[..n][w := rows[w].(status := PayoutNeedsReview)];
      FlagAdds(m, rows[..n], w, user, from, to);
    }
  }

  /** The reconciler's flag is written without a condition. It breaks a limit exactly if its
      row has failed meanwhile and a window around the row is full again; a failed row with
      room left, or one that has not failed, does no harm. */
  lemma FlagBreaksALimitIff(s: State, c: nat, s': State)
    requires EveryWindow(s) && Next(s, MarkNeedsReview(c), s')
    ensures EveryWindow(s') <==> !Overfull(s, s.calls[c].payout)
  {
    var w := s.calls[c].payout;
    var p := s.rows[w];
    if Overfull(s, w) {
      var m, from :| OverfullOver(s, w, m, from);
      FlagAdds(m, s.rows, w, p.user, from, from + DAY_MS);
      assert !WindowOk(s', m, p.user, from);
    } else {
      forall m, user, from
        ensures WindowOk(s', m, user, from)
      {
        assert WindowOk(s, m, user, from);
        FlagAdds(m, s.rows, w, user, from, from + DAY_MS);
        assert p.status == PayoutFailed ==> !OverfullOver(s, w, m, from);
      }
    }
  }

  lemma UnwrittenRows(s: State, step: Step, s': State)
    requires Next(s, step, s') && !step.Create? && !WritesRow(step)
    ensures s'.rows == s.rows && s'.limits == s.limits
  {
  }

  lemma OtherStepsFail(s: State, step: Step, s': State)
    requires CallsSafe(s) && Next(s, step, s') && !step.Create? && !step.MarkNeedsReview?
    ensures OnlyFail(s.rows, s'.rows) && s'.limits == s.limits
  {
    if WritesRow(step) {
      var w := s.calls[step.call].payout;
      assert CallSafe(s.calls[step.call], s.rows[w], s.entries, s.txs);
    } else {
      UnwrittenRows(s, step, s');
    }
  }

  lemma OtherStepKeepsWindows(s: State, step: Step, s': State)
    requires Inv(s) && EveryWindow(s) && RowTimes(s.rows, s.now) && Next(s, step, s') && !step.MarkNeedsReview?
    ensures EveryWindow(s')
  {
    if step.Create? {
      CreateKeepsWindows(s, step, s');
    } else {
      OtherStepsFail(s, step, s');
      WriteKeepsWindows(s, s');
    }
  }

  lemma TimesStay(s: State, step: Step, s': State)
    requires RowTimes(s.rows, s.now) && Next(s, step, s')
    ensures RowTimes(s'.rows, s'.now)
  {
  }

  lemma {:induction false} RunKeepsTimes(states: seq<State>, i: nat)
    requires IsRun(states) && i < |states|
    ensures RowTimes(states[i].rows, states[i].now)
  {
    if i > 0 {
      RunKeepsTimes(states, i - 1);
      assert CanStep(states[i - 1], states[i - 1 + 1]);
      var step :| Next(states[i - 1], step, states[i]);
      TimesStay(states[i - 1], step, states[i]);
    }
  }

  // ---------------------------------------------------------------------------
  // Whole runs
  // ---------------------------------------------------------------------------

  ghost predicate WithinAt(states: seq<State>, i: nat) {
    i < |states| && EveryWindow(states[i])
  }

  /** The step is a flag for a failed row whose window is full again. */
  ghost predicate OverflowsAt(states: seq<State>, i: nat) {
    && i + 1 < |states|
    && exists c: nat :: Next(states[i], MarkNeedsReview(c), states[i + 1]) && Overfull(states[i], states[i].calls[c].payout)
  }

  /** The step goes from within the limits to within the limits unless it overflows. */
  ghost predicate TurnsAt(states: seq<State>, i: nat) {
    WithinAt(states, i) ==> (WithinAt(states, i + 1) <==> !OverflowsAt(states, i))
  }

  lemma EveryStepTurns(states: seq<State>, i: nat)
    requires IsRun(states) && i + 1 < |states|
    ensures TurnsAt(states, i)
  {
    RunKeeps(states, i);
    RunKeepsTimes(states, i);
    assert CanStep(states[i], states[i + 1]);
    if WithinAt(states, i) {
      if OverflowsAt(states, i) {
        var c: nat :| Next(states[i], MarkNeedsReview(c), states[i + 1])
          && Overfull(states[i], states[i].calls[c].payout);
        FlagBreaksALimitIff(states[i], c, states[i + 1]);
      } else {
        var step :| Next(states[i], step, states[i + 1]);
        if step.MarkNeedsReview? {
          FlagBreaksALimitIff(states[i], step.call, states[i + 1]);
        } else {
          OtherStepKeepsWindows(states[i], step, states[i + 1]);
        }
      }
    }
  }

  lemma {:induction false} WithinChain(states: seq<State>, n: nat)
    requires WithinAt(states, 0) && forall i | 0 <= i < n :: TurnsAt(states, i)
    ensures (forall i | 0 <= i <= n :: WithinAt(states, i)) <==> (forall i | 0 <= i < n :: !OverflowsAt(states, i))
  {
    if n > 0 {
      WithinChain(states, n - 1);
      assert TurnsAt(states, n - 1);
    }
  }

  lemma StartsWithin(states: seq<State>)
    requires IsRun(states)
    ensures WithinAt(states, 0)
  {
    assert forall m, user, from :: WindowOk(states[0], m, user, from);
  }

  /** Over every run: all limits hold over every window throughout if and only if no flag
      hits a failed row whose window is full again. */
  lemma LimitsHoldIff(states: seq<State>, n: nat)
    requires IsRun(states) && n < |states|
    ensures (forall i | 0 <= i <= n :: WithinAt(states, i)) <==> (forall i | 0 <= i < n :: !OverflowsAt(states, i))
  {
    StartsWithin(states);
    forall i | 0 <= i < n { EveryStepTurns(states, i); }
    WithinChain(states, n);
  }

  /** The limits are tested only when a row is created, and yet hold over every closed
      24-hour window, as long as no such flag is written: the dollars, the number of
      withdrawals and the number of newly funded destinations of one user. */
  lemma EveryDayIsWithinTheLimits(states: seq<State>, n: nat, m: Measure, user: nat, from: int)
    requires IsRun(states) && n < |states| && forall i | 0 <= i < n :: !OverflowsAt(states, i)
    ensures WindowTotal(m, states[n].rows, user, from, from + 24 * 3_600_000) <= Limit(m, states[0].limits)
  {
    LimitsHoldIff(states, n);
    RunKeeps(states, n);
    assert WithinAt(states, n);
    assert WindowOk(states[n], m, user, from);
  }

  const TenADay := Limits(1, 10, 5, 5)

  /** A day's limit of ten, and a withdrawal of ten that is debited. */
  lemma TenDebited() returns (states: seq<State>)
    ensures IsRun(states)
    ensures states[|states| - 1] ==
            State(TenADay, 0, [Payout(7, 10, PayoutPending, None, None, 0, false)],
                  DebitLegs(7, 10, Some(WithdrawKey(0))), [], map[1 := Debited(0)], 0)
  {
    var s0 := State(TenADay, 0, [], [], [], map[], 0);
    var s1 := SetCall(s0.(rows := [Payout(7, 10, PayoutPending, None, None, 0, false)]), 1, Created(0));
    states := [s0];
    Extend(states, Create(1, 7, 10, false), s1);
    states := states + [s1];
    var s2 := SetCall(s1.(entries := DebitLegs(7, 10, Some(WithdrawKey(0)))), 1, Debited(0));
    assert s1.entries + DebitLegs(7, 10, Some(WithdrawKey(0))) == s2.entries;
    Extend(states, PostDebit(1), s2);
    states := states + [s2];
  }

  /** It is broadcast; the call has not recorded that yet. */
  lemma TenOut() returns (states: seq<State>)
    ensures IsRun(states)
    ensures states[|states| - 1] ==
            State(TenADay, 0, [Payout(7, 10, PayoutPending, None, None, 0, false)],
                  DebitLegs(7, 10, Some(WithdrawKey(0))), [Tx(0, InFlight)], map[1 := Sent(0, 0)], 0)
  {
    states := TenDebited();
    var s := states[|states| - 1];
    var s1 := SetCall(s.(txs := [Tx(0, InFlight)]), 1, Sent(0, 0));
    Extend(states, Send(1), s1);
    states := states + [s1];
  }

  /** It is recorded and not yet decided. */
  lemma TenSent() returns (states: seq<State>)
    ensures IsRun(states)
    ensures states[|states| - 1] ==
            State(TenADay, 0, [Payout(7, 10, PayoutSubmitted, Some(0), None, 0, false)],
                  DebitLegs(7, 10, Some(WithdrawKey(0))), [Tx(0, InFlight)], map[], 0)
  {
    states := TenOut();
    var s := states[|states| - 1];
    var s1 := SetCall(SetRow(s, 0, Payout(7, 10, PayoutSubmitted, Some(0), None, 0, false)), 1, Asking(0, 0, false));
    Extend(states, MarkSubmitted(1), s1);
    states := states + [s1];
    Extend(states, GiveUp(1), EndCall(s1, 1));
    states := states + [EndCall(s1, 1)];
  }

  /** Such a run: the reconciler finds a withdrawal unresolved for too long; before
      it flags the row, another call reverses the withdrawal and the user, whose limit is
      free again, starts the next one; then the flag overwrites FAILED, and the day counts
      twice the limit. */
  lemma StaleFlagBreaksTheLimit() returns (states: seq<State>)
    ensures IsRun(states)
    ensures var s := states[|states| - 1];
            WindowTotal(Dollars, s.rows, 7, 0, DAY_MS) > Limit(Dollars, s.limits)
  {
    states := FoundStuck();
    var s9 := states[|states| - 1];
    states := ReversedMeanwhile(states, s9);
    var s14 := states[|states| - 1];
    var s15 := SetCall(s14.(rows := s14.rows + [Payout(7, 10, PayoutPending, None, None, s14.now, false)]), 4, Created(1));
    assert s14.rows[..0] == [];
    Extend(states, Create(4, 7, 10, false), s15);
    states := states + [s15];
    var s16 := EndCall(SetRow(s15, 0, s15.rows[0].(status := PayoutNeedsReview)), 2);
    Extend(states, MarkNeedsReview(2), s16);
    states := states + [s16];
    assert s16.rows[..1][..0] == [];
    assert WindowTotal(Dollars, s16.rows[..1], 7, 0, DAY_MS) == 10;
  }

  /** The reconciler is about to flag the withdrawal; meanwhile its transfer has died. */
  lemma FoundStuck() returns (states: seq<State>)
    ensures IsRun(states)
    ensures states[|states| - 1] ==
            State(TenADay, STUCK_MS + 1, [Payout(7, 10, PayoutSubmitted, Some(0), None, 0, false)],
                  DebitLegs(7, 10, Some(WithdrawKey(0))), [Tx(0, Dropped)], map[2 := WillFlag(0)], 0)
  {
    states := TenSent();
    var s5 := states[|states| - 1];
    var s6 := s5.(now := STUCK_MS + 1);
    Extend(states, Pass(STUCK_MS + 1), s6);
    states := states + [s6];
    var s7 := SetCall(s6, 2, Asking(0, 0, true));
    Extend(states, BeginSettle(2, 0, true), s7);
    states := states + [s7];
    var s8 := SetCall(s7, 2, WillFlag(0));
    Extend(states, FindStuck(2), s8);
    states := states + [s8];
    var s9 := s8.(txs := [Tx(0, Dropped)]);
    Extend(states, Drop(0), s9);
    states := states + [s9];
  }

  lemma ReversedMeanwhile(before: seq<State>, s9: State) returns (states: seq<State>)
    requires IsRun(before) && s9 == before[|before| - 1] && 3 !in s9.calls
    requires s9.rows == [Payout(7, 10, PayoutSubmitted, Some(0), None, 0, false)]
    requires s9.entries == DebitLegs(7, 10, Some(WithdrawKey(0))) && s9.txs == [Tx(0, Dropped)]
    ensures IsRun(states)
    ensures var s := states[|states| - 1];
            s == s9.(rows := [Payout(7, 10, PayoutFailed, Some(0), Some(s9.now), 0, false)],
                     entries := s9.entries + CreditLegs(7, 10, Some(WithdrawReverseKey(0))))
  {
    states := ReversalBegun(before, s9);
    var s12 := states[|states| - 1];
    var s13 := SetCall(s12.(entries := s12.entries + CreditLegs(7, 10, Some(WithdrawReverseKey(0)))), 3, WillMarkFailed(0));
    assert !ReversalPosted(s12, 0);
    Extend(states, PostReversal(3), s13);
    states := states + [s13];
    var s14 := EndCall(SetRow(s13, 0, Payout(7, 10, PayoutFailed, Some(0), Some(s13.now), 0, false)), 3);
    Extend(states, MarkFailed(3), s14);
    states := states + [s14];
  }

  lemma ReversalBegun(before: seq<State>, s9: State) returns (states: seq<State>)
    requires IsRun(before) && s9 == before[|before| - 1] && 3 !in s9.calls
    requires s9.rows == [Payout(7, 10, PayoutSubmitted, Some(0), None, 0, false)] && s9.txs == [Tx(0, Dropped)]
    ensures IsRun(states) && states[|states| - 1] == SetCall(s9, 3, WillCredit(0))
  {
    states := before;
    var s10 := SetCall(s9, 3, Asking(0, 0, false));
    Extend(states, BeginSettle(3, 0, false), s10);
    states := states + [s10];
    var s11 := SetCall(s10, 3, WillReverse(0));
    Extend(states, Ask(3, Dead), s11);
    states := states + [s11];
    var s12 := SetCall(s11, 3, WillCredit(0));
    Extend(states, ReadForReversal(3), s12);
    states := states + [s12];
  }
}
