/** Where a crash leaves a debit that nobody looks after (packages/backend/src/
    withdrawals.ts). The reconciler only lists SUBMITTED and NEEDS_REVIEW rows with a
    signature. */
module WithdrawalCrashes {
  import opened Schema
  import opened Books
  import opened Withdrawals
  import opened WithdrawalTheorems

  predicate NoCalls(s: State, w: nat) {
    forall c | c in s.calls :: s.calls[c].payout != w
  }

  /** The reconciler's query finds the row. */
  predicate Listed(p: Payout) {
    Unsettled(p) && p.sig.Some?
  }

  /** The debit stands, its withdrawal is not done, and neither a call nor the reconciler is
      going to do anything about it. */
  predicate Stranded(s: State, w: nat) {
    && w < |s.rows| && DebitPosted(s, w) && !ReversalPosted(s, w) && s.rows[w].status != PayoutConfirmed
    && NoCalls(s, w) && !Listed(s.rows[w])
  }

  lemma StrandedIsPending(s: State, w: nat)
    requires Inv(s) && w < |s.rows| && DebitPosted(s, w) && !ReversalPosted(s, w) && NoCalls(s, w)
    ensures Stranded(s, w) <==> s.rows[w].status == PayoutPending
  {
    assert RowSafe(s.rows[w], w, s.entries, s.txs);
  }

  // ---------------------------------------------------------------------------
  // A pending row belongs to its request
  // ---------------------------------------------------------------------------

  /** What the request that made a row may be at before it records the broadcast. */
  predicate BeforeRecord(call: Call) {
    Requesting(call) || call.WillReverse? || call.WillCredit? || call.WillMarkFailed?
  }

  predicate PendingOk(s: State, c: nat) {
    At(s, c) && s.rows[s.calls[c].payout].status == PayoutPending ==>
      && BeforeRecord(s.calls[c])
      && (ReversalPosted(s, s.calls[c].payout) ==> s.calls[c].WillMarkFailed?)
  }

  predicate PendingAlone(s: State, c: nat, d: nat) {
    At(s, c) && At(s, d) && s.rows[s.calls[c].payout].status == PayoutPending && s.calls[d].payout == s.calls[c].payout ==> c == d
  }

  ghost predicate PendingInv(s: State) {
    && (forall c: nat :: PendingOk(s, c))
    && (forall c: nat, d: nat :: PendingAlone(s, c, d))
  }

  predicate ByCall(step: Step, c: nat) {
    match step
    case Create(d, _, _, _) => c == d
    case PostDebit(d) => c == d
    case RejectDebit(d) => c == d
    case MarkRejected(d) => c == d
    case Send(d) => c == d
    case SendThrows(d) => c == d
    case MarkSubmitted(d) => c == d
    case BeginSettle(d, _, _) => c == d
    case Ask(d, _) => c == d
    case FindStuck(d) => c == d
    case GiveUp(d) => c == d
    case MarkConfirmed(d) => c == d
    case ReadForReversal(d) => c == d
    case PostReversal(d) => c == d
    case MarkFailed(d) => c == d
    case MarkNeedsReview(d) => c == d
    case Crash(d) => c == d
    case _ => false
  }

  lemma OtherCallsGoOn(s: State, step: Step, s': State, d: nat)
    requires Next(s, step, s') && !ByCall(step, d)
    ensures d in s'.calls <==> d in s.calls
    ensures d in s.calls ==> s'.calls[d] == s.calls[d]
  {
  }

  /** A row is pending only from the start. */
  lemma PendingFromTheStart(s: State, step: Step, s': State, w: nat)
    requires Next(s, step, s') && w < |s'.rows| && s'.rows[w].status == PayoutPending
    ensures w < |s.rows| ==> s.rows[w].status == PayoutPending
    ensures |s.rows| <= w ==> step.Create? && w == |s.rows|
  {
  }

  /** Withdrawal keys are posted by their own call. */
  lemma KeysOf(s: State, step: Step, s': State, w: nat)
    requires Inv(s) && Next(s, step, s')
    requires (step.PostDebit? || step.PostReversal?) && At(s, step.call) ==> s.calls[step.call].payout != w
    ensures DebitPosted(s', w) <==> DebitPosted(s, w)
    ensures ReversalPosted(s', w) <==> ReversalPosted(s, w)
  {
    if step.Other? {
      OtherKeys(s.entries, step.legs, w);
    } else if step.PostDebit? || step.PostReversal? {
      OtherWithdrawalPosts(s, step, s', w);
    } else {
      QuietLedger(s, step, s');
    }
  }

  lemma QuietLedger(s: State, step: Step, s': State)
    requires Next(s, step, s') && !step.Other? && !step.PostDebit? && !step.PostReversal?
    ensures s'.entries == s.entries
  {
  }

  lemma OtherWithdrawalPosts(s: State, step: Step, s': State, w: nat)
    requires Inv(s) && Next(s, step, s') && (step.PostDebit? || step.PostReversal?) && s.calls[step.call].payout != w
    ensures DebitPosted(s', w) <==> DebitPosted(s, w)
    ensures ReversalPosted(s', w) <==> ReversalPosted(s, w)
  {
    var v := s.calls[step.call].payout;
    var p := s.rows[v];
    assert CallSafe(s.calls[step.call], p, s.entries, s.txs) && RowSafe(p, v, s.entries, s.txs);
    if step.PostDebit? {
      DebitPosts(s.entries, v, p.user, p.amount);
    } else if !KeyPosted(s.entries, WithdrawReverseKey(v)) {
      ReversalPosts(s.entries, v, p.user, p.amount);
    }
  }

  lemma OwnCallGoesOn(s: State, step: Step, s': State, c: nat)
    requires Next(s, step, s') && ByCall(step, c) && c in s.calls && c in s'.calls
    ensures s'.calls[c].payout == s.calls[c].payout
  {
  }

  /** What the call's own step leaves of a pending row. */
  lemma OwnPendingStaysOk(s: State, step: Step, s': State, c: nat)
    requires Inv(s) && PendingOk(s, c) && Next(s, step, s') && ByCall(step, c)
    ensures PendingOk(s', c)
  {
    if At(s', c) && s'.rows[s'.calls[c].payout].status == PayoutPending {
      PendingFromTheStart(s, step, s', s'.calls[c].payout);
      if step.Create? {
        assert !ReversalPosted(s', s'.calls[c].payout);
      } else if c in s.calls {
        OwnCallGoesOn(s, step, s', c);
        OwnStage(s, step, s', c);
      }
    }
  }

  lemma OwnStage(s: State, step: Step, s': State, c: nat)
    requires Inv(s) && PendingOk(s, c) && Next(s, step, s') && ByCall(step, c) && At(s, c) && At(s', c)
             && s'.calls[c].payout == s.calls[c].payout
    requires s.rows[s.calls[c].payout].status == PayoutPending && s'.rows[s.calls[c].payout].status == PayoutPending
    ensures PendingOk(s', c)
  {
    var w := s.calls[c].payout;
    if step.PostDebit? {
      DebitIsNoReversal(s, c, s');
    } else if !step.PostReversal? {
      QuietLedger(s, step, s');
    }
  }

  lemma DebitIsNoReversal(s: State, c: nat, s': State)
    requires Inv(s) && Next(s, PostDebit(c), s')
    ensures ReversalPosted(s', s.calls[c].payout) <==> ReversalPosted(s, s.calls[c].payout)
  {
    var w := s.calls[c].payout;
    assert CallSafe(s.calls[c], s.rows[w], s.entries, s.txs);
    DebitPosts(s.entries, w, s.rows[w].user, s.rows[w].amount);
  }

  lemma PendingStaysOk(s: State, step: Step, s': State, c: nat)
    requires Inv(s) && PendingInv(s) && Next(s, step, s')
    ensures PendingOk(s', c)
  {
    assert PendingOk(s, c);
    if ByCall(step, c) {
      OwnPendingStaysOk(s, step, s', c);
    } else {
      OtherCallsGoOn(s, step, s', c);
      if At(s', c) && s'.rows[s'.calls[c].payout].status == PayoutPending {
        assert At(s, c);
        var w := s.calls[c].payout;
        PendingFromTheStart(s, step, s', w);
        if (step.PostDebit? || step.PostReversal?) && At(s, step.call) {
          assert PendingAlone(s, c, step.call);
        }
        KeysOf(s, step, s', w);
      }
    }
  }

  lemma NewCallElsewhere(s: State, step: Step, s': State, c: nat, d: nat)
    requires CallsSafe(s) && Next(s, step, s') && ByCall(step, c) && c !in s.calls && !ByCall(step, d)
    requires At(s', c) && At(s', d) && s'.rows[s'.calls[c].payout].status == PayoutPending
    ensures s'.calls[d].payout != s'.calls[c].payout
  {
    OtherCallsGoOn(s, step, s', d);
    assert At(s, d);
  }

  lemma PendingStaysAlone(s: State, step: Step, s': State, c: nat, d: nat)
    requires Inv(s) && PendingInv(s) && Next(s, step, s')
    ensures PendingAlone(s', c, d)
  {
    assert PendingAlone(s, c, d);
    if At(s', c) && At(s', d) && c != d && s'.rows[s'.calls[c].payout].status == PayoutPending
      && s'.calls[d].payout == s'.calls[c].payout {
      PendingFromTheStart(s, step, s', s'.calls[c].payout);
      OldCall(s, step, s', c, d);
      OldCall(s, step, s', d, c);
    }
  }

  /** One of two calls about a pending row was about it before the step. */
  lemma OldCall(s: State, step: Step, s': State, c: nat, d: nat)
    requires Inv(s) && Next(s, step, s') && c != d && At(s', c) && At(s', d)
    requires s'.rows[s'.calls[c].payout].status == PayoutPending && s'.calls[d].payout == s'.calls[c].payout
    ensures At(s, c) && s'.calls[c].payout == s.calls[c].payout
  {
    if ByCall(step, c) {
      OneCaller(step, c, d);
      if c !in s.calls {
        NewCallElsewhere(s, step, s', c, d);
      } else {
        OwnCallGoesOn(s, step, s', c);
      }
    } else {
      OtherCallsGoOn(s, step, s', c);
    }
    assert c in s.calls ==> At(s, c);
  }

  lemma OneCaller(step: Step, c: nat, d: nat)
    requires ByCall(step, c) && c != d
    ensures !ByCall(step, d)
  {
  }

  lemma StepKeepsPending(s: State, step: Step, s': State)
    requires Inv(s) && PendingInv(s) && Next(s, step, s')
    ensures PendingInv(s')
  {
    forall c: nat { PendingStaysOk(s, step, s', c); }
    forall c: nat, d: nat { PendingStaysAlone(s, step, s', c, d); }
  }

  lemma {:induction false} RunKeepsPending(states: seq<State>, i: nat)
    requires IsRun(states) && i < |states|
    ensures Inv(states[i]) && PendingInv(states[i])
  {
    RunKeeps(states, i);
    if i > 0 {
      RunKeepsPending(states, i - 1);
      assert CanStep(states[i - 1], states[i - 1 + 1]);
      var step :| Next(states[i - 1], step, states[i]);
      StepKeepsPending(states[i - 1], step, states[i]);
    }
  }

  // ---------------------------------------------------------------------------
  // The crash that strands
  // ---------------------------------------------------------------------------

  /** The request has posted its debit, and neither recorded the broadcast nor posted a
      reversal. */
  predicate BetweenDebitAndRecord(s: State, c: nat) {
    && At(s, c) && s.rows[s.calls[c].payout].status == PayoutPending
    && (s.calls[c].Debited? || s.calls[c].Sent? || s.calls[c].WillReverse? || s.calls[c].WillCredit?)
  }

  ghost predicate CrashStrands(s: State, s': State, w: nat) {
    exists c: nat :: Next(s, Crash(c), s') && BetweenDebitAndRecord(s, c) && s.calls[c].payout == w
  }

  lemma CrashLeaves(s: State, c: nat, s': State, w: nat)
    requires Inv(s) && PendingInv(s) && Next(s, Crash(c), s') && BetweenDebitAndRecord(s, c) && s.calls[c].payout == w
    ensures Stranded(s', w)
  {
    assert CallSafe(s.calls[c], s.rows[w], s.entries, s.txs) && PendingOk(s, c);
    forall d | d in s'.calls
      ensures s'.calls[d].payout != w
    {
      assert At(s, d) && PendingAlone(s, c, d);
    }
  }

  /** And no later step ever resolves it: the debit stands, and the row stays PENDING. */
  lemma StrandedStaysStranded(s: State, step: Step, s': State, w: nat)
    requires Inv(s) && Next(s, step, s') && Stranded(s, w)
    ensures Stranded(s', w) && s'.rows[w] == s.rows[w]
  {
    StrandedIsPending(s, w);
    StrandedRow(s, step, s', w);
    assert (step.PostDebit? || step.PostReversal?) && At(s, step.call) ==> s.calls[step.call].payout != w;
    KeysOf(s, step, s', w);
  }

  lemma StrandedRow(s: State, step: Step, s': State, w: nat)
    requires Next(s, step, s') && w < |s.rows| && NoCalls(s, w) && s.rows[w].status == PayoutPending
    ensures w < |s'.rows| && NoCalls(s', w) && s'.rows[w] == s.rows[w]
  {
  }

  /** Only a crash ends a call about a row that stays pending. */
  lemma OnlyCrashesEnd(s: State, step: Step, s': State, c: nat)
    requires Inv(s) && PendingOk(s, c) && Next(s, step, s') && At(s, c) && c !in s'.calls
    requires s.rows[s.calls[c].payout].status == PayoutPending
    requires s.calls[c].payout < |s'.rows| && s'.rows[s.calls[c].payout].status == PayoutPending
    ensures step == Crash(c)
  {
    assert RowSafe(s.rows[s.calls[c].payout], s.calls[c].payout, s.entries, s.txs);
    if !ByCall(step, c) {
      OtherCallsGoOn(s, step, s', c);
    }
  }

  lemma StrandingIsCrash(s: State, step: Step, s': State, w: nat)
    requires Inv(s) && PendingInv(s) && Next(s, step, s') && Inv(s') && Stranded(s', w) && !Stranded(s, w)
    ensures CrashStrands(s, s', w)
  {
    StrandedIsPending(s', w);
    PendingFromTheStart(s, step, s', w);
    if |s.rows| <= w {
      NewRowHasItsCall(s, step, s');
    } else if NoCalls(s, w) {
      NotWithoutACall(s, step, s', w);
    } else {
      var c :| c in s.calls && s.calls[c].payout == w;
      assert At(s, c) && PendingOk(s, c);
      if c in s'.calls {
        CallStaysAbout(s, step, s', c);
      } else {
        OnlyCrashesEnd(s, step, s', c);
        assert s'.entries == s.entries;
        assert CallSafe(s.calls[c], s.rows[w], s.entries, s.txs);
        assert BetweenDebitAndRecord(s, c);
      }
    }
  }

  lemma CallStaysAbout(s: State, step: Step, s': State, c: nat)
    requires Next(s, step, s') && c in s.calls && c in s'.calls
    ensures s'.calls[c].payout == s.calls[c].payout
  {
    if ByCall(step, c) {
      OwnCallGoesOn(s, step, s', c);
    } else {
      OtherCallsGoOn(s, step, s', c);
    }
  }

  /** Without a call about it a row is not debited. */
  lemma NotWithoutACall(s: State, step: Step, s': State, w: nat)
    requires Inv(s) && Next(s, step, s') && w < |s.rows| && NoCalls(s, w) && s.rows[w].status == PayoutPending
             && Stranded(s', w)
    ensures Stranded(s, w)
  {
    assert (step.PostDebit? || step.PostReversal?) && At(s, step.call) ==> s.calls[step.call].payout != w;
    KeysOf(s, step, s', w);
    StrandedIsPending(s, w);
  }

  lemma NewRowHasItsCall(s: State, step: Step, s': State)
    requires Next(s, step, s') && step.Create?
    ensures !NoCalls(s', |s.rows|)
  {
    assert s'.calls[step.call].payout == |s.rows|;
  }

  ghost predicate StrandsAt(states: seq<State>, i: nat, w: nat) {
    i + 1 < |states| && CrashStrands(states[i], states[i + 1], w)
  }

  lemma RunStepStrandsIff(states: seq<State>, i: nat, w: nat)
    requires IsRun(states) && i + 1 < |states|
    ensures Stranded(states[i + 1], w) <==> Stranded(states[i], w) || StrandsAt(states, i, w)
  {
    RunKeepsPending(states, i);
    RunKeepsPending(states, i + 1);
    var (s, s') := (states[i], states[i + 1]);
    assert CanStep(s, s');
    var step :| Next(s, step, s');
    if Stranded(s, w) {
      StrandedStaysStranded(s, step, s', w);
    } else if StrandsAt(states, i, w) {
      var c: nat :| Next(s, Crash(c), s') && BetweenDebitAndRecord(s, c) && s.calls[c].payout == w;
      CrashLeaves(s, c, s', w);
    } else if Stranded(s', w) {
      StrandingIsCrash(s, step, s', w);
    }
  }

  /** Over every run: a debit is stranded if and only if its request crashed after posting it
      and before recording the broadcast or posting a reversal. */
  lemma {:induction false} StrandedIff(states: seq<State>, n: nat, w: nat)
    requires IsRun(states) && n < |states|
    ensures Stranded(states[n], w) <==> exists i | 0 <= i < n :: StrandsAt(states, i, w)
  {
    if n == 0 {
      assert states[0].rows == [];
    } else {
      StrandedIff(states, n - 1, w);
      RunStepStrandsIff(states, n - 1, w);
    }
  }

  // ---------------------------------------------------------------------------
  // Two such runs
  // ---------------------------------------------------------------------------

  /** The request crashes right after its debit: the user has paid, and nothing is sent. */
  lemma CrashAfterTheDebit() returns (states: seq<State>)
    ensures IsRun(states) && Stranded(states[|states| - 1], 0) && states[|states| - 1].txs == []
  {
    states := TenDebited();
    var s := EndCall(states[|states| - 1], 1);
    Extend(states, Crash(1), s);
    states := states + [s];
    assert s.entries[0].key == Some(WithdrawKey(0));
  }

  /** The request crashes after the broadcast: the transfer lands, and its row stays PENDING
      without a signature. */
  lemma CrashAfterTheBroadcast() returns (states: seq<State>)
    ensures IsRun(states)
    ensures var s := states[|states| - 1];
            Stranded(s, 0) && HasLanded(s.txs, 0) && s.rows[0].sig == None
  {
    states := TenOut();
    var s := EndCall(states[|states| - 1], 1);
    Extend(states, Crash(1), s);
    states := states + [s];
    var s1 := s.(txs := [Tx(0, Landed)]);
    Extend(states, Land(0), s1);
    states := states + [s1];
    assert s1.entries[0].key == Some(WithdrawKey(0));
    assert s1.txs[0] == Tx(0, Landed);
  }
}
