/** What would go wrong if crediting passes overlapped (packages/backend/src/deposits.ts).
    One process never overlaps them; two processes on one database would. */
module DepositOverlap {
  import opened Schema
  import opened Books
  import opened Prices
  import opened Deposits

  // ---------------------------------------------------------------------------
  // Kept by every run, overlapping or not
  // ---------------------------------------------------------------------------

  /** The row a pass has read is still the same deposit; once priced it stays priced. */
  predicate SameDeposit(read: Receipt, row: Receipt) {
    && row.user == read.user && row.sig == read.sig && row.asset == read.asset && row.lamports == read.lamports
    && (Unpriced(row) ==> Unpriced(read))
  }

  predicate ListOk(todo: seq<(nat, Receipt)>, receipts: seq<Receipt>) {
    forall i | 0 <= i < |todo| :: todo[i].0 < |receipts| && SameDeposit(todo[i].1, receipts[todo[i].0])
  }

  predicate StageOk(stage: Stage, receipts: seq<Receipt>) {
    match stage
    case Between => true
    case WillCredit(row, amount) => row < |receipts| && !Unpriced(receipts[row]) && amount > 0
    case WillClose(row) => row < |receipts| && !Unpriced(receipts[row])
  }

  predicate PassOk(s: State, c: nat) {
    c in s.passes ==> ListOk(s.passes[c].todo, s.receipts) && StageOk(s.passes[c].stage, s.receipts)
  }

  predicate KeyKnown(s: State, sig: nat) {
    KeyPosted(s.entries, DepositKey(sig)) ==> SigKnown(s.receipts, sig)
  }

  ghost predicate OverlapInv(s: State) {
    && UniqueKeys(s.entries)
    && (forall i, j | 0 <= i < j < |s.receipts| :: s.receipts[i].sig != s.receipts[j].sig)
    && (forall sig: nat :: KeyKnown(s, sig))
    && (forall c: nat :: PassOk(s, c))
  }

  /** Every receipt is told the truth about: it is credited in full at the price it stores,
      or not at all. */
  ghost predicate AllSafe(s: State) {
    forall i | 0 <= i < |s.receipts| :: ReceiptSafe(s.receipts[i], s.entries)
  }

  // ---------------------------------------------------------------------------
  // Steps on stale knowledge
  // ---------------------------------------------------------------------------

  /** The amount at which a pass prices a receipt it has read. */
  function NewAmount(read: Receipt, p: Pricing): int
    requires p.spreadBps <= BPS
  {
    LamportsToUsdcMicros(read.lamports, p.usdMicro, p.spreadBps)
  }

  /** Pricing a row that is credited or closed by now, at another amount. */
  predicate StaleTake(s: State, c: nat, price: Option<Pricing>) {
    && c in s.passes && s.passes[c].todo != [] && price.Some? && price.value.spreadBps <= BPS
    && var (row, read) := s.passes[c].todo[0];
       && Unpriced(read) && row < |s.receipts|
       && (Posted(s.entries, s.receipts[row]) || s.receipts[row].credited)
       && NewAmount(read, price.value) != s.receipts[row].amount
  }

  /** Crediting an amount that is not the row's any more. */
  predicate StaleCredit(s: State, c: nat) {
    && c in s.passes && s.passes[c].stage.WillCredit? && s.passes[c].stage.row < |s.receipts|
    && var r := s.receipts[s.passes[c].stage.row];
       !Posted(s.entries, r) && s.passes[c].stage.amount != r.amount
  }

  /** Closing a row that is worth something by now and was not credited. */
  predicate StaleClose(s: State, c: nat) {
    && c in s.passes && s.passes[c].stage.WillClose? && s.passes[c].stage.row < |s.receipts|
    && var r := s.receipts[s.passes[c].stage.row];
       !Posted(s.entries, r) && r.amount > 0
  }

  predicate Stale(s: State, step: Step) {
    || (step.Take? && StaleTake(s, step.pass, step.price))
    || (step.Credit? && StaleCredit(s, step.pass))
    || (step.Close? && StaleClose(s, step.pass))
  }

  /** The row as the pass prices it breaks the promise exactly if it is credited or closed
      at another amount. */
  lemma PricedRowIff(row: Receipt, entries: seq<Entry>, p: Pricing)
    requires ReceiptSafe(row, entries) && row.asset == Sol && p.spreadBps <= BPS
    ensures ReceiptSafe(Priced(row, p), entries) <==>
            !((Posted(entries, row) || row.credited) && Priced(row, p).amount != row.amount)
  {
    var r := Priced(row, p);
    CreditsWithinValuation(row.lamports, 0, p.usdMicro, p.spreadBps);
    if row.price.Some? {
      CreditsWithinValuation(row.lamports, 0, row.price.value.usdMicro, row.price.value.spreadBps);
    }
    if Posted(entries, row) {
      var i :| 0 <= i < |entries| && entries[i].key == Some(DepositKey(row.sig));
      assert entries[i] == Entry(User(row.user), row.amount, Some(DepositKey(row.sig)));
      if r.amount == row.amount {
        assert CreditedInFull(entries, r);
      }
    }
  }

  lemma TakeIff(s: State, c: nat, price: Option<Pricing>, s': State)
    requires OverlapInv(s) && AllSafe(s) && Next(s, Take(c, price), s')
    ensures AllSafe(s') <==> !StaleTake(s, c, price)
  {
    assert PassOk(s, c);
    var (row, read) := s.passes[c].todo[0];
    assert SameDeposit(read, s.receipts[row]);
    if Unpriced(read) && price.Some? {
      PricedRowIff(s.receipts[row], s.entries, price.value);
      assert s'.receipts[row] == Priced(s.receipts[row], price.value);
    }
  }

  lemma StaleCreditBreaks(r: Receipt, entries: seq<Entry>, amount: int)
    requires amount != r.amount
    ensures !ReceiptSafe(r, entries + CreditLegs(r.user, amount, Some(DepositKey(r.sig))))
  {
    var after := entries + CreditLegs(r.user, amount, Some(DepositKey(r.sig)));
    assert after[|entries| + 1] == Entry(User(r.user), amount, Some(DepositKey(r.sig)));
  }

  lemma CreditIff(s: State, c: nat, s': State)
    requires OverlapInv(s) && AllSafe(s) && Next(s, Credit(c), s')
    ensures AllSafe(s') <==> !StaleCredit(s, c)
  {
    assert PassOk(s, c);
    var (row, amount) := (s.passes[c].stage.row, s.passes[c].stage.amount);
    var r := s.receipts[row];
    if Posted(s.entries, r) {
    } else if amount != r.amount {
      StaleCreditBreaks(r, s.entries, amount);
      assert !ReceiptSafe(s'.receipts[row], s'.entries);
    } else {
      FreshCreditIsSafe(s, row, s');
    }
  }

  lemma FreshCreditIsSafe(s: State, row: nat, s': State)
    requires OverlapInv(s) && AllSafe(s) && row < |s.receipts| && !Unpriced(s.receipts[row])
             && s.receipts[row].amount > 0
    requires !Posted(s.entries, s.receipts[row]) && s'.receipts == s.receipts
    requires s'.entries == s.entries + CreditLegs(s.receipts[row].user, s.receipts[row].amount, Some(DepositKey(s.receipts[row].sig)))
    ensures AllSafe(s')
  {
    var r := s.receipts[row];
    CreditPosts(r, s.entries);
    forall i | 0 <= i < |s'.receipts|
      ensures ReceiptSafe(s'.receipts[i], s'.entries)
    {
      if i != row {
        SafeAfterOther(s.receipts[i], s.entries, CreditLegs(r.user, r.amount, Some(DepositKey(r.sig))));
      }
    }
  }

  lemma CloseIff(s: State, c: nat, s': State)
    requires OverlapInv(s) && AllSafe(s) && Next(s, Close(c), s')
    ensures AllSafe(s') <==> !StaleClose(s, c)
  {
    assert PassOk(s, c);
    var row := s.passes[c].stage.row;
    assert ReceiptSafe(s.receipts[row], s.entries);
    assert ReceiptSafe(s'.receipts[row], s'.entries) <==> !StaleClose(s, c);
    assert forall i | 0 <= i < |s'.receipts| && i != row :: s'.receipts[i] == s.receipts[i];
  }

  lemma OthersAreSafe(s: State, step: Step, s': State)
    requires OverlapInv(s) && AllSafe(s) && Next(s, step, s') && !step.Take? && !step.Credit? && !step.Close?
    ensures AllSafe(s')
  {
    if step.Other? {
      forall i | 0 <= i < |s'.receipts|
        ensures ReceiptSafe(s'.receipts[i], s'.entries)
      {
        SafeAfterOther(s.receipts[i], s.entries, step.legs);
      }
    } else if step.Record? {
      assert KeyKnown(s, step.receipt.sig);
    }
  }

  /** One step, passes overlapping at will: the promise breaks exactly if the step is stale. */
  lemma StepBreaksIff(s: State, step: Step, s': State)
    requires OverlapInv(s) && AllSafe(s) && Next(s, step, s')
    ensures AllSafe(s') <==> !Stale(s, step)
  {
    match step
    case Take(c, price) => TakeIff(s, c, price, s');
    case Credit(c) => CreditIff(s, c, s');
    case Close(c) => CloseIff(s, c, s');
    case _ => OthersAreSafe(s, step, s');
  }

  // ---------------------------------------------------------------------------
  // Every run
  // ---------------------------------------------------------------------------

  /** Receipts are only added, and stay the same deposits. */
  ghost predicate Grows(receipts: seq<Receipt>, more: seq<Receipt>) {
    |receipts| <= |more| && forall i | 0 <= i < |receipts| :: SameDeposit(receipts[i], more[i])
  }

  lemma ReceiptsGrow(s: State, step: Step, s': State)
    requires OverlapInv(s) && Next(s, step, s')
    ensures Grows(s.receipts, s'.receipts)
  {
    if step.Take? {
      assert PassOk(s, step.pass);
    }
  }

  lemma PassStaysOk(s: State, step: Step, s': State, c: nat)
    requires PassOk(s, c) && Next(s, step, s') && Grows(s.receipts, s'.receipts)
    ensures PassOk(s', c)
  {
  }

  lemma KeyStaysKnown(s: State, step: Step, s': State, sig: nat)
    requires KeyKnown(s, sig) && Next(s, step, s') && Grows(s.receipts, s'.receipts)
    ensures KeyKnown(s', sig)
  {
    if SigKnown(s.receipts, sig) {
      var i :| 0 <= i < |s.receipts| && s.receipts[i].sig == sig;
      assert s'.receipts[i].sig == sig;
    } else if step.Other? {
      OtherPosts(s.entries, step.legs, DepositKey(sig));
    } else if step.Credit? && s'.entries != s.entries {
      var r := s.receipts[s.passes[step.pass].stage.row];
      var legs := CreditLegs(r.user, s.passes[step.pass].stage.amount, Some(DepositKey(r.sig)));
      assert SigKnown(s.receipts, r.sig);
      OtherPosts(s.entries, legs, DepositKey(sig));
    }
  }

  lemma StepKeepsOverlap(s: State, step: Step, s': State)
    requires OverlapInv(s) && Next(s, step, s')
    ensures OverlapInv(s')
  {
    ReceiptsGrow(s, step, s');
    forall c: nat { PassStaysOk(s, step, s', c); }
    forall sig: nat { KeyStaysKnown(s, step, s', sig); }
    KeysStayUnique(s, step, s');
    SigsStayDistinct(s, step, s');
  }

  lemma KeysStayUnique(s: State, step: Step, s': State)
    requires UniqueKeys(s.entries) && Next(s, step, s')
    ensures UniqueKeys(s'.entries)
  {
    if step.Credit? && s'.entries != s.entries {
      var r := s.receipts[s.passes[step.pass].stage.row];
      var legs := CreditLegs(r.user, s.passes[step.pass].stage.amount, Some(DepositKey(r.sig)));
      AppendPosts(s.entries, legs, 1, DepositKey(r.sig));
    }
  }

  lemma SigsStayDistinct(s: State, step: Step, s': State)
    requires Next(s, step, s') && Grows(s.receipts, s'.receipts)
    requires forall i, j | 0 <= i < j < |s.receipts| :: s.receipts[i].sig != s.receipts[j].sig
    ensures forall i, j | 0 <= i < j < |s'.receipts| :: s'.receipts[i].sig != s'.receipts[j].sig
  {
  }

  lemma {:induction false} OverlapRunKeeps(states: seq<State>, i: nat)
    requires IsRun(states) && i < |states|
    ensures OverlapInv(states[i])
  {
    if i > 0 {
      OverlapRunKeeps(states, i - 1);
      assert CanStep(states[i - 1], states[i - 1 + 1]);
      var step :| Next(states[i - 1], step, states[i]);
      StepKeepsOverlap(states[i - 1], step, states[i]);
    }
  }

  ghost predicate StaleAt(states: seq<State>, i: nat) {
    i + 1 < |states| && exists step :: Next(states[i], step, states[i + 1]) && Stale(states[i], step)
  }

  ghost predicate SafeAt(states: seq<State>, i: nat) {
    i < |states| && AllSafe(states[i])
  }

  lemma RunStepBreaksIff(states: seq<State>, i: nat)
    requires IsRun(states) && i + 1 < |states| && SafeAt(states, i)
    ensures SafeAt(states, i + 1) <==> !StaleAt(states, i)
  {
    OverlapRunKeeps(states, i);
    assert CanStep(states[i], states[i + 1]);
    if StaleAt(states, i) {
      var step :| Next(states[i], step, states[i + 1]) && Stale(states[i], step);
      StepBreaksIff(states[i], step, states[i + 1]);
    } else {
      var step :| Next(states[i], step, states[i + 1]);
      StepBreaksIff(states[i], step, states[i + 1]);
    }
  }

  /** The step takes safe receipts to safe ones exactly if it is not stale. */
  ghost predicate TurnsAt(states: seq<State>, i: nat) {
    SafeAt(states, i) ==> (SafeAt(states, i + 1) <==> !StaleAt(states, i))
  }

  lemma {:induction false} SafeChain(states: seq<State>, n: nat)
    requires SafeAt(states, 0) && forall i | 0 <= i < n :: TurnsAt(states, i)
    ensures (forall i | 0 <= i <= n :: SafeAt(states, i)) <==> (forall i | 0 <= i < n :: !StaleAt(states, i))
  {
    if n > 0 {
      SafeChain(states, n - 1);
      assert TurnsAt(states, n - 1);
    }
  }

  /** Over every run, passes overlapping at will: all receipts stay true throughout if and
      only if no step is stale. */
  lemma StaysSafeIff(states: seq<State>, n: nat)
    requires IsRun(states) && n < |states|
    ensures (forall i | 0 <= i <= n :: SafeAt(states, i)) <==> (forall i | 0 <= i < n :: !StaleAt(states, i))
  {
    forall i | 0 <= i < n
      ensures TurnsAt(states, i)
    {
      if SafeAt(states, i) {
        RunStepBreaksIff(states, i);
      }
    }
    SafeChain(states, n);
  }

  // ---------------------------------------------------------------------------
  // A run of two processes
  // ---------------------------------------------------------------------------

  lemma Extend(states: seq<State>, step: Step, s': State)
    requires IsRun(states) && Next(states[|states| - 1], step, s')
    ensures IsRun(states + [s'])
  {
    var more := states + [s'];
    forall i | 0 <= i < |more| - 1
      ensures CanStep(more[i], more[i + 1])
    {
      if i < |states| - 1 {
        assert CanStep(states[i], states[i + 1]);
      }
    }
  }

  const OneSol := Receipt(7, 0, Sol, LAMPORTS_PER_SOL, 0, None, false)

  /** Two processes have both read the same unpriced receipt. */
  lemma BothHaveRead() returns (states: seq<State>)
    ensures IsRun(states)
    ensures states[|states| - 1] == State([OneSol], [], map[1 := Pass([(0, OneSol)], Between), 2 := Pass([(0, OneSol)], Between)])
  {
    var todo := [(0, OneSol)];
    states := [Empty];
    var s1 := Empty.(receipts := [OneSol]);
    assert FreshReceipt(OneSol);
    Extend(states, Record(OneSol), s1);
    states := states + [s1];
    var s2 := SetPass(s1, 1, Pass(todo, Between));
    Extend(states, Begin(1, todo), s2);
    states := states + [s2];
    var s3 := SetPass(s2, 2, Pass(todo, Between));
    Extend(states, Begin(2, todo), s3);
    states := states + [s3];
  }

  /** The first prices it and credits it, the second stores another price: the receipt is
      closed at an amount that is not what the user got. */
  lemma OverlapMisprices() returns (states: seq<State>)
    ensures IsRun(states)
    ensures var s := states[|states| - 1];
            && |s.receipts| == 1 && s.receipts[0].credited && s.receipts[0].amount > 0
            && !CreditedInFull(s.entries, s.receipts[0])
  {
    states := BothHaveRead();
    var s3 := states[|states| - 1];
    var high, low := Pricing(100, 0), Pricing(50, 0);
    var rHigh, rLow := Priced(OneSol, high), Priced(OneSol, low);
    assert rHigh.amount == 100 && rLow.amount == 50;
    assert [(0, OneSol)][1..] == [];
    var s4 := SetPass(s3.(receipts := [rHigh]), 1, Pass([], WillCredit(0, 100)));
    Extend(states, Take(1, Some(high)), s4);
    states := states + [s4];
    var legs := CreditLegs(7, 100, Some(DepositKey(0)));
    var s5 := SetPass(s4.(entries := legs), 1, Pass([], WillClose(0)));
    assert [] + legs == legs;
    Extend(states, Credit(1), s5);
    states := states + [s5];
    states := SecondPass(states, rHigh, rLow);
    assert legs[1].key == Some(DepositKey(0)) && legs[1].amount == 100;
  }

  lemma SecondPass(before: seq<State>, rHigh: Receipt, rLow: Receipt) returns (states: seq<State>)
    requires rLow == OneSol.(amount := 50, price := Some(Pricing(50, 0))) && rLow == Priced(OneSol, Pricing(50, 0))
    requires rHigh == OneSol.(amount := 100, price := Some(Pricing(100, 0)))
    requires IsRun(before)
    requires before[|before| - 1] == State([rHigh], CreditLegs(7, 100, Some(DepositKey(0))),
               map[1 := Pass([], WillClose(0)), 2 := Pass([(0, OneSol)], Between)])
    ensures IsRun(states)
    ensures var s := states[|states| - 1];
            s.receipts == [rLow.(credited := true)] && s.entries == CreditLegs(7, 100, Some(DepositKey(0)))
  {
    states := before;
    var s5 := states[|states| - 1];
    assert [(0, OneSol)][1..] == [];
    var s6 := SetPass(s5.(receipts := [rLow]), 2, Pass([], WillCredit(0, 50)));
    Extend(states, Take(2, Some(Pricing(50, 0))), s6);
    states := states + [s6];
    var s7 := SetPass(s6.(receipts := [rLow.(credited := true)]), 1, Pass([], Between));
    Extend(states, Close(1), s7);
    states := states + [s7];
  }
}
