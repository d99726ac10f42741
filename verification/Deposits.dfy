/** The deposit rail (packages/backend/src/deposits.ts): swept deposits are first recorded,
    then priced, credited and closed, each write a step of its own. A pass may fail on any
    row and crash anywhere. */
module Deposits {
  import opened Schema
  import opened Books
  import opened Prices

  datatype Asset = Usdc | Sol

  datatype Pricing = Pricing(usdMicro: nat, spreadBps: nat)

  /** A swept deposit. A SOL receipt is recorded unpriced, with amount zero. */
  datatype Receipt = Receipt(
    user: nat,
    sig: nat,
    asset: Asset,
    lamports: int,
    amount: int,
    price: Option<Pricing>,
    credited: bool)

  datatype Stage = Between | WillCredit(row: nat, amount: int) | WillClose(row: nat)

  /** A crediting pass works on the rows it read when it began, as they were then. */
  datatype Pass = Pass(todo: seq<(nat, Receipt)>, stage: Stage)

  datatype State = State(receipts: seq<Receipt>, entries: seq<Entry>, passes: map<nat, Pass>)

  datatype Step =
    | Record(receipt: Receipt)
    | Other(legs: seq<Entry>)
    | Begin(pass: nat, todo: seq<(nat, Receipt)>)
    | Take(pass: nat, price: Option<Pricing>)
    | Credit(pass: nat)
    | Close(pass: nat)
    | Fail(pass: nat)
    | End(pass: nat)

  predicate Unpriced(r: Receipt) {
    r.asset == Sol && r.price == None
  }

  /** A receipt as the watcher records it. */
  predicate FreshReceipt(r: Receipt) {
    r.price == None && !r.credited && (r.asset == Sol ==> r.amount == 0)
  }

  predicate SigKnown(receipts: seq<Receipt>, sig: nat) {
    exists i :: 0 <= i < |receipts| && receipts[i].sig == sig
  }

  predicate Posted(entries: seq<Entry>, r: Receipt) {
    KeyPosted(entries, DepositKey(r.sig))
  }

  function Priced(r: Receipt, p: Pricing): Receipt
    requires p.spreadBps <= BPS
  {
    r.(amount := LamportsToUsdcMicros(r.lamports, p.usdMicro, p.spreadBps), price := Some(p))
  }

  function NextStage(row: nat, amount: int): Stage {
    if amount <= 0 then WillClose(row) else WillCredit(row, amount)
  }

  predicate DistinctRows(todo: seq<(nat, Receipt)>) {
    forall i, j | 0 <= i < j < |todo| :: todo[i].0 != todo[j].0
  }

  predicate OtherLegs(legs: seq<Entry>) {
    forall i | 0 <= i < |legs| && legs[i].key.Some? :: !legs[i].key.value.DepositKey?
  }

  predicate ReadRows(receipts: seq<Receipt>, todo: seq<(nat, Receipt)>) {
    forall i | 0 <= i < |todo| :: todo[i].0 < |receipts| && receipts[todo[i].0] == todo[i].1
  }

  function SetPass(s: State, c: nat, p: Pass): State {
    s.(passes := s.passes[c := p])
  }

  ghost predicate Next(s: State, step: Step, s': State) {
    match step
    case Record(r) =>
      FreshReceipt(r) && s' == if SigKnown(s.receipts, r.sig) then s else s.(receipts := s.receipts + [r])
    case Other(legs) =>
      OtherLegs(legs) && UniqueKeys(s.entries + legs) && s' == s.(entries := s.entries + legs)
    case Begin(c, todo) =>
      && c !in s.passes && DistinctRows(todo) && ReadRows(s.receipts, todo)
      && (forall i | 0 <= i < |todo| :: !todo[i].1.credited)
      && s' == SetPass(s, c, Pass(todo, Between))
    case Take(c, price) =>
      && c in s.passes && s.passes[c].stage == Between && s.passes[c].todo != []
      && var (row, r) := s.passes[c].todo[0];
         var rest := s.passes[c].todo[1..];
         && row < |s.receipts|
         && (price.Some? ==> price.value.spreadBps <= BPS)
         && s' == if !Unpriced(r) then SetPass(s, c, Pass(rest, NextStage(row, r.amount)))
                  else if price == None then SetPass(s, c, Pass(rest, Between))
                  else
                    var amount := LamportsToUsdcMicros(r.lamports, price.value.usdMicro, price.value.spreadBps);
                    SetPass(s.(receipts := s.receipts[row := s.receipts[row].(amount := amount, price := price)]), c,
                        Pass(rest, NextStage(row, amount)))
    case Credit(c) =>
      && c in s.passes && s.passes[c].stage.WillCredit? && s.passes[c].stage.row < |s.receipts|
         && s.passes[c].stage.amount > 0
      && var row := s.passes[c].stage.row;
         var r := s.receipts[row];
         s' == SetPass(if Posted(s.entries, r) then s
                       else s.(entries := s.entries + CreditLegs(r.user, s.passes[c].stage.amount, Some(DepositKey(r.sig)))),
                       c, Pass(s.passes[c].todo, WillClose(row)))
    case Close(c) =>
      && c in s.passes && s.passes[c].stage.WillClose? && s.passes[c].stage.row < |s.receipts|
      && var row := s.passes[c].stage.row;
         s' == SetPass(s.(receipts := s.receipts[row := s.receipts[row].(credited := true)]), c, Pass(s.passes[c].todo, Between))
    case Fail(c) =>
      c in s.passes && s.passes[c].stage != Between && s' == SetPass(s, c, Pass(s.passes[c].todo, Between))
    case End(c) =>
      c in s.passes && s' == s.(passes := s.passes - {c})
  }

  const Empty := State([], [], map[])

  ghost predicate CanStep(s: State, s': State) {
    exists step :: Next(s, step, s')
  }

  /** Passes may overlap. */
  ghost predicate IsRun(states: seq<State>) {
    && states != [] && states[0] == Empty
    && forall i | 0 <= i < |states| - 1 :: CanStep(states[i], states[i + 1])
  }

  /** A pass begins only when no other is under way: what one process ensures (see
      DepositProcess). */
  predicate Alone(s: State, step: Step) {
    step.Begin? ==> s.passes == map[]
  }

  ghost predicate CanStepAlone(s: State, s': State) {
    exists step :: Alone(s, step) && Next(s, step, s')
  }

  ghost predicate IsSerialRun(states: seq<State>) {
    && states != [] && states[0] == Empty
    && forall i | 0 <= i < |states| - 1 :: CanStepAlone(states[i], states[i + 1])
  }

  // ---------------------------------------------------------------------------
  // Invariants of serial runs
  // ---------------------------------------------------------------------------

  /** The ledger rows for this receipt are one credit of exactly its amount. */
  predicate CreditedInFull(entries: seq<Entry>, r: Receipt) {
    && Posted(entries, r)
    && forall i | 0 <= i < |entries| && entries[i].key == Some(DepositKey(r.sig)) ::
         entries[i] == Entry(User(r.user), r.amount, Some(DepositKey(r.sig)))
  }

  predicate ReceiptSafe(r: Receipt, entries: seq<Entry>) {
    && (Unpriced(r) ==> r.amount == 0 && !r.credited)
    && (r.price.Some? ==>
          && r.asset == Sol && r.price.value.spreadBps <= BPS
          && r.amount == LamportsToUsdcMicros(r.lamports, r.price.value.usdMicro, r.price.value.spreadBps))
    && (Posted(entries, r) ==> r.amount > 0 && CreditedInFull(entries, r))
    && (r.credited && r.amount > 0 ==> Posted(entries, r))
  }

  predicate OffList(todo: seq<(nat, Receipt)>, row: nat) {
    forall i | 0 <= i < |todo| :: todo[i].0 != row
  }

  predicate PassSafe(p: Pass, receipts: seq<Receipt>, entries: seq<Entry>) {
    && DistinctRows(p.todo) && ReadRows(receipts, p.todo)
    && match p.stage
       case Between => true
       case WillCredit(row, amount) =>
         OffList(p.todo, row) && row < |receipts| && !Unpriced(receipts[row]) && receipts[row].amount == amount > 0
       case WillClose(row) =>
         && OffList(p.todo, row) && row < |receipts| && !Unpriced(receipts[row])
         && (receipts[row].amount > 0 ==> Posted(entries, receipts[row]))
  }

  ghost predicate Inv(s: State) {
    && UniqueKeys(s.entries)
    && (forall i, j | 0 <= i < j < |s.receipts| :: s.receipts[i].sig != s.receipts[j].sig)
    && (forall i | 0 <= i < |s.receipts| :: ReceiptSafe(s.receipts[i], s.entries))
    && (forall sig: nat :: KeyPosted(s.entries, DepositKey(sig)) ==> SigKnown(s.receipts, sig))
    && (forall c | c in s.passes :: PassSafe(s.passes[c], s.receipts, s.entries))
    && (forall c, d | c in s.passes && d in s.passes :: c == d)
  }

  lemma RecordKeeps(s: State, r: Receipt, s': State)
    requires Inv(s) && Next(s, Record(r), s')
    ensures Inv(s')
  {
    forall sig: nat | KeyPosted(s'.entries, DepositKey(sig))
      ensures SigKnown(s'.receipts, sig)
    {
      assert SigKnown(s.receipts, sig);
      var i :| 0 <= i < |s.receipts| && s.receipts[i].sig == sig;
      assert s'.receipts[i].sig == sig;
    }
  }

  lemma OtherPosts(entries: seq<Entry>, legs: seq<Entry>, k: Key)
    requires forall i | 0 <= i < |legs| :: legs[i].key != Some(k)
    ensures KeyPosted(entries + legs, k) <==> KeyPosted(entries, k)
  {
    var after := entries + legs;
    if KeyPosted(entries, k) {
      var i :| 0 <= i < |entries| && entries[i].key == Some(k);
      assert after[i].key == Some(k);
    }
    if KeyPosted(after, k) {
      var i :| 0 <= i < |after| && after[i].key == Some(k);
      assert i < |entries| && entries[i].key == Some(k);
    }
  }

  /** Ledger rows about other deposits leave a receipt as it was. */
  lemma SafeAfterOther(r: Receipt, entries: seq<Entry>, legs: seq<Entry>)
    requires ReceiptSafe(r, entries)
    requires forall i | 0 <= i < |legs| :: legs[i].key != Some(DepositKey(r.sig))
    ensures ReceiptSafe(r, entries + legs)
    ensures Posted(entries + legs, r) <==> Posted(entries, r)
  {
    OtherPosts(entries, legs, DepositKey(r.sig));
    var after := entries + legs;
    assert forall i | 0 <= i < |after| && after[i].key == Some(DepositKey(r.sig)) :: i < |entries| && after[i] == entries[i];
  }

  lemma OtherKeeps(s: State, legs: seq<Entry>, s': State)
    requires Inv(s) && Next(s, Other(legs), s')
    ensures Inv(s')
  {
    forall i | 0 <= i < |s.receipts|
      ensures ReceiptSafe(s'.receipts[i], s'.entries)
      ensures Posted(s'.entries, s.receipts[i]) <==> Posted(s.entries, s.receipts[i])
    {
      SafeAfterOther(s.receipts[i], s.entries, legs);
    }
    forall sig: nat { OtherPosts(s.entries, legs, DepositKey(sig)); }
    forall c | c in s'.passes
      ensures PassSafe(s'.passes[c], s'.receipts, s'.entries)
    {
      assert PassSafe(s.passes[c], s.receipts, s.entries);
    }
  }

  /** A row written by the only pass, off its list. */
  lemma RowKeeps(s: State, row: nat, r: Receipt, s': State, c: nat)
    requires Inv(s) && row < |s.receipts| && c in s.passes
    requires r.sig == s.receipts[row].sig
    requires s'.receipts == s.receipts[row := r] && s'.entries == s.entries
    requires c in s'.passes && s'.passes == s.passes[c := s'.passes[c]]
    requires ReceiptSafe(r, s.entries) && PassSafe(s'.passes[c], s'.receipts, s'.entries)
    ensures Inv(s')
  {
    forall sig: nat | KeyPosted(s'.entries, DepositKey(sig))
      ensures SigKnown(s'.receipts, sig)
    {
      assert SigKnown(s.receipts, sig);
      var i :| 0 <= i < |s.receipts| && s.receipts[i].sig == sig;
      assert s'.receipts[i].sig == sig;
    }
  }

  lemma TakeKeeps(s: State, c: nat, price: Option<Pricing>, s': State)
    requires Inv(s) && Next(s, Take(c, price), s')
    ensures Inv(s')
  {
    assert PassSafe(s.passes[c], s.receipts, s.entries);
    var row := s.passes[c].todo[0].0;
    assert ReceiptSafe(s.receipts[row], s.entries);
    assert ReceiptSafe(s'.receipts[row], s.entries);
    RowKeeps(s, row, s'.receipts[row], s', c);
  }

  lemma CloseKeeps(s: State, c: nat, s': State)
    requires Inv(s) && Next(s, Close(c), s')
    ensures Inv(s')
  {
    assert PassSafe(s.passes[c], s.receipts, s.entries);
    var row := s.passes[c].stage.row;
    assert ReceiptSafe(s.receipts[row], s.entries);
    RowKeeps(s, row, s'.receipts[row], s', c);
  }

  /** The credit posts the key of one receipt, with that receipt's amount. */
  lemma CreditPosts(r: Receipt, entries: seq<Entry>)
    requires ReceiptSafe(r, entries) && !Posted(entries, r) && r.amount > 0 && UniqueKeys(entries) && !Unpriced(r)
    ensures var after := entries + CreditLegs(r.user, r.amount, Some(DepositKey(r.sig)));
            && UniqueKeys(after) && ReceiptSafe(r, after) && Posted(after, r)
            && forall k :: KeyPosted(after, k) <==> KeyPosted(entries, k) || k == DepositKey(r.sig)
  {
    var legs := CreditLegs(r.user, r.amount, Some(DepositKey(r.sig)));
    AppendPosts(entries, legs, 1, DepositKey(r.sig));
    var after := entries + legs;
    forall i | 0 <= i < |after| && after[i].key == Some(DepositKey(r.sig))
      ensures after[i] == Entry(User(r.user), r.amount, Some(DepositKey(r.sig)))
    {
      assert i >= |entries|;
    }
  }

  lemma FirstCreditKeeps(s: State, c: nat, s': State)
    requires Inv(s) && Next(s, Credit(c), s') && s'.entries != s.entries
    ensures Inv(s')
  {
    assert PassSafe(s.passes[c], s.receipts, s.entries);
    var row := s.passes[c].stage.row;
    var r := s.receipts[row];
    CreditPosts(r, s.entries);
    forall i | 0 <= i < |s'.receipts|
      ensures ReceiptSafe(s'.receipts[i], s'.entries)
    {
      if i != row {
        SafeAfterOther(s.receipts[i], s.entries, CreditLegs(r.user, r.amount, Some(DepositKey(r.sig))));
      }
    }
    forall sig: nat | KeyPosted(s'.entries, DepositKey(sig))
      ensures SigKnown(s'.receipts, sig)
    {
      assert KeyPosted(s.entries, DepositKey(sig)) ==> SigKnown(s.receipts, sig);
    }
  }

  lemma StepKeeps(s: State, step: Step, s': State)
    requires Inv(s) && Alone(s, step) && Next(s, step, s')
    ensures Inv(s')
  {
    match step
    case Record(r) => RecordKeeps(s, r, s');
    case Other(legs) => OtherKeeps(s, legs, s');
    case Take(c, price) => TakeKeeps(s, c, price, s');
    case Credit(c) =>
      if s'.entries != s.entries {
        FirstCreditKeeps(s, c, s');
      } else {
        assert PassSafe(s.passes[c], s.receipts, s.entries);
      }
    case Close(c) => CloseKeeps(s, c, s');
    case Fail(c) => assert PassSafe(s.passes[c], s.receipts, s.entries);
    case _ =>
  }

  lemma {:induction false} SerialRunKeeps(states: seq<State>, i: nat)
    requires IsSerialRun(states) && i < |states|
    ensures Inv(states[i])
  {
    if i > 0 {
      SerialRunKeeps(states, i - 1);
      assert CanStepAlone(states[i - 1], states[i - 1 + 1]);
      var step :| Alone(states[i - 1], step) && Next(states[i - 1], step, states[i]);
      StepKeeps(states[i - 1], step, states[i]);
    }
  }

  // ---------------------------------------------------------------------------
  // Theorems
  // ---------------------------------------------------------------------------

  /** A closed receipt was credited in full, in one ledger row, at the price it stores - or
      is worth nothing. */
  lemma ClosedMeansCreditedInFull(states: seq<State>, n: nat, i: nat)
    requires IsSerialRun(states) && n < |states| && i < |states[n].receipts|
    ensures var r := states[n].receipts[i];
            && (r.credited ==> r.amount <= 0 || CreditedInFull(states[n].entries, r))
            && (Posted(states[n].entries, r) ==> r.amount > 0 && CreditedInFull(states[n].entries, r))
            && (r.price.Some? ==> r.price.value.spreadBps <= BPS
                                  && r.amount == LamportsToUsdcMicros(r.lamports, r.price.value.usdMicro, r.price.value.spreadBps))
  {
    SerialRunKeeps(states, n);
    assert ReceiptSafe(states[n].receipts[i], states[n].entries);
  }

  /** The amount is fixed before it is credited: a price, once stored, never changes, and
      neither does an amount once posted. */
  lemma PriceIsFixedBeforeCrediting(s: State, step: Step, s': State, i: nat)
    requires Inv(s) && Alone(s, step) && Next(s, step, s') && i < |s.receipts|
    ensures i < |s'.receipts|
    ensures !Unpriced(s.receipts[i]) ==> s'.receipts[i].amount == s.receipts[i].amount && s'.receipts[i].price == s.receipts[i].price
    ensures Posted(s.entries, s.receipts[i]) ==> !Unpriced(s.receipts[i])
    ensures s.receipts[i].credited ==> s'.receipts[i].credited
  {
    assert ReceiptSafe(s.receipts[i], s.entries);
    if step.Take? {
      assert PassSafe(s.passes[step.pass], s.receipts, s.entries);
    }
  }

  /** Even when passes overlap, a signature is credited at most once. */
  lemma {:induction false} CreditedAtMostOnce(states: seq<State>, n: nat)
    requires IsRun(states) && n < |states|
    ensures UniqueKeys(states[n].entries)
  {
    if n > 0 {
      CreditedAtMostOnce(states, n - 1);
      var s, s' := states[n - 1], states[n - 1 + 1];
      assert CanStep(s, s');
      var step :| Next(s, step, s');
      if step.Credit? && s'.entries != s.entries {
        var r := s.receipts[s.passes[step.pass].stage.row];
        var legs := CreditLegs(r.user, s.passes[step.pass].stage.amount, Some(DepositKey(r.sig)));
        AppendPosts(s.entries, legs, 1, DepositKey(r.sig));
      }
    }
  }

  // ---------------------------------------------------------------------------
  // Against the audit's valuation
  // ---------------------------------------------------------------------------

  predicate PricedAt(r: Receipt, price: nat) {
    r.price.Some? && r.price.value.usdMicro == price
  }

  /** What the receipts priced at `price` were credited. */
  function CreditedAt(receipts: seq<Receipt>, entries: seq<Entry>, price: nat): int {
    if receipts == [] then 0
    else
      var r := receipts[|receipts| - 1];
      CreditedAt(receipts[..|receipts| - 1], entries, price)
      + (if PricedAt(r, price) && Posted(entries, r) then r.amount else 0)
  }

  function LamportsAt(receipts: seq<Receipt>, price: nat): int {
    if receipts == [] then 0
    else
      var r := receipts[|receipts| - 1];
      LamportsAt(receipts[..|receipts| - 1], price) + (if PricedAt(r, price) && r.lamports > 0 then r.lamports else 0)
  }

  lemma {:induction false} CreditedWithin(receipts: seq<Receipt>, entries: seq<Entry>, price: nat)
    requires forall i | 0 <= i < |receipts| :: ReceiptSafe(receipts[i], entries)
    ensures LamportsAt(receipts, price) >= 0
    ensures CreditedAt(receipts, entries, price) <= LamportsToUsdcMicros(LamportsAt(receipts, price), price, 0)
  {
    if receipts != [] {
      var n := |receipts| - 1;
      CreditedWithin(receipts[..n], entries, price);
      var r := receipts[n];
      assert ReceiptSafe(r, entries);
      if PricedAt(r, price) {
        CreditsWithinValuation(r.lamports, LamportsAt(receipts[..n], price), price, r.price.value.spreadBps);
      }
    }
  }

  /** The SOL deposits priced alike were together credited no more than the audit's
      spread-free valuation of the same lamports. */
  lemma CreditsNeverExceedTheValuation(states: seq<State>, n: nat, price: nat)
    requires IsSerialRun(states) && n < |states|
    ensures CreditedAt(states[n].receipts, states[n].entries, price)
            <= LamportsToUsdcMicros(LamportsAt(states[n].receipts, price), price, 0)
  {
    SerialRunKeeps(states, n);
    CreditedWithin(states[n].receipts, states[n].entries, price);
  }
}
