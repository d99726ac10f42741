/** What every run of the wallet machine guarantees. */
module OutboxTheorems {
  import opened Schema
  import opened Books
  import opened Outbox

  // ---------------------------------------------------------------------------
  // Rows and the settler
  // ---------------------------------------------------------------------------

  lemma BookRows(s: State, m: Move, s': State, exempt: set<nat>)
    requires RowsOkBut(s, exempt) && Next(s, Book(m), s')
    ensures RowsOkBut(s', exempt)
  {
    EnqueueKeys(s.transfers, WalletLegs(m));
    forall row | 0 <= row < |s'.transfers|
      ensures RowOkBut(s', row, exempt)
    {
      if row < |s.transfers| {
        assert s'.transfers[row] == s'.transfers[..|s.transfers|][row];
        assert RowOkBut(s, row, exempt);
      }
    }
  }

  /** The settler's own steps. */
  lemma SettlerRows(s: State, step: Step, s': State, exempt: set<nat>)
    requires RowsOkBut(s, exempt) && SettlerOk(s) && Next(s, step, s')
    requires step.Send? || step.SendFails? || step.ConfirmSameAddress? || step.Record?
    ensures RowsOkBut(s', exempt)
  {
    var own := if step.Record? then s.settler.stage.row else s.settler.todo[0].0;
    assert RowOkBut(s, own, exempt);
    forall row | 0 <= row < |s'.transfers|
      ensures RowOkBut(s', row, exempt)
    {
      assert RowOkBut(s, row, exempt);
      assert row != own ==> s'.transfers[row] == s.transfers[row];
    }
  }

  /** The chain's steps. */
  lemma ChainRows(s: State, step: Step, s': State, exempt: set<nat>)
    requires RowsOkBut(s, exempt) && Next(s, step, s')
    requires step.Land? || step.Drop?
    ensures RowsOkBut(s', exempt)
  {
    forall row | 0 <= row < |s'.transfers|
      ensures RowOkBut(s', row, exempt)
    {
      assert RowOkBut(s, row, exempt);
      assert s.txs[step.sig].row < |s.transfers| && RowOkBut(s, s.txs[step.sig].row, exempt);
    }
  }

  lemma StepKeepsRows(s: State, step: Step, s': State, exempt: set<nat>)
    requires RowsOkBut(s, exempt) && SettlerOk(s) && Next(s, step, s')
    ensures RowsOkBut(s', exempt)
  {
    match step
    case Book(m) => BookRows(s, m, s', exempt);
    case Send => SettlerRows(s, step, s', exempt);
    case SendFails => SettlerRows(s, step, s', exempt);
    case ConfirmSameAddress => SettlerRows(s, step, s', exempt);
    case Record => SettlerRows(s, step, s', exempt);
    case Land(_) => ChainRows(s, step, s', exempt);
    case Drop(_) => ChainRows(s, step, s', exempt);
    case _ => RowsUndisturbed(s, s', exempt);
  }

  lemma RowsUndisturbed(s: State, s': State, exempt: set<nat>)
    requires RowsOkBut(s, exempt) && s'.transfers == s.transfers && s'.txs == s.txs && s'.cfg == s.cfg
    ensures RowsOkBut(s', exempt)
  {
    forall row | 0 <= row < |s'.transfers|
      ensures RowOkBut(s', row, exempt)
    {
      assert RowOkBut(s, row, exempt);
    }
  }

  lemma SettlerMoves(s: State, step: Step, s': State)
    requires SettlerOk(s) && Next(s, step, s')
    requires step.Send? || step.SendFails? || step.ConfirmSameAddress? || step.Record? || step.Skip?
    ensures SettlerOk(s')
  {
  }

  lemma SettlerTakesSubmitted(s: State, s': State, exempt: set<nat>)
    requires RowsOkBut(s, exempt) && SettlerOk(s) && Next(s, TakeSubmitted, s')
    ensures SettlerOk(s')
  {
    assert RowOkBut(s, s.settler.todo[0].0, exempt);
  }

  lemma SettlerAsks(s: State, fate: Fate, s': State)
    requires SettlerOk(s) && Next(s, Ask(fate), s')
    ensures SettlerOk(s')
  {
  }

  /** Others may queue rows and decide broadcasts; the tick's rows and answers stand. */
  lemma SettlerUndisturbed(s: State, step: Step, s': State)
    requires SettlerOk(s) && Next(s, step, s')
    requires s'.settler == s.settler
    requires |s.transfers| <= |s'.transfers| && s'.transfers[..|s.transfers|] == s.transfers
    requires |s.txs| == |s'.txs|
    requires forall g | 0 <= g < |s.txs| && s.txs[g].state != InFlight :: s'.txs[g] == s.txs[g]
    ensures SettlerOk(s')
  {
    assert forall row | 0 <= row < |s.transfers| :: s'.transfers[row] == s'.transfers[..|s.transfers|][row];
  }

  lemma StepKeepsSettler(s: State, step: Step, s': State, exempt: set<nat>)
    requires RowsOkBut(s, exempt) && SettlerOk(s) && Next(s, step, s')
    ensures SettlerOk(s')
  {
    match step
    case Send => SettlerMoves(s, step, s');
    case SendFails => SettlerMoves(s, step, s');
    case ConfirmSameAddress => SettlerMoves(s, step, s');
    case Record => SettlerMoves(s, step, s');
    case Skip => SettlerMoves(s, step, s');
    case TakeSubmitted => SettlerTakesSubmitted(s, s', exempt);
    case Ask(fate) => SettlerAsks(s, fate, s');
    case BeginTick(_) =>
    case EndTick =>
    case CrashSettler =>
    case _ => SettlerUndisturbed(s, step, s');
  }

  lemma StepKeepsLegsBooked(s: State, step: Step, s': State)
    requires LegsBooked(s) && Next(s, step, s')
    ensures LegsBooked(s')
  {
    if step.Book? {
      BookKeepsLegsBooked(s, step.move, s');
    } else {
      forall row | 0 <= row < |s'.transfers|
        ensures KeyPosted(s'.entries, KeyOfLeg(s'.transfers[row].leg.key))
      {
        StillPosted(s, s', KeyOfLeg(s.transfers[row].leg.key));
      }
    }
  }

  lemma StillPosted(s: State, s': State, k: Key)
    requires KeyPosted(s.entries, k)
    requires |s.entries| <= |s'.entries| && s'.entries[..|s.entries|] == s.entries
    ensures KeyPosted(s'.entries, k)
  {
    var i :| 0 <= i < |s.entries| && s.entries[i].key == Some(k);
    assert s'.entries[i] == s'.entries[..|s.entries|][i];
  }

  lemma BookKeepsLegsBooked(s: State, m: Move, s': State)
    requires LegsBooked(s) && Next(s, Book(m), s')
    ensures LegsBooked(s')
  {
    MoveIsKeyed(m);
    var j := KeyedLegIsWritten(LedgerLegs(m), 0, MoveKey(m));
    AppendPosts(s.entries, NonZero(LedgerLegs(m)), j, MoveKey(m));
    EnqueueKeys(s.transfers, WalletLegs(m));
    WalletLegsOf(m);
    forall row | 0 <= row < |s'.transfers|
      ensures KeyPosted(s'.entries, KeyOfLeg(s'.transfers[row].leg.key))
    {
      if row < |s.transfers| {
        assert s'.transfers[row] == s'.transfers[..|s.transfers|][row];
        assert KeyPosted(s.entries, KeyOfLeg(s.transfers[row].leg.key));
      } else {
        assert KeyAmong(WalletLegs(m), s'.transfers[row].leg.key);
      }
    }
  }

  // ---------------------------------------------------------------------------
  // Correspondence
  // ---------------------------------------------------------------------------

  /** The on-chain balance and what the queued legs will still bring exceed what the address
      backs by `x`. */
  ghost predicate CorrespondsWith(s: State, a: nat, x: int) {
    Balance(s, a) + Unlanded(s, a, |s.transfers|) ==
    Backed(s.cfg, s.entries, a) + (if a == s.cfg.treasury then s.uncredited + s.leaving else 0) + x
  }

  ghost predicate CorrespondsAt(s: State, a: nat) {
    CorrespondsWith(s, a, 0)
  }

  lemma BookCorresponds(s: State, m: Move, s': State, a: nat, x: int)
    requires TxRowsOk(s) && LegsBooked(s) && CorrespondsWith(s, a, x) && Next(s, Book(m), s')
    ensures CorrespondsWith(s', a, x)
  {
    LegsMirrorTheMove(s.cfg, m, a);
    BackedConcat(s.cfg, s.entries, NonZero(LedgerLegs(m)), a);
    WalletLegsOf(m);
    forall row | 0 <= row < |s.transfers|
      ensures KeyOfLeg(s.transfers[row].leg.key) != MoveKey(m)
    {
      assert KeyPosted(s.entries, KeyOfLeg(s.transfers[row].leg.key));
    }
    UnlandedEnqueue(s, WalletLegs(m), MoveKey(m), a);
    var queued := s.(transfers := Enqueue(s.transfers, WalletLegs(m)));
    UnlandedSame(queued, s', a, |s'.transfers|);
  }

  /** Rows with no wallet legs: users pay each other, or money crosses the boundary. */
  lemma EntriesCorrespond(s: State, step: Step, s': State, a: nat, x: int)
    requires CorrespondsWith(s, a, x) && Next(s, step, s')
    requires step.BookInternal? || step.CreditDeposit? || step.DebitWithdrawal? || step.ReverseWithdrawal?
    ensures CorrespondsWith(s', a, x)
  {
    var legs := match step
      case BookInternal(legs) => legs
      case CreditDeposit(u, x, k) => CreditLegs(u, x, k)
      case DebitWithdrawal(u, x, k) => DebitLegs(u, x, k)
      case ReverseWithdrawal(u, x, k) => CreditLegs(u, x, k);
    if !step.BookInternal? {
      TwoLegUserTotal(legs);
      TwoLegs(legs, Escrow);
      TwoLegs(legs, Platform);
      TwoLegs(legs, Fee);
    }
    BackedConcat(s.cfg, s.entries, legs, a);
    UnlandedSame(s, s', a, |s.transfers|);
  }

  /** A transaction in flight belongs to a submitted row that has not landed. */
  lemma InFlightNotLanded(s: State, g: nat)
    requires RowsOk(s) && g < |s.txs| && s.txs[g].state == InFlight
    ensures s.txs[g].row < |s.transfers| && !HasLanded(s.txs, s.txs[g].row)
    ensures s.transfers[s.txs[g].row].status == TransferSubmitted
  {
    assert RowOk(s, s.txs[g].row);
  }

  lemma LandCorresponds(s: State, g: nat, s': State, a: nat)
    requires RowsOk(s) && CorrespondsAt(s, a) && Next(s, Land(g), s')
    ensures CorrespondsAt(s', a)
  {
    InFlightNotLanded(s, g);
    var row := s.txs[g].row;
    assert s'.txs[g] == Tx(row, Landed);
    forall r: nat | r != row
      ensures HasLanded(s.txs, r) == HasLanded(s'.txs, r)
    {
      if HasLanded(s.txs, r) {
        var h :| 0 <= h < |s.txs| && s.txs[h] == Tx(r, Landed);
        assert s'.txs[h] == Tx(r, Landed);
      }
    }
    UnlandedDrops(s, s', row, a, |s.transfers|);
  }

  /** Nothing lands, nothing is booked. */
  lemma QuietCorresponds(s: State, step: Step, s': State, a: nat, x: int)
    requires CorrespondsWith(s, a, x) && Next(s, step, s')
    requires s'.entries == s.entries && |s'.transfers| == |s.transfers| && !step.Land?
    ensures CorrespondsWith(s', a, x)
  {
    forall row: nat
      ensures HasLanded(s.txs, row) == HasLanded(s'.txs, row)
    {
      if HasLanded(s.txs, row) {
        var g :| 0 <= g < |s.txs| && s.txs[g] == Tx(row, Landed);
        assert s'.txs[g] == Tx(row, Landed);
      }
    }
    UnlandedSame(s, s', a, |s.transfers|);
  }

  /** Nothing but a landing changes the excess. */
  lemma OtherStepsCorrespond(s: State, step: Step, s': State, a: nat, x: int)
    requires TxRowsOk(s) && LegsBooked(s) && CorrespondsWith(s, a, x) && Next(s, step, s') && !step.Land?
    ensures CorrespondsWith(s', a, x)
  {
    match step
    case Book(m) => BookCorresponds(s, m, s', a, x);
    case BookInternal(_) => EntriesCorrespond(s, step, s', a, x);
    case CreditDeposit(_, _, _) => EntriesCorrespond(s, step, s', a, x);
    case DebitWithdrawal(_, _, _) => EntriesCorrespond(s, step, s', a, x);
    case ReverseWithdrawal(_, _, _) => EntriesCorrespond(s, step, s', a, x);
    case _ => QuietCorresponds(s, step, s', a, x);
  }

  lemma StepKeepsCorrespondence(s: State, step: Step, s': State, a: nat)
    requires RowsOk(s) && LegsBooked(s) && CorrespondsAt(s, a) && Next(s, step, s')
    ensures CorrespondsAt(s', a)
  {
    if step.Land? {
      LandCorresponds(s, step.sig, s', a);
    } else {
      OtherStepsCorrespond(s, step, s', a, 0);
    }
  }

  ghost predicate Inv(s: State) {
    RowsOk(s) && SettlerOk(s) && LegsBooked(s) && forall a: nat :: CorrespondsAt(s, a)
  }

  lemma StepKeeps(s: State, step: Step, s': State)
    requires Inv(s) && Next(s, step, s')
    ensures Inv(s')
  {
    StepKeepsRows(s, step, s', {});
    StepKeepsSettler(s, step, s', {});
    StepKeepsLegsBooked(s, step, s');
    forall a: nat { StepKeepsCorrespondence(s, step, s', a); }
  }

  lemma {:induction false} RunKeeps(states: seq<State>, i: nat)
    requires IsRun(states) && i < |states|
    ensures Inv(states[i])
    ensures states[i].cfg == states[0].cfg
  {
    if i > 0 {
      RunKeeps(states, i - 1);
      assert CanStep(states[i - 1], states[i - 1 + 1]);
      var step :| Next(states[i - 1], step, states[i]);
      StepKeeps(states[i - 1], step, states[i]);
    }
  }

  // ---------------------------------------------------------------------------
  // Reachable states
  // ---------------------------------------------------------------------------

  ghost predicate RunTo(states: seq<State>, s: State) {
    IsRun(states) && states[|states| - 1] == s
  }

  /** Some run ends here. */
  ghost predicate Reached(s: State) {
    exists states :: RunTo(states, s)
  }

  lemma InitialIsReached(s: State)
    requires Initial(s)
    ensures Reached(s)
  {
    assert RunTo([s], s);
  }

  lemma Goes(s: State, step: Step, s': State)
    requires Reached(s) && Next(s, step, s')
    ensures Reached(s')
  {
    var states :| RunTo(states, s);
    var more := states + [s'];
    forall i | 0 <= i < |more| - 1
      ensures CanStep(more[i], more[i + 1])
    {
      if i < |states| - 1 {
        assert CanStep(states[i], states[i + 1]);
      }
    }
    assert RunTo(more, s');
  }

  lemma ReachedIsSafe(s: State)
    requires Reached(s)
    ensures Inv(s)
  {
    var states :| RunTo(states, s);
    RunKeeps(states, |states| - 1);
  }

  // ---------------------------------------------------------------------------
  // Theorems
  // ---------------------------------------------------------------------------

  /** Wallet correspondence, in every run and at every address, shared or not: the on-chain
      balance plus what the queued legs will still bring equals the ledger accounts the
      address backs - at the treasury, also the money crossing the boundary. */
  lemma WalletsCorrespond(states: seq<State>, i: nat, a: nat)
    requires IsRun(states) && i < |states|
    ensures var s := states[i];
            Balance(s, a) + Unlanded(s, a, |s.transfers|) ==
            Backed(s.cfg, s.entries, a) + (if a == s.cfg.treasury then s.uncredited + s.leaving else 0)
  {
    RunKeeps(states, i);
    assert CorrespondsAt(states[i], a);
  }

  /** The rows and legs the ledger's operations write - zero legs already dropped - are the
      bookings the machine talks about, so what holds of its runs holds of them. */
  lemma OperationsAreBookings(s: State, m: Move)
    requires Reached(s) && m.amount > 0 && !KeyPosted(s.entries, MoveKey(m))
    ensures var written := if m.ReleaseMove? then NonZero(LedgerLegs(m)) else LedgerLegs(m);
            Reached(s.(entries := s.entries + written, transfers := Enqueue(s.transfers, WalletLegs(m))))
  {
    if !m.ReleaseMove? {
      var legs := LedgerLegs(m);
      assert NonZero(legs[..1]) == legs[..1] by {
        assert legs[..1][..0] == [];
      }
      assert legs[..1] + [legs[1]] == legs;
    }
    Goes(s, Book(m), s.(entries := s.entries + NonZero(LedgerLegs(m)), transfers := Enqueue(s.transfers, WalletLegs(m))));
  }

  /** No leg is waiting and no money is crossing the boundary. */
  predicate Quiet(s: State) {
    && (forall row | 0 <= row < |s.transfers| :: s.transfers[row].status == TransferConfirmed)
    && s.uncredited == 0 && s.leaving == 0
  }

  lemma {:induction false} ConfirmedBringNothing(s: State, a: nat, n: nat)
    requires RowsOk(s) && n <= |s.transfers|
    requires forall row | 0 <= row < |s.transfers| :: s.transfers[row].status == TransferConfirmed
    ensures Unlanded(s, a, n) == 0
  {
    if n > 0 {
      ConfirmedBringNothing(s, a, n - 1);
      assert RowOk(s, n - 1);
    }
  }

  lemma QuietMeansEqual(s: State, a: nat)
    requires Reached(s) && Quiet(s)
    ensures Balance(s, a) == Backed(s.cfg, s.entries, a)
  {
    ReachedIsSafe(s);
    assert CorrespondsAt(s, a);
    ConfirmedBringNothing(s, a, |s.transfers|);
  }

  /** What the audit reports for a wallet: its address on chain against its own account. */
  function AuditDiff(s: State, w: Wallet): int {
    Balance(s, AddressOf(s.cfg, w)) - Backs(s.entries, w)
  }

  /** What the other wallets at the same address back. */
  function OthersThere(s: State, w: Wallet): int {
    Backed(s.cfg, s.entries, AddressOf(s.cfg, w)) - Backs(s.entries, w)
  }

  predicate DistinctAddresses(cfg: Addresses) {
    && cfg.treasury !in {cfg.escrow, cfg.buyback, cfg.fee}
    && cfg.escrow !in {cfg.buyback, cfg.fee}
    && cfg.buyback != cfg.fee
  }

  /** Once nothing is in flight the audit of a wallet shows zero exactly when the other
      accounts behind its address sum to zero - so always with four addresses, while a
      shared address is reported as a mismatch although no money is missing. */
  lemma QuietAuditIsZeroIff(s: State, w: Wallet)
    requires Reached(s) && Quiet(s)
    ensures AuditDiff(s, w) == 0 <==> OthersThere(s, w) == 0
    ensures DistinctAddresses(s.cfg) ==> AuditDiff(s, w) == 0
  {
    QuietMeansEqual(s, AddressOf(s.cfg, w));
  }

  /** All four wallets share one address; a deposit of 100 is swept and credited. */
  lemma DepositAtOneAddress() returns (s: State)
    ensures Reached(s) && s == State(Addresses(0, 0, 0, 0), CreditLegs(7, 100, None), [], [], map[0 := 100], 0, 0, Idle)
  {
    var s0 := State(Addresses(0, 0, 0, 0), [], [], [], map[], 0, 0, Idle);
    InitialIsReached(s0);
    var s1 := s0.(balances := map[0 := 100], uncredited := 100);
    Goes(s0, Sweep(100), s1);
    s := s1.(entries := CreditLegs(7, 100, None), uncredited := 0);
    assert [] + CreditLegs(7, 100, None) == CreditLegs(7, 100, None);
    Goes(s1, CreditDeposit(7, 100, None), s);
  }

  /** Such a report: nothing is in flight and the one address holds what it backs, yet the
      audit finds 100 too many in the escrow wallet. */
  lemma SharedAddressIsReported() returns (s: State)
    ensures Reached(s) && Quiet(s) && Balance(s, 0) == Backed(s.cfg, s.entries, 0)
    ensures AuditDiff(s, EscrowWallet) == 100
  {
    s := DepositAtOneAddress();
    QuietMeansEqual(s, 0);
    TwoLegs(CreditLegs(7, 100, None), Escrow);
  }

  /** At most one broadcast of a leg ever lands, however ticks, crashes and the chain
      interleave; and a confirmed leg has landed, unless both ends are one address. */
  lemma LegsLandAtMostOnce(states: seq<State>, i: nat, g: nat, h: nat)
    requires IsRun(states) && i < |states|
    requires g < |states[i].txs| && h < |states[i].txs|
    requires states[i].txs[g].state == Landed && states[i].txs[h].state == Landed
    requires states[i].txs[g].row == states[i].txs[h].row
    ensures g == h
  {
    RunKeeps(states, i);
    assert RowOk(states[i], states[i].txs[g].row);
  }

  lemma ConfirmedLegsHaveLanded(states: seq<State>, i: nat, row: nat)
    requires IsRun(states) && i < |states| && row < |states[i].transfers|
    requires states[i].transfers[row].status == TransferConfirmed
    ensures HasLanded(states[i].txs, row) <==> !SameAddress(states[i], row)
    ensures forall g | 0 <= g < |states[i].txs| && states[i].txs[g].row == row :: states[i].txs[g].state != InFlight
  {
    RunKeeps(states, i);
    assert RowOk(states[i], row);
  }

  /** The settler broadcasts a leg only when every earlier broadcast of it is dead. */
  lemma OnlyDeadLegsAreResent(states: seq<State>, i: nat, s': State, g: nat)
    requires IsRun(states) && i < |states| && Next(states[i], Send, s')
    requires g < |states[i].txs| && states[i].txs[g].row == states[i].settler.todo[0].0
    ensures states[i].txs[g].state == Dropped
  {
    RunKeeps(states, i);
    assert RowOk(states[i], states[i].settler.todo[0].0);
  }
}
