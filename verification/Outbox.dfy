/** Ledger moves and the wallet moves that mirror them (packages/backend/src/escrow.ts,
    ledger.ts, chain-settle.ts). Every ledger operation queues its wallet legs in the same
    transaction; the settler drives each queued leg to the chain; the chain lands or drops
    each broadcast in its own time. The settler may crash between any two of its steps. */
module Outbox {
  import opened Schema
  import opened Money
  import opened Books

  /** The addresses the operator wallets resolve to; several may share one. */
  datatype Addresses = Addresses(treasury: nat, escrow: nat, buyback: nat, fee: nat)

  function AddressOf(cfg: Addresses, w: Wallet): nat {
    match w
    case Treasury => cfg.treasury
    case EscrowWallet => cfg.escrow
    case BuybackWallet => cfg.buyback
    case FeeWallet => cfg.fee
  }

  datatype TxState = InFlight | Landed | Dropped

  /** A broadcast of outbox row `row`; its signature is its position. */
  datatype Tx = Tx(row: nat, state: TxState)

  /** Where the settler stands with the row it is working on. */
  datatype Stage = Between | Asking(row: nat, sig: nat) | Heard(row: nat, fate: Fate)

  /** `todo` are the rows read when the tick began, as they were then. */
  datatype Settler = Idle | Ticking(todo: seq<(nat, Transfer)>, stage: Stage)

  /** `uncredited`: swept into the treasury, not yet credited to a user. `leaving`: debited
      from a user, not yet out of the treasury. */
  datatype State = State(
    cfg: Addresses,
    entries: seq<Entry>,
    transfers: seq<Transfer>,
    txs: seq<Tx>,
    balances: map<nat, int>,
    uncredited: int,
    leaving: int,
    settler: Settler)

  /** The ledger operations that move money between wallets. */
  datatype Move =
    | LockMove(order: nat, buyer: nat, amount: nat)
    | ReleaseMove(order: nat, seller: nat, amount: nat)
    | RefundMove(order: nat, buyer: nat, amount: nat)
    | ShippingMove(shipment: nat, buyer: nat, amount: nat)

  function LockChainLegs(order: nat, amount: nat): seq<ChainLeg> {
    [ChainLeg(LockLeg(order), Treasury, EscrowWallet, amount)]
  }

  function ReleaseChainLegs(order: nat, amount: nat): seq<ChainLeg> {
    var s := SplitSale(amount);
    [ChainLeg(ReleaseSellerLeg(order), EscrowWallet, Treasury, s.sellerProceeds),
     ChainLeg(ReleaseBuybackLeg(order), EscrowWallet, BuybackWallet, s.buybackFee),
     ChainLeg(ReleaseFeeLeg(order), EscrowWallet, FeeWallet, s.platformFee)]
  }

  function RefundChainLegs(order: nat, amount: nat): seq<ChainLeg> {
    [ChainLeg(RefundLeg(order), EscrowWallet, Treasury, amount)]
  }

  function LedgerLegs(m: Move): seq<Entry> {
    match m
    case LockMove(o, buyer, amount) => EscrowLockLegs(o, buyer, amount)
    case ReleaseMove(o, seller, amount) => EscrowReleaseLegs(o, seller, amount)
    case RefundMove(o, buyer, amount) => EscrowRefundLegs(o, buyer, amount)
    case ShippingMove(sh, buyer, amount) => ShippingLegs(sh, buyer, amount)
  }

  function WalletLegs(m: Move): seq<ChainLeg> {
    match m
    case LockMove(o, _, amount) => LockChainLegs(o, amount)
    case ReleaseMove(o, _, amount) => ReleaseChainLegs(o, amount)
    case RefundMove(o, _, amount) => RefundChainLegs(o, amount)
    case ShippingMove(sh, _, amount) => ShippingChainLegs(sh, amount)
  }

  function MoveKey(m: Move): Key {
    match m
    case LockMove(o, _, _) => EscrowLockKey(o)
    case ReleaseMove(o, _, _) => EscrowSettleKey(o)
    case RefundMove(o, _, _) => EscrowSettleKey(o)
    case ShippingMove(sh, _, _) => ShippingKey(sh)
  }

  /** The ledger key under which a leg is queued. */
  function KeyOfLeg(k: LegKey): Key {
    match k
    case LockLeg(o) => EscrowLockKey(o)
    case ReleaseSellerLeg(o) => EscrowSettleKey(o)
    case ReleaseBuybackLeg(o) => EscrowSettleKey(o)
    case ReleaseFeeLeg(o) => EscrowSettleKey(o)
    case RefundLeg(o) => EscrowSettleKey(o)
    case ShippingLeg(sh) => ShippingKey(sh)
  }

  // ---------------------------------------------------------------------------
  // What each address backs
  // ---------------------------------------------------------------------------

  /** The sum of all user balances. */
  function UserTotal(entries: seq<Entry>): int {
    if entries == [] then 0
    else
      var last := entries[|entries| - 1];
      UserTotal(entries[..|entries| - 1]) + (if last.account.User? then last.amount else 0)
  }

  /** The ledger amount a wallet must hold. */
  function Backs(entries: seq<Entry>, w: Wallet): int {
    match w
    case Treasury => UserTotal(entries)
    case EscrowWallet => Settled(entries, Escrow)
    case BuybackWallet => Settled(entries, Platform)
    case FeeWallet => Settled(entries, Fee)
  }

  function At(cfg: Addresses, w: Wallet, a: nat, x: int): int {
    if AddressOf(cfg, w) == a then x else 0
  }

  /** The ledger amount the wallets at address `a` must hold together. */
  function Backed(cfg: Addresses, entries: seq<Entry>, a: nat): int {
    At(cfg, Treasury, a, Backs(entries, Treasury)) + At(cfg, EscrowWallet, a, Backs(entries, EscrowWallet))
    + At(cfg, BuybackWallet, a, Backs(entries, BuybackWallet)) + At(cfg, FeeWallet, a, Backs(entries, FeeWallet))
  }

  /** What a leg brings to address `a` once it lands. */
  function NetInto(cfg: Addresses, leg: ChainLeg, a: nat): int {
    At(cfg, leg.to, a, leg.amount) - At(cfg, leg.from, a, leg.amount)
  }

  function LegsNet(cfg: Addresses, legs: seq<ChainLeg>, a: nat): int {
    if legs == [] then 0
    else LegsNet(cfg, legs[..|legs| - 1], a) + NetInto(cfg, legs[|legs| - 1], a)
  }

  function Balance(s: State, a: nat): int {
    if a in s.balances then s.balances[a] else 0
  }

  predicate HasLanded(txs: seq<Tx>, row: nat) {
    exists g :: 0 <= g < |txs| && txs[g] == Tx(row, Landed)
  }

  /** What the first `n` queued legs that have not landed yet will bring to address `a`. */
  function Unlanded(s: State, a: nat, n: nat): int
    requires n <= |s.transfers|
  {
    if n == 0 then 0
    else Unlanded(s, a, n - 1) + (if HasLanded(s.txs, n - 1) then 0 else NetInto(s.cfg, s.transfers[n - 1].leg, a))
  }

  // ---------------------------------------------------------------------------
  // Steps
  // ---------------------------------------------------------------------------

  datatype Step =
    | Book(move: Move)
    | BookInternal(legs: seq<Entry>)
    | Sweep(amount: nat)
    | CreditDeposit(user: nat, amount: nat, key: Option<Key>)
    | DebitWithdrawal(user: nat, amount: nat, key: Option<Key>)
    | WithdrawalLands(amount: nat)
    | ReverseWithdrawal(user: nat, amount: nat, key: Option<Key>)
    | BeginTick(todo: seq<(nat, Transfer)>)
    | Send
    | SendFails
    | ConfirmSameAddress
    | TakeSubmitted
    | Ask(fate: Fate)
    | Record
    | Skip
    | EndTick
    | CrashSettler
    | Land(sig: nat)
    | Drop(sig: nat)

  /** Rows that move money between users only. */
  predicate BetweenUsers(legs: seq<Entry>) {
    UserTotal(legs) == 0 && Settled(legs, Escrow) == 0 && Settled(legs, Platform) == 0 && Settled(legs, Fee) == 0
  }

  predicate OpenRow(t: Transfer) {
    t.status == TransferPending || t.status == TransferSubmitted
  }

  function SetTransfer(s: State, row: nat, t: Transfer): State
    requires row < |s.transfers|
  {
    s.(transfers := s.transfers[row := t])
  }

  function Pay(s: State, a: nat, x: int): State {
    s.(balances := s.balances[a := Balance(s, a) + x])
  }

  /** The settler is about to handle the first row of its list. */
  predicate AtRow(s: State) {
    s.settler.Ticking? && s.settler.stage == Between && s.settler.todo != [] && s.settler.todo[0].0 < |s.transfers|
  }

  /** The chain answers definitely only when the matter is decided, and may always say it
      does not know. */
  predicate Truthful(fate: Fate, tx: Tx) {
    && (fate == Confirmed ==> tx.state == Landed)
    && (fate == Dead ==> tx.state == Dropped)
  }

  ghost predicate Next(s: State, step: Step, s': State) {
    match step
    case Book(m) =>
      && m.amount > 0 && !KeyPosted(s.entries, MoveKey(m))
      && s' == s.(entries := s.entries + NonZero(LedgerLegs(m)), transfers := Enqueue(s.transfers, WalletLegs(m)))
    case BookInternal(legs) =>
      BetweenUsers(legs) && s' == s.(entries := s.entries + legs)
    case Sweep(amount) =>
      s' == Pay(s, s.cfg.treasury, amount).(uncredited := s.uncredited + amount)
    case CreditDeposit(user, amount, key) =>
      s' == s.(entries := s.entries + CreditLegs(user, amount, key), uncredited := s.uncredited - amount)
    case DebitWithdrawal(user, amount, key) =>
      s' == s.(entries := s.entries + DebitLegs(user, amount, key), leaving := s.leaving + amount)
    case WithdrawalLands(amount) =>
      s' == Pay(s, s.cfg.treasury, 0 - amount).(leaving := s.leaving - amount)
    case ReverseWithdrawal(user, amount, key) =>
      s' == s.(entries := s.entries + CreditLegs(user, amount, key), leaving := s.leaving - amount)
    case BeginTick(todo) =>
      && s.settler == Idle && DistinctRows(todo)
      && (forall i | 0 <= i < |todo| :: todo[i].0 < |s.transfers| && s.transfers[todo[i].0] == todo[i].1 && OpenRow(todo[i].1))
      && s' == s.(settler := Ticking(todo, Between))
    case SendFails =>
      && AtRow(s) && s.settler.todo[0].1.status == TransferPending
      && var row := s.settler.todo[0].0;
         s' == SetTransfer(s, row, s.transfers[row].(attempts := s.transfers[row].attempts + 1)).(settler := Ticking(s.settler.todo[1..], Between))
    case ConfirmSameAddress =>
      && AtRow(s) && s.settler.todo[0].1.status == TransferPending
      && var row := s.settler.todo[0].0;
         && AddressOf(s.cfg, s.transfers[row].leg.from) == AddressOf(s.cfg, s.transfers[row].leg.to)
         && s' == SetTransfer(s, row, s.transfers[row].(status := TransferConfirmed)).(settler := Ticking(s.settler.todo[1..], Between))
    case Send =>
      && AtRow(s) && s.settler.todo[0].1.status == TransferPending
      && var row := s.settler.todo[0].0;
         && AddressOf(s.cfg, s.transfers[row].leg.from) != AddressOf(s.cfg, s.transfers[row].leg.to)
         && s' == SetTransfer(s, row, s.transfers[row].(status := TransferSubmitted, sig := Some(|s.txs|), attempts := s.transfers[row].attempts + 1))
                    .(txs := s.txs + [Tx(row, InFlight)], settler := Ticking(s.settler.todo[1..], Asking(row, |s.txs|)))
    case TakeSubmitted =>
      && AtRow(s) && s.settler.todo[0].1.status == TransferSubmitted && s.settler.todo[0].1.sig.Some?
      && s' == s.(settler := Ticking(s.settler.todo[1..], Asking(s.settler.todo[0].0, s.settler.todo[0].1.sig.value)))
    case Ask(fate) =>
      && s.settler.Ticking? && s.settler.stage.Asking?
      && s.settler.stage.sig < |s.txs| && Truthful(fate, s.txs[s.settler.stage.sig])
      && s' == s.(settler := Ticking(s.settler.todo, Heard(s.settler.stage.row, fate)))
    case Record =>
      && s.settler.Ticking? && s.settler.stage.Heard? && s.settler.stage.row < |s.transfers|
      && var row := s.settler.stage.row;
         var t := s.transfers[row];
         s' == SetTransfer(s, row,
                 match s.settler.stage.fate
                 case Confirmed => t.(status := TransferConfirmed)
                 case Dead => t.(status := TransferPending, sig := None)
                 case Unknown => t).(settler := Ticking(s.settler.todo, Between))
    case Skip =>
      && s.settler.Ticking?
      && (s.settler.stage == Between ==> s.settler.todo != [])
      && s' == s.(settler := Ticking(if s.settler.stage == Between then s.settler.todo[1..] else s.settler.todo, Between))
    case EndTick =>
      s.settler.Ticking? && s.settler.todo == [] && s.settler.stage == Between && s' == s.(settler := Idle)
    case CrashSettler =>
      s' == s.(settler := Idle)
    case Land(g) =>
      && g < |s.txs| && s.txs[g].state == InFlight && s.txs[g].row < |s.transfers|
      && var leg := s.transfers[s.txs[g].row].leg;
         s' == Pay(Pay(s, AddressOf(s.cfg, leg.from), -leg.amount), AddressOf(s.cfg, leg.to), leg.amount)
                 .(txs := s.txs[g := s.txs[g].(state := Landed)])
    case Drop(g) =>
      && g < |s.txs| && s.txs[g].state == InFlight
      && s' == s.(txs := s.txs[g := s.txs[g].(state := Dropped)])
  }

  predicate DistinctRows(todo: seq<(nat, Transfer)>) {
    forall i, j | 0 <= i < j < |todo| :: todo[i].0 != todo[j].0
  }

  predicate Initial(s: State) {
    s == State(s.cfg, [], [], [], map[], 0, 0, Idle)
  }

  ghost predicate CanStep(s: State, s': State) {
    exists step :: Next(s, step, s')
  }

  ghost predicate IsRun(states: seq<State>) {
    && states != [] && Initial(states[0])
    && forall i | 0 <= i < |states| - 1 :: CanStep(states[i], states[i + 1])
  }

  // ---------------------------------------------------------------------------
  // Invariants
  // ---------------------------------------------------------------------------

  predicate SameAddress(s: State, row: nat)
    requires row < |s.transfers|
  {
    AddressOf(s.cfg, s.transfers[row].leg.from) == AddressOf(s.cfg, s.transfers[row].leg.to)
  }

  /** The broadcasts of a row, all but the current one and the exempted ones, are dropped for
      good. */
  ghost predicate RowOkBut(s: State, row: nat, exempt: set<nat>)
    requires row < |s.transfers|
  {
    var t := s.transfers[row];
    match t.status
    case TransferPending =>
      t.sig == None && (forall g | 0 <= g < |s.txs| && s.txs[g].row == row && g !in exempt :: s.txs[g].state == Dropped)
    case TransferSubmitted =>
      && t.sig.Some? && t.sig.value < |s.txs| && s.txs[t.sig.value].row == row && !SameAddress(s, row)
      && (forall g | 0 <= g < |s.txs| && s.txs[g].row == row && g != t.sig.value && g !in exempt ::
          s.txs[g].state == Dropped)
    case TransferConfirmed =>
      if SameAddress(s, row) then forall g | 0 <= g < |s.txs| && s.txs[g].row == row
        && g !in exempt :: s.txs[g].state == Dropped
      else
        && t.sig.Some? && t.sig.value < |s.txs| && s.txs[t.sig.value] == Tx(row, Landed)
        && (forall g | 0 <= g < |s.txs| && s.txs[g].row == row && g != t.sig.value && g !in exempt ::
            s.txs[g].state == Dropped)
  }

  ghost predicate RowOk(s: State, row: nat)
    requires row < |s.transfers|
  {
    RowOkBut(s, row, {})
  }

  /** Every broadcast is of a queued leg. */
  predicate TxRowsOk(s: State) {
    forall g | 0 <= g < |s.txs| :: s.txs[g].row < |s.transfers|
  }

  ghost predicate RowsOkBut(s: State, exempt: set<nat>) {
    && (forall row | 0 <= row < |s.transfers| :: RowOkBut(s, row, exempt))
    && TxRowsOk(s)
  }

  ghost predicate RowsOk(s: State) {
    RowsOkBut(s, {})
  }

  /** The tick works on rows as they still are, and on answers that still hold. */
  predicate SettlerOk(s: State) {
    s.settler.Ticking? ==>
      && DistinctRows(s.settler.todo)
      && (forall i | 0 <= i < |s.settler.todo| ::
            && s.settler.todo[i].0 < |s.transfers|
            && s.transfers[s.settler.todo[i].0] == s.settler.todo[i].1
            && OpenRow(s.settler.todo[i].1))
      && match s.settler.stage
         case Between => true
         case Asking(row, sig) =>
           && OffList(s.settler.todo, row) && row < |s.transfers| && sig < |s.txs|
           && s.transfers[row].status == TransferSubmitted && s.transfers[row].sig == Some(sig)
         case Heard(row, fate) =>
           && OffList(s.settler.todo, row) && row < |s.transfers|
           && s.transfers[row].status == TransferSubmitted
           && s.transfers[row].sig.Some? && s.transfers[row].sig.value < |s.txs|
           && Truthful(fate, s.txs[s.transfers[row].sig.value])
  }

  predicate OffList(todo: seq<(nat, Transfer)>, row: nat) {
    forall i | 0 <= i < |todo| :: todo[i].0 != row
  }

  /** Every queued leg was queued by a ledger move that stands in the books. */
  ghost predicate LegsBooked(s: State) {
    && UniqueLegs(s.transfers)
    && (forall row | 0 <= row < |s.transfers| :: KeyPosted(s.entries, KeyOfLeg(s.transfers[row].leg.key)))
  }

  // ---------------------------------------------------------------------------
  // Sums
  // ---------------------------------------------------------------------------

  lemma {:induction false} UserTotalConcat(x: seq<Entry>, y: seq<Entry>)
    ensures UserTotal(x + y) == UserTotal(x) + UserTotal(y)
  {
    if y == [] {
      assert x + y == x;
    } else {
      assert (x + y)[..|x + y| - 1] == x + y[..|y| - 1];
      UserTotalConcat(x, y[..|y| - 1]);
    }
  }

  lemma {:induction false} NonZeroKeepsUserTotal(legs: seq<Entry>)
    ensures UserTotal(NonZero(legs)) == UserTotal(legs)
  {
    if legs != [] {
      var rest := legs[..|legs| - 1];
      NonZeroKeepsUserTotal(rest);
      assert [legs[|legs| - 1]][..0] == [];
      UserTotalConcat(NonZero(rest), [legs[|legs| - 1]]);
    }
  }

  lemma TwoLegUserTotal(legs: seq<Entry>)
    requires |legs| == 2
    ensures UserTotal(legs) == (if legs[0].account.User? then legs[0].amount else 0) + (if legs[1].account.User? then legs[1].amount else 0)
  {
    var first := legs[..1];
    assert first[..0] == [];
    assert UserTotal(first) == if legs[0].account.User? then legs[0].amount else 0;
  }

  lemma BackedConcat(cfg: Addresses, x: seq<Entry>, y: seq<Entry>, a: nat)
    ensures Backed(cfg, x + y, a) == Backed(cfg, x, a) + Backed(cfg, y, a)
  {
    UserTotalConcat(x, y);
    SettledConcat(x, y, Escrow);
    SettledConcat(x, y, Platform);
    SettledConcat(x, y, Fee);
  }

  lemma {:induction false} UnlandedSame(s: State, s': State, a: nat, n: nat)
    requires n <= |s.transfers| && n <= |s'.transfers| && s.cfg == s'.cfg
    requires forall row | 0 <= row < n :: s.transfers[row].leg == s'.transfers[row].leg
    requires forall row | 0 <= row < n :: HasLanded(s.txs, row) == HasLanded(s'.txs, row)
    ensures Unlanded(s, a, n) == Unlanded(s', a, n)
  {
    if n > 0 {
      UnlandedSame(s, s', a, n - 1);
    }
  }

  /** When one row lands, its leg leaves the sum. */
  lemma {:induction false} UnlandedDrops(s: State, s': State, row: nat, a: nat, n: nat)
    requires row < |s.transfers| && n <= |s.transfers|
    requires s'.transfers == s.transfers && s'.cfg == s.cfg
    requires !HasLanded(s.txs, row) && HasLanded(s'.txs, row)
    requires forall r: nat | r != row :: HasLanded(s.txs, r) == HasLanded(s'.txs, r)
    ensures Unlanded(s', a, n) == Unlanded(s, a, n) - (if row < n then NetInto(s.cfg, s.transfers[row].leg, a) else 0)
  {
    if n > 0 {
      UnlandedDrops(s, s', row, a, n - 1);
    }
  }

  // ---------------------------------------------------------------------------
  // Each move and its legs
  // ---------------------------------------------------------------------------

  /** Every ledger move changes what each address backs by exactly what its wallet legs
      will bring there - whichever wallets share the address. */
  lemma LegsMirrorTheMove(cfg: Addresses, m: Move, a: nat)
    ensures Backed(cfg, LedgerLegs(m), a) == LegsNet(cfg, WalletLegs(m), a)
    ensures Backed(cfg, NonZero(LedgerLegs(m)), a) == Backed(cfg, LedgerLegs(m), a)
  {
    var legs := LedgerLegs(m);
    NonZeroKeepsUserTotal(legs);
    NonZeroKeepsBalances(legs, Escrow);
    NonZeroKeepsBalances(legs, Platform);
    NonZeroKeepsBalances(legs, Fee);
    if m.ReleaseMove? {
      ReleaseMirrors(cfg, m, a);
    } else {
      TwoLegMirrors(cfg, m, a);
    }
  }

  lemma OneLegNet(cfg: Addresses, legs: seq<ChainLeg>, a: nat)
    requires |legs| == 1
    ensures LegsNet(cfg, legs, a) == NetInto(cfg, legs[0], a)
  {
    assert legs[..0] == [];
  }

  lemma TwoLegMirrors(cfg: Addresses, m: Move, a: nat)
    requires !m.ReleaseMove?
    ensures Backed(cfg, LedgerLegs(m), a) == LegsNet(cfg, WalletLegs(m), a)
  {
    var legs := LedgerLegs(m);
    TwoLegUserTotal(legs);
    TwoLegs(legs, Escrow);
    TwoLegs(legs, Platform);
    TwoLegs(legs, Fee);
    OneLegNet(cfg, WalletLegs(m), a);
  }

  lemma ReleaseMirrors(cfg: Addresses, m: Move, a: nat)
    requires m.ReleaseMove?
    ensures Backed(cfg, LedgerLegs(m), a) == LegsNet(cfg, WalletLegs(m), a)
  {
    var legs := LedgerLegs(m);
    ReleaseMovesTheAmount(m.order, m.seller, m.amount, Fee);
    SplitSaleConserves(m.amount);
    var x, y := legs[..2], legs[2..];
    assert legs == x + y;
    UserTotalConcat(x, y);
    TwoLegUserTotal(x);
    TwoLegUserTotal(y);
    var c := WalletLegs(m);
    assert c[..2][..1] == c[..1];
    OneLegNet(cfg, c[..1], a);
    assert LegsNet(cfg, c[..2], a) == NetInto(cfg, c[0], a) + NetInto(cfg, c[1], a);
  }

  lemma MoveIsKeyed(m: Move)
    requires m.amount > 0
    ensures KeyedAt(LedgerLegs(m), 0, MoveKey(m))
  {
  }

  /** Distinct keys, all queued under the key of one ledger move. */
  ghost predicate LegsOf(legs: seq<ChainLeg>, k: Key) {
    && (forall i | 0 <= i < |legs| :: legs[i].amount >= 0 && KeyOfLeg(legs[i].key) == k)
    && (forall i, j | 0 <= i < j < |legs| :: legs[i].key != legs[j].key)
  }

  lemma WalletLegsOf(m: Move)
    ensures LegsOf(WalletLegs(m), MoveKey(m))
  {
    SplitSaleConserves(m.amount);
  }

  predicate KeyAmong(legs: seq<ChainLeg>, k: LegKey) {
    exists j :: 0 <= j < |legs| && legs[j].key == k
  }

  /** The rows from `n` on are new and carry keys of `legs`. */
  predicate NewRows(transfers: seq<Transfer>, n: nat, legs: seq<ChainLeg>) {
    forall i :: n <= i < |transfers| ==>
      transfers[i].status == TransferPending && transfers[i].sig == None && KeyAmong(legs, transfers[i].leg.key)
  }

  lemma {:induction false} EnqueueKeys(transfers: seq<Transfer>, legs: seq<ChainLeg>)
    ensures NewRows(Enqueue(transfers, legs), |transfers|, legs)
  {
    if legs != [] {
      var n := |legs| - 1;
      EnqueueKeys(transfers, legs[..n]);
      var before, after := Enqueue(transfers, legs[..n]), Enqueue(transfers, legs);
      forall i | |transfers| <= i < |before|
        ensures KeyAmong(legs, before[i].leg.key)
      {
        var j :| 0 <= j < n && legs[..n][j].key == before[i].leg.key;
        assert legs[j].key == before[i].leg.key;
      }
      if after != before {
        assert after[|before|].leg == legs[n];
      }
    }
  }

  lemma {:induction false} NotQueuedYet(transfers: seq<Transfer>, legs: seq<ChainLeg>, k: Key)
    requires legs != [] && LegsOf(legs, k)
    requires forall row | 0 <= row < |transfers| :: KeyOfLeg(transfers[row].leg.key) != k
    ensures !LegQueued(Enqueue(transfers, legs[..|legs| - 1]), legs[|legs| - 1].key)
  {
    var n := |legs| - 1;
    var before := Enqueue(transfers, legs[..n]);
    EnqueueKeys(transfers, legs[..n]);
    forall i | 0 <= i < |before|
      ensures before[i].leg.key != legs[n].key
    {
      if i < |transfers| {
        assert before[i] == before[..|transfers|][i];
      } else {
        var j :| 0 <= j < n && legs[..n][j].key == before[i].leg.key;
      }
    }
  }

  lemma UnlandedOneMore(mid: State, s': State, leg: ChainLeg, a: nat)
    requires forall g | 0 <= g < |mid.txs| :: mid.txs[g].row < |mid.transfers|
    requires leg.amount >= 0
    requires s' == if leg.amount > 0 then mid.(transfers := mid.transfers + [Transfer(leg, TransferPending, None, 0)]) else mid
    ensures Unlanded(s', a, |s'.transfers|) == Unlanded(mid, a, |mid.transfers|) + NetInto(mid.cfg, leg, a)
  {
    UnlandedSame(mid, s', a, |mid.transfers|);
  }

  /** Queueing fresh legs adds exactly what they will bring. */
  lemma {:induction false} UnlandedEnqueue(s: State, legs: seq<ChainLeg>, k: Key, a: nat)
    requires LegsOf(legs, k)
    requires forall row | 0 <= row < |s.transfers| :: KeyOfLeg(s.transfers[row].leg.key) != k
    requires forall g | 0 <= g < |s.txs| :: s.txs[g].row < |s.transfers|
    ensures var s' := s.(transfers := Enqueue(s.transfers, legs));
            Unlanded(s', a, |s'.transfers|) == Unlanded(s, a, |s.transfers|) + LegsNet(s.cfg, legs, a)
  {
    if legs != [] {
      var n := |legs| - 1;
      UnlandedEnqueue(s, legs[..n], k, a);
      var mid := s.(transfers := Enqueue(s.transfers, legs[..n]));
      var s' := s.(transfers := Enqueue(s.transfers, legs));
      NotQueuedYet(s.transfers, legs, k);
      UnlandedOneMore(mid, s', legs[n], a);
    } else {
      assert s.(transfers := Enqueue(s.transfers, legs)) == s;
    }
  }
}
