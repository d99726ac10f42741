/** The class that runs the deposit rail (packages/backend/src/deposits.ts). What the chain
    and the oracle answer are parameters, `None` when the call throws; so is which database
    writes throw. */
module DepositWatcher {
  import opened Schema
  import opened Books
  import opened Prices
  import opened Deposits
  import L = Ledger

  datatype UsdcEvent = UsdcEvent(user: nat, sig: nat, amount: int)

  datatype SolEvent = SolEvent(user: nat, sig: nat, lamports: int)

  const PENDING_LIMIT := 500

  /** The oldest receipts not closed yet, with their rows, at most `limit` of them. */
  function PendingRows(receipts: seq<Receipt>, limit: nat): (r: seq<(nat, Receipt)>)
    ensures |r| <= limit && ReadRows(receipts, r) && DistinctRows(r)
    ensures forall k | 0 <= k < |r| :: !r[k].1.credited
  {
    if receipts == [] then []
    else
      var n := |receipts| - 1;
      var rest := PendingRows(receipts[..n], limit);
      if |rest| < limit && !receipts[n].credited then rest + [(n, receipts[n])] else rest
  }

  /** Which write of a row throws, if any. */
  datatype Fault = NoFault | AtPricing | AtCredit | AtClose

  /** What a pass knows: the price of its one oracle call, the spread, and where it fails. */
  datatype Terms = Terms(price: Option<nat>, spread: nat, faults: map<nat, Fault>)

  function FaultOf(t: Terms, row: nat): Fault {
    if row in t.faults then t.faults[row] else NoFault
  }

  /** The receipt is skipped before anything is written: no price, or its price not stored. */
  predicate Skipped(r: Receipt, t: Terms, f: Fault) {
    Unpriced(r) && (t.price == None || f == AtPricing)
  }

  function PricedBy(r: Receipt, t: Terms): Receipt
    requires t.spread <= BPS
  {
    if Unpriced(r) && t.price.Some? then Priced(r, Pricing(t.price.value, t.spread)) else r
  }

  /** None of the receipt's writes throws. */
  predicate Completes(r: Receipt, t: Terms, f: Fault)
    requires t.spread <= BPS
  {
    !Skipped(r, t, f) && f != AtClose && (f == AtCredit ==> PricedBy(r, t).amount <= 0)
  }

  /** What a pass makes of a pending receipt: priced, credited and closed, as far as its
      writes succeed. */
  function Handled(r: Receipt, t: Terms, f: Fault): Receipt
    requires t.spread <= BPS
  {
    if Skipped(r, t, f) then r
    else if Completes(r, t, f) then PricedBy(r, t).(credited := true)
    else PricedBy(r, t)
  }

  function IsCredited(r: Receipt, t: Terms, f: Fault): nat
    requires t.spread <= BPS
  {
    if Completes(r, t, f) && PricedBy(r, t).amount > 0 then 1 else 0
  }

  function CountCredited(todo: seq<(nat, Receipt)>, t: Terms): nat
    requires t.spread <= BPS
  {
    if todo == [] then 0
    else
      var (row, r) := todo[|todo| - 1];
      CountCredited(todo[..|todo| - 1], t) + IsCredited(r, t, FaultOf(t, row))
  }

  /** The table once the rows of `todo` have been handled. */
  function Swept(receipts: seq<Receipt>, todo: seq<(nat, Receipt)>, t: Terms): (r: seq<Receipt>)
    requires t.spread <= BPS && forall k | 0 <= k < |todo| :: todo[k].0 < |receipts|
    ensures |r| == |receipts|
  {
    if todo == [] then receipts
    else
      var n := |todo| - 1;
      Swept(receipts, todo[..n], t)[todo[n].0 := Handled(todo[n].1, t, FaultOf(t, todo[n].0))]
  }

  lemma {:induction false} SweptRow(receipts: seq<Receipt>, todo: seq<(nat, Receipt)>, t: Terms, i: nat)
    requires t.spread <= BPS && DistinctRows(todo) && i < |receipts|
    requires forall k | 0 <= k < |todo| :: todo[k].0 < |receipts|
    ensures OffList(todo, i) ==> Swept(receipts, todo, t)[i] == receipts[i]
    ensures forall k | 0 <= k < |todo| && todo[k].0 == i ::
            Swept(receipts, todo, t)[i] == Handled(todo[k].1, t, FaultOf(t, i))
  {
    if todo != [] {
      SweptRow(receipts, todo[..|todo| - 1], t, i);
    }
  }

  /** The entries after a row is handled: its credit, unless there is nothing to credit, it
      stands already, or the row is left before. */
  function EntriesAfter(entries: seq<Entry>, r: Receipt, t: Terms, f: Fault): seq<Entry>
    requires t.spread <= BPS
  {
    var p := PricedBy(r, t);
    if Skipped(r, t, f) || p.amount <= 0 || f == AtCredit || Posted(entries, p) then entries
    else entries + CreditLegs(p.user, p.amount, Some(DepositKey(p.sig)))
  }

  function PassEntries(entries: seq<Entry>, todo: seq<(nat, Receipt)>, t: Terms): seq<Entry>
    requires t.spread <= BPS
  {
    if todo == [] then entries
    else
      var (row, r) := todo[|todo| - 1];
      EntriesAfter(PassEntries(entries, todo[..|todo| - 1], t), r, t, FaultOf(t, row))
  }

  /** What a pass credits for a receipt: its amount, priced now if it had no price. */
  function Worth(r: Receipt, t: Terms): int
    requires t.spread <= BPS
  {
    if r.asset == Sol && r.price == None && t.price.Some? then LamportsToUsdcMicros(r.lamports, t.price.value, t.spread) else r.amount
  }

  /** The pass credits the receipt: it has a price, it is worth something, no write before the
      credit throws, and no earlier pass has credited it. */
  predicate Pays(entries: seq<Entry>, r: Receipt, t: Terms, f: Fault)
    requires t.spread <= BPS
  {
    && (r.asset == Sol && r.price == None ==> t.price.Some? && f != AtPricing)
    && f != AtCredit && Worth(r, t) > 0 && !KeyPosted(entries, DepositKey(r.sig))
  }

  /** What a pass over `todo` changes at account `a`. */
  function PassChange(entries: seq<Entry>, todo: seq<(nat, Receipt)>, t: Terms, a: Account): int
    requires t.spread <= BPS
  {
    if todo == [] then 0
    else
      var (row, r) := todo[|todo| - 1];
      PassChange(entries, todo[..|todo| - 1], t, a)
      + if Pays(entries, r, t, FaultOf(t, row)) then Change(External, User(r.user), Worth(r, t), a) else 0
  }

  predicate DistinctSigs(todo: seq<(nat, Receipt)>) {
    forall i, j | 0 <= i < j < |todo| :: todo[i].1.sig != todo[j].1.sig
  }

  /** A pass only appends, and posts the keys of its own receipts only. */
  lemma {:induction false} PassPosts(entries: seq<Entry>, todo: seq<(nat, Receipt)>, t: Terms, k: Key)
    requires t.spread <= BPS && forall i | 0 <= i < |todo| :: k != DepositKey(todo[i].1.sig)
    ensures KeyPosted(PassEntries(entries, todo, t), k) <==> KeyPosted(entries, k)
  {
    if todo != [] {
      var n := |todo| - 1;
      PassPosts(entries, todo[..n], t, k);
      var p := PricedBy(todo[n].1, t);
      OtherPosts(PassEntries(entries, todo[..n], t), CreditLegs(p.user, p.amount, Some(DepositKey(p.sig))), k);
    }
  }

  lemma {:induction false} PassAppends(entries: seq<Entry>, todo: seq<(nat, Receipt)>, t: Terms)
    requires t.spread <= BPS
    ensures |entries| <= |PassEntries(entries, todo, t)| && PassEntries(entries, todo, t)[..|entries|] == entries
  {
    if todo != [] {
      PassAppends(entries, todo[..|todo| - 1], t);
    }
  }

  /** Every balance changes by exactly what the pass credits, once for each signature. */
  lemma {:induction false} PassPays(entries: seq<Entry>, todo: seq<(nat, Receipt)>, t: Terms, a: Account)
    requires t.spread <= BPS && DistinctSigs(todo)
    ensures Settled(PassEntries(entries, todo, t), a) == Settled(entries, a) + PassChange(entries, todo, t, a)
  {
    if todo != [] {
      var n := |todo| - 1;
      var (row, r) := todo[n];
      PassPays(entries, todo[..n], t, a);
      PassPosts(entries, todo[..n], t, DepositKey(r.sig));
      SettledConcat(PassEntries(entries, todo[..n], t), CreditLegs(r.user, Worth(r, t), Some(DepositKey(r.sig))), a);
      CreditMoves(r.user, Worth(r, t), Some(DepositKey(r.sig)), a);
    }
  }

  function ReceiptOf(e: UsdcEvent): Receipt {
    Receipt(e.user, e.sig, Usdc, 0, e.amount, None, false)
  }

  function SolReceiptOf(e: SolEvent): Receipt {
    Receipt(e.user, e.sig, Sol, e.lamports, 0, None, false)
  }

  // ---------------------------------------------------------------------------
  // Whose deposit, and how much
  // ---------------------------------------------------------------------------

  /** The receipt of the first USDC event with its signature. */
  ghost predicate FromUsdc(r: Receipt, events: seq<UsdcEvent>) {
    exists k :: 0 <= k < |events| && FirstUsdc(events, k)
                && r.sig == events[k].sig && r.user == events[k].user && r.asset == Usdc && r.amount == events[k].amount
  }

  predicate FirstUsdc(events: seq<UsdcEvent>, k: nat) {
    k < |events| && forall j | 0 <= j < k :: events[j].sig != events[k].sig
  }

  /** The receipt of the first SOL event with its signature. */
  ghost predicate FromSol(r: Receipt, events: seq<SolEvent>) {
    exists k :: 0 <= k < |events| && FirstSol(events, k)
                && r.sig == events[k].sig && r.user == events[k].user && r.asset == Sol && r.lamports == events[k].lamports
  }

  predicate FirstSol(events: seq<SolEvent>, k: nat) {
    k < |events| && forall j | 0 <= j < k :: events[j].sig != events[k].sig
  }

  /** Old receipts stand, and every new one is that of an event. */
  ghost predicate NewFrom(before: seq<Receipt>, after: seq<Receipt>, events: seq<UsdcEvent>, solEvents: seq<SolEvent>) {
    && Kept(before, after)
    && forall i | |before| <= i < |after| :: FromUsdc(after[i], events) || FromSol(after[i], solEvents)
  }

  /** No receipt is lost, and none changes hands: pricing a SOL receipt is all that may happen
      to its amount. */
  predicate Kept(before: seq<Receipt>, after: seq<Receipt>) {
    && |before| <= |after|
    && forall i | 0 <= i < |before| :: SameDeposit(before[i], after[i])
  }

  predicate SameDeposit(was: Receipt, r: Receipt) {
    && r.user == was.user && r.sig == was.sig && r.asset == was.asset && r.lamports == was.lamports
    && (!(was.asset == Sol && was.price == None) ==> r.amount == was.amount && r.price == was.price)
    && (was.credited ==> r == was)
  }

  /** The SOL events of a tick: SOL is polled on every `every`-th tick, if at all. */
  function SolPolled(enabled: bool, tickN: nat, every: nat, poll: Option<seq<SolEvent>>): seq<SolEvent>
    requires every > 0
  {
    if enabled && tickN % every == 0 && poll.Some? then poll.value else []
  }

  lemma MoreUsdc(r: Receipt, events: seq<UsdcEvent>, k: nat)
    requires k < |events| && FromUsdc(r, events[..k])
    ensures FromUsdc(r, events[..k + 1])
  {
    var j :| 0 <= j < k && FirstUsdc(events[..k], j)
      && r.sig == events[..k][j].sig && r.user == events[..k][j].user && r.asset == Usdc && r.amount == events[..k][j].amount;
    assert FirstUsdc(events[..k + 1], j) && events[..k + 1][j] == events[..k][j];
  }

  lemma MoreSol(r: Receipt, events: seq<SolEvent>, k: nat)
    requires k < |events| && FromSol(r, events[..k])
    ensures FromSol(r, events[..k + 1])
  {
    var j :| 0 <= j < k && FirstSol(events[..k], j)
      && r.sig == events[..k][j].sig && r.user == events[..k][j].user && r.asset == Sol && r.lamports == events[..k][j].lamports;
    assert FirstSol(events[..k + 1], j) && events[..k + 1][j] == events[..k][j];
  }

  /** The next USDC event: written down if its signature is new, and passed over otherwise. */
  lemma UsdcRecorded(before: seq<Receipt>, middle: seq<Receipt>, after: seq<Receipt>, events: seq<UsdcEvent>, k: nat)
    requires k < |events| && NewFrom(before, middle, events[..k], [])
    requires after == middle || (after == middle + [ReceiptOf(events[k])] && FirstUsdc(events, k))
    ensures NewFrom(before, after, events[..k + 1], [])
  {
    forall i | |before| <= i < |after|
      ensures FromUsdc(after[i], events[..k + 1])
    {
      if i == |middle| {
        assert FirstUsdc(events[..k + 1], k) && events[..k + 1][k] == events[k];
      } else {
        assert FromUsdc(middle[i], events[..k]);
        MoreUsdc(middle[i], events, k);
      }
    }
  }

  lemma SolRecorded(before: seq<Receipt>, middle: seq<Receipt>, after: seq<Receipt>, events: seq<SolEvent>, k: nat)
    requires k < |events| && NewFrom(before, middle, [], events[..k])
    requires after == middle || (after == middle + [SolReceiptOf(events[k])] && FirstSol(events, k))
    ensures NewFrom(before, after, [], events[..k + 1])
  {
    forall i | |before| <= i < |after|
      ensures FromSol(after[i], events[..k + 1])
    {
      if i == |middle| {
        assert FirstSol(events[..k + 1], k) && events[..k + 1][k] == events[k];
      } else {
        assert FromSol(middle[i], events[..k]);
        MoreSol(middle[i], events, k);
      }
    }
  }

  lemma BothRecorded(before: seq<Receipt>, middle: seq<Receipt>, after: seq<Receipt>, events: seq<UsdcEvent>,
                     solEvents: seq<SolEvent>)
    requires Recorded(before, middle) && Recorded(middle, after)
    requires NewFrom(before, middle, events, []) && NewFrom(middle, after, [], solEvents)
    ensures NewFrom(before, after, events, solEvents)
  {
    forall i | |before| <= i < |after|
      ensures FromUsdc(after[i], events) || FromSol(after[i], solEvents)
    {
      NothingComesFromNothing(after[i]);
      assert i < |middle| ==> after[i] == middle[i];
    }
  }

  lemma NothingComesFromNothing(r: Receipt)
    ensures !FromUsdc(r, []) && !FromSol(r, [])
  {
  }

  lemma StillFrom(before: seq<Receipt>, middle: seq<Receipt>, after: seq<Receipt>, events: seq<UsdcEvent>, solEvents: seq<SolEvent>)
    requires NewFrom(before, middle, events, solEvents) && Kept(middle, after) && |after| == |middle|
    ensures NewFrom(before, after, events, solEvents)
  {
    forall i | |before| <= i < |after|
      ensures FromUsdc(after[i], events) || FromSol(after[i], solEvents)
    {
      assert SameDeposit(middle[i], after[i]);
      if FromUsdc(middle[i], events) {
        var k :| 0 <= k < |events| && FirstUsdc(events, k)
          && middle[i].sig == events[k].sig && middle[i].user == events[k].user && middle[i].asset == Usdc
          && middle[i].amount == events[k].amount;
        assert FirstUsdc(events, k);
      } else {
        var k :| 0 <= k < |solEvents| && FirstSol(solEvents, k)
          && middle[i].sig == solEvents[k].sig && middle[i].user == solEvents[k].user && middle[i].asset == Sol
          && middle[i].lamports == solEvents[k].lamports;
        assert FirstSol(solEvents, k);
      }
    }
  }

  class DepositWatcher {
    const ledger: L.Ledger
    var receipts: seq<Receipt>
    var cursor: nat
    var running: bool
    var tickN: nat

    constructor (ledger: L.Ledger)
      requires ledger.Valid() && ledger.entries == []
      ensures this.ledger == ledger && Valid()
      ensures receipts == [] && !running && cursor == 0 && tickN == 0
    {
      this.ledger := ledger;
      receipts, cursor, running, tickN := [], 0, false, 0;
    }

    /** The ledger is sound and every receipt agrees with it. */
    ghost predicate Valid()
      reads this, ledger
    {
      ledger.Valid() && Inv(State(receipts, ledger.entries, map[]))
    }

    /** Write a receipt down, unless its signature is known. */
    method Record(r: Receipt)
      requires Valid() && FreshReceipt(r)
      modifies this`receipts
      ensures Valid()
      ensures receipts == if SigKnown(old(receipts), r.sig) then old(receipts) else old(receipts) + [r]
      ensures SigKnown(receipts, r.sig)
    {
      ghost var before := State(receipts, ledger.entries, map[]);
      if !SigKnown(receipts, r.sig) {
        receipts := receipts + [r];
        assert receipts[|receipts| - 1].sig == r.sig;
      }
      RecordKeeps(before, r, State(receipts, ledger.entries, map[]));
    }

    /** One crediting pass over the oldest pending receipts: every one of them ends closed,
        its user credited in full, unless it waits for a price that nobody gave or one of its
        writes throws. Nothing else changes. */
    method CreditPending(t: Terms) returns (credited: nat)
      requires Valid() && t.spread <= BPS
      modifies this`receipts, ledger`entries
      ensures Valid()
      ensures receipts == Swept(old(receipts), PendingRows(old(receipts), PENDING_LIMIT), t)
      ensures ledger.entries == PassEntries(old(ledger.entries), PendingRows(old(receipts), PENDING_LIMIT), t)
      ensures credited == CountCredited(PendingRows(old(receipts), PENDING_LIMIT), t)
    {
      var todo := PendingRows(receipts, PENDING_LIMIT);
      credited := 0;
      var k := 0;
      PassBegins(receipts, ledger.entries, todo);
      assert todo[k..] == todo;
      while k < |todo|
        invariant k <= |todo| && PassAt(old(receipts), old(ledger.entries), todo, k, t, credited)
      {
        credited := CreditNext(old(receipts), old(ledger.entries), todo, k, t, credited);
        k := k + 1;
      }
      assert todo[..k] == todo;
      PassEnds(receipts, ledger.entries, todo[k..]);
    }

    /** The first `k` rows of the list have been handled. */
    ghost predicate PassAt(start: seq<Receipt>, entries: seq<Entry>, todo: seq<(nat, Receipt)>, k: nat, t: Terms, credited: nat)
      requires t.spread <= BPS && k <= |todo| && forall j | 0 <= j < |todo| :: todo[j].0 < |start|
      reads this, ledger
    {
      && ledger.Valid() && Inv(State(receipts, ledger.entries, map[0 := Pass(todo[k..], Between)]))
      && receipts == Swept(start, todo[..k], t) && ledger.entries == PassEntries(entries, todo[..k], t)
      && credited == CountCredited(todo[..k], t)
    }

    method CreditNext(ghost start: seq<Receipt>, ghost entries: seq<Entry>, todo: seq<(nat, Receipt)>, k: nat, t: Terms,
                      credited: nat) returns (more: nat)
      requires t.spread <= BPS && k < |todo| && forall j | 0 <= j < |todo| :: todo[j].0 < |start|
      requires PassAt(start, entries, todo, k, t, credited)
      modifies this`receipts, ledger`entries
      ensures PassAt(start, entries, todo, k + 1, t, more)
    {
      var one := CreditOne(todo[k..], t);
      assert todo[k..][1..] == todo[k + 1..];
      assert todo[..k + 1][..k] == todo[..k];
      more := credited + one;
    }

    /** The first row of the list: price it if it needs one, credit it, close it. A throw
        leaves it to a later pass. */
    method CreditOne(todo: seq<(nat, Receipt)>, t: Terms) returns (credited: nat)
      requires ledger.Valid() && t.spread <= BPS && todo != []
      requires Inv(State(receipts, ledger.entries, map[0 := Pass(todo, Between)]))
      modifies this`receipts, ledger`entries
      ensures ledger.Valid()
      ensures todo[0].0 < |old(receipts)|
      ensures receipts == old(receipts)[todo[0].0 := Handled(todo[0].1, t, FaultOf(t, todo[0].0))]
      ensures ledger.entries == EntriesAfter(old(ledger.entries), todo[0].1, t, FaultOf(t, todo[0].0))
      ensures Inv(State(receipts, ledger.entries, map[0 := Pass(todo[1..], Between)]))
      ensures credited == IsCredited(todo[0].1, t, FaultOf(t, todo[0].0))
    {
      var (row, r) := todo[0];
      var fault := FaultOf(t, row);
      HeadIsCurrent(receipts, ledger.entries, todo);
      HandledKeeps(receipts, ledger.entries, todo, t);
      if r.asset == Sol && r.price == None {
        if t.price == None || fault == AtPricing {
          return 0;
        }
        var amount := LamportsToUsdcMicros(r.lamports, t.price.value, t.spread);
        r := r.(amount := amount, price := Some(Pricing(t.price.value, t.spread)));
        receipts := receipts[row := r];
      }
      if r.amount > 0 {
        if fault == AtCredit {
          return 0;
        }
        var posted := ledger.Credit(r.user, r.amount, Some(DepositKey(r.sig)));
      }
      if fault == AtClose {
        return 0;
      }
      receipts := receipts[row := receipts[row].(credited := true)];
      credited := if r.amount > 0 then 1 else 0;
    }

    method RecordUsdcAt(events: seq<UsdcEvent>, k: nat, failing: set<nat>, ghost start: seq<Receipt>)
      requires Valid() && k < |events|
      requires forall j | 0 <= j < k && events[j].sig !in failing :: SigKnown(receipts, events[j].sig)
      requires Recorded(start, receipts) && NewFrom(start, receipts, events[..k], [])
      modifies this`receipts
      ensures Valid()
      ensures forall j | 0 <= j < k + 1 && events[j].sig !in failing :: SigKnown(receipts, events[j].sig)
      ensures Recorded(start, receipts) && NewFrom(start, receipts, events[..k + 1], [])
    {
      ghost var before := receipts;
      if events[k].sig !in failing {
        Record(ReceiptOf(events[k]));
      }
      StillKnown(before, receipts);
      UsdcRecorded(start, before, receipts, events, k);
    }

    method RecordUsdc(events: seq<UsdcEvent>, failing: set<nat>)
      requires Valid()
      modifies this`receipts
      ensures Valid() && Recorded(old(receipts), receipts)
      ensures NewFrom(old(receipts), receipts, events, [])
      ensures forall k | 0 <= k < |events| && events[k].sig !in failing :: SigKnown(receipts, events[k].sig)
    {
      ghost var start := receipts;
      var k := 0;
      while k < |events|
        invariant 0 <= k <= |events| && Valid()
        invariant forall j | 0 <= j < k && events[j].sig !in failing :: SigKnown(receipts, events[j].sig)
        invariant Recorded(start, receipts) && NewFrom(start, receipts, events[..k], [])
      {
        RecordUsdcAt(events, k, failing, start);
        k := k + 1;
      }
      assert events[..k] == events;
    }

    method RecordSolAt(events: seq<SolEvent>, k: nat, failing: set<nat>, ghost start: seq<Receipt>)
      requires Valid() && k < |events|
      requires forall j | 0 <= j < k && events[j].sig !in failing :: SigKnown(receipts, events[j].sig)
      requires Recorded(start, receipts) && NewFrom(start, receipts, [], events[..k])
      modifies this`receipts
      ensures Valid()
      ensures forall j | 0 <= j < k + 1 && events[j].sig !in failing :: SigKnown(receipts, events[j].sig)
      ensures Recorded(start, receipts) && NewFrom(start, receipts, [], events[..k + 1])
    {
      ghost var before := receipts;
      if events[k].sig !in failing {
        Record(SolReceiptOf(events[k]));
      }
      StillKnown(before, receipts);
      SolRecorded(start, before, receipts, events, k);
    }

    method RecordSol(events: seq<SolEvent>, failing: set<nat>)
      requires Valid()
      modifies this`receipts
      ensures Valid() && Recorded(old(receipts), receipts)
      ensures NewFrom(old(receipts), receipts, [], events)
      ensures forall k | 0 <= k < |events| && events[k].sig !in failing :: SigKnown(receipts, events[k].sig)
    {
      ghost var start := receipts;
      var k := 0;
      while k < |events|
        invariant 0 <= k <= |events| && Valid()
        invariant forall j | 0 <= j < k && events[j].sig !in failing :: SigKnown(receipts, events[j].sig)
        invariant Recorded(start, receipts) && NewFrom(start, receipts, [], events[..k])
      {
        RecordSolAt(events, k, failing, start);
        k := k + 1;
      }
      assert events[..k] == events;
    }

    /** Write everything polled down, as far as the writes succeed. SOL is polled on every
        `solEvery`-th tick only. */
    method RecordPolled(events: seq<UsdcEvent>, next: nat, solEnabled: bool, solEvery: nat,
        solPoll: Option<seq<SolEvent>>,
                        failing: set<nat>)
      requires Valid() && solEvery > 0
      modifies this`receipts, this`cursor, this`tickN
      ensures Valid() && Recorded(old(receipts), receipts)
      ensures NewFrom(old(receipts), receipts, events, SolPolled(solEnabled, old(tickN), solEvery, solPoll))
      ensures cursor == next && tickN == (if solEnabled then old(tickN) + 1 else old(tickN))
      ensures OnRecord(receipts, events, if solEnabled && old(tickN) % solEvery == 0 then solPoll else None, failing)
    {
      cursor := next;
      RecordUsdc(events, failing);
      ghost var before := receipts;
      if solEnabled {
        if tickN % solEvery == 0 && solPoll.Some? {
          RecordSol(solPoll.value, failing);
        }
        tickN := tickN + 1;
      }
      StillKnown(before, receipts);
      BothRecorded(old(receipts), before, receipts, events, SolPolled(solEnabled, old(tickN), solEvery, solPoll));
    }

    /** One poll, at the operator's spread. A tick that finds another under way does nothing,
        and a failed poll changes nothing; otherwise everything polled is on record before
        anything is credited, unless its write throws; one crediting pass follows, whose
        count is returned; and every receipt still open afterwards waits for a price, for its
        turn, or for a write that threw. */
    method Tick(poll: Option<(seq<UsdcEvent>, nat)>, solEnabled: bool, solEvery: nat, solPoll: Option<seq<SolEvent>>,
                price: Option<nat>, spreadSetting: Option<int>, failing: set<nat>, faults: map<nat, Fault>)
      returns (credited: nat)
      requires Valid() && solEvery > 0
      modifies this`receipts, this`cursor, this`running, this`tickN, ledger`entries
      ensures Valid() && running == old(running)
      ensures old(running) || poll == None ==>
                && credited == 0 && receipts == old(receipts) && ledger.entries == old(ledger.entries)
                && cursor == old(cursor) && tickN == old(tickN)
      ensures !old(running) && poll.Some? ==>
                && cursor == poll.value.1
                && tickN == (if solEnabled then old(tickN) + 1 else old(tickN))
                && NewFrom(old(receipts), receipts, poll.value.0, SolPolled(solEnabled, old(tickN), solEvery, solPoll))
                && OnRecord(receipts, poll.value.0,
                            if solEnabled && old(tickN) % solEvery == 0 then solPoll else None, failing)
                && CreditedFrom(old(receipts), old(ledger.entries), receipts, ledger.entries,
                                Terms(price, SpreadBps(spreadSetting), faults), credited)
                && (|receipts| <= 500 ==>
                      OnlyWaiting(receipts, price, faults)
                      && UsdcPaid(old(ledger.entries), ledger.entries, receipts, |old(receipts)|, faults))
    {
      if running {
        return 0;
      }
      running := true;
      if poll == None {
        running := false;
        return 0;
      }
      RecordPolled(poll.value.0, poll.value.1, solEnabled, solEvery, solPoll, failing);
      ghost var recorded := receipts;
      credited := CreditRecorded(old(receipts), Terms(price, SpreadBps(spreadSetting), faults));
      StillFrom(old(receipts), recorded, receipts, poll.value.0, SolPolled(solEnabled, old(tickN), solEvery, solPoll));
      if |receipts| <= PENDING_LIMIT {
        NewUsdcIsPaid(old(receipts), old(ledger.entries), receipts, ledger.entries, price, faults);
      }
      running := false;
    }

    /** The crediting pass of a tick, and what it leaves of what was recorded. */
    method CreditRecorded(ghost before: seq<Receipt>, t: Terms) returns (credited: nat)
      requires Valid() && t.spread <= BPS && Recorded(before, receipts)
      modifies this`receipts, ledger`entries
      ensures Valid() && Kept(old(receipts), receipts) && |receipts| == |old(receipts)|
      ensures forall sig | SigKnown(old(receipts), sig) :: SigKnown(receipts, sig)
      ensures CreditedFrom(before, old(ledger.entries), receipts, ledger.entries, t, credited)
      ensures |receipts| <= PENDING_LIMIT ==> OnlyWaiting(receipts, t.price, t.faults)
      ensures |old(ledger.entries)| <= |ledger.entries| && ledger.entries[..|old(ledger.entries)|] == old(ledger.entries)
    {
      ghost var recorded, entries := receipts, ledger.entries;
      credited := CreditPending(t);
      PassKeeps(recorded, t);
      PassLeaves(recorded, t);
      ghost var todo := PendingRows(recorded, PENDING_LIMIT);
      PassAppends(entries, todo, t);
      forall a { PassPays(entries, todo, t, a); }
    }
  }

  /** The receipts were recorded and then handled once, and `credited` of them credited. */
  ghost predicate CreditedFrom(before: seq<Receipt>, entries: seq<Entry>, after: seq<Receipt>, entries': seq<Entry>, t: Terms,
                               credited: nat)
    requires t.spread <= BPS
  {
    exists recorded ::
      && Recorded(before, recorded)
      && (forall a :: Settled(entries', a) == Settled(entries, a) + PassChange(entries, PendingRows(recorded, PENDING_LIMIT), t, a))
      && after == Swept(recorded, PendingRows(recorded, PENDING_LIMIT), t)
      && credited == CountCredited(PendingRows(recorded, PENDING_LIMIT), t)
  }

  /** Every USDC receipt written down in this tick, no write of which threw, has been credited
      to its user with its amount, by a row of the ledger that was not there before. */
  ghost predicate UsdcPaid(before: seq<Entry>, after: seq<Entry>, receipts: seq<Receipt>, known: nat, faults: map<nat, Fault>) {
    forall i | known <= i < |receipts| && receipts[i].asset == Usdc && receipts[i].amount > 0
               && (i in faults ==> faults[i] == NoFault) ::
      receipts[i].credited && PaidIn(before, after, receipts[i])
  }

  ghost predicate PaidIn(before: seq<Entry>, after: seq<Entry>, r: Receipt) {
    exists j :: |before| <= j < |after| && after[j] == Entry(User(r.user), r.amount, Some(DepositKey(r.sig)))
  }

  lemma NewIsUnpaid(known: seq<Receipt>, before: seq<Entry>, receipts: seq<Receipt>, i: nat)
    requires Inv(State(known, before, map[])) && Kept(known, receipts) && |known| <= i < |receipts|
    requires forall j, k | 0 <= j < k < |receipts| :: receipts[j].sig != receipts[k].sig
    ensures !KeyPosted(before, DepositKey(receipts[i].sig))
  {
    assert forall m | 0 <= m < |known| :: SameDeposit(known[m], receipts[m]);
  }

  lemma NewUsdcIsPaid(known: seq<Receipt>, before: seq<Entry>, receipts: seq<Receipt>, after: seq<Entry>, price: Option<nat>,
                      faults: map<nat, Fault>)
    requires Inv(State(known, before, map[])) && Inv(State(receipts, after, map[]))
    requires Kept(known, receipts) && |before| <= |after| && after[..|before|] == before
    requires OnlyWaiting(receipts, price, faults)
    ensures UsdcPaid(before, after, receipts, |known|, faults)
  {
    forall i | |known| <= i < |receipts| && receipts[i].asset == Usdc && receipts[i].amount > 0
               && (i in faults ==> faults[i] == NoFault)
      ensures receipts[i].credited && PaidIn(before, after, receipts[i])
    {
      var r := receipts[i];
      assert r.credited;
      assert ReceiptSafe(r, after);
      var j :| 0 <= j < |after| && after[j].key == Some(DepositKey(r.sig));
      NewIsUnpaid(known, before, receipts, i);
      assert forall m | 0 <= m < |before| :: after[m] == before[m];
    }
  }

  /** Every signature of a poll has its receipt, but for the failing writes. */
  predicate OnRecord(receipts: seq<Receipt>, events: seq<UsdcEvent>, solEvents: Option<seq<SolEvent>>,
      failing: set<nat>) {
    && (forall k | 0 <= k < |events| && events[k].sig !in failing :: SigKnown(receipts, events[k].sig))
    && (solEvents.Some? ==>
          forall k | 0 <= k < |solEvents.value| && solEvents.value[k].sig !in failing ::
            SigKnown(receipts, solEvents.value[k].sig))
  }

  /** Whatever is open waits for a price, and none was given - or one of its writes threw. */
  predicate OnlyWaiting(receipts: seq<Receipt>, price: Option<nat>, faults: map<nat, Fault>) {
    forall i | 0 <= i < |receipts| && !receipts[i].credited && (i in faults ==> faults[i] == NoFault) ::
      Unpriced(receipts[i]) && price == None
  }

  /** Receipts are only added. */
  predicate Recorded(before: seq<Receipt>, after: seq<Receipt>) {
    && |before| <= |after|
    && forall i | 0 <= i < |before| :: after[i] == before[i]
  }

  lemma StillKnown(before: seq<Receipt>, after: seq<Receipt>)
    requires Recorded(before, after)
    ensures forall sig | SigKnown(before, sig) :: SigKnown(after, sig)
  {
    forall sig | SigKnown(before, sig)
      ensures SigKnown(after, sig)
    {
      var i :| 0 <= i < |before| && before[i].sig == sig;
      assert after[i].sig == sig;
    }
  }

  // ---------------------------------------------------------------------------
  // One pass, step by step
  // ---------------------------------------------------------------------------

  lemma PassBegins(receipts: seq<Receipt>, entries: seq<Entry>, todo: seq<(nat, Receipt)>)
    requires Inv(State(receipts, entries, map[]))
    requires DistinctRows(todo) && ReadRows(receipts, todo)
    ensures Inv(State(receipts, entries, map[0 := Pass(todo, Between)]))
  {
  }

  lemma PassEnds(receipts: seq<Receipt>, entries: seq<Entry>, todo: seq<(nat, Receipt)>)
    requires Inv(State(receipts, entries, map[0 := Pass(todo, Between)]))
    ensures Inv(State(receipts, entries, map[]))
  {
  }

  lemma HeadIsCurrent(receipts: seq<Receipt>, entries: seq<Entry>, todo: seq<(nat, Receipt)>)
    requires Inv(State(receipts, entries, map[0 := Pass(todo, Between)])) && todo != []
    ensures todo[0].0 < |receipts| && receipts[todo[0].0] == todo[0].1
  {
    var s := State(receipts, entries, map[0 := Pass(todo, Between)]);
    assert PassSafe(s.passes[0], receipts, entries);
  }

  /** Handling a row is a run of the rail's steps, so it keeps what they keep. */
  lemma HandledKeeps(receipts: seq<Receipt>, entries: seq<Entry>, todo: seq<(nat, Receipt)>, t: Terms)
    requires t.spread <= BPS && todo != []
    requires Inv(State(receipts, entries, map[0 := Pass(todo, Between)]))
    ensures var (row, r) := todo[0];
            && row < |receipts|
            && Inv(State(receipts[row := Handled(r, t, FaultOf(t, row))], EntriesAfter(entries, r, t, FaultOf(t, row)),
                         map[0 := Pass(todo[1..], Between)]))
  {
    var (row, r) := todo[0];
    var f := FaultOf(t, row);
    var s := State(receipts, entries, map[0 := Pass(todo, Between)]);
    HeadIsCurrent(receipts, entries, todo);
    assert receipts[row := r] == receipts;
    if Skipped(r, t, f) {
      var skipped := State(receipts, entries, map[0 := Pass(todo[1..], Between)]);
      assert skipped == SetPass(s, 0, Pass(todo[1..], Between));
      StepKeeps(s, Take(0, None), skipped);
    } else {
      var given := if t.price.Some? then Some(Pricing(t.price.value, t.spread)) else None;
      var p := PricedBy(r, t);
      var taken := State(receipts[row := p], entries, map[0 := Pass(todo[1..], NextStage(row, p.amount))]);
      assert taken.passes == s.passes[0 := Pass(todo[1..], NextStage(row, p.amount))];
      StepKeeps(s, Take(0, given), taken);
      CreditAndClose(taken, row, p, todo[1..], f);
      assert taken.receipts[row := Handled(r, t, f)] == receipts[row := Handled(r, t, f)];
    }
  }

  /** The rest of a row: its credit and its close, up to the write that throws. */
  lemma CreditAndClose(s: State, row: nat, r: Receipt, rest: seq<(nat, Receipt)>, f: Fault)
    requires Inv(s) && s.passes == map[0 := Pass(rest, NextStage(row, r.amount))]
    requires row < |s.receipts| && s.receipts[row] == r
    ensures Inv(State(s.receipts[row := if f == AtClose || (f == AtCredit && r.amount > 0) then r else r.(credited := true)],
                      if r.amount <= 0 || f == AtCredit || Posted(s.entries, r) then s.entries
                      else s.entries + CreditLegs(r.user, r.amount, Some(DepositKey(r.sig))),
                      map[0 := Pass(rest, Between)]))
  {
    assert s.receipts[row := r] == s.receipts;
    if f == AtCredit && r.amount > 0 {
      Stops(s, rest);
    } else {
      var paid := s;
      if r.amount > 0 {
        paid := PaidRow(s, row, r, rest);
      }
      if f == AtClose {
        Stops(paid, rest);
      } else {
        var closed := State(s.receipts[row := r.(credited := true)], paid.entries, map[0 := Pass(rest, Between)]);
        assert closed.passes == paid.passes[0 := Pass(rest, Between)];
        StepKeeps(paid, Close(0), closed);
      }
    }
  }

  lemma PaidRow(s: State, row: nat, r: Receipt, rest: seq<(nat, Receipt)>) returns (paid: State)
    requires Inv(s) && s.passes == map[0 := Pass(rest, WillCredit(row, r.amount))] && r.amount > 0
    requires row < |s.receipts| && s.receipts[row] == r
    ensures Inv(paid) && paid.receipts == s.receipts && paid.passes == map[0 := Pass(rest, WillClose(row))]
    ensures paid.entries == if Posted(s.entries, r) then s.entries
            else s.entries + CreditLegs(r.user, r.amount, Some(DepositKey(r.sig)))
  {
    var entries := if Posted(s.entries, r) then s.entries
      else s.entries + CreditLegs(r.user, r.amount, Some(DepositKey(r.sig)));
    paid := State(s.receipts, entries, map[0 := Pass(rest, WillClose(row))]);
    assert paid.passes == s.passes[0 := Pass(rest, WillClose(row))];
    StepKeeps(s, Credit(0), paid);
  }

  /** A throw leaves the row where it is. */
  lemma Stops(s: State, rest: seq<(nat, Receipt)>)
    requires Inv(s) && 0 in s.passes && s.passes == map[0 := s.passes[0]] && s.passes[0].todo == rest
             && s.passes[0].stage != Between
    ensures Inv(State(s.receipts, s.entries, map[0 := Pass(rest, Between)]))
  {
    var stopped := State(s.receipts, s.entries, map[0 := Pass(rest, Between)]);
    assert stopped.passes == s.passes[0 := Pass(rest, Between)];
    StepKeeps(s, Fail(0), stopped);
  }

  // ---------------------------------------------------------------------------
  // What a pass leaves
  // ---------------------------------------------------------------------------

  /** A pass changes nobody's deposit. */
  lemma PassKeeps(receipts: seq<Receipt>, t: Terms)
    requires t.spread <= BPS
    ensures var after := Swept(receipts, PendingRows(receipts, PENDING_LIMIT), t);
            && Kept(receipts, after)
            && (forall sig | SigKnown(receipts, sig) :: SigKnown(after, sig))
  {
    var todo := PendingRows(receipts, PENDING_LIMIT);
    var after := Swept(receipts, todo, t);
    forall i | 0 <= i < |receipts|
      ensures SameDeposit(receipts[i], after[i])
    {
      SweptRow(receipts, todo, t, i);
      if !OffList(todo, i) {
        var k :| 0 <= k < |todo| && todo[k].0 == i;
        assert receipts[todo[k].0] == todo[k].1;
      }
    }
    forall sig | SigKnown(receipts, sig)
      ensures SigKnown(after, sig)
    {
      var i :| 0 <= i < |receipts| && receipts[i].sig == sig;
      assert SameDeposit(receipts[i], after[i]) && after[i].sig == sig;
    }
  }

  /** Up to the limit, a pass leaves open only what waits for a price. */
  lemma PassLeaves(receipts: seq<Receipt>, t: Terms)
    requires t.spread <= BPS
    ensures var after := Swept(receipts, PendingRows(receipts, PENDING_LIMIT), t);
            |receipts| <= PENDING_LIMIT ==> OnlyWaiting(after, t.price, t.faults)
  {
    if |receipts| <= PENDING_LIMIT {
      var todo := PendingRows(receipts, PENDING_LIMIT);
      var after := Swept(receipts, todo, t);
      AllPending(receipts, PENDING_LIMIT);
      forall i | 0 <= i < |after| && !after[i].credited && (i in t.faults ==> t.faults[i] == NoFault)
        ensures Unpriced(after[i]) && t.price == None
      {
        SweptRow(receipts, todo, t, i);
        var k :| 0 <= k < |todo| && todo[k].0 == i;
        assert after[i] == Handled(todo[k].1, t, NoFault);
      }
    }
  }

  predicate InOrder(todo: seq<(nat, Receipt)>) {
    forall j, k | 0 <= j < k < |todo| :: todo[j].0 < todo[k].0
  }

  lemma {:induction false} PendingInOrder(receipts: seq<Receipt>, limit: nat)
    ensures InOrder(PendingRows(receipts, limit))
  {
    if receipts != [] {
      var n := |receipts| - 1;
      PendingInOrder(receipts[..n], limit);
      var rest, all := PendingRows(receipts[..n], limit), PendingRows(receipts, limit);
      assert all == rest || all == rest + [(n, receipts[n])];
    }
  }

  /** Every open receipt is listed, unless the list is full of older ones. */
  lemma {:induction false} OldestReceiptsFirst(receipts: seq<Receipt>, limit: nat)
    ensures forall i | 0 <= i < |receipts| && !receipts[i].credited && OffList(PendingRows(receipts, limit), i) ::
              var list := PendingRows(receipts, limit);
              |list| == limit && forall k | 0 <= k < limit :: list[k].0 < i
  {
    if receipts != [] {
      var n := |receipts| - 1;
      OldestReceiptsFirst(receipts[..n], limit);
      var rest, all := PendingRows(receipts[..n], limit), PendingRows(receipts, limit);
      assert all != rest ==> all[|rest|].0 == n;
      forall i | 0 <= i < |receipts| && !receipts[i].credited && OffList(all, i)
        ensures |all| == limit && forall k | 0 <= k < limit :: all[k].0 < i
      {
        if i < n {
          assert !receipts[..n][i].credited;
          assert forall k | 0 <= k < |rest| :: all[k] == rest[k];
        }
      }
    }
  }

  lemma {:induction false} AllPending(receipts: seq<Receipt>, limit: nat)
    requires |receipts| <= limit
    ensures |PendingRows(receipts, limit)| <= |receipts|
    ensures forall i | 0 <= i < |receipts| && !receipts[i].credited :: !OffList(PendingRows(receipts, limit), i)
  {
    if receipts != [] {
      var n := |receipts| - 1;
      AllPending(receipts[..n], limit);
      var rest, all := PendingRows(receipts[..n], limit), PendingRows(receipts, limit);
      forall i | 0 <= i < |receipts| && !receipts[i].credited
        ensures !OffList(all, i)
      {
        if i < n {
          assert !receipts[..n][i].credited;
          var k :| 0 <= k < |rest| && rest[k].0 == i;
          assert all[k].0 == i;
        } else {
          assert all[|rest|].0 == i;
        }
      }
    }
  }
}
