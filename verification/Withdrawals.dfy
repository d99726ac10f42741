/** The withdrawal rail (packages/backend/src/withdrawals.ts): a debit in the ledger and a
    transfer on the chain that cannot commit together. Each database write is one step;
    requests, inline settles and reconciler passes interleave freely and may crash between
    any two steps; the chain decides each broadcast in its own time. */
module Withdrawals {
  import opened Schema
  import opened Books

  const DAY_MS := 24 * 60 * 60 * 1000
  const STUCK_MS := 30 * 60 * 1000

  datatype PayoutStatus = PayoutPending | PayoutSubmitted | PayoutConfirmed | PayoutFailed | PayoutNeedsReview

  datatype Payout = Payout(
    user: nat,
    amount: int,
    status: PayoutStatus,
    sig: Option<nat>,
    reversedAt: Option<int>,
    createdAt: int,
    funded: bool)

  datatype TxState = InFlight | Landed | Dropped

  /** A broadcast paying withdrawal `payout`; its signature is its position. */
  datatype Tx = Tx(payout: nat, state: TxState)

  /** The operator's limits: dollar floor and cap, and the two daily counts. */
  datatype Limits = Limits(floor: nat, cap: nat, countCap: nat, newDestinationCap: nat)

  /** Where a call stands. The first four belong to the request that made the row. */
  datatype Call =
    | Created(payout: nat)
    | DebitRejected(payout: nat)
    | Debited(payout: nat)
    | Sent(payout: nat, sig: nat)
    | Asking(payout: nat, sig: nat, mayFlag: bool)
    | HeardConfirmed(payout: nat)
    | WillReverse(payout: nat)
    | WillCredit(payout: nat)
    | WillMarkFailed(payout: nat)
    | WillFlag(payout: nat)

  /** `elsewhere` is what the rest of the system has moved out through the external
      account (deposits count negative). */
  datatype State = State(
    limits: Limits,
    now: int,
    rows: seq<Payout>,
    entries: seq<Entry>,
    txs: seq<Tx>,
    calls: map<nat, Call>,
    elsewhere: int)

  datatype Step =
    | Pass(ms: nat)
    | Other(legs: seq<Entry>)
    | Create(call: nat, user: nat, amount: int, needsFunding: bool)
    | PostDebit(call: nat)
    | RejectDebit(call: nat)
    | MarkRejected(call: nat)
    | Send(call: nat)
    | SendThrows(call: nat)
    | MarkSubmitted(call: nat)
    | BeginSettle(call: nat, payout: nat, byReconciler: bool)
    | Ask(call: nat, fate: Fate)
    | FindStuck(call: nat)
    | GiveUp(call: nat)
    | MarkConfirmed(call: nat)
    | ReadForReversal(call: nat)
    | PostReversal(call: nat)
    | MarkFailed(call: nat)
    | MarkNeedsReview(call: nat)
    | Crash(call: nat)
    | Land(sig: nat)
    | Drop(sig: nat)

  predicate Unsettled(p: Payout) {
    p.status == PayoutSubmitted || p.status == PayoutNeedsReview
  }

  /** Money that is out or may still be out. */
  predicate Counts(p: Payout) {
    p.status != PayoutFailed
  }

  // ---------------------------------------------------------------------------
  // The rolling limits, as the request reads them
  // ---------------------------------------------------------------------------

  /** What the three limits measure. */
  datatype Measure = Dollars | Starts | NewDestinations

  function Weight(m: Measure, p: Payout): int {
    match m
    case Dollars => p.amount
    case Starts => 1
    case NewDestinations => if p.funded then 1 else 0
  }

  function Limit(m: Measure, limits: Limits): nat {
    match m
    case Dollars => limits.cap
    case Starts => limits.countCap
    case NewDestinations => limits.newDestinationCap
  }

  predicate InWindow(p: Payout, user: nat, from: int, to: int) {
    p.user == user && from <= p.createdAt <= to && Counts(p)
  }

  /** What a user's withdrawals of a closed time window add up to. */
  function WindowTotal(m: Measure, rows: seq<Payout>, user: nat, from: int, to: int): int {
    if rows == [] then 0
    else
      var last := rows[|rows| - 1];
      WindowTotal(m, rows[..|rows| - 1], user, from, to) + (if InWindow(last, user, from, to) then Weight(m, last) else 0)
  }

  /** The user's withdrawals of the window that have not failed. */
  function Counted(rows: seq<Payout>, user: nat, from: int, to: int, fundedOnly: bool): set<nat> {
    set i: nat | i < |rows| && rows[i].user == user && from <= rows[i].createdAt <= to && rows[i].status != PayoutFailed
                 && (fundedOnly ==> rows[i].funded)
  }

  /** Two of the measures count them. */
  lemma {:induction false} WindowCounts(rows: seq<Payout>, user: nat, from: int, to: int)
    ensures WindowTotal(Starts, rows, user, from, to) == |Counted(rows, user, from, to, false)|
    ensures WindowTotal(NewDestinations, rows, user, from, to) == |Counted(rows, user, from, to, true)|
  {
    if rows == [] {
      assert Counted(rows, user, from, to, false) == {} && Counted(rows, user, from, to, true) == {};
    } else {
      var n := |rows| - 1;
      WindowCounts(rows[..n], user, from, to);
      WindowCountsOneMore(rows, user, from, to, false);
      WindowCountsOneMore(rows, user, from, to, true);
    }
  }

  lemma WindowCountsOneMore(rows: seq<Payout>, user: nat, from: int, to: int, fundedOnly: bool)
    requires rows != []
    ensures var n := |rows| - 1;
            |Counted(rows, user, from, to, fundedOnly)| == |Counted(rows[..n], user, from, to, fundedOnly)|
              + if n in Counted(rows, user, from, to, fundedOnly) then 1 else 0
  {
    var n := |rows| - 1;
    var before, after := Counted(rows[..n], user, from, to, fundedOnly), Counted(rows, user, from, to, fundedOnly);
    assert n !in before;
    assert after == if n in after then before + {n} else before;
  }

  /** The third adds their amounts up: it starts from nothing, and one more row adds its
      amount exactly if it is one of them. */
  lemma WindowAdds(rows: seq<Payout>, p: Payout, user: nat, from: int, to: int)
    ensures WindowTotal(Dollars, [], user, from, to) == 0
    ensures WindowTotal(Dollars, rows + [p], user, from, to) == WindowTotal(Dollars, rows, user, from, to)
              + if p.user == user && from <= p.createdAt <= to && p.status != PayoutFailed then p.amount else 0
  {
    assert (rows + [p])[..|rows|] == rows;
  }

  /** The checks made under the user's lock, over the day up to now. */
  predicate WithinLimits(limits: Limits, rows: seq<Payout>, now: int, user: nat, amount: int, needsFunding: bool) {
    && amount >= limits.floor
    && WindowTotal(Dollars, rows, user, now - DAY_MS, now) + amount <= limits.cap
    && WindowTotal(Starts, rows, user, now - DAY_MS, now) < limits.countCap
    && (needsFunding ==> WindowTotal(NewDestinations, rows, user, now - DAY_MS, now) < limits.newDestinationCap)
  }

  // ---------------------------------------------------------------------------
  // Steps
  // ---------------------------------------------------------------------------

  predicate DebitPosted(s: State, w: nat) {
    KeyPosted(s.entries, WithdrawKey(w))
  }

  predicate ReversalPosted(s: State, w: nat) {
    KeyPosted(s.entries, WithdrawReverseKey(w))
  }

  function SetCall(s: State, c: nat, call: Call): State {
    s.(calls := s.calls[c := call])
  }

  function EndCall(s: State, c: nat): State {
    s.(calls := s.calls - {c})
  }

  function SetRow(s: State, w: nat, p: Payout): State
    requires w < |s.rows|
  {
    s.(rows := s.rows[w := p])
  }

  /** The chain answers definitely only when the matter is decided. */
  predicate Truthful(fate: Fate, tx: Tx) {
    && (fate == Confirmed ==> tx.state == Landed)
    && (fate == Dead ==> tx.state == Dropped)
  }

  /** Ledger rows of the rest of the system carry no withdrawal key. */
  predicate OtherLegs(legs: seq<Entry>) {
    forall i | 0 <= i < |legs| && legs[i].key.Some? ::
      !legs[i].key.value.WithdrawKey? && !legs[i].key.value.WithdrawReverseKey?
  }

  predicate At(s: State, c: nat) {
    c in s.calls && s.calls[c].payout < |s.rows|
  }

  ghost predicate Next(s: State, step: Step, s': State) {
    match step
    case Pass(ms) =>
      s' == s.(now := s.now + ms)
    case Other(legs) =>
      && OtherLegs(legs) && UniqueKeys(s.entries + legs)
      && s' == s.(entries := s.entries + legs, elsewhere := s.elsewhere + Settled(legs, External))
    case Create(c, user, amount, needsFunding) =>
      && c !in s.calls && WithinLimits(s.limits, s.rows, s.now, user, amount, needsFunding)
      && s' == SetCall(s.(rows := s.rows + [Payout(user, amount, PayoutPending, None, None, s.now, needsFunding)]), c, Created(|s.rows|))
    case PostDebit(c) =>
      && At(s, c) && s.calls[c].Created?
      && var w := s.calls[c].payout;
         && s.rows[w].amount > 0
         && s' == SetCall(if DebitPosted(s, w) then s
                          else s.(entries := s.entries + DebitLegs(s.rows[w].user, s.rows[w].amount, Some(WithdrawKey(w)))), c, Debited(w))
    case RejectDebit(c) =>
      At(s, c) && s.calls[c].Created? && s' == SetCall(s, c, DebitRejected(s.calls[c].payout))
    case MarkRejected(c) =>
      && At(s, c) && s.calls[c].DebitRejected?
      && s' == EndCall(SetRow(s, s.calls[c].payout, s.rows[s.calls[c].payout].(status := PayoutFailed)), c)
    case Send(c) =>
      && At(s, c) && s.calls[c].Debited?
      && s' == SetCall(s.(txs := s.txs + [Tx(s.calls[c].payout, InFlight)]), c, Sent(s.calls[c].payout, |s.txs|))
    case SendThrows(c) =>
      At(s, c) && s.calls[c].Debited? && s' == SetCall(s, c, WillReverse(s.calls[c].payout))
    case MarkSubmitted(c) =>
      && At(s, c) && s.calls[c].Sent?
      && var w := s.calls[c].payout;
         s' == SetCall(SetRow(s, w, s.rows[w].(status := PayoutSubmitted, sig := Some(s.calls[c].sig))), c, Asking(w, s.calls[c].sig, false))
    case BeginSettle(c, w, byReconciler) =>
      && c !in s.calls && w < |s.rows| && Unsettled(s.rows[w]) && s.rows[w].sig.Some?
      && s' == SetCall(s, c, Asking(w, s.rows[w].sig.value, byReconciler && s.rows[w].status == PayoutSubmitted))
    case Ask(c, fate) =>
      && At(s, c) && s.calls[c].Asking? && s.calls[c].sig < |s.txs| && Truthful(fate, s.txs[s.calls[c].sig])
      && var w := s.calls[c].payout;
         s' == if fate == Confirmed then SetCall(s, c, HeardConfirmed(w))
               else if fate == Dead then SetCall(s, c, WillReverse(w))
               else s
    case FindStuck(c) =>
      && At(s, c) && s.calls[c].Asking? && s.calls[c].mayFlag
      && s.now - s.rows[s.calls[c].payout].createdAt > STUCK_MS
      && s' == SetCall(s, c, WillFlag(s.calls[c].payout))
    case GiveUp(c) =>
      At(s, c) && s.calls[c].Asking? && s' == EndCall(s, c)
    case MarkConfirmed(c) =>
      && At(s, c) && s.calls[c].HeardConfirmed?
      && var w := s.calls[c].payout;
         s' == EndCall(if Unsettled(s.rows[w]) && s.rows[w].reversedAt == None
                       then SetRow(s, w, s.rows[w].(status := PayoutConfirmed)) else s, c)
    case ReadForReversal(c) =>
      && At(s, c) && s.calls[c].WillReverse?
      && var w := s.calls[c].payout;
         s' == if s.rows[w].status == PayoutConfirmed || s.rows[w].reversedAt.Some? then EndCall(s, c)
               else SetCall(s, c, WillCredit(w))
    case PostReversal(c) =>
      && At(s, c) && s.calls[c].WillCredit?
      && var w := s.calls[c].payout;
         s' == SetCall(if ReversalPosted(s, w) then s
                       else s.(entries := s.entries
                           + CreditLegs(s.rows[w].user, s.rows[w].amount, Some(WithdrawReverseKey(w)))), c,
                           WillMarkFailed(w))
    case MarkFailed(c) =>
      && At(s, c) && s.calls[c].WillMarkFailed?
      && var w := s.calls[c].payout;
         s' == EndCall(SetRow(s, w, s.rows[w].(status := PayoutFailed, reversedAt := Some(s.now))), c)
    case MarkNeedsReview(c) =>
      && At(s, c) && s.calls[c].WillFlag?
      && s' == EndCall(SetRow(s, s.calls[c].payout, s.rows[s.calls[c].payout].(status := PayoutNeedsReview)), c)
    case Crash(c) =>
      c in s.calls && s' == EndCall(s, c)
    case Land(g) =>
      g < |s.txs| && s.txs[g].state == InFlight && s' == s.(txs := s.txs[g := s.txs[g].(state := Landed)])
    case Drop(g) =>
      g < |s.txs| && s.txs[g].state == InFlight && s' == s.(txs := s.txs[g := s.txs[g].(state := Dropped)])
  }

  ghost predicate CanStep(s: State, s': State) {
    exists step :: Next(s, step, s')
  }

  predicate Initial(s: State) {
    s == State(s.limits, s.now, [], [], [], map[], 0)
  }

  ghost predicate IsRun(states: seq<State>) {
    && states != [] && Initial(states[0])
    && forall i | 0 <= i < |states| - 1 :: CanStep(states[i], states[i + 1])
  }

  // ---------------------------------------------------------------------------
  // Invariants
  // ---------------------------------------------------------------------------

  predicate AllDropped(txs: seq<Tx>, w: nat) {
    forall g | 0 <= g < |txs| && txs[g].payout == w :: txs[g].state == Dropped
  }

  predicate NeverSent(txs: seq<Tx>, w: nat) {
    forall g | 0 <= g < |txs| :: txs[g].payout != w
  }

  predicate HasLanded(txs: seq<Tx>, w: nat) {
    exists g :: 0 <= g < |txs| && txs[g] == Tx(w, Landed)
  }

  ghost predicate RowSafe(p: Payout, w: nat, entries: seq<Entry>, txs: seq<Tx>) {
    && (KeyPosted(entries, WithdrawReverseKey(w)) ==> KeyPosted(entries, WithdrawKey(w)) && AllDropped(txs, w))
    && (KeyPosted(entries, WithdrawKey(w)) ==> p.amount > 0)
    && (!KeyPosted(entries, WithdrawKey(w)) ==> NeverSent(txs, w))
    && (p.sig.Some? ==> p.sig.value < |txs| && txs[p.sig.value].payout == w)
    && (Unsettled(p) ==> p.sig.Some?)
    && (p.reversedAt.Some? ==> KeyPosted(entries, WithdrawReverseKey(w)) && (p.status == PayoutFailed || p.status == PayoutNeedsReview))
    && (p.status == PayoutConfirmed ==> p.sig.Some? && txs[p.sig.value].state == Landed)
    && (p.status == PayoutFailed ==> KeyPosted(entries, WithdrawReverseKey(w)) || !KeyPosted(entries, WithdrawKey(w)))
  }

  predicate Requesting(call: Call) {
    call.Created? || call.DebitRejected? || call.Debited? || call.Sent?
  }

  ghost predicate CallSafe(call: Call, p: Payout, entries: seq<Entry>, txs: seq<Tx>) {
    var w := call.payout;
    var debited := KeyPosted(entries, WithdrawKey(w));
    var reversed := KeyPosted(entries, WithdrawReverseKey(w));
    && (Requesting(call) ==> p.status == PayoutPending && !reversed)
    && match call
       case Created(_) => !debited && NeverSent(txs, w)
       case DebitRejected(_) => !debited && NeverSent(txs, w)
       case Debited(_) => debited && NeverSent(txs, w)
       case Sent(_, g) => debited && g < |txs| && txs[g].payout == w
       case Asking(_, g, _) => p.sig == Some(g)
       case HeardConfirmed(_) => p.sig.Some? && p.sig.value < |txs| && txs[p.sig.value].state == Landed
       case WillReverse(_) => debited && AllDropped(txs, w)
       case WillCredit(_) => debited && AllDropped(txs, w)
       case WillMarkFailed(_) => reversed
       case WillFlag(_) => p.sig.Some?
  }

  ghost predicate RowsSafe(s: State) {
    forall w | 0 <= w < |s.rows| :: RowSafe(s.rows[w], w, s.entries, s.txs)
  }

  ghost predicate CallsSafe(s: State) {
    forall c | c in s.calls :: At(s, c) && CallSafe(s.calls[c], s.rows[s.calls[c].payout], s.entries, s.txs)
  }

  /** A request shares its row with no other call. */
  predicate RequestsAlone(calls: map<nat, Call>) {
    forall c, d | c in calls && d in calls && c != d && Requesting(calls[c]) :: calls[c].payout != calls[d].payout
  }

  /** One broadcast per withdrawal at most. */
  predicate TxsSafe(txs: seq<Tx>, n: nat) {
    && (forall g | 0 <= g < |txs| :: txs[g].payout < n)
    && (forall g, h | 0 <= g < h < |txs| :: txs[g].payout != txs[h].payout)
  }

  /** Every withdrawal key belongs to a row. */
  ghost predicate KeysSafe(entries: seq<Entry>, n: nat) {
    && UniqueKeys(entries)
    && forall w: nat :: KeyPosted(entries, WithdrawKey(w)) || KeyPosted(entries, WithdrawReverseKey(w)) ==> w < n
  }

  ghost predicate Safe(s: State) {
    && RowsSafe(s) && CallsSafe(s) && RequestsAlone(s.calls)
    && TxsSafe(s.txs, |s.rows|) && KeysSafe(s.entries, |s.rows|)
  }

  /** What a withdrawal has taken out of the ledger and not given back. */
  function Outstanding(entries: seq<Entry>, w: nat, amount: int): int {
    if KeyPosted(entries, WithdrawKey(w)) && !KeyPosted(entries, WithdrawReverseKey(w)) then amount else 0
  }

  function TotalOutstanding(entries: seq<Entry>, rows: seq<Payout>): int {
    if rows == [] then 0
    else
      var n := |rows| - 1;
      TotalOutstanding(entries, rows[..n]) + Outstanding(entries, n, rows[n].amount)
  }

  ghost predicate BooksSafe(s: State) {
    Settled(s.entries, External) == s.elsewhere + TotalOutstanding(s.entries, s.rows)
  }

  ghost predicate Inv(s: State) {
    Safe(s) && BooksSafe(s)
  }

  // ---------------------------------------------------------------------------
  // Frames
  // ---------------------------------------------------------------------------

  /** Only withdrawal `w` and call `c` (which is about `w`) change. */
  ghost predicate Touches(s: State, s': State, w: nat, c: nat) {
    && w < |s.rows| && |s'.rows| == |s.rows|
    && (forall v | 0 <= v < |s.rows| && v != w :: s'.rows[v] == s.rows[v])
    && (forall d | d != c :: d in s.calls <==> d in s'.calls)
    && (forall d | d in s'.calls && d != c :: s'.calls[d] == s.calls[d])
    && (c in s.calls ==> s.calls[c].payout == w)
    && (c in s'.calls ==> s'.calls[c].payout == w)
  }

  /** What the books and the chain say about withdrawal `v` is unchanged. */
  ghost predicate SameOutside(s: State, s': State, v: nat) {
    && (KeyPosted(s'.entries, WithdrawKey(v)) <==> KeyPosted(s.entries, WithdrawKey(v)))
    && (KeyPosted(s'.entries, WithdrawReverseKey(v)) <==> KeyPosted(s.entries, WithdrawReverseKey(v)))
    && |s.txs| <= |s'.txs|
    && (forall g | 0 <= g < |s'.txs| && s'.txs[g].payout == v :: g < |s.txs| && s'.txs[g] == s.txs[g])
    && (forall g | 0 <= g < |s.txs| && s.txs[g].payout == v :: s'.txs[g] == s.txs[g])
  }

  lemma SameKeepsRow(s: State, s': State, p: Payout, v: nat)
    requires SameOutside(s, s', v) && RowSafe(p, v, s.entries, s.txs)
    ensures RowSafe(p, v, s'.entries, s'.txs)
  {
  }

  lemma SameKeepsCall(s: State, s': State, call: Call, p: Payout)
    requires SameOutside(s, s', call.payout)
    requires RowSafe(p, call.payout, s.entries, s.txs) && CallSafe(call, p, s.entries, s.txs)
    ensures CallSafe(call, p, s'.entries, s'.txs)
  {
  }

  /** A step that touches one withdrawal is safe if it is safe for that one. */
  lemma TouchKeeps(s: State, s': State, w: nat, c: nat)
    requires Safe(s) && Touches(s, s', w, c)
    requires forall v: nat | v < |s.rows| && v != w :: SameOutside(s, s', v)
    requires RowSafe(s'.rows[w], w, s'.entries, s'.txs)
    requires forall d | d in s'.calls && s'.calls[d].payout == w ::
             CallSafe(s'.calls[d], s'.rows[w], s'.entries, s'.txs)
    ensures RowsSafe(s') && CallsSafe(s')
  {
    forall v | 0 <= v < |s'.rows|
      ensures RowSafe(s'.rows[v], v, s'.entries, s'.txs)
    {
      if v != w {
        SameKeepsRow(s, s', s.rows[v], v);
      }
    }
    forall d | d in s'.calls
      ensures At(s', d) && CallSafe(s'.calls[d], s'.rows[s'.calls[d].payout], s'.entries, s'.txs)
    {
      if s'.calls[d].payout != w {
        assert At(s, d);
        SameKeepsCall(s, s', s.calls[d], s.rows[s.calls[d].payout]);
      }
    }
  }

  /** A call that goes on about its row, or ends, leaves requests alone. */
  lemma MovesOn(calls: map<nat, Call>, c: nat, to: Call)
    requires RequestsAlone(calls) && c in calls
    requires to.payout == calls[c].payout && (Requesting(to) ==> Requesting(calls[c]))
    ensures RequestsAlone(calls[c := to]) && RequestsAlone(calls - {c})
  {
  }

  /** If only withdrawal `w` changes what it has out, the sum changes by that much. */
  lemma {:induction false} OutstandingChange(entries: seq<Entry>, after: seq<Entry>, rows: seq<Payout>, w: nat)
    requires forall v: nat | v != w :: Outstanding(after, v, 1) == Outstanding(entries, v, 1)
    ensures TotalOutstanding(after, rows) == TotalOutstanding(entries, rows) +
              (if w < |rows| then Outstanding(after, w, rows[w].amount) - Outstanding(entries, w, rows[w].amount) else 0)
  {
    if rows != [] {
      var n := |rows| - 1;
      OutstandingChange(entries, after, rows[..n], w);
      assert n != w ==> Outstanding(after, n, 1) == Outstanding(entries, n, 1);
    }
  }

  /** Writing a row keeps its amount, and with it the sum. */
  lemma {:induction false} OutstandingSameAmounts(entries: seq<Entry>, rows: seq<Payout>, after: seq<Payout>)
    requires |after| == |rows| && forall v | 0 <= v < |rows| :: after[v].amount == rows[v].amount
    ensures TotalOutstanding(entries, after) == TotalOutstanding(entries, rows)
  {
    if rows != [] {
      OutstandingSameAmounts(entries, rows[..|rows| - 1], after[..|rows| - 1]);
    }
  }

  // ---------------------------------------------------------------------------
  // Every step
  // ---------------------------------------------------------------------------

  /** Steps that only move a call on. */
  predicate OnlyCalls(step: Step) {
    || step.RejectDebit? || step.SendThrows? || step.BeginSettle? || step.Ask? || step.FindStuck? || step.GiveUp?
    || step.ReadForReversal? || step.Crash?
  }

  /** A call that goes on about its row, or ends, changes nothing else. */
  lemma AdvanceKeeps(s: State, c: nat, to: Option<Call>)
    requires Safe(s) && At(s, c)
    requires to.Some? ==>
               && to.value.payout == s.calls[c].payout
               && (Requesting(to.value) ==> Requesting(s.calls[c]))
               && CallSafe(to.value, s.rows[s.calls[c].payout], s.entries, s.txs)
    ensures Safe(if to.Some? then SetCall(s, c, to.value) else EndCall(s, c))
  {
    MovesOn(s.calls, c, if to.Some? then to.value else s.calls[c]);
    assert forall d | d in s.calls :: At(s, d);
  }

  lemma AskKeeps(s: State, c: nat, fate: Fate, s': State)
    requires Safe(s) && Next(s, Ask(c, fate), s')
    ensures Safe(s')
  {
    var w := s.calls[c].payout;
    assert RowSafe(s.rows[w], w, s.entries, s.txs);
    assert CallSafe(s.calls[c], s.rows[w], s.entries, s.txs);
    if s' != s {
      AdvanceKeeps(s, c, Some(s'.calls[c]));
    }
  }

  lemma CallStepKeeps(s: State, step: Step, s': State)
    requires Safe(s) && Next(s, step, s') && OnlyCalls(step) && !step.BeginSettle? && !step.Ask?
    ensures Safe(s')
  {
    var c := step.call;
    assert At(s, c);
    assert CallSafe(s.calls[c], s.rows[s.calls[c].payout], s.entries, s.txs);
    AdvanceKeeps(s, c, if c in s'.calls then Some(s'.calls[c]) else None);
  }

  lemma BeginSettleKeeps(s: State, step: Step, s': State)
    requires Safe(s) && Next(s, step, s') && step.BeginSettle?
    ensures Safe(s')
  {
    var w := step.payout;
    assert RowSafe(s.rows[w], w, s.entries, s.txs);
    forall d | d in s.calls && s.calls[d].payout == w
      ensures !Requesting(s.calls[d])
    {
      assert At(s, d);
    }
    NewCallKeeps(s, step.call, s'.calls[step.call]);
  }

  /** A new call that requests nothing. */
  lemma NewCallKeeps(s: State, c: nat, call: Call)
    requires Safe(s) && c !in s.calls && call.payout < |s.rows| && !Requesting(call)
    requires CallSafe(call, s.rows[call.payout], s.entries, s.txs)
    requires forall d | d in s.calls && s.calls[d].payout == call.payout :: !Requesting(s.calls[d])
    ensures Safe(SetCall(s, c, call))
  {
    assert forall d | d in s.calls :: At(s, d);
  }

  predicate WritesRow(step: Step) {
    step.MarkRejected? || step.MarkSubmitted? || step.MarkConfirmed? || step.MarkFailed? || step.MarkNeedsReview?
  }

  /** Another call about the row is not a request, and only the signature matters to it. */
  lemma OtherCallUnmoved(call: Call, p: Payout, q: Payout, entries: seq<Entry>, txs: seq<Tx>)
    requires CallSafe(call, p, entries, txs) && !Requesting(call) && q.sig == p.sig
    ensures CallSafe(call, q, entries, txs)
  {
  }

  /** A call writes its row, then goes on or ends. */
  lemma RowWriteKeeps(s: State, c: nat, q: Payout, to: Option<Call>)
    requires Safe(s) && At(s, c)
    requires RowSafe(q, s.calls[c].payout, s.entries, s.txs)
    requires Requesting(s.calls[c]) || q.sig == s.rows[s.calls[c].payout].sig
    requires to.Some? ==>
               to.value.payout == s.calls[c].payout && !Requesting(to.value) && CallSafe(to.value, q, s.entries, s.txs)
    ensures var written := SetRow(s, s.calls[c].payout, q);
            Safe(if to.Some? then SetCall(written, c, to.value) else EndCall(written, c))
  {
    var w := s.calls[c].payout;
    var written := SetRow(s, w, q);
    var s' := if to.Some? then SetCall(written, c, to.value) else EndCall(written, c);
    MovesOn(s.calls, c, if to.Some? then to.value else s.calls[c]);
    forall d | d in s'.calls
      ensures At(s', d) && CallSafe(s'.calls[d], s'.rows[s'.calls[d].payout], s.entries, s.txs)
    {
      if d != c {
        assert At(s, d);
        if s.calls[d].payout == w {
          OtherCallsUnmoved(s, c, d, q);
        }
      }
    }
  }

  lemma OtherCallsUnmoved(s: State, c: nat, d: nat, q: Payout)
    requires CallsSafe(s) && RequestsAlone(s.calls) && c in s.calls && d in s.calls && c != d
    requires s.calls[d].payout == s.calls[c].payout
    requires At(s, c) && (Requesting(s.calls[c]) || q.sig == s.rows[s.calls[c].payout].sig)
    ensures CallSafe(s.calls[d], q, s.entries, s.txs)
  {
    assert At(s, d);
    OtherCallUnmoved(s.calls[d], s.rows[s.calls[d].payout], q, s.entries, s.txs);
  }

  lemma WriteStepKeeps(s: State, step: Step, s': State)
    requires Safe(s) && Next(s, step, s') && WritesRow(step)
    ensures Safe(s')
  {
    var c := step.call;
    var w := s.calls[c].payout;
    WritesSafely(s, step, s');
    RowWriteKeeps(s, c, s'.rows[w], if c in s'.calls then Some(s'.calls[c]) else None);
    assert s'.rows == s.rows[w := s'.rows[w]];
  }

  /** What each write leaves of the row and of the call. */
  lemma WritesSafely(s: State, step: Step, s': State)
    requires Safe(s) && Next(s, step, s') && WritesRow(step)
    ensures var c := step.call;
            && At(s, c) && |s'.rows| == |s.rows|
            && var w := s.calls[c].payout;
               && RowSafe(s'.rows[w], w, s.entries, s.txs)
               && (Requesting(s.calls[c]) || s'.rows[w].sig == s.rows[w].sig)
               && (c in s'.calls ==> s'.calls[c].payout == w && !Requesting(s'.calls[c]) && CallSafe(s'.calls[c], s'.rows[w], s.entries, s.txs))
               && var written := SetRow(s, w, s'.rows[w]);
                  s' == if c in s'.calls then SetCall(written, c, s'.calls[c]) else EndCall(written, c)
  {
    var w := s.calls[step.call].payout;
    assert RowSafe(s.rows[w], w, s.entries, s.txs);
    assert CallSafe(s.calls[step.call], s.rows[w], s.entries, s.txs);
  }

  lemma PostsOneKey(entries: seq<Entry>, legs: seq<Entry>, k: Key)
    requires |legs| == 2 && legs[0].amount == -legs[1].amount && legs[0].amount != 0
    requires (legs[0].key, legs[1].key) in {(Some(k), None), (None, Some(k))}
    requires UniqueKeys(entries) && !KeyPosted(entries, k)
    ensures UniqueKeys(entries + legs)
    ensures forall k' :: KeyPosted(entries + legs, k') <==> KeyPosted(entries, k') || k' == k
  {
    AppendPosts(entries, legs, if legs[0].key == Some(k) then 0 else 1, k);
  }

  /** The reversal adds its key, takes none away, and brings the amount back in. */
  lemma ReversalPosts(entries: seq<Entry>, w: nat, user: nat, amount: int)
    requires UniqueKeys(entries) && !KeyPosted(entries, WithdrawReverseKey(w)) && amount != 0
    ensures var after := entries + CreditLegs(user, amount, Some(WithdrawReverseKey(w)));
            && UniqueKeys(after)
            && (forall v: nat :: KeyPosted(after, WithdrawKey(v)) <==> KeyPosted(entries, WithdrawKey(v)))
            && (forall v: nat :: KeyPosted(after, WithdrawReverseKey(v)) <==> KeyPosted(entries, WithdrawReverseKey(v)) || v == w)
            && Settled(after, External) == Settled(entries, External) - amount
  {
    var legs := CreditLegs(user, amount, Some(WithdrawReverseKey(w)));
    PostsOneKey(entries, legs, WithdrawReverseKey(w));
    SettledConcat(entries, legs, External);
    TwoLegs(legs, External);
  }

  lemma DebitPosts(entries: seq<Entry>, w: nat, user: nat, amount: int)
    requires UniqueKeys(entries) && !KeyPosted(entries, WithdrawKey(w)) && amount != 0
    ensures var after := entries + DebitLegs(user, amount, Some(WithdrawKey(w)));
            && UniqueKeys(after)
            && (forall v: nat :: KeyPosted(after, WithdrawKey(v)) <==> KeyPosted(entries, WithdrawKey(v)) || v == w)
            && (forall v: nat :: KeyPosted(after, WithdrawReverseKey(v)) <==> KeyPosted(entries, WithdrawReverseKey(v)))
            && Settled(after, External) == Settled(entries, External) + amount
  {
    var legs := DebitLegs(user, amount, Some(WithdrawKey(w)));
    PostsOneKey(entries, legs, WithdrawKey(w));
    SettledConcat(entries, legs, External);
    TwoLegs(legs, External);
  }

  lemma PostDebitKeeps(s: State, c: nat, s': State)
    requires Safe(s) && Next(s, PostDebit(c), s')
    ensures Safe(s')
  {
    var w := s.calls[c].payout;
    assert RowSafe(s.rows[w], w, s.entries, s.txs);
    assert CallSafe(s.calls[c], s.rows[w], s.entries, s.txs);
    DebitPosts(s.entries, w, s.rows[w].user, s.rows[w].amount);
    MovesOn(s.calls, c, Debited(w));
    TouchKeeps(s, s', w, c);
  }

  lemma PostReversalKeeps(s: State, c: nat, s': State)
    requires Safe(s) && Next(s, PostReversal(c), s')
    ensures Safe(s')
  {
    var w := s.calls[c].payout;
    assert CallSafe(s.calls[c], s.rows[w], s.entries, s.txs);
    if KeyPosted(s.entries, WithdrawReverseKey(w)) {
      AdvanceKeeps(s, c, Some(WillMarkFailed(w)));
    } else {
      FirstReversalKeeps(s, c, s');
    }
  }

  /** What the first reversal leaves of another call about the same withdrawal. */
  lemma ReversedCall(call: Call, p: Payout, entries: seq<Entry>, after: seq<Entry>, txs: seq<Tx>)
    requires CallSafe(call, p, entries, txs) && !Requesting(call)
    requires KeyPosted(entries, WithdrawKey(call.payout)) ==> KeyPosted(after, WithdrawKey(call.payout))
    requires KeyPosted(entries, WithdrawReverseKey(call.payout)) ==> KeyPosted(after, WithdrawReverseKey(call.payout))
    ensures CallSafe(call, p, after, txs)
  {
  }

  lemma ReversedRow(p: Payout, w: nat, entries: seq<Entry>, after: seq<Entry>, txs: seq<Tx>)
    requires RowSafe(p, w, entries, txs) && AllDropped(txs, w) && KeyPosted(entries, WithdrawKey(w))
    requires KeyPosted(after, WithdrawKey(w)) && KeyPosted(after, WithdrawReverseKey(w))
    ensures RowSafe(p, w, after, txs)
  {
  }

  /** Other withdrawals do not notice a reversal. */
  lemma ReversalElsewhere(s: State, s': State, w: nat, user: nat, amount: int)
    requires UniqueKeys(s.entries) && !KeyPosted(s.entries, WithdrawReverseKey(w)) && amount != 0
    requires s'.entries == s.entries + CreditLegs(user, amount, Some(WithdrawReverseKey(w))) && s'.txs == s.txs
    ensures forall v: nat | v != w :: SameOutside(s, s', v)
    ensures UniqueKeys(s'.entries) && KeyPosted(s'.entries, WithdrawReverseKey(w))
    ensures KeyPosted(s.entries, WithdrawKey(w)) ==> KeyPosted(s'.entries, WithdrawKey(w))
    ensures w < |s.rows| && KeysSafe(s.entries, |s.rows|) ==> KeysSafe(s'.entries, |s.rows|)
  {
    ReversalPosts(s.entries, w, user, amount);
  }

  lemma FirstReversalKeeps(s: State, c: nat, s': State)
    requires Safe(s) && Next(s, PostReversal(c), s') && !ReversalPosted(s, s.calls[c].payout)
    ensures Safe(s')
  {
    var w := s.calls[c].payout;
    var p := s.rows[w];
    assert RowSafe(p, w, s.entries, s.txs) && CallSafe(s.calls[c], p, s.entries, s.txs);
    ReversalElsewhere(s, s', w, p.user, p.amount);
    MovesOn(s.calls, c, WillMarkFailed(w));
    forall d | d in s'.calls && s'.calls[d].payout == w
      ensures CallSafe(s'.calls[d], p, s'.entries, s'.txs)
    {
      if d != c {
        assert At(s, d);
        ReversedCall(s.calls[d], p, s.entries, s'.entries, s.txs);
      }
    }
    ReversedRow(p, w, s.entries, s'.entries, s.txs);
    TouchKeeps(s, s', w, c);
  }

  lemma SendKeeps(s: State, c: nat, s': State)
    requires Safe(s) && Next(s, Send(c), s')
    ensures Safe(s')
  {
    var w := s.calls[c].payout;
    assert RowSafe(s.rows[w], w, s.entries, s.txs);
    assert CallSafe(s.calls[c], s.rows[w], s.entries, s.txs);
    MovesOn(s.calls, c, Sent(w, |s.txs|));
    TouchKeeps(s, s', w, c);
  }

  /** One broadcast is decided. */
  ghost predicate Decided(txs: seq<Tx>, after: seq<Tx>) {
    && |after| == |txs|
    && (forall g | 0 <= g < |txs| :: after[g].payout == txs[g].payout && (txs[g].state != InFlight ==> after[g] == txs[g]))
  }

  lemma DecidedKeepsRow(p: Payout, w: nat, entries: seq<Entry>, txs: seq<Tx>, after: seq<Tx>)
    requires RowSafe(p, w, entries, txs) && Decided(txs, after)
    ensures RowSafe(p, w, entries, after)
  {
  }

  lemma DecidedKeepsCall(call: Call, p: Payout, entries: seq<Entry>, txs: seq<Tx>, after: seq<Tx>)
    requires CallSafe(call, p, entries, txs) && Decided(txs, after)
    ensures CallSafe(call, p, entries, after)
  {
  }

  /** The chain decides a broadcast; no call moves. */
  lemma ChainStepKeeps(s: State, step: Step, s': State)
    requires Safe(s) && Next(s, step, s') && (step.Land? || step.Drop?)
    ensures Safe(s')
  {
    assert Decided(s.txs, s'.txs);
    forall v | 0 <= v < |s'.rows|
      ensures RowSafe(s'.rows[v], v, s'.entries, s'.txs)
    {
      DecidedKeepsRow(s.rows[v], v, s.entries, s.txs, s'.txs);
    }
    forall c | c in s'.calls
      ensures At(s', c) && CallSafe(s'.calls[c], s'.rows[s'.calls[c].payout], s'.entries, s'.txs)
    {
      assert At(s, c);
      DecidedKeepsCall(s.calls[c], s.rows[s.calls[c].payout], s.entries, s.txs, s'.txs);
    }
  }

  lemma CreateKeeps(s: State, step: Step, s': State)
    requires Safe(s) && Next(s, step, s') && step.Create?
    ensures Safe(s')
  {
    forall d | d in s'.calls
      ensures At(s', d) && CallSafe(s'.calls[d], s'.rows[s'.calls[d].payout], s'.entries, s'.txs)
    {
      if d != step.call {
        assert At(s, d);
      }
    }
    assert forall d | d in s.calls :: At(s, d);
  }

  lemma OtherKeys(entries: seq<Entry>, legs: seq<Entry>, w: nat)
    requires OtherLegs(legs)
    ensures KeyPosted(entries + legs, WithdrawKey(w)) <==> KeyPosted(entries, WithdrawKey(w))
    ensures KeyPosted(entries + legs, WithdrawReverseKey(w)) <==> KeyPosted(entries, WithdrawReverseKey(w))
  {
    OtherKey(entries, legs, WithdrawKey(w));
    OtherKey(entries, legs, WithdrawReverseKey(w));
  }

  lemma OtherKey(entries: seq<Entry>, legs: seq<Entry>, k: Key)
    requires forall i | 0 <= i < |legs| :: legs[i].key != Some(k)
    ensures KeyPosted(entries + legs, k) <==> KeyPosted(entries, k)
  {
    var after := entries + legs;
    if KeyPosted(entries, k) {
      var i :| 0 <= i < |entries| && entries[i].key == Some(k);
      assert after[i].key == Some(k);
    }
    if KeyPosted(after, k) {
      var i :| 0 <= i < |after| && after[i].key == Some(k);
      assert i >= |entries| ==> after[i] == legs[i - |entries|];
    }
  }

  /** Time passes, or the rest of the system posts. */
  lemma OutsideStepKeeps(s: State, step: Step, s': State)
    requires Safe(s) && Next(s, step, s')
    requires step.Pass? || step.Other?
    ensures Safe(s')
  {
    if step.Other? {
      forall w: nat { OtherKeys(s.entries, step.legs, w); }
    }
    forall v | 0 <= v < |s'.rows|
      ensures RowSafe(s'.rows[v], v, s'.entries, s'.txs)
    {
      SameKeepsRow(s, s', s.rows[v], v);
    }
    forall c | c in s'.calls
      ensures At(s', c) && CallSafe(s'.calls[c], s'.rows[s'.calls[c].payout], s'.entries, s'.txs)
    {
      assert At(s, c);
      SameKeepsCall(s, s', s.calls[c], s.rows[s.calls[c].payout]);
    }
  }

  // ---------------------------------------------------------------------------
  // The external account
  // ---------------------------------------------------------------------------

  lemma DebitBooks(s: State, c: nat, s': State)
    requires Inv(s) && Next(s, PostDebit(c), s')
    ensures BooksSafe(s')
  {
    var w := s.calls[c].payout;
    var p := s.rows[w];
    assert CallSafe(s.calls[c], p, s.entries, s.txs) && RowSafe(p, w, s.entries, s.txs);
    DebitPosts(s.entries, w, p.user, p.amount);
    OutstandingChange(s.entries, s'.entries, s.rows, w);
  }

  lemma ReversalBooks(s: State, c: nat, s': State)
    requires Inv(s) && Next(s, PostReversal(c), s') && !ReversalPosted(s, s.calls[c].payout)
    ensures BooksSafe(s')
  {
    var w := s.calls[c].payout;
    var p := s.rows[w];
    assert CallSafe(s.calls[c], p, s.entries, s.txs) && RowSafe(p, w, s.entries, s.txs);
    ReversalPosts(s.entries, w, p.user, p.amount);
    OutstandingChange(s.entries, s'.entries, s.rows, w);
  }

  lemma CreateBooks(s: State, step: Step, s': State)
    requires Inv(s) && Next(s, step, s') && step.Create?
    ensures BooksSafe(s')
  {
    assert !KeyPosted(s.entries, WithdrawKey(|s.rows|));
    assert s'.rows[..|s.rows|] == s.rows;
  }

  lemma OtherBooks(s: State, step: Step, s': State)
    requires Inv(s) && Next(s, step, s') && step.Other?
    ensures BooksSafe(s')
  {
    SettledConcat(s.entries, step.legs, External);
    forall w: nat { OtherKeys(s.entries, step.legs, w); }
    OutstandingChange(s.entries, s'.entries, s.rows, |s.rows|);
  }

  /** Every other step leaves the ledger and the amounts alone. */
  lemma QuietForBooks(s: State, step: Step, s': State)
    requires Next(s, step, s') && !step.Other? && !step.Create? && !step.PostDebit?
    requires step.PostReversal? ==> ReversalPosted(s, s.calls[step.call].payout)
    ensures s'.entries == s.entries && s'.elsewhere == s.elsewhere
    ensures |s'.rows| == |s.rows| && forall v | 0 <= v < |s.rows| :: s'.rows[v].amount == s.rows[v].amount
  {
  }

  lemma QuietKeepsBooks(s: State, step: Step, s': State)
    requires BooksSafe(s) && Next(s, step, s') && !step.Other? && !step.Create? && !step.PostDebit?
    requires step.PostReversal? ==> ReversalPosted(s, s.calls[step.call].payout)
    ensures BooksSafe(s')
  {
    QuietForBooks(s, step, s');
    OutstandingSameAmounts(s.entries, s.rows, s'.rows);
  }

  lemma StepKeepsBooks(s: State, step: Step, s': State)
    requires Inv(s) && Next(s, step, s')
    ensures BooksSafe(s')
  {
    if step.Other? {
      OtherBooks(s, step, s');
    } else if step.Create? {
      CreateBooks(s, step, s');
    } else if step.PostDebit? {
      DebitBooks(s, step.call, s');
    } else if step.PostReversal? && !ReversalPosted(s, s.calls[step.call].payout) {
      ReversalBooks(s, step.call, s');
    } else {
      QuietKeepsBooks(s, step, s');
    }
  }

  lemma StepKeeps(s: State, step: Step, s': State)
    requires Inv(s) && Next(s, step, s')
    ensures Inv(s')
  {
    StepKeepsBooks(s, step, s');
    if step.BeginSettle? {
      BeginSettleKeeps(s, step, s');
    } else if step.Ask? {
      AskKeeps(s, step.call, step.fate, s');
    } else if OnlyCalls(step) {
      CallStepKeeps(s, step, s');
    } else if WritesRow(step) {
      WriteStepKeeps(s, step, s');
    } else {
      match step
      case PostDebit(c) => PostDebitKeeps(s, c, s');
      case PostReversal(c) => PostReversalKeeps(s, c, s');
      case Send(c) => SendKeeps(s, c, s');
      case Land(_) => ChainStepKeeps(s, step, s');
      case Drop(_) => ChainStepKeeps(s, step, s');
      case Create(_, _, _, _) => CreateKeeps(s, step, s');
      case _ => OutsideStepKeeps(s, step, s');
    }
  }

  lemma {:induction false} RunKeeps(states: seq<State>, i: nat)
    requires IsRun(states) && i < |states|
    ensures Inv(states[i])
    ensures states[i].limits == states[0].limits
  {
    if i > 0 {
      RunKeeps(states, i - 1);
      assert CanStep(states[i - 1], states[i - 1 + 1]);
      var step :| Next(states[i - 1], step, states[i]);
      StepKeeps(states[i - 1], step, states[i]);
    }
  }

  // ---------------------------------------------------------------------------
  // Reachable states
  // ---------------------------------------------------------------------------

  ghost predicate RunTo(states: seq<State>, s: State) {
    IsRun(states) && states[|states| - 1] == s
  }

  /** Some run ends here. */
  ghost predicate Reached(s: State) {
    exists states :: RunTo(states, s)
  }

  lemma InitialIsReached(s: State)
    requires Initial(s)
    ensures Reached(s)
  {
    assert RunTo([s], s);
  }

  lemma Goes(s: State, step: Step, s': State)
    requires Reached(s) && Next(s, step, s')
    ensures Reached(s')
  {
    var states :| RunTo(states, s);
    Extend(states, step, s');
    assert RunTo(states + [s'], s');
  }

  lemma Extend(states: seq<State>, step: Step, s': State)
    requires IsRun(states) && Next(states[|states| - 1], step, s')
    ensures IsRun(states + [s'])
  {
    var more := states + [s'];
    forall i | 0 <= i < |more| - 1
      ensures CanStep(more[i], more[i + 1])
    {
      if i < |states| - 1 {
        assert CanStep(states[i], states[i + 1]);
      }
    }
  }

  lemma ReachedIsSafe(s: State)
    requires Reached(s)
    ensures Inv(s)
  {
    var states :| RunTo(states, s);
    RunKeeps(states, |states| - 1);
  }
}
