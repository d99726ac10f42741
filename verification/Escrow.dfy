/** The delivery-gated escrow machine (packages/backend/src/orders.ts, escrow.ts,
    ledger.ts, fulfillment.ts). Each conditional status claim, each database transaction
    and each write of its own is one step; a call may crash between its steps. What a call
    has read may be stale when it writes. */
module Escrow {
  import opened Schema
  import opened Books
  import opened BusinessDays

  const DISPUTE_WINDOW_MS := 2 * DAY_MS
  const SHIP_LATER_HOLD_MS := 14 * DAY_MS

  /** What a call has decided and not done yet. `byTimer` tells the timer's forfeit from a
      manual discard. */
  datatype Call =
    | WillLock(order: nat)
    | WillMarkLocked(order: nat)
    | WillWrite(order: nat, to: OrderStatus)
    | WillReadOrder(order: nat, byTimer: bool)
    | WillClaim(order: nat, byTimer: bool)
    | WillRetire(order: nat, byTimer: bool)
    | WillRelease(order: nat, thenRetire: Option<bool>)
    | WillRefund(order: nat, thenMark: bool)
    | WillMarkRefunded(order: nat)

  /** The terminal money move of an order. */
  datatype Move = PaidOut | PaidBack

  /** How far the call that makes a shipment got: its fee charged, its items in the
      shipment, the clocks of their sellers started. */
  datatype Stage = Unpaid | Charged | ItemsIn | Clocked

  /** A shipment of the items of some orders. `alive`: its call has neither ended nor
      crashed. A prepaid shipment may cost nothing. */
  datatype Shipment = Shipment(items: set<nat>, buyer: nat, fee: int, prepaid: bool, stage: Stage, alive: bool)

  /** `moves`, `forfeited` and `autoRefunded` record what happened to each order: its
      terminal money move, its price going to the seller because the buyer gave it up, its
      price coming back because the seller did not ship. */
  datatype State = State(
    now: int,
    entries: seq<Entry>,
    orders: seq<Order>,
    calls: map<nat, Call>,
    moves: map<nat, Move>,
    shipments: seq<Shipment>,
    forfeited: set<nat>,
    autoRefunded: set<nat>)

  datatype Step =
    | Pass(ms: nat)
    | Other(legs: seq<Entry>)
    | NewEscrowOrder(call: nat, row: Order)
    | NewDirectOrder(row: Order)
    | MarkDirect(order: nat)
    | PostLock(call: nat)
    | RemoveUnlocked(call: nat)
    | MarkLocked(call: nat)
    | AddItem(order: nat)
    | BeginShipment(items: set<nat>, buyer: nat, fee: int, prepaid: bool)
    | ChargeShipping(shipment: nat)
    | MoveItems(shipment: nat)
    | StartClock(shipment: nat, deadline: int)
    | CrashShipment(shipment: nat)
    | ReadTransition(call: nat, order: nat, to: OrderStatus)
    | WriteTransition(call: nat)
    | Transition(order: nat, to: OrderStatus)
    | OpenDispute(order: nat)
    | Resolve(call: nat, order: nat, release: bool)
    | ReleaseWindow(call: nat, order: nat)
    | ReleaseDigital(call: nat, order: nat)
    | BeginDiscard(call: nat, order: nat)
    | FindAbandoned(call: nat, order: nat)
    | ReadOrder(call: nat)
    | ClaimForfeit(call: nat)
    | RetireItem(call: nat)
    | RefundUnshipped(call: nat, order: nat)
    | Recover(call: nat, order: nat)
    | MoveMoney(call: nat)
    | MarkRefunded(call: nat)
    | Crash(call: nat)

  predicate LockPosted(s: State, o: nat) {
    KeyPosted(s.entries, EscrowLockKey(o))
  }

  predicate SettlePosted(s: State, o: nat) {
    KeyPosted(s.entries, EscrowSettleKey(o))
  }

  /** Ledger rows that touch no escrow money and no escrow key. */
  ghost predicate OutsideEscrow(legs: seq<Entry>) {
    && Settled(legs, Account.Escrow) == 0
    && forall i | 0 <= i < |legs| && legs[i].key.Some? :: !legs[i].key.value.EscrowLockKey? && !legs[i].key.value.EscrowSettleKey?
  }

  /** Ledger rows of the rest of the system: no shipping key either. */
  ghost predicate Elsewhere(legs: seq<Entry>) {
    && OutsideEscrow(legs)
    && forall i | 0 <= i < |legs| && legs[i].key.Some? :: !legs[i].key.value.ShippingKey?
  }

  /** The transitions a package drives: shipped, then delivered. */
  predicate MayAdvance(from: OrderStatus, to: OrderStatus) {
    || (to == OrderShipped && from == OrderLocked)
    || (to == OrderWindow && from in {OrderShipped, OrderLocked})
  }

  function Advanced(row: Order, to: OrderStatus, now: int): Order {
    if to == OrderWindow then row.(status := to, windowEndsAt := Some(now + DISPUTE_WINDOW_MS)) else row.(status := to)
  }

  /** The timer's test of an item: waiting, its hold run out. */
  predicate HoldOver(row: Order, now: int) {
    row.item == ReadyToShip && row.heldUntil.Some? && row.heldUntil.value <= now
  }

  /** The timer's test for an abandoned order: its item's hold is over, no clock started. */
  predicate Abandoned(row: Order, now: int) {
    HoldOver(row, now) && row.status == OrderLocked && row.noShipDeadline == None
  }

  predicate Unshipped(row: Order, now: int) {
    row.status == OrderLocked && row.noShipDeadline.Some? && row.noShipDeadline.value <= now
  }

  predicate FreshRow(row: Order) {
    row.noShipDeadline == None && row.windowEndsAt == None && row.item == NoItem
  }

  /** The ledger rows of a terminal move. */
  function MoveLegs(o: nat, row: Order, move: Move): seq<Entry> {
    if move == PaidOut then NonZero(EscrowReleaseLegs(o, row.seller, row.amount))
    else EscrowRefundLegs(o, row.buyer, row.amount)
  }

  /** Post a terminal move, unless one has already posted for the order. */
  function Moved(s: State, o: nat, move: Move): State
    requires o < |s.orders|
  {
    if SettlePosted(s, o) then s
    else s.(entries := s.entries + MoveLegs(o, s.orders[o], move), moves := s.moves[o := move])
  }

  function SetRow(s: State, o: nat, row: Order): State
    requires o < |s.orders|
  {
    s.(orders := s.orders[o := row])
  }

  function SetCall(s: State, c: nat, call: Call): State {
    s.(calls := s.calls[c := call])
  }

  function EndCall(s: State, c: nat): State {
    s.(calls := s.calls - {c})
  }

  /** A call that may take a decision about an order: it is not in the middle of another. */
  predicate Idle(s: State, c: nat, o: nat) {
    c !in s.calls && o < |s.orders|
  }

  /** The orders once their items are in a shipment: an unconditional write. */
  function ItemsShipped(orders: seq<Order>, items: set<nat>): seq<Order> {
    seq(|orders|, i requires 0 <= i < |orders| => if i in items then orders[i].(item := InShipment) else orders[i])
  }

  /** The clock starts for the locked orders that have none. */
  function WithClock(row: Order, deadline: int): Order {
    if row.status == OrderLocked && row.noShipDeadline == None then row.(noShipDeadline := Some(deadline)) else row
  }

  function ClocksStarted(orders: seq<Order>, items: set<nat>, deadline: int): seq<Order> {
    seq(|orders|, i requires 0 <= i < |orders| => if i in items then WithClock(orders[i], deadline) else orders[i])
  }

  function SetShipment(s: State, sh: nat, x: Shipment): State
    requires sh < |s.shipments|
  {
    s.(shipments := s.shipments[sh := x])
  }

  predicate Shippable(row: Order, prepaid: bool) {
    row.item == ReadyToShip && (prepaid || row.status == OrderLocked || row.status == OrderReleased)
  }

  /** The call of shipment `sh` is about to leave `stage`. */
  predicate ShipmentAt(s: State, sh: nat, stage: Stage) {
    sh < |s.shipments| && s.shipments[sh].alive && s.shipments[sh].stage == stage
  }

  /** The ledger after the charge of a shipment: its legs, unless it costs nothing or was
      charged before. */
  function EntriesCharged(entries: seq<Entry>, sh: nat, x: Shipment): seq<Entry> {
    if x.fee <= 0 || KeyPosted(entries, ShippingKey(sh)) then entries else entries + ShippingLegs(sh, x.buyer, x.fee)
  }

  /** Steps taken at once, by nobody in particular. */
  ghost predicate Instantly(s: State, step: Step, s': State) {
    match step
    case Pass(ms) =>
      s' == s.(now := s.now + ms)
    case Other(legs) =>
      Elsewhere(legs) && UniqueKeys(s.entries + legs) && s' == s.(entries := s.entries + legs)
    case NewDirectOrder(row) =>
      && row.direct && FreshRow(row) && row.status in {OrderPending, OrderReleased}
      && s' == s.(orders := s.orders + [row])
    case MarkDirect(o) =>
      && o < |s.orders| && s.orders[o].direct && s.orders[o].status == OrderPending
      && s' == SetRow(s, o, s.orders[o].(status := OrderReleased))
    case AddItem(o) =>
      && o < |s.orders| && s.orders[o].item == NoItem && s.orders[o].status !in {OrderPending, OrderRemoved}
      && s' == SetRow(s, o, s.orders[o].(item := ReadyToShip, heldUntil := Some(s.now + SHIP_LATER_HOLD_MS)))
    case Transition(o, to) =>
      && o < |s.orders| && MayAdvance(s.orders[o].status, to)
      && s' == SetRow(s, o, Advanced(s.orders[o], to, s.now))
    case OpenDispute(o) =>
      && o < |s.orders| && s.orders[o].status == OrderWindow
      && s' == SetRow(s, o, s.orders[o].(status := OrderDisputed))
    case _ => false
  }

  /** Steps of the calls that make shipments. */
  ghost predicate Ships(s: State, step: Step, s': State) {
    match step
    case BeginShipment(items, buyer, fee, prepaid) =>
      && (forall o | o in items :: o < |s.orders| && Shippable(s.orders[o], prepaid))
      && s' == s.(shipments := s.shipments + [Shipment(items, buyer, fee, prepaid, Unpaid, true)])
    case ChargeShipping(sh) =>
      && ShipmentAt(s, sh, Unpaid) && (s.shipments[sh].fee > 0 || s.shipments[sh].prepaid)
      && s' == SetShipment(s, sh, s.shipments[sh].(stage := Charged)).(entries := EntriesCharged(s.entries, sh, s.shipments[sh]))
    case MoveItems(sh) =>
      && ShipmentAt(s, sh, Charged)
      && s' == SetShipment(s, sh, s.shipments[sh].(stage := ItemsIn)).(orders := ItemsShipped(s.orders, s.shipments[sh].items))
    case StartClock(sh, deadline) =>
      && ShipmentAt(s, sh, ItemsIn) && ShipDeadline(s.now, deadline)
      && s' == SetShipment(s, sh, s.shipments[sh].(stage := Clocked, alive := false))
                 .(orders := ClocksStarted(s.orders, s.shipments[sh].items, deadline))
    case CrashShipment(sh) =>
      && sh < |s.shipments| && s' == SetShipment(s, sh, s.shipments[sh].(alive := false))
    case _ => false
  }

  /** Steps by which a call takes a decision. */
  ghost predicate Decides(s: State, step: Step, s': State) {
    match step
    case NewEscrowOrder(c, row) =>
      && c !in s.calls && !row.direct && FreshRow(row) && row.status == OrderPending
      && s' == SetCall(s.(orders := s.orders + [row]), c, WillLock(|s.orders|))
    case Resolve(c, o, release) =>
      && Idle(s, c, o) && s.orders[o].status == OrderDisputed
      && s' == if release then ClaimRelease(s, c, o, None)
               else SetCall(SetRow(s, o, s.orders[o].(status := OrderRefunded, refundedAt := Some(s.now))), c, WillRefund(o, false))
    case ReleaseWindow(c, o) =>
      Idle(s, c, o) && s.orders[o].status == OrderWindow && s' == ClaimRelease(s, c, o, None)
    case ReleaseDigital(c, o) =>
      Idle(s, c, o) && s.orders[o].status == OrderLocked && s.orders[o].item == NoItem
        && s' == ClaimRelease(s, c, o, None)
    case BeginDiscard(c, o) =>
      Idle(s, c, o) && s.orders[o].item == ReadyToShip && s' == SetCall(s, c, WillReadOrder(o, false))
    case FindAbandoned(c, o) =>
      Idle(s, c, o) && HoldOver(s.orders[o], s.now) && s' == SetCall(s, c, WillReadOrder(o, true))
    case RefundUnshipped(c, o) =>
      && Idle(s, c, o) && Unshipped(s.orders[o], s.now)
      && s' == SetCall(SetRow(s, o, s.orders[o].(status := OrderCanceled)), c, WillRefund(o, true)).(autoRefunded := s.autoRefunded + {o})
    case Recover(c, o) =>
      && Idle(s, c, o) && s.orders[o].status in {OrderReleased, OrderRefunded} && LockPosted(s, o)
         && !SettlePosted(s, o)
      && s' == SetCall(s, c, if s.orders[o].status == OrderReleased then WillRelease(o, None) else WillRefund(o, false))
    case ReadTransition(c, o, to) =>
      Idle(s, c, o) && MayAdvance(s.orders[o].status, to) && s' == SetCall(s, c, WillWrite(o, to))
    case _ => false
  }

  /** Whether a forfeit's claim is won. The manual discard tests the clock in its claim, the
      timer tests it in an earlier read only. */
  predicate WinsClaim(row: Order, byTimer: bool) {
    row.status == OrderLocked && (byTimer || row.noShipDeadline == None)
  }

  /** Steps by which a call does what it still owes. */
  ghost predicate Follows(s: State, step: Step, s': State) {
    match step
    case PostLock(c) =>
      && c in s.calls && s.calls[c].WillLock? && s.calls[c].order < |s.orders|
      && var o := s.calls[c].order;
         && s.orders[o].amount > 0 && !LockPosted(s, o)
         && s' == SetCall(s.(entries := s.entries + EscrowLockLegs(o, s.orders[o].buyer, s.orders[o].amount)), c, WillMarkLocked(o))
    case RemoveUnlocked(c) =>
      && c in s.calls && s.calls[c].WillLock? && s.calls[c].order < |s.orders|
      && s' == EndCall(SetRow(s, s.calls[c].order, s.orders[s.calls[c].order].(status := OrderRemoved)), c)
    case MarkLocked(c) =>
      && c in s.calls && s.calls[c].WillMarkLocked? && s.calls[c].order < |s.orders|
      && s' == EndCall(SetRow(s, s.calls[c].order, s.orders[s.calls[c].order].(status := OrderLocked, noShipDeadline := None)), c)
    case WriteTransition(c) =>
      && c in s.calls && s.calls[c].WillWrite? && s.calls[c].order < |s.orders|
      && s' == EndCall(SetRow(s, s.calls[c].order, Advanced(s.orders[s.calls[c].order], s.calls[c].to, s.now)), c)
    case ReadOrder(c) =>
      && c in s.calls && s.calls[c].WillReadOrder? && s.calls[c].order < |s.orders|
      && var (o, byTimer) := (s.calls[c].order, s.calls[c].byTimer);
         s' == if s.orders[o].status == OrderLocked && (byTimer ==> s.orders[o].noShipDeadline == None)
               then SetCall(s, c, WillClaim(o, byTimer))
               else if byTimer then EndCall(s, c)
               else SetCall(s, c, WillRetire(o, false))
    case ClaimForfeit(c) =>
      && c in s.calls && s.calls[c].WillClaim? && s.calls[c].order < |s.orders|
      && var (o, byTimer) := (s.calls[c].order, s.calls[c].byTimer);
         s' == if WinsClaim(s.orders[o], byTimer) then ClaimRelease(s, c, o, Some(byTimer)).(forfeited := s.forfeited + {o})
               else if byTimer then SetCall(s, c, WillRetire(o, true))
               else EndCall(s, c)
    case RetireItem(c) =>
      && c in s.calls && s.calls[c].WillRetire? && s.calls[c].order < |s.orders|
      && s' == EndCall(SetRow(s, s.calls[c].order, Retired(s.orders[s.calls[c].order], s.calls[c].byTimer)), c)
    case MoveMoney(c) =>
      && c in s.calls && (s.calls[c].WillRelease? || s.calls[c].WillRefund?) && s.calls[c].order < |s.orders|
      && var o := s.calls[c].order;
         s' == if s.calls[c].WillRelease? then
                 if s.calls[c].thenRetire.Some? then SetCall(Moved(s, o, PaidOut), c, WillRetire(o, s.calls[c].thenRetire.value))
                 else EndCall(Moved(s, o, PaidOut), c)
               else if s.calls[c].thenMark then SetCall(Moved(s, o, PaidBack), c, WillMarkRefunded(o))
               else EndCall(Moved(s, o, PaidBack), c)
    case MarkRefunded(c) =>
      && c in s.calls && s.calls[c].WillMarkRefunded? && s.calls[c].order < |s.orders|
      && var o := s.calls[c].order;
         s' == SetCall(SetRow(s, o, s.orders[o].(status := OrderRefunded, refundedAt := Some(s.now))), c, WillRetire(o, false))
    case Crash(c) =>
      c in s.calls && s' == EndCall(s, c)
    case _ => false
  }

  /** The item's last write: the timer's is unconditional, every other one finds only an
      item that still waits. */
  function Retired(row: Order, byTimer: bool): Order {
    if byTimer || row.item == ReadyToShip then row.(item := Discarded) else row
  }

  predicate Instant(step: Step) {
    || step.Pass? || step.Other? || step.NewDirectOrder? || step.MarkDirect? || step.AddItem? || step.Transition?
       || step.OpenDispute?
  }

  predicate OfShipment(step: Step) {
    step.BeginShipment? || step.ChargeShipping? || step.MoveItems? || step.StartClock? || step.CrashShipment?
  }

  predicate Decision(step: Step) {
    || step.NewEscrowOrder? || step.Resolve? || step.ReleaseWindow? || step.ReleaseDigital? || step.BeginDiscard?
       || step.FindAbandoned?
    || step.RefundUnshipped? || step.Recover? || step.ReadTransition?
  }

  ghost predicate Next(s: State, step: Step, s': State) {
    if Instant(step) then Instantly(s, step, s')
    else if OfShipment(step) then Ships(s, step, s')
    else if Decision(step) then Decides(s, step, s')
    else Follows(s, step, s')
  }

  /** A won claim to release: the status flips, and this call now owes the money move. */
  function ClaimRelease(s: State, c: nat, o: nat, thenRetire: Option<bool>): State
    requires o < |s.orders|
  {
    SetCall(SetRow(s, o, s.orders[o].(status := OrderReleased, releasedAt := Some(s.now))), c, WillRelease(o, thenRetire))
  }

  const Empty := State(0, [], [], map[], map[], [], {}, {})

  ghost predicate CanStep(s: State, s': State) {
    exists step :: Next(s, step, s')
  }

  ghost predicate IsRun(states: seq<State>) {
    && states != [] && states[0] == Empty
    && forall i | 0 <= i < |states| - 1 :: CanStep(states[i], states[i + 1])
  }

  // ---------------------------------------------------------------------------
  // Money: holds in every run, stale writes included
  // ---------------------------------------------------------------------------

  function InEscrow(s: State, o: nat): int
    requires o < |s.orders|
  {
    if LockPosted(s, o) && !SettlePosted(s, o) then s.orders[o].amount else 0
  }

  /** The amounts of the first `n` orders that are locked and not settled. */
  function HeldUpTo(s: State, n: nat): int
    requires n <= |s.orders|
  {
    if n == 0 then 0 else HeldUpTo(s, n - 1) + InEscrow(s, n - 1)
  }

  predicate LegsFrom(entries: seq<Entry>, legs: seq<Entry>, p: nat) {
    p + |legs| <= |entries| && entries[p..p + |legs|] == legs
  }

  ghost predicate LegsAt(entries: seq<Entry>, legs: seq<Entry>) {
    exists p: nat :: LegsFrom(entries, legs, p)
  }

  /** Statuses an order only has once its money is in escrow. */
  predicate NeedsLock(row: Order) {
    || row.status in {OrderLocked, OrderShipped, OrderDelivered, OrderWindow, OrderDisputed, OrderRefunded, OrderCanceled}
    || (row.status == OrderReleased && !row.direct)
  }

  predicate OrderSafe(row: Order, locked: bool) {
    && (NeedsLock(row) ==> locked)
    && (row.direct ==> !locked && row.status in {OrderPending, OrderReleased})
    && (locked ==> row.amount > 0)
  }

  /** Calls that owe no money move yet, or none any more. */
  predicate OnlyDiscards(call: Call) {
    call.WillReadOrder? || call.WillClaim? || call.WillRetire?
  }

  predicate CallSafe(call: Call, row: Order, locked: bool) {
    OnlyDiscards(call) ||
    (&& !row.direct
     && (!call.WillLock? ==> locked)
     && (call.WillWrite? ==> call.to in {OrderShipped, OrderWindow}))
  }

  ghost predicate OrdersSafe(s: State) {
    forall o | 0 <= o < |s.orders| :: OrderSafe(s.orders[o], LockPosted(s, o))
  }

  predicate CallOn(s: State, c: nat) {
    c in s.calls && s.calls[c].order < |s.orders|
  }

  ghost predicate CallsSafe(s: State) {
    forall c | c in s.calls :: CallOn(s, c) && CallSafe(s.calls[c], s.orders[s.calls[c].order], LockPosted(s, s.calls[c].order))
  }

  /** Every escrow key belongs to an order, a settle key to a locked one, and the rows of
      every terminal move stand in the books, exactly once. */
  ghost predicate BooksSafe(s: State) {
    && UniqueKeys(s.entries)
    && (forall o: nat :: LockPosted(s, o) ==> o < |s.orders|)
    && (forall o: nat :: SettlePosted(s, o) ==> LockPosted(s, o))
    && (forall o: nat :: o in s.moves <==> SettlePosted(s, o))
    && (forall o: nat | o in s.moves && o < |s.orders| :: LegsAt(s.entries, MoveLegs(o, s.orders[o], s.moves[o])))
    && Settled(s.entries, Account.Escrow) == HeldUpTo(s, |s.orders|)
  }

  ghost predicate MoneyInv(s: State) {
    OrdersSafe(s) && CallsSafe(s) && BooksSafe(s)
  }

  // ---------------------------------------------------------------------------
  // Sums and keys
  // ---------------------------------------------------------------------------

  /** If only order `o` changes what it keeps in escrow, the sum changes by that much. */
  lemma {:induction false} HeldChange(s: State, s': State, o: nat, n: nat)
    requires n <= |s.orders| && n <= |s'.orders|
    requires forall i | 0 <= i < n && i != o :: InEscrow(s', i) == InEscrow(s, i)
    ensures HeldUpTo(s', n) == HeldUpTo(s, n) + (if o < n then InEscrow(s', o) - InEscrow(s, o) else 0)
  {
    if n > 0 {
      HeldChange(s, s', o, n - 1);
    }
  }

  lemma {:induction false} HeldNotNegative(s: State, n: nat)
    requires n <= |s.orders|
    ensures HeldUpTo(s, n) >= 0
  {
    if n > 0 {
      HeldNotNegative(s, n - 1);
    }
  }

  lemma LegsStay(entries: seq<Entry>, more: seq<Entry>, legs: seq<Entry>)
    requires LegsAt(entries, legs)
    ensures LegsAt(entries + more, legs)
  {
    var p: nat :| LegsFrom(entries, legs, p);
    assert (entries + more)[p..p + |legs|] == entries[p..p + |legs|];
    assert LegsFrom(entries + more, legs, p);
  }

  /** Rows outside escrow post no escrow key. */
  lemma OtherKeys(entries: seq<Entry>, legs: seq<Entry>, k: Key)
    requires OutsideEscrow(legs) && (k.EscrowLockKey? || k.EscrowSettleKey?)
    ensures KeyPosted(entries + legs, k) <==> KeyPosted(entries, k)
  {
    var after := entries + legs;
    if KeyPosted(entries, k) {
      var i :| 0 <= i < |entries| && entries[i].key == Some(k);
      assert after[i].key == Some(k);
    }
    if KeyPosted(after, k) {
      var i :| 0 <= i < |after| && after[i].key == Some(k);
      assert i < |entries| || after[i] == legs[i - |entries|];
    }
  }

  /** Steps that leave the ledger alone, and every order's amount and parties with it. */
  lemma SameBooks(s: State, s': State)
    requires BooksSafe(s)
    requires s'.entries == s.entries && s'.moves == s.moves
    requires |s.orders| <= |s'.orders|
    requires forall i | 0 <= i < |s.orders| ::
               s'.orders[i].amount == s.orders[i].amount && s'.orders[i].buyer == s.orders[i].buyer
                 && s'.orders[i].seller == s.orders[i].seller
    ensures BooksSafe(s')
  {
    HeldChange(s, s', |s.orders|, |s.orders|);
    forall i: nat | |s.orders| <= i
      ensures !LockPosted(s', i)
    {
      assert !LockPosted(s, i);
    }
    HeldTail(s', |s.orders|, |s'.orders|);
    forall o: nat | o in s'.moves && o < |s'.orders|
      ensures LegsAt(s'.entries, MoveLegs(o, s'.orders[o], s'.moves[o]))
    {
      assert SettlePosted(s, o) && LockPosted(s, o);
    }
    forall o: nat
      ensures LockPosted(s', o) ==> o < |s'.orders|
      ensures SettlePosted(s', o) ==> LockPosted(s', o)
      ensures o in s'.moves <==> SettlePosted(s', o)
    {
      assert LockPosted(s', o) == LockPosted(s, o);
      assert SettlePosted(s', o) == SettlePosted(s, o);
    }
  }

  lemma {:induction false} HeldTail(s: State, m: nat, n: nat)
    requires m <= n <= |s.orders|
    requires forall i: nat | m <= i < n :: !LockPosted(s, i)
    ensures HeldUpTo(s, n) == HeldUpTo(s, m)
  {
    if m < n {
      HeldTail(s, m, n - 1);
    }
  }

  // ---------------------------------------------------------------------------
  // Ledger steps
  // ---------------------------------------------------------------------------

  lemma OtherKeepsBooks(s: State, legs: seq<Entry>)
    requires BooksSafe(s) && OutsideEscrow(legs) && UniqueKeys(s.entries + legs)
    ensures var s' := s.(entries := s.entries + legs);
            && BooksSafe(s')
            && (forall o: nat :: LockPosted(s', o) == LockPosted(s, o) && SettlePosted(s', o) == SettlePosted(s, o))
  {
    var s' := s.(entries := s.entries + legs);
    forall o: nat
      ensures LockPosted(s', o) == LockPosted(s, o) && SettlePosted(s', o) == SettlePosted(s, o)
    {
      OtherKeys(s.entries, legs, EscrowLockKey(o));
      OtherKeys(s.entries, legs, EscrowSettleKey(o));
    }
    SettledConcat(s.entries, legs, Account.Escrow);
    HeldChange(s, s', |s.orders|, |s.orders|);
    forall o: nat | o in s'.moves && o < |s'.orders|
      ensures LegsAt(s'.entries, MoveLegs(o, s'.orders[o], s'.moves[o]))
    {
      LegsStay(s.entries, legs, MoveLegs(o, s.orders[o], s.moves[o]));
    }
  }

  lemma LockKeepsBooks(s: State, o: nat)
    requires BooksSafe(s) && o < |s.orders| && s.orders[o].amount > 0 && !LockPosted(s, o)
    ensures var s' := s.(entries := s.entries + EscrowLockLegs(o, s.orders[o].buyer, s.orders[o].amount));
            && BooksSafe(s')
            && (forall i: nat :: LockPosted(s', i) <==> LockPosted(s, i) || i == o)
            && (forall i: nat :: SettlePosted(s', i) <==> SettlePosted(s, i))
  {
    var legs := EscrowLockLegs(o, s.orders[o].buyer, s.orders[o].amount);
    var s' := s.(entries := s.entries + legs);
    AppendPosts(s.entries, legs, 0, EscrowLockKey(o));
    assert forall i: nat :: LockPosted(s', i) <==> LockPosted(s, i) || i == o;
    assert forall i: nat :: SettlePosted(s', i) <==> SettlePosted(s, i);
    NewKeyUnique(s.entries, legs, 0, EscrowLockKey(o));
    SettledConcat(s.entries, legs, Account.Escrow);
    TwoLegs(legs, Account.Escrow);
    HeldChange(s, s', o, |s.orders|);
    forall i: nat | i in s'.moves && i < |s'.orders|
      ensures LegsAt(s'.entries, MoveLegs(i, s'.orders[i], s'.moves[i]))
    {
      LegsStay(s.entries, legs, MoveLegs(i, s.orders[i], s.moves[i]));
    }
  }

  lemma NewKeyUnique(entries: seq<Entry>, legs: seq<Entry>, i: nat, k: Key)
    requires UniqueKeys(entries) && !KeyPosted(entries, k) && KeyedAt(legs, i, k)
    ensures UniqueKeys(entries + legs)
  {
  }

  /** What a terminal move writes: the one settle key, and exactly the order's amount out of
      escrow. */
  lemma MoveLegsShape(o: nat, row: Order, move: Move) returns (i: nat)
    requires row.amount > 0
    ensures var legs := MoveLegs(o, row, move);
            && KeyedAt(legs, i, EscrowSettleKey(o))
            && Settled(legs, Account.Escrow) == 0 - row.amount
            && Total(legs) == 0
  {
    if move == PaidOut {
      var legs := EscrowReleaseLegs(o, row.seller, row.amount);
      ReleaseMovesTheAmount(o, row.seller, row.amount, Fee);
      i := KeyedLegIsWritten(legs, 0, EscrowSettleKey(o));
      NonZeroKeepsBalances(legs, Account.Escrow);
    } else {
      i := 0;
      TwoLegs(EscrowRefundLegs(o, row.buyer, row.amount), Account.Escrow);
    }
  }

  lemma MovePostsKey(s: State, o: nat, move: Move)
    requires UniqueKeys(s.entries) && o < |s.orders| && s.orders[o].amount > 0 && !SettlePosted(s, o)
    ensures var s' := Moved(s, o, move);
            && UniqueKeys(s'.entries)
            && Settled(s'.entries, Account.Escrow) == Settled(s.entries, Account.Escrow) - s.orders[o].amount
            && (forall i: nat :: LockPosted(s', i) <==> LockPosted(s, i))
            && (forall i: nat :: SettlePosted(s', i) <==> SettlePosted(s, i) || i == o)
  {
    var s' := Moved(s, o, move);
    var legs := MoveLegs(o, s.orders[o], move);
    var k := MoveLegsShape(o, s.orders[o], move);
    AppendPosts(s.entries, legs, k, EscrowSettleKey(o));
    NewKeyUnique(s.entries, legs, k, EscrowSettleKey(o));
    SettledConcat(s.entries, legs, Account.Escrow);
    assert forall i: nat :: LockPosted(s', i) <==> LockPosted(s, i);
    assert forall i: nat :: SettlePosted(s', i) <==> SettlePosted(s, i) || i == o;
  }

  lemma MoveKeepsLegs(s: State, o: nat, move: Move)
    requires BooksSafe(s) && o < |s.orders| && !SettlePosted(s, o)
    ensures var s' := Moved(s, o, move);
            forall i: nat | i in s'.moves && i < |s'.orders| ::
              LegsAt(s'.entries, MoveLegs(i, s'.orders[i], s'.moves[i]))
  {
    var s' := Moved(s, o, move);
    var legs := MoveLegs(o, s.orders[o], move);
    forall i: nat | i in s'.moves && i < |s'.orders|
      ensures LegsAt(s'.entries, MoveLegs(i, s'.orders[i], s'.moves[i]))
    {
      if i == o {
        assert LegsFrom(s'.entries, legs, |s.entries|);
      } else {
        LegsStay(s.entries, legs, MoveLegs(i, s.orders[i], s.moves[i]));
      }
    }
  }

  lemma MoveKeepsBooks(s: State, o: nat, move: Move)
    requires BooksSafe(s) && o < |s.orders| && s.orders[o].amount > 0 && LockPosted(s, o)
    ensures var s' := Moved(s, o, move);
            && BooksSafe(s')
            && (forall i: nat :: LockPosted(s', i) <==> LockPosted(s, i))
            && (forall i: nat :: SettlePosted(s', i) <==> SettlePosted(s, i) || i == o)
  {
    if !SettlePosted(s, o) {
      var s' := Moved(s, o, move);
      MovePostsKey(s, o, move);
      HeldChange(s, s', o, |s.orders|);
      MoveKeepsLegs(s, o, move);
    }
  }

  // ---------------------------------------------------------------------------
  // Every step, every run
  // ---------------------------------------------------------------------------

  predicate TouchesBooks(step: Step) {
    step.Other? || step.PostLock? || step.MoveMoney? || step.ChargeShipping?
  }

  function Caller(step: Step): Option<nat> {
    match step
    case NewEscrowOrder(c, _) => Some(c)
    case PostLock(c) => Some(c)
    case RemoveUnlocked(c) => Some(c)
    case MarkLocked(c) => Some(c)
    case ReadTransition(c, _, _) => Some(c)
    case WriteTransition(c) => Some(c)
    case Resolve(c, _, _) => Some(c)
    case ReleaseWindow(c, _) => Some(c)
    case ReleaseDigital(c, _) => Some(c)
    case BeginDiscard(c, _) => Some(c)
    case FindAbandoned(c, _) => Some(c)
    case ReadOrder(c) => Some(c)
    case ClaimForfeit(c) => Some(c)
    case RetireItem(c) => Some(c)
    case RefundUnshipped(c, _) => Some(c)
    case Recover(c, _) => Some(c)
    case MoveMoney(c) => Some(c)
    case MarkRefunded(c) => Some(c)
    case Crash(c) => Some(c)
    case _ => None
  }

  /** A step that only writes order rows keeps the books, and who owes whom how much. */
  lemma RowStepShape(s: State, step: Step, s': State)
    requires Next(s, step, s') && !TouchesBooks(step)
    ensures s'.entries == s.entries && s'.moves == s.moves && |s.orders| <= |s'.orders| <= |s.orders| + 1
  {
  }

  lemma RowStepPartiesAfterInstant(s: State, step: Step, s': State, i: nat)
    requires Instantly(s, step, s') && !TouchesBooks(step) && i < |s.orders| <= |s'.orders|
    ensures s'.orders[i].amount == s.orders[i].amount && s'.orders[i].buyer == s.orders[i].buyer
    ensures s'.orders[i].seller == s.orders[i].seller && s'.orders[i].direct == s.orders[i].direct
  {
  }

  lemma RowStepPartiesAfterShipping(s: State, step: Step, s': State, i: nat)
    requires Ships(s, step, s') && !TouchesBooks(step) && i < |s.orders| <= |s'.orders|
    ensures s'.orders[i].amount == s.orders[i].amount && s'.orders[i].buyer == s.orders[i].buyer
    ensures s'.orders[i].seller == s.orders[i].seller && s'.orders[i].direct == s.orders[i].direct
  {
  }

  lemma RowStepPartiesAfterDecision(s: State, step: Step, s': State, i: nat)
    requires Decides(s, step, s') && !TouchesBooks(step) && i < |s.orders| <= |s'.orders|
    ensures s'.orders[i].amount == s.orders[i].amount && s'.orders[i].buyer == s.orders[i].buyer
    ensures s'.orders[i].seller == s.orders[i].seller && s'.orders[i].direct == s.orders[i].direct
  {
  }

  lemma RowStepPartiesAfterCall(s: State, step: Step, s': State, i: nat)
    requires Follows(s, step, s') && !TouchesBooks(step) && i < |s.orders| <= |s'.orders|
    ensures s'.orders[i].amount == s.orders[i].amount && s'.orders[i].buyer == s.orders[i].buyer
    ensures s'.orders[i].seller == s.orders[i].seller && s'.orders[i].direct == s.orders[i].direct
  {
  }

  lemma RowStepParties(s: State, step: Step, s': State, i: nat)
    requires Next(s, step, s') && !TouchesBooks(step) && i < |s.orders| <= |s'.orders|
    ensures s'.orders[i].amount == s.orders[i].amount && s'.orders[i].buyer == s.orders[i].buyer
    ensures s'.orders[i].seller == s.orders[i].seller && s'.orders[i].direct == s.orders[i].direct
  {
    if Instant(step) {
      RowStepPartiesAfterInstant(s, step, s', i);
    } else if OfShipment(step) {
      RowStepPartiesAfterShipping(s, step, s', i);
    } else if Decision(step) {
      RowStepPartiesAfterDecision(s, step, s', i);
    } else {
      RowStepPartiesAfterCall(s, step, s', i);
    }
  }

  lemma OrderStaysSafeAfterInstant(s: State, step: Step, s': State, o: nat)
    requires Instantly(s, step, s') && !TouchesBooks(step) && o < |s'.orders|
    requires if o < |s.orders| then OrderSafe(s.orders[o], LockPosted(s, o)) else !LockPosted(s, o)
    ensures OrderSafe(s'.orders[o], LockPosted(s', o))
  {
  }

  lemma OrderStaysSafeAfterShipping(s: State, step: Step, s': State, o: nat)
    requires Ships(s, step, s') && !TouchesBooks(step) && o < |s'.orders|
    requires if o < |s.orders| then OrderSafe(s.orders[o], LockPosted(s, o)) else !LockPosted(s, o)
    ensures OrderSafe(s'.orders[o], LockPosted(s', o))
  {
  }

  lemma OrderStaysSafeAfterDecision(s: State, step: Step, s': State, o: nat)
    requires Decides(s, step, s') && !TouchesBooks(step) && o < |s'.orders|
    requires if o < |s.orders| then OrderSafe(s.orders[o], LockPosted(s, o)) else !LockPosted(s, o)
    ensures OrderSafe(s'.orders[o], LockPosted(s', o))
  {
  }

  lemma OrderStaysSafeAfterCall(s: State, step: Step, s': State, o: nat)
    requires Follows(s, step, s') && !TouchesBooks(step) && o < |s'.orders|
    requires if o < |s.orders| then OrderSafe(s.orders[o], LockPosted(s, o)) else !LockPosted(s, o)
    requires Caller(step).Some? && CallOn(s, Caller(step).value) ==>
               var call := s.calls[Caller(step).value];
               CallSafe(call, s.orders[call.order], LockPosted(s, call.order))
    ensures OrderSafe(s'.orders[o], LockPosted(s', o))
  {
  }

  lemma OrderStaysSafe(s: State, step: Step, s': State, o: nat)
    requires Next(s, step, s') && !TouchesBooks(step) && o < |s'.orders|
    requires if o < |s.orders| then OrderSafe(s.orders[o], LockPosted(s, o)) else !LockPosted(s, o)
    requires Caller(step).Some? && CallOn(s, Caller(step).value) ==>
               var call := s.calls[Caller(step).value];
               CallSafe(call, s.orders[call.order], LockPosted(s, call.order))
    ensures OrderSafe(s'.orders[o], LockPosted(s', o))
  {
    if Instant(step) {
      OrderStaysSafeAfterInstant(s, step, s', o);
    } else if OfShipment(step) {
      OrderStaysSafeAfterShipping(s, step, s', o);
    } else if Decision(step) {
      OrderStaysSafeAfterDecision(s, step, s', o);
    } else {
      OrderStaysSafeAfterCall(s, step, s', o);
    }
  }

  lemma OtherCallsAfterInstant(s: State, step: Step, s': State, d: nat)
    requires Instantly(s, step, s') && Caller(step) != Some(d)
    ensures d in s'.calls <==> d in s.calls
    ensures d in s.calls ==> s'.calls[d] == s.calls[d]
  {
  }

  lemma OtherCallsAfterShipping(s: State, step: Step, s': State, d: nat)
    requires Ships(s, step, s') && Caller(step) != Some(d)
    ensures d in s'.calls <==> d in s.calls
    ensures d in s.calls ==> s'.calls[d] == s.calls[d]
  {
  }

  lemma OtherCallsAfterDecision(s: State, step: Step, s': State, d: nat)
    requires Decides(s, step, s') && Caller(step) != Some(d)
    ensures d in s'.calls <==> d in s.calls
    ensures d in s.calls ==> s'.calls[d] == s.calls[d]
  {
  }

  lemma OtherCallsAfterCall(s: State, step: Step, s': State, d: nat)
    requires Follows(s, step, s') && Caller(step) != Some(d)
    ensures d in s'.calls <==> d in s.calls
    ensures d in s.calls ==> s'.calls[d] == s.calls[d]
  {
  }

  /** Other calls go on as they were. */
  lemma OtherCalls(s: State, step: Step, s': State, d: nat)
    requires Next(s, step, s') && Caller(step) != Some(d)
    ensures d in s'.calls <==> d in s.calls
    ensures d in s.calls ==> s'.calls[d] == s.calls[d]
  {
    if Instant(step) {
      OtherCallsAfterInstant(s, step, s', d);
    } else if OfShipment(step) {
      OtherCallsAfterShipping(s, step, s', d);
    } else if Decision(step) {
      OtherCallsAfterDecision(s, step, s', d);
    } else {
      OtherCallsAfterCall(s, step, s', d);
    }
  }

  /** The call that takes the step is safe after it. */
  lemma OwnCallStaysSafe(s: State, step: Step, s': State, c: nat)
    requires Next(s, step, s') && !TouchesBooks(step) && Caller(step) == Some(c) && c in s'.calls
    requires CallOn(s, c) ==> CallSafe(s.calls[c], s.orders[s.calls[c].order], LockPosted(s, s.calls[c].order))
    requires OrdersSafe(s)
    ensures CallOn(s', c) && CallSafe(s'.calls[c], s'.orders[s'.calls[c].order], LockPosted(s', s'.calls[c].order))
  {
  }

  lemma RowStepKeepsCalls(s: State, step: Step, s': State)
    requires OrdersSafe(s) && CallsSafe(s) && Next(s, step, s') && !TouchesBooks(step)
    ensures CallsSafe(s')
  {
    RowStepShape(s, step, s');
    forall d | d in s'.calls
      ensures CallOn(s', d) && CallSafe(s'.calls[d], s'.orders[s'.calls[d].order], LockPosted(s', s'.calls[d].order))
    {
      if Caller(step) == Some(d) {
        assert d in s.calls ==> CallOn(s, d);
        OwnCallStaysSafe(s, step, s', d);
      } else {
        OtherCalls(s, step, s', d);
        assert CallOn(s, d);
        RowStepParties(s, step, s', s.calls[d].order);
      }
    }
  }

  lemma RowStepKeepsMoney(s: State, step: Step, s': State)
    requires MoneyInv(s) && Next(s, step, s') && !TouchesBooks(step)
    ensures MoneyInv(s')
  {
    RowStepShape(s, step, s');
    forall i: nat | i < |s.orders| { RowStepParties(s, step, s', i); }
    SameBooks(s, s');
    RowStepKeepsCalls(s, step, s');
    forall o | 0 <= o < |s'.orders|
      ensures OrderSafe(s'.orders[o], LockPosted(s', o))
    {
      assert o >= |s.orders| ==> !LockPosted(s, o);
      assert Caller(step).Some? && Caller(step).value in s.calls ==> CallOn(s, Caller(step).value);
      OrderStaysSafe(s, step, s', o);
    }
  }

  lemma OtherKeepsMoney(s: State, legs: seq<Entry>, s': State)
    requires MoneyInv(s) && Next(s, Other(legs), s')
    ensures MoneyInv(s')
  {
    OtherKeepsBooks(s, legs);
    assert forall o: nat :: LockPosted(s', o) == LockPosted(s, o);
  }

  /** The charge of a shipment is outside escrow. */
  lemma ChargeIsOutside(entries: seq<Entry>, sh: nat, x: Shipment)
    requires UniqueKeys(entries) && x.fee > 0 && !KeyPosted(entries, ShippingKey(sh))
    ensures OutsideEscrow(ShippingLegs(sh, x.buyer, x.fee)) && UniqueKeys(entries + ShippingLegs(sh, x.buyer, x.fee))
  {
    TwoLegs(ShippingLegs(sh, x.buyer, x.fee), Account.Escrow);
  }

  lemma ChargeKeepsMoney(s: State, sh: nat, s': State)
    requires MoneyInv(s) && Next(s, ChargeShipping(sh), s')
    ensures MoneyInv(s')
  {
    var x := s.shipments[sh];
    var mid := s.(entries := s'.entries);
    if s'.entries != s.entries {
      ChargeIsOutside(s.entries, sh, x);
      OtherKeepsBooks(s, ShippingLegs(sh, x.buyer, x.fee));
    }
    SameBooks(mid, s');
    forall o: nat
      ensures LockPosted(s', o) == LockPosted(s, o)
    {
      assert LockPosted(s', o) == LockPosted(mid, o);
    }
  }

  lemma PostLockKeepsBooks(s: State, c: nat, s': State)
    requires MoneyInv(s) && Next(s, PostLock(c), s')
    ensures c in s.calls && BooksSafe(s')
    ensures forall i: nat :: LockPosted(s', i) <==> LockPosted(s, i) || i == s.calls[c].order
  {
    var o := s.calls[c].order;
    var mid := s.(entries := s'.entries);
    LockKeepsBooks(s, o);
    SameBooks(mid, s');
    forall i: nat
      ensures LockPosted(s', i) <==> LockPosted(s, i) || i == o
    {
      assert LockPosted(s', i) == LockPosted(mid, i);
    }
  }

  lemma PostLockKeepsMoney(s: State, c: nat, s': State)
    requires MoneyInv(s) && Next(s, PostLock(c), s')
    ensures MoneyInv(s')
  {
    PostLockKeepsBooks(s, c, s');
  }

  function MoveOf(call: Call): Move {
    if call.WillRelease? then PaidOut else PaidBack
  }

  lemma MoveMoneyEffect(s: State, c: nat, s': State)
    requires Next(s, MoveMoney(c), s')
    ensures CallOn(s, c) && (s.calls[c].WillRelease? || s.calls[c].WillRefund?)
    ensures s' == Moved(s, s.calls[c].order, MoveOf(s.calls[c])).(calls := s'.calls)
  {
  }

  lemma MoveMoneyKeepsBooks(s: State, c: nat, s': State)
    requires BooksSafe(s) && OrdersSafe(s) && CallsSafe(s) && Next(s, MoveMoney(c), s')
    ensures BooksSafe(s')
    ensures forall i: nat :: LockPosted(s', i) <==> LockPosted(s, i)
    ensures forall i: nat :: SettlePosted(s', i) <==> SettlePosted(s, i) || i == s.calls[c].order
  {
    MoveMoneyEffect(s, c, s');
    var o := s.calls[c].order;
    assert OrderSafe(s.orders[o], LockPosted(s, o));
    MoveKeepsBooks(s, o, MoveOf(s.calls[c]));
    OnlyCallsDiffer(Moved(s, o, MoveOf(s.calls[c])), s');
  }

  lemma OnlyCallsDiffer(s: State, s': State)
    requires BooksSafe(s) && s' == s.(calls := s'.calls)
    ensures BooksSafe(s')
    ensures forall i: nat :: LockPosted(s', i) <==> LockPosted(s, i)
    ensures forall i: nat :: SettlePosted(s', i) <==> SettlePosted(s, i)
  {
    SameBooks(s, s');
  }

  /** The order rows are untouched, and no call but this one. */
  lemma MoveMoneyShape(s: State, c: nat, s': State)
    requires Next(s, MoveMoney(c), s')
    ensures c in s.calls && s'.orders == s.orders && s'.calls - {c} == s.calls - {c}
    ensures c in s'.calls ==> s'.calls[c].order == s.calls[c].order && (s'.calls[c].WillMarkRefunded? || s'.calls[c].WillRetire?)
  {
  }

  lemma CallsElsewhere(s: State, c: nat, s': State)
    requires CallsSafe(s) && c in s.calls && (s.calls[c].WillRelease? || s.calls[c].WillRefund?)
    requires s'.calls - {c} == s.calls - {c} && s'.orders == s.orders
    requires c in s'.calls ==> s'.calls[c].order == s.calls[c].order && (s'.calls[c].WillMarkRefunded? || s'.calls[c].WillRetire?)
    requires forall i: nat :: LockPosted(s', i) <==> LockPosted(s, i)
    ensures CallsSafe(s')
  {
    forall d | d in s'.calls && d != c
      ensures d in s.calls && s'.calls[d] == s.calls[d]
    {
      assert d in s'.calls - {c};
      assert (s'.calls - {c})[d] == (s.calls - {c})[d];
    }
  }

  lemma MoveMoneyKeepsMoney(s: State, c: nat, s': State)
    requires MoneyInv(s) && Next(s, MoveMoney(c), s')
    ensures MoneyInv(s')
  {
    MoveMoneyKeepsBooks(s, c, s');
    MoveMoneyShape(s, c, s');
    CallsElsewhere(s, c, s');
  }

  lemma StepKeepsMoney(s: State, step: Step, s': State)
    requires MoneyInv(s) && Next(s, step, s')
    ensures MoneyInv(s')
  {
    if step.Other? {
      OtherKeepsMoney(s, step.legs, s');
    } else if step.ChargeShipping? {
      ChargeKeepsMoney(s, step.shipment, s');
    } else if step.PostLock? {
      PostLockKeepsMoney(s, step.call, s');
    } else if step.MoveMoney? {
      MoveMoneyKeepsMoney(s, step.call, s');
    } else {
      RowStepKeepsMoney(s, step, s');
    }
  }

  lemma RunKeepsMoney(states: seq<State>, i: nat)
    requires IsRun(states) && i < |states|
    ensures MoneyInv(states[i])
  {
    if i > 0 {
      RunKeepsMoney(states, i - 1);
      assert CanStep(states[i - 1], states[i - 1 + 1]);
      var step :| Next(states[i - 1], step, states[i]);
      StepKeepsMoney(states[i - 1], step, states[i]);
    }
  }
}
