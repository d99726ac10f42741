/** The class that drives escrow orders (packages/backend/src/orders.ts): disputes, admin
    decisions, discards and the timer pass, and the on-chain escrow provider they call
    (packages/backend/src/escrow.ts). Other calls may be suspended in the middle of their
    own work; what they still owe is the ghost map `calls`. */
module OrderDesk {
  import opened Schema
  import opened Books
  import opened BusinessDays
  import opened Escrow
  import opened Payouts
  import T = EscrowTheorems
  import S = ShippingTheorems
  import O = Outbox
  import L = Ledger

  // ---------------------------------------------------------------------------
  // Reachable states
  // ---------------------------------------------------------------------------

  ghost predicate RunTo(states: seq<State>, s: State) {
    T.IsCarefulRun(states) && states[|states| - 1] == s
  }

  /** Some run of the escrow machine without a harmful stale transition ends here. */
  ghost predicate Reached(s: State) {
    exists states :: RunTo(states, s)
  }

  lemma EmptyIsReached()
    ensures Reached(Empty)
  {
    assert RunTo([Empty], Empty);
  }

  lemma Goes(s: State, step: Step, s': State)
    requires Reached(s) && Next(s, step, s') && !step.WriteTransition?
    ensures Reached(s')
  {
    var states :| RunTo(states, s);
    T.CarefulRunGrows(states, step, s');
    assert RunTo(states + [s'], s');
  }

  /** An order a call is about to move money for is locked, of a positive amount, and its
      status already says which way. */
  lemma OwedCall(s: State, c: nat)
    requires Reached(s) && c in s.calls && (s.calls[c].WillRelease? || s.calls[c].WillRefund?)
    ensures var o := s.calls[c].order;
            && o < |s.orders| && s.orders[o].amount > 0 && LockPosted(s, o)
            && (o in s.moves <==> SettlePosted(s, o))
  {
    var states :| RunTo(states, s);
    T.CarefulRunAgrees(states, |states| - 1);
    assert CallOn(s, c);
  }

  /** An order that is being set up is pending, with no clock. */
  lemma SettingUpIsPending(s: State, c: nat)
    requires Reached(s) && c in s.calls && T.SettingUp(s.calls[c])
    ensures var o := s.calls[c].order; o < |s.orders| && s.orders[o].status == OrderPending && s.orders[o].noShipDeadline == None
  {
    var states :| RunTo(states, s);
    S.RunKeepsShipping(states, |states| - 1);
    S.PendingHasNoClock(s, c);
  }

  /** And its lock is not posted before its call posts it. */
  lemma AboutToLock(s: State, c: nat)
    requires Reached(s) && c in s.calls && s.calls[c].WillLock?
    ensures var o := s.calls[c].order;
            && o < |s.orders| && s.orders[o].status == OrderPending && s.orders[o].noShipDeadline == None
            && !LockPosted(s, o)
  {
    SettingUpIsPending(s, c);
    var states :| RunTo(states, s);
    T.CarefulRunLocksOnce(states, |states| - 1, c);
  }

  /** A shipment that does not exist yet has not been charged. */
  lemma NextShipmentIsFree(s: State)
    requires Reached(s)
    ensures !KeyPosted(s.entries, ShippingKey(|s.shipments|))
  {
    var states :| RunTo(states, s);
    S.RunKeepsShipping(states, |states| - 1);
    assert S.KeyOk(s, |s.shipments|);
  }

  /** What a reached state says about one order. */
  lemma OrderFacts(s: State, o: nat)
    requires Reached(s) && o < |s.orders|
    ensures o in s.moves <==> SettlePosted(s, o)
    ensures o in s.moves ==>
              && LockPosted(s, o)
              && (s.orders[o].status == OrderReleased ==> s.moves[o] == PaidOut)
              && (s.orders[o].status in {OrderCanceled, OrderRefunded} ==> s.moves[o] == PaidBack)
              && s.orders[o].status in {OrderReleased, OrderCanceled, OrderRefunded}
    ensures s.orders[o].direct ==> !LockPosted(s, o) && s.orders[o].status in {OrderPending, OrderReleased}
    ensures NeedsLock(s.orders[o]) ==> LockPosted(s, o)
  {
    var states :| RunTo(states, s);
    T.CarefulRunAgrees(states, |states| - 1);
    assert T.MoveOk(s, o);
  }

  // ---------------------------------------------------------------------------
  // What each part of the timer pass makes of an order
  // ---------------------------------------------------------------------------

  predicate WindowOver(row: Order, now: int) {
    row.status == OrderWindow && row.windowEndsAt.Some? && row.windowEndsAt.value <= now
  }

  /** The order recovery looks at: terminal within the last day. */
  predicate RecentlyDecided(row: Order, now: int) {
    || (row.status == OrderReleased && row.releasedAt.Some? && row.releasedAt.value >= now - DAY_MS)
    || (row.status == OrderRefunded && row.refundedAt.Some? && row.refundedAt.value >= now - DAY_MS)
  }

  function AsReleased(row: Order, now: int): Order {
    row.(status := OrderReleased, releasedAt := Some(now))
  }

  function AsForfeited(row: Order, now: int): Order {
    AsReleased(row, now).(item := Discarded)
  }

  /** Refunded for not being shipped; an item still waiting goes with it. */
  function AsRefunded(row: Order, now: int): Order {
    row.(status := OrderRefunded, refundedAt := Some(now), item := if row.item == ReadyToShip then Discarded else row.item)
  }

  /** What a move of its package makes of an order. */
  function PackageMoved(row: Order, to: OrderStatus, now: int): Order {
    if MayAdvance(row.status, to) then Advanced(row, to, now) else row
  }

  // The three timers of a pass.

  datatype Timer = WindowTimer | ShipTimer | HoldTimer

  predicate Fires(t: Timer, row: Order, now: int) {
    match t
    case WindowTimer => WindowOver(row, now)
    case ShipTimer => Unshipped(row, now)
    case HoldTimer => Abandoned(row, now)
  }

  function Fired(t: Timer, row: Order, now: int): Order {
    match t
    case WindowTimer => AsReleased(row, now)
    case ShipTimer => AsRefunded(row, now)
    case HoldTimer => AsForfeited(row, now)
  }

  /** The orders once a timer has looked at the first `n`. */
  function RowsAfter(t: Timer, rows: seq<Order>, n: nat, now: int): (r: seq<Order>)
    requires n <= |rows|
    ensures |r| == |rows|
  {
    if n == 0 then rows
    else
      var r := RowsAfter(t, rows, n - 1, now);
      if Fires(t, rows[n - 1], now) then r[n - 1 := Fired(t, rows[n - 1], now)] else r
  }

  /** The orders among the first `n` that a timer hits, in turn. */
  function Hits(t: Timer, rows: seq<Order>, n: nat, now: int): seq<nat>
    requires n <= |rows|
  {
    if n == 0 then []
    else if Fires(t, rows[n - 1], now) then Hits(t, rows, n - 1, now) + [n - 1]
    else Hits(t, rows, n - 1, now)
  }

  lemma {:induction false} RowsAfterAt(t: Timer, rows: seq<Order>, n: nat, now: int, p: nat)
    requires n <= |rows|
    ensures p < |rows| ==> RowsAfter(t, rows, n, now)[p] == if p < n && Fires(t, rows[p], now) then Fired(t, rows[p], now) else rows[p]
    ensures p in Hits(t, rows, n, now) <==> p < n && Fires(t, rows[p], now)
  {
    if n > 0 {
      RowsAfterAt(t, rows, n - 1, now, p);
    }
  }

  /** What one complete timer pass makes of an order. */
  function AfterTimers(row: Order, now: int): Order {
    if row.status == OrderWindow && row.windowEndsAt.Some? && row.windowEndsAt.value <= now
    then row.(status := OrderReleased, releasedAt := Some(now))
    else if row.status == OrderLocked && row.noShipDeadline.Some? && row.noShipDeadline.value <= now
    then row.(status := OrderRefunded, refundedAt := Some(now), item := if row.item == ReadyToShip then Discarded else row.item)
    else if row.status == OrderLocked && row.noShipDeadline == None && row.item == ReadyToShip
      && row.heldUntil.Some? && row.heldUntil.value <= now
    then row.(status := OrderReleased, releasedAt := Some(now), item := Discarded)
    else row
  }

  /** A decision of the last day has its money move in the books. */
  predicate MoveStands(row: Order, moves: map<nat, Move>, o: nat, now: int) {
    !row.direct && RecentlyDecided(row, now) ==> o in moves && moves[o] == if row.status == OrderReleased then PaidOut else PaidBack
  }

  /** The moves of a whole pass: the old ones stand; who was paid out or back got exactly that;
      any other new one belongs to a decision of the last day. */
  ghost predicate PassMoved(orders: seq<Order>, moves: map<nat, Move>, moves': map<nat, Move>, paid: seq<nat>, refunded: seq<nat>,
                            now: int) {
    && (forall o | o in moves :: o in moves' && moves'[o] == moves[o])
    && (forall o | o in paid :: o !in moves && o in moves' && moves'[o] == PaidOut)
    && (forall o | o in refunded :: o !in moves && o in moves' && moves'[o] == PaidBack)
    && (forall o | o in moves' && o !in moves && o !in paid && o !in refunded ::
          && o < |orders|
          && match moves'[o]
             case PaidOut =>
               orders[o].status == OrderReleased && orders[o].releasedAt.Some? && orders[o].releasedAt.value >= now - 86_400_000
             case PaidBack =>
               orders[o].status == OrderRefunded && orders[o].refundedAt.Some? && orders[o].refundedAt.value >= now - 86_400_000)
  }

  ghost predicate AddedInTurn(m: map<nat, Move>, m': map<nat, Move>, released: seq<nat>, refunded: seq<nat>, gone: seq<nat>) {
    exists m1, m2 :: Added(m, m1, released, PaidOut) && Added(m1, m2, refunded, PaidBack) && Added(m2, m', gone, PaidOut)
  }

  lemma PassMoves(orders: seq<Order>, m0: map<nat, Move>, m1: map<nat, Move>, m2: map<nat, Move>,
                  released: seq<nat>, refunded: seq<nat>, gone: seq<nat>, now: int)
    requires RecoveredOnly(m0, m1, orders, now) && AddedInTurn(m1, m2, released, refunded, gone)
    ensures PassMoved(orders, m0, m2, released + gone, refunded, now)
  {
  }

  /** The three timers look at different orders, so one after the other they do what the
      table says. */
  lemma TimersCompose(o0: seq<Order>, now: int)
    ensures var o1 := RowsAfter(WindowTimer, o0, |o0|, now);
            var o2 := RowsAfter(ShipTimer, o1, |o1|, now);
            var o3 := RowsAfter(HoldTimer, o2, |o2|, now);
            && (forall p | 0 <= p < |o0| :: o3[p] == AfterTimers(o0[p], now))
            && (forall p: nat :: p in Hits(WindowTimer, o0, |o0|, now) <==> p < |o0| && WindowOver(o0[p], now))
            && (forall p: nat :: p in Hits(ShipTimer, o1, |o1|, now) <==> p < |o0| && Unshipped(o0[p], now))
            && (forall p: nat :: p in Hits(HoldTimer, o2, |o2|, now) <==> p < |o0| && Abandoned(o0[p], now))
  {
    var o1 := RowsAfter(WindowTimer, o0, |o0|, now);
    var o2 := RowsAfter(ShipTimer, o1, |o1|, now);
    forall p: nat { RowsAfterAt(WindowTimer, o0, |o0|, now, p); }
    forall p: nat { RowsAfterAt(ShipTimer, o1, |o1|, now, p); }
    forall p: nat { RowsAfterAt(HoldTimer, o2, |o2|, now, p); }
  }

  /** Only decisions of the last day have got moves they lacked. */
  predicate RecoveredOnly(moves: map<nat, Move>, moves': map<nat, Move>, orders: seq<Order>, now: int) {
    && (forall o | o in moves :: o in moves' && moves'[o] == moves[o])
    && (forall o | o in moves' && o !in moves ::
          o < |orders| && RecentlyDecided(orders[o], now) && moves'[o] == if orders[o].status == OrderReleased then PaidOut else PaidBack)
  }

  class OrderDesk {
    const ledger: L.Ledger
    var now: int
    var orders: seq<Order>
    var shipments: seq<Shipment>
    ghost var calls: map<nat, Call>
    ghost var moves: map<nat, Move>
    ghost var forfeited: set<nat>
    ghost var autoRefunded: set<nat>

    constructor (ledger: L.Ledger)
      requires ledger.Valid() && ledger.entries == []
      ensures this.ledger == ledger && orders == [] && shipments == [] && now == 0 && calls == map[] && Valid()
    {
      this.ledger := ledger;
      now, orders, shipments, calls, moves, forfeited, autoRefunded := 0, [], [], map[], map[], {}, {};
      new;
      EmptyIsReached();
    }

    ghost function View(): State
      reads this, ledger
    {
      State(now, ledger.entries, orders, calls, moves, shipments, forfeited, autoRefunded)
    }

    ghost predicate Valid()
      reads this, ledger
    {
      ledger.Valid() && Reached(View())
    }

    /** Time passes. */
    method Elapse(ms: nat)
      requires Valid()
      modifies this`now
      ensures Valid() && now == old(now) + ms
    {
      ghost var s := View();
      now := now + ms;
      Goes(s, Pass(ms), View());
    }

    // -------------------------------------------------------------------------
    // The escrow provider
    // -------------------------------------------------------------------------

    /** Pay the seller: ledger rows and wallet legs of the same split, once per order. */
    method Release(o: nat, ghost c: nat, ghost thenRetire: Option<bool>)
      requires Valid() && c in calls && calls[c] == WillRelease(o, thenRetire)
      modifies this`calls, this`moves, ledger`entries, ledger`transfers
      ensures Valid() && calls == if thenRetire.Some? then old(calls)[c := WillRetire(o, thenRetire.value)]
              else old(calls) - {c}
      ensures o < |orders| && moves == if o in old(moves) then old(moves) else old(moves)[o := PaidOut]
      ensures Settles(old(ledger.entries), orders, old(moves), ledger.entries, orders, moves)
      ensures o in old(moves) ==> ledger.entries == old(ledger.entries) && ledger.transfers == old(ledger.transfers)
      ensures o !in old(moves) ==>
                && ledger.entries == old(ledger.entries) + NonZero(EscrowReleaseLegs(o, orders[o].seller, orders[o].amount))
                && ledger.transfers == Enqueue(old(ledger.transfers), O.ReleaseChainLegs(o, orders[o].amount))
    {
      ghost var s := View();
      OwedCall(s, c);
      var row := orders[o];
      var r := ledger.EscrowRelease(row.seller, row.amount, o, O.ReleaseChainLegs(o, row.amount));
      MovedOnce(s.entries, ledger.entries, orders, moves, o, PaidOut);
      moves := if o in moves then moves else moves[o := PaidOut];
      calls := if thenRetire.Some? then calls[c := WillRetire(o, thenRetire.value)] else calls - {c};
      Goes(s, MoveMoney(c), View());
    }

    /** Give the buyer everything back, once per order. */
    method Refund(o: nat, ghost c: nat, ghost thenMark: bool)
      requires Valid() && c in calls && calls[c] == WillRefund(o, thenMark)
      modifies this`calls, this`moves, ledger`entries, ledger`transfers
      ensures Valid() && calls == if thenMark then old(calls)[c := WillMarkRefunded(o)] else old(calls) - {c}
      ensures o < |orders| && moves == if o in old(moves) then old(moves) else old(moves)[o := PaidBack]
      ensures Settles(old(ledger.entries), orders, old(moves), ledger.entries, orders, moves)
      ensures o in old(moves) ==> ledger.entries == old(ledger.entries) && ledger.transfers == old(ledger.transfers)
      ensures o !in old(moves) ==>
                && ledger.entries == old(ledger.entries) + EscrowRefundLegs(o, orders[o].buyer, orders[o].amount)
                && ledger.transfers == Enqueue(old(ledger.transfers), O.RefundChainLegs(o, orders[o].amount))
    {
      ghost var s := View();
      OwedCall(s, c);
      var row := orders[o];
      var r := ledger.EscrowRefund(row.buyer, row.amount, o, O.RefundChainLegs(o, row.amount));
      MovedOnce(s.entries, ledger.entries, orders, moves, o, PaidBack);
      moves := if o in moves then moves else moves[o := PaidBack];
      calls := if thenMark then calls[c := WillMarkRefunded(o)] else calls - {c};
      Goes(s, MoveMoney(c), View());
    }

    /** The books after one terminal move, or after none. */
    lemma MovedOnce(before: seq<Entry>, after: seq<Entry>, orders: seq<Order>, moves: map<nat, Move>, o: nat, move: Move)
      requires o < |orders|
      requires forall a :: Settled(after, a) == Settled(before, a) + if o in moves then 0 else MoveChange(orders[o], move, a)
      ensures o !in moves ==> Settles(before, orders, moves, after, orders, moves[o := move])
      ensures o in moves && after == before ==> Settles(before, orders, moves, after, orders, moves)
    {
      if o in moves {
        NothingSettled(before, orders, orders, moves);
      } else {
        OneSettled(before, orders, moves, after, orders, o, move);
      }
    }

    /** The status an order has once its lock was tried: a failed purchase takes its order away
        again, a failed settlement leaves it pending. */
    static function AfterLock(locked: bool, auction: Option<nat>): OrderStatus {
      if locked then OrderLocked else if auction.None? then OrderRemoved else OrderPending
    }

    /** Open an escrowed order and lock its price, treasury to escrow wallet. Without the
        money nothing is posted. */
    method LockOrder(buyer: nat, seller: nat, amount: nat, auction: Option<nat>, ghost c: nat) returns (locked: bool)
      requires Valid() && c !in calls
      modifies this`orders, this`calls, ledger`entries, ledger`holds, ledger`transfers
      ensures Valid() && calls == old(calls)
      ensures locked <==> 0 < amount <= old(ledger.Spendable(buyer, auction))
      ensures orders == old(orders) + [Order(buyer, seller, amount, auction, false,
                  if locked then OrderLocked else if auction == None then OrderRemoved else OrderPending,
                  None, None, None, None, NoItem, None)]
      ensures ledger.entries == if locked then old(ledger.entries) + EscrowLockLegs(|old(orders)|, buyer, amount)
              else old(ledger.entries)
      ensures L.Handed(old(ledger.entries), ledger.entries, User(buyer), Account.Escrow, if locked then amount else 0)
      ensures ledger.holds == if locked && auction.Some? then CaptureHolds(old(ledger.holds), auction.value, buyer) else old(ledger.holds)
      ensures locked ==> ledger.transfers == Enqueue(old(ledger.transfers), O.LockChainLegs(|old(orders)|, amount))
    {
      var o := NewOrder(buyer, seller, amount, auction, c);
      locked := PostLockOf(o, c);
      LockHands(old(ledger.entries), o, buyer, amount);
    }

    lemma LockHands(before: seq<Entry>, o: nat, buyer: nat, amount: nat)
      ensures L.Handed(before, before + EscrowLockLegs(o, buyer, amount), User(buyer), Account.Escrow, amount)
      ensures L.Handed(before, before, User(buyer), Account.Escrow, 0)
    {
      forall a
        ensures Settled(before + EscrowLockLegs(o, buyer, amount), a) == Settled(before, a) + Change(User(buyer), Account.Escrow, amount, a)
      {
        SettledConcat(before, EscrowLockLegs(o, buyer, amount), a);
        LockMoves(o, buyer, amount, a);
      }
    }

    method NewOrder(buyer: nat, seller: nat, amount: nat, auction: Option<nat>, ghost c: nat) returns (o: nat)
      requires Valid() && c !in calls
      modifies this`orders, this`calls
      ensures Valid() && calls == old(calls)[c := WillLock(o)] && o == |old(orders)|
      ensures orders == old(orders) + [Order(buyer, seller, amount, auction, false, OrderPending, None, None, None, None, NoItem, None)]
    {
      o := |orders|;
      ghost var s := View();
      orders := orders + [Order(buyer, seller, amount, auction, false, OrderPending, None, None, None, None, NoItem, None)];
      calls := calls[c := WillLock(o)];
      Goes(s, NewEscrowOrder(c, orders[o]), View());
    }

    method PostLockOf(o: nat, ghost c: nat) returns (locked: bool)
      requires Valid() && c in calls && calls[c] == WillLock(o) && o < |orders|
      modifies this`orders, this`calls, ledger`entries, ledger`holds, ledger`transfers
      ensures Valid() && calls == old(calls) - {c} && |orders| == |old(orders)|
      ensures locked <==> 0 < orders[o].amount <= old(ledger.Spendable(orders[o].buyer, orders[o].auction))
      ensures orders == old(orders)[o := old(orders)[o].(status := AfterLock(locked, old(orders)[o].auction))]
      ensures ledger.entries == if locked then old(ledger.entries) + EscrowLockLegs(o, orders[o].buyer, orders[o].amount) else old(ledger.entries)
      ensures locked ==> ledger.transfers == Enqueue(old(ledger.transfers), O.LockChainLegs(o, orders[o].amount))
      ensures ledger.holds == if locked && orders[o].auction.Some? then CaptureHolds(old(ledger.holds), orders[o].auction.value, orders[o].buyer)
              else old(ledger.holds)
    {
      locked := PostLockRows(o, c);
      FinishLock(o, AfterLock(locked, orders[o].auction), c);
    }

    /** The lock's transaction. */
    method PostLockRows(o: nat, ghost c: nat) returns (locked: bool)
      requires Valid() && c in calls && calls[c] == WillLock(o) && o < |orders|
      modifies this`calls, ledger`entries, ledger`holds, ledger`transfers
      ensures Valid() && calls == if locked then old(calls)[c := WillMarkLocked(o)] else old(calls)
      ensures locked <==> 0 < orders[o].amount <= old(ledger.Spendable(orders[o].buyer, orders[o].auction))
      ensures ledger.entries == if locked then old(ledger.entries) + EscrowLockLegs(o, orders[o].buyer, orders[o].amount) else old(ledger.entries)
      ensures locked ==> ledger.transfers == Enqueue(old(ledger.transfers), O.LockChainLegs(o, orders[o].amount))
      ensures ledger.holds == if locked && orders[o].auction.Some? then CaptureHolds(old(ledger.holds), orders[o].auction.value, orders[o].buyer)
              else old(ledger.holds)
    {
      var row := orders[o];
      ghost var s := View();
      AboutToLock(s, c);
      var r := ledger.EscrowLock(row.buyer, row.amount, o, row.auction, O.LockChainLegs(o, row.amount));
      locked := r == Ok;
      if locked {
        calls := calls[c := WillMarkLocked(o)];
        Goes(s, PostLock(c), View());
      }
    }

    /** The order's last write: locked, or removed again, or none at all. */
    method FinishLock(o: nat, status: OrderStatus, ghost c: nat)
      requires Valid() && o < |orders| && c in calls
      requires if status == OrderLocked then calls[c] == WillMarkLocked(o)
               else calls[c] == WillLock(o) && (status == OrderRemoved || status == OrderPending)
      modifies this`orders, this`calls
      ensures Valid() && calls == old(calls) - {c}
      ensures orders == old(orders)[o := old(orders)[o].(status := status)]
    {
      if status == OrderLocked {
        MarkAsLocked(o, c);
      } else if status == OrderRemoved {
        RemoveAgain(o, c);
      } else {
        ghost var s := View();
        SettingUpIsPending(s, c);
        calls := calls - {c};
        Goes(s, Crash(c), View());
      }
    }

    method MarkAsLocked(o: nat, ghost c: nat)
      requires Valid() && o < |orders| && c in calls && calls[c] == WillMarkLocked(o)
      modifies this`orders, this`calls
      ensures Valid() && calls == old(calls) - {c}
      ensures orders == old(orders)[o := old(orders)[o].(status := OrderLocked)]
    {
      ghost var s := View();
      SettingUpIsPending(s, c);
      orders := orders[o := orders[o].(status := OrderLocked, noShipDeadline := None)];
      calls := calls - {c};
      Goes(s, MarkLocked(c), View());
    }

    method RemoveAgain(o: nat, ghost c: nat)
      requires Valid() && o < |orders| && c in calls && calls[c] == WillLock(o)
      modifies this`orders, this`calls
      ensures Valid() && calls == old(calls) - {c}
      ensures orders == old(orders)[o := old(orders)[o].(status := OrderRemoved)]
    {
      ghost var s := View();
      orders := orders[o := orders[o].(status := OrderRemoved)];
      calls := calls - {c};
      Goes(s, RemoveUnlocked(c), View());
    }

    // -------------------------------------------------------------------------
    // Shipping
    // -------------------------------------------------------------------------

    /** The sold item waits to be shipped, held for the buyer for fourteen days; once per order. */
    method AddItem(o: nat)
      requires Valid() && o < |orders| && orders[o].status !in {OrderPending, OrderRemoved}
      modifies this`orders
      ensures Valid()
      ensures orders == if old(orders)[o].item == NoItem
                        then old(orders)[o := old(orders)[o].(item := ReadyToShip, heldUntil := Some(now + 14 * DAY_MS))]
                        else old(orders)
    {
      if orders[o].item == NoItem {
        ghost var s := View();
        orders := orders[o := orders[o].(item := ReadyToShip, heldUntil := Some(now + SHIP_LATER_HOLD_MS))];
        Goes(s, Escrow.AddItem(o), View());
      }
    }

    /** Whether the buyer may ship these items together: all his, all waiting, their orders
        live, and one seller. */
    predicate MayShip(ids: seq<nat>, buyer: nat)
      reads this
    {
      && ids != []
      && (forall i | 0 <= i < |ids| ::
            && ids[i] < |orders| && orders[ids[i]].buyer == buyer && Shippable(orders[ids[i]], false)
            && ids[0] < |orders| && orders[ids[i]].seller == orders[ids[0]].seller)
    }

    method CheckItems(ids: seq<nat>, buyer: nat) returns (ok: bool)
      ensures ok <==> MayShip(ids, buyer)
    {
      if ids == [] {
        return false;
      }
      for k := 0 to |ids|
        invariant forall i | 0 <= i < k ::
                    && ids[i] < |orders| && orders[ids[i]].buyer == buyer && Shippable(orders[ids[i]], false)
                    && ids[0] < |orders| && orders[ids[i]].seller == orders[ids[0]].seller
      {
        if ids[k] >= |orders| || orders[ids[k]].buyer != buyer || !Shippable(orders[ids[k]], false) {
          return false;
        }
        if orders[ids[k]].seller != orders[ids[0]].seller {
          return false;
        }
      }
      ok := true;
    }

    /** Put items into a shipment of their own and pay for it. Done exactly if the items may
        be shipped together and the buyer has the fee available; the sellers of locked orders
        without a clock then have until `deadline`. */
    method PayShipping(ids: seq<nat>, buyer: nat, fee: int) returns (done: bool, deadline: int)
      requires Valid()
      modifies this`orders, this`shipments, ledger`entries, ledger`transfers
      ensures Valid() && |orders| == |old(orders)|
      ensures done <==>
                && ids != [] && 0 < fee <= old(ledger.AvailableTo(buyer))
                && forall i | 0 <= i < |ids| ::
                     && ids[i] < |old(orders)| && ids[0] < |old(orders)|
                     && var row := old(orders)[ids[i]];
                        && row.buyer == buyer && row.seller == old(orders)[ids[0]].seller
                        && row.item == ReadyToShip && (row.status == OrderLocked || row.status == OrderReleased)
      ensures !done ==> orders == old(orders) && ledger.entries == old(ledger.entries)
      ensures L.Handed(old(ledger.entries), ledger.entries, User(buyer), Fee, if done then fee else 0)
      ensures done ==>
                && ShipDeadline(now, deadline)
                && ledger.entries == old(ledger.entries) + ShippingLegs(|old(shipments)|, buyer, fee)
                && ledger.transfers == Enqueue(old(ledger.transfers), ShippingChainLegs(|old(shipments)|, fee))
                && shipments == old(shipments) + [Shipment(set i | 0 <= i < |ids| :: ids[i], buyer, fee, false, Clocked, false)]
                && forall p | 0 <= p < |orders| ::
                     var row := old(orders)[p];
                     orders[p] == if p !in ids then row
                       else row.(item := InShipment, noShipDeadline :=
                           if row.status == OrderLocked && row.noShipDeadline == None then Some(deadline) else row.noShipDeadline)
    {
      done, deadline := PayForItems(ids, buyer, fee);
      FeeHands(old(ledger.entries), |old(shipments)|, buyer, fee);
    }

    /** Check, create the shipment, charge it, move the items in, start the clocks. */
    method PayForItems(ids: seq<nat>, buyer: nat, fee: int) returns (done: bool, deadline: int)
      requires Valid()
      modifies this`orders, this`shipments, ledger`entries, ledger`transfers
      ensures Valid() && |orders| == |old(orders)|
      ensures done <==> old(MayShip(ids, buyer)) && 0 < fee <= old(ledger.AvailableTo(buyer))
      ensures !done ==> orders == old(orders) && ledger.entries == old(ledger.entries)
      ensures done ==>
                && ShipDeadline(now, deadline)
                && ledger.entries == old(ledger.entries) + ShippingLegs(|old(shipments)|, buyer, fee)
                && ledger.transfers == Enqueue(old(ledger.transfers), ShippingChainLegs(|old(shipments)|, fee))
                && shipments == old(shipments) + [Shipment(set i | 0 <= i < |ids| :: ids[i], buyer, fee, false, Clocked, false)]
                && forall p | 0 <= p < |orders| ::
                     orders[p] == if p in ids then WithClock(old(orders)[p].(item := InShipment), deadline)
                       else old(orders)[p]
    {
      deadline := now;
      var ok := CheckItems(ids, buyer);
      if !ok {
        return false, now;
      }
      done, deadline := ShipItems(set i | 0 <= i < |ids| :: ids[i], buyer, fee);
    }

    method ShipItems(items: set<nat>, buyer: nat, fee: int) returns (done: bool, deadline: int)
      requires Valid() && forall o | o in items :: o < |orders| && Shippable(orders[o], false)
      modifies this`orders, this`shipments, ledger`entries, ledger`transfers
      ensures Valid() && |orders| == |old(orders)|
      ensures done <==> 0 < fee <= old(ledger.AvailableTo(buyer))
      ensures !done ==> orders == old(orders) && ledger.entries == old(ledger.entries)
      ensures done ==>
                && ShipDeadline(now, deadline)
                && ledger.entries == old(ledger.entries) + ShippingLegs(|old(shipments)|, buyer, fee)
                && ledger.transfers == Enqueue(old(ledger.transfers), ShippingChainLegs(|old(shipments)|, fee))
                && shipments == old(shipments) + [Shipment(items, buyer, fee, false, Clocked, false)]
                && orders == ClocksStarted(ItemsShipped(old(orders), items), items, deadline)
    {
      deadline := now;
      var sh := Begin(items, buyer, fee);
      done := Charge(sh);
      if done {
        MoveInto(sh);
        deadline := StartClocks(sh);
      }
    }

    lemma FeeHands(before: seq<Entry>, sh: nat, buyer: nat, fee: int)
      ensures L.Handed(before, before + ShippingLegs(sh, buyer, fee), User(buyer), Fee, fee)
      ensures L.Handed(before, before, User(buyer), Fee, 0)
    {
      forall a
        ensures Settled(before + ShippingLegs(sh, buyer, fee), a) == Settled(before, a) + Change(User(buyer), Fee, fee, a)
      {
        SettledConcat(before, ShippingLegs(sh, buyer, fee), a);
        ShippingMoves(sh, buyer, fee, a);
      }
    }

    /** A new shipment, its fee not charged yet. */
    method Begin(items: set<nat>, buyer: nat, fee: int) returns (sh: nat)
      requires Valid() && forall o | o in items :: o < |orders| && Shippable(orders[o], false)
      modifies this`shipments
      ensures Valid() && sh == |old(shipments)|
      ensures shipments == old(shipments) + [Shipment(items, buyer, fee, false, Unpaid, true)]
      ensures !KeyPosted(ledger.entries, ShippingKey(sh))
    {
      ghost var s := View();
      NextShipmentIsFree(s);
      sh := |shipments|;
      shipments := shipments + [Shipment(items, buyer, fee, false, Unpaid, true)];
      Goes(s, BeginShipment(items, buyer, fee, false), View());
    }

    /** The charge, in a transaction of its own. If the fee is not there the shipment is
        dropped again. */
    method Charge(sh: nat) returns (charged: bool)
      requires Valid() && ShipmentAt(View(), sh, Unpaid) && !KeyPosted(ledger.entries, ShippingKey(sh))
      modifies this`shipments, ledger`entries, ledger`transfers
      ensures Valid()
      ensures var x := old(shipments)[sh];
              && (charged <==> 0 < x.fee <= old(ledger.AvailableTo(x.buyer)))
              && ledger.entries == (if charged then old(ledger.entries) + ShippingLegs(sh, x.buyer, x.fee) else old(ledger.entries))
              && ledger.transfers == (if charged then Enqueue(old(ledger.transfers), ShippingChainLegs(sh, x.fee)) else old(ledger.transfers))
              && shipments == old(shipments)[sh := if charged then x.(stage := Charged) else x.(alive := false)]
    {
      var x := shipments[sh];
      ghost var s := View();
      var r := ledger.SettleShipping(x.buyer, x.fee, sh);
      charged := r == Ok;
      shipments := shipments[sh := if charged then x.(stage := Charged) else x.(alive := false)];
      if charged {
        Goes(s, ChargeShipping(sh), View());
      } else {
        Goes(s, CrashShipment(sh), View());
      }
    }

    /** The items go into the paid shipment, whatever has become of them meanwhile. */
    method MoveInto(sh: nat)
      requires Valid() && ShipmentAt(View(), sh, Charged)
      modifies this`orders, this`shipments
      ensures Valid() && shipments == old(shipments)[sh := old(shipments)[sh].(stage := ItemsIn)]
      ensures orders == ItemsShipped(old(orders), old(shipments)[sh].items)
    {
      ghost var s := View();
      orders := ItemsShipped(orders, shipments[sh].items);
      shipments := shipments[sh := shipments[sh].(stage := ItemsIn)];
      Goes(s, MoveItems(sh), View());
    }

    /** Seven business days for the sellers of locked orders that have no deadline yet. */
    method StartClocks(sh: nat) returns (deadline: int)
      requires Valid() && ShipmentAt(View(), sh, ItemsIn)
      modifies this`orders, this`shipments
      ensures Valid() && ShipDeadline(now, deadline)
      ensures shipments == old(shipments)[sh := old(shipments)[sh].(stage := Clocked, alive := false)]
      ensures orders == ClocksStarted(old(orders), old(shipments)[sh].items, deadline)
    {
      ghost var s := View();
      deadline := AddBusinessDays(now, NO_SHIP_BUSINESS_DAYS);
      orders := ClocksStarted(orders, shipments[sh].items, deadline);
      shipments := shipments[sh := shipments[sh].(stage := Clocked, alive := false)];
      Goes(s, StartClock(sh, deadline), View());
    }

    // -------------------------------------------------------------------------
    // Disputes and decisions
    // -------------------------------------------------------------------------

    /** A dispute opens only inside the window, and only if nothing released the order first. */
    method OpenDispute(o: nat) returns (won: bool)
      requires Valid() && o < |orders|
      modifies this`orders
      ensures Valid()
      ensures won <==> old(orders)[o].status == OrderWindow && (old(orders)[o].windowEndsAt.Some? ==> now <= old(orders)[o].windowEndsAt.value)
      ensures orders == if won then old(orders)[o := old(orders)[o].(status := OrderDisputed)] else old(orders)
    {
      var row := orders[o];
      if row.status != OrderWindow || (row.windowEndsAt.Some? && now > row.windowEndsAt.value) {
        return false;
      }
      ghost var s := View();
      orders := orders[o := row.(status := OrderDisputed)];
      Goes(s, Escrow.OpenDispute(o), View());
      won := true;
    }

    /** Decide a dispute. Only the call that wins the claim moves money. */
    method ResolveDispute(o: nat, release: bool, ghost c: nat) returns (won: bool)
      requires Valid() && o < |orders| && c !in calls
      modifies this`orders, this`calls, this`moves, ledger`entries, ledger`transfers
      ensures Valid() && calls == old(calls)
      ensures won <==> old(orders)[o].status == OrderDisputed
      ensures !won ==> orders == old(orders) && moves == old(moves) && ledger.entries == old(ledger.entries)
      ensures won ==>
                && orders == old(orders)[o := if release then old(orders)[o].(status := OrderReleased, releasedAt := Some(now))
                                              else old(orders)[o].(status := OrderRefunded, refundedAt := Some(now))]
                && o !in old(moves) && moves == old(moves)[o := if release then PaidOut else PaidBack]
      ensures Settles(old(ledger.entries), old(orders), old(moves), ledger.entries, orders, moves)
    {
      if orders[o].status != OrderDisputed {
        NothingSettled(ledger.entries, orders, orders, moves);
        return false;
      }
      OrderFacts(View(), o);
      ClaimDispute(o, release, c);
      ghost var claimed := orders;
      MoveDecided(o, release, c);
      SettlesBetween(old(orders), old(ledger.entries), claimed, old(moves), ledger.entries, orders, moves, orders);
      won := true;
    }

    method MoveDecided(o: nat, release: bool, ghost c: nat)
      requires Valid() && o < |orders| && c in calls && calls[c] == (if release then WillRelease(o, None) else WillRefund(o, false))
      modifies this`calls, this`moves, ledger`entries, ledger`transfers
      ensures Valid() && calls == old(calls) - {c}
      ensures moves == if o in old(moves) then old(moves) else old(moves)[o := if release then PaidOut else PaidBack]
      ensures Settles(old(ledger.entries), orders, old(moves), ledger.entries, orders, moves)
    {
      if release {
        Release(o, c, None);
      } else {
        Refund(o, c, false);
      }
    }

    method ClaimDispute(o: nat, release: bool, ghost c: nat)
      requires Valid() && o < |orders| && c !in calls && orders[o].status == OrderDisputed
      modifies this`orders, this`calls
      ensures Valid() && calls == old(calls)[c := if release then WillRelease(o, None) else WillRefund(o, false)]
      ensures orders == old(orders)[o := if release then AsReleased(old(orders)[o], now)
                                         else old(orders)[o].(status := OrderRefunded, refundedAt := Some(now))]
    {
      ghost var s := View();
      orders := orders[o := if release then AsReleased(orders[o], now) else orders[o].(status := OrderRefunded, refundedAt := Some(now))];
      calls := calls[c := if release then WillRelease(o, None) else WillRefund(o, false)];
      Goes(s, Resolve(c, o, release), View());
    }

    /** Release a delivered order whose buyer did not dispute it. */
    method ReleaseOrder(o: nat, ghost c: nat) returns (won: bool)
      requires Valid() && o < |orders| && c !in calls
      modifies this`orders, this`calls, this`moves, ledger`entries, ledger`transfers
      ensures Valid() && calls == old(calls)
      ensures won <==> old(orders)[o].status == OrderWindow
      ensures !won ==> orders == old(orders) && moves == old(moves) && ledger.entries == old(ledger.entries)
      ensures won ==> orders == old(orders)[o := old(orders)[o].(status := OrderReleased, releasedAt := Some(now))]
                      && o !in old(moves) && moves == old(moves)[o := PaidOut]
      ensures Settles(old(ledger.entries), old(orders), old(moves), ledger.entries, orders, moves)
    {
      if orders[o].status != OrderWindow {
        NothingSettled(ledger.entries, orders, orders, moves);
        return false;
      }
      ghost var s := View();
      OrderFacts(s, o);
      orders := orders[o := AsReleased(orders[o], now)];
      calls := calls[c := WillRelease(o, None)];
      Goes(s, ReleaseWindow(c, o), View());
      Release(o, c, None);
      SettlesBetween(old(orders), s.entries, orders, s.moves, ledger.entries, orders, moves, orders);
      won := true;
    }

    // -------------------------------------------------------------------------
    // Discards and packages
    // -------------------------------------------------------------------------

    /** Give an unshipped item up: at any time by its buyer, after the hold by its seller. A
        price still locked goes to the seller - unless its shipping has been paid. */
    method DiscardItem(o: nat, bySeller: bool, ghost c: nat) returns (done: bool)
      requires Valid() && o < |orders| && c !in calls
      modifies this`orders, this`calls, this`moves, this`forfeited, ledger`entries, ledger`transfers
      ensures Valid() && calls == old(calls)
      ensures var row := old(orders)[o];
              && (done <==> row.item == ReadyToShip
                            && (bySeller ==> row.heldUntil.Some? && row.heldUntil.value <= now)
                            && (row.status == OrderLocked ==> row.noShipDeadline == None))
              && (!done ==> orders == old(orders) && moves == old(moves) && ledger.entries == old(ledger.entries))
              && (done && row.status == OrderLocked ==>
                    && orders == old(orders)[o := row.(status := OrderReleased, releasedAt := Some(now), item := Discarded)]
                    && o !in old(moves) && moves == old(moves)[o := PaidOut])
              && (done && row.status != OrderLocked ==>
                    && orders == old(orders)[o := row.(item := Discarded)] && moves == old(moves)
                    && ledger.entries == old(ledger.entries))
      ensures Settles(old(ledger.entries), old(orders), old(moves), ledger.entries, orders, moves)
    {
      NothingSettled(ledger.entries, orders, orders, moves);
      var row := orders[o];
      if row.item != ReadyToShip || (bySeller && (row.heldUntil == None || row.heldUntil.value > now)) {
        return false;
      }
      if row.status == OrderLocked {
        if row.noShipDeadline.Some? {
          return false;
        }
        Forfeit(o, false, c);
      } else {
        LookAndPassOn(o, c);
        Retire(o, false, c);
        NothingSettled(ledger.entries, old(orders), orders, moves);
      }
      done := true;
    }

    /** A whole forfeit: look, claim, pay the seller, retire the item. */
    method Forfeit(o: nat, byTimer: bool, ghost c: nat)
      requires Valid() && o < |orders| && c !in calls
      requires if byTimer then Abandoned(orders[o], now)
               else orders[o].status == OrderLocked && orders[o].noShipDeadline == None && orders[o].item == ReadyToShip
      modifies this`orders, this`calls, this`moves, this`forfeited, ledger`entries, ledger`transfers
      ensures Valid() && calls == old(calls)
      ensures orders == old(orders)[o := AsForfeited(old(orders)[o], now)]
              && o !in old(moves) && moves == old(moves)[o := PaidOut]
      ensures Settles(old(ledger.entries), old(orders), old(moves), ledger.entries, orders, moves)
    {
      Look(o, byTimer, c);
      PayForfeit(o, byTimer, c);
      ghost var paid := orders;
      Retire(o, byTimer, c);
      SettlesBetween(old(orders), old(ledger.entries), old(orders), old(moves), ledger.entries, paid, moves, orders);
    }

    /** The claim and the payout it owes. */
    method PayForfeit(o: nat, ghost byTimer: bool, ghost c: nat)
      requires Valid() && o < |orders| && c in calls && calls[c] == WillClaim(o, byTimer)
               && WinsClaim(orders[o], byTimer)
      modifies this`orders, this`calls, this`moves, this`forfeited, ledger`entries, ledger`transfers
      ensures Valid() && calls == old(calls)[c := WillRetire(o, byTimer)]
      ensures orders == old(orders)[o := AsReleased(old(orders)[o], now)]
              && o !in old(moves) && moves == old(moves)[o := PaidOut]
      ensures Settles(old(ledger.entries), old(orders), old(moves), ledger.entries, orders, moves)
    {
      OrderFacts(View(), o);
      Claim(o, byTimer, c);
      ghost var claimed := orders;
      Release(o, c, Some(byTimer));
      SettlesBetween(old(orders), old(ledger.entries), claimed, old(moves), ledger.entries, orders, moves, orders);
    }

    /** The call begins, and reads the order. */
    ghost method Look(o: nat, byTimer: bool, c: nat)
      requires Valid() && o < |orders| && c !in calls
      requires if byTimer then Abandoned(orders[o], now)
               else orders[o].status == OrderLocked && orders[o].item == ReadyToShip
      modifies this`calls
      ensures Valid() && calls == old(calls)[c := WillClaim(o, byTimer)]
    {
      var s := View();
      calls := calls[c := WillReadOrder(o, byTimer)];
      Goes(s, if byTimer then FindAbandoned(c, o) else BeginDiscard(c, o), View());
      ReadLocked(o, byTimer, c);
    }

    ghost method ReadLocked(o: nat, byTimer: bool, c: nat)
      requires Valid() && c in calls && calls[c] == WillReadOrder(o, byTimer) && o < |orders|
      requires orders[o].status == OrderLocked && (byTimer ==> orders[o].noShipDeadline == None)
      modifies this`calls
      ensures Valid() && calls == old(calls)[c := WillClaim(o, byTimer)]
    {
      var s := View();
      calls := calls[c := WillClaim(o, byTimer)];
      Goes(s, ReadOrder(c), View());
    }

    /** An order that holds no price any more: only its item is left. */
    ghost method LookAndPassOn(o: nat, c: nat)
      requires Valid() && o < |orders| && c !in calls && orders[o].item == ReadyToShip
               && orders[o].status != OrderLocked
      modifies this`calls
      ensures Valid() && calls == old(calls)[c := WillRetire(o, false)]
    {
      var s := View();
      calls := calls[c := WillReadOrder(o, false)];
      var s' := View();
      Goes(s, BeginDiscard(c, o), s');
      calls := calls[c := WillRetire(o, false)];
      Goes(s', ReadOrder(c), View());
    }

    /** The claim of a forfeit, won. */
    method Claim(o: nat, ghost byTimer: bool, ghost c: nat)
      requires Valid() && o < |orders| && c in calls && calls[c] == WillClaim(o, byTimer)
               && WinsClaim(orders[o], byTimer)
      modifies this`orders, this`calls, this`forfeited
      ensures Valid() && calls == old(calls)[c := WillRelease(o, Some(byTimer))]
      ensures orders == old(orders)[o := AsReleased(old(orders)[o], now)]
    {
      ghost var s := View();
      orders := orders[o := AsReleased(orders[o], now)];
      calls := calls[c := WillRelease(o, Some(byTimer))];
      forfeited := forfeited + {o};
      Goes(s, ClaimForfeit(c), View());
    }

    /** The item's last write. */
    method Retire(o: nat, byTimer: bool, ghost c: nat)
      requires Valid() && o < |orders| && c in calls && calls[c] == WillRetire(o, byTimer)
      modifies this`orders, this`calls
      ensures Valid() && calls == old(calls) - {c}
      ensures orders == old(orders)[o := Retired(old(orders)[o], byTimer)]
    {
      ghost var s := View();
      orders := orders[o := Retired(orders[o], byTimer)];
      calls := calls - {c};
      Goes(s, RetireItem(c), View());
    }

    method AdvanceOrder(o: nat, to: OrderStatus) returns (moved: bool)
      requires Valid() && o < |orders| && to in {OrderShipped, OrderWindow}
      modifies this`orders
      ensures Valid() && (moved <==> MayAdvance(old(orders)[o].status, to))
      ensures orders == old(orders)[o := PackageMoved(old(orders)[o], to, now)]
    {
      moved := MayAdvance(orders[o].status, to);
      if moved {
        ghost var s := View();
        orders := orders[o := Advanced(orders[o], to, now)];
        Goes(s, Transition(o, to), View());
      }
    }

    /** Drive the orders of a shipment as the package moves: shipped, then delivered, which
        opens the dispute window. Orders in any other status are left alone. */
    method AdvanceOrders(ids: seq<nat>, to: OrderStatus) returns (advanced: seq<nat>)
      requires Valid() && to in {OrderShipped, OrderWindow} && forall i | 0 <= i < |ids| :: ids[i] < |orders|
      modifies this`orders
      ensures Valid() && |orders| == |old(orders)|
      ensures forall p | 0 <= p < |orders| :: orders[p] == if p in advanced
                then old(orders)[p].(status := to, windowEndsAt := if to == OrderWindow then Some(now + 2 * DAY_MS) else old(orders)[p].windowEndsAt)
                else old(orders)[p]
      ensures forall p :: p in advanced <==>
                p in ids && (old(orders)[p].status == OrderLocked || (to == OrderWindow && old(orders)[p].status == OrderShipped))
    {
      advanced := [];
      var k := 0;
      while k < |ids|
        invariant 0 <= k <= |ids| && Valid() && |orders| == |old(orders)|
        invariant forall p | 0 <= p < |orders| :: orders[p] == if p in ids[..k]
                  then PackageMoved(old(orders)[p], to, now) else old(orders)[p]
        invariant forall p :: p in advanced <==> p in ids[..k] && MayAdvance(old(orders)[p].status, to)
      {
        assert ids[..k + 1] == ids[..k] + [ids[k]];
        var moved := AdvanceOrder(ids[k], to);
        if moved {
          advanced := advanced + [ids[k]];
        }
        k := k + 1;
      }
      assert ids[..k] == ids;
    }

    // -------------------------------------------------------------------------
    // The timer pass
    // -------------------------------------------------------------------------

    /** Crash recovery: a recent decision whose money move never posted gets it now. Orders
        that never locked anything are passed over. */
    method RecoverMoves(ghost c: nat)
      requires Valid() && c !in calls
      modifies this`calls, this`moves, ledger`entries, ledger`transfers
      ensures Valid() && calls == old(calls) && AllSettled()
      ensures Settles(old(ledger.entries), orders, old(moves), ledger.entries, orders, moves)
      ensures RecoveredOnly(old(moves), moves, orders, now)
    {
      NothingSettled(ledger.entries, orders, orders, moves);
      var o := 0;
      while o < |orders|
        invariant 0 <= o <= |orders| && Valid() && calls == old(calls)
        invariant Settles(old(ledger.entries), orders, old(moves), ledger.entries, orders, moves)
        invariant RecoveredOnly(old(moves), moves, orders, now)
        invariant forall p | 0 <= p < o :: MoveStands(orders[p], moves, p, now)
      {
        RecoverIfStuck(o, c, old(ledger.entries), old(moves));
        o := o + 1;
      }
    }

    method RecoverIfStuck(o: nat, ghost c: nat, ghost e: seq<Entry>, ghost m: map<nat, Move>)
      requires Valid() && c !in calls && o < |orders|
      requires Settles(e, orders, m, ledger.entries, orders, moves) && RecoveredOnly(m, moves, orders, now)
      modifies this`calls, this`moves, ledger`entries, ledger`transfers
      ensures Valid() && calls == old(calls)
      ensures Settles(e, orders, m, ledger.entries, orders, moves) && RecoveredOnly(m, moves, orders, now)
      ensures MoveStands(orders[o], moves, o, now)
      ensures forall p | p in old(moves) :: p in moves && moves[p] == old(moves)[p]
    {
      OrderFacts(View(), o);
      if RecentlyDecided(orders[o], now) && KeyPosted(ledger.entries, EscrowLockKey(o))
        && !KeyPosted(ledger.entries, EscrowSettleKey(o)) {
        ghost var before, was := ledger.entries, moves;
        RecoverOne(o, c);
        SettlesOn(e, orders, m, before, orders, was, ledger.entries, orders, moves);
      }
    }

    method RecoverOne(o: nat, ghost c: nat)
      requires Valid() && c !in calls && o < |orders| && orders[o].status in {OrderReleased, OrderRefunded}
      requires KeyPosted(ledger.entries, EscrowLockKey(o)) && !KeyPosted(ledger.entries, EscrowSettleKey(o))
      modifies this`calls, this`moves, ledger`entries, ledger`transfers
      ensures Valid() && calls == old(calls)
      ensures o !in old(moves) && moves == old(moves)[o := if orders[o].status == OrderReleased then PaidOut else PaidBack]
      ensures Settles(old(ledger.entries), orders, old(moves), ledger.entries, orders, moves)
    {
      OrderFacts(View(), o);
      TakeUpRecovery(o, c);
      MoveDecided(o, orders[o].status == OrderReleased, c);
    }

    ghost method TakeUpRecovery(o: nat, c: nat)
      requires Valid() && c !in calls && o < |orders| && orders[o].status in {OrderReleased, OrderRefunded}
      requires LockPosted(View(), o) && !SettlePosted(View(), o)
      modifies this`calls
      ensures Valid() && calls == old(calls)[c := if orders[o].status == OrderReleased then WillRelease(o, None) else WillRefund(o, false)]
    {
      var s := View();
      calls := calls[c := if orders[o].status == OrderReleased then WillRelease(o, None) else WillRefund(o, false)];
      Goes(s, Recover(c, o), View());
    }

    /** What a loop of the pass keeps: the decisions it makes have their moves. */
    ghost predicate AllSettled()
      reads this
    {
      forall o | 0 <= o < |orders| :: MoveStands(orders[o], moves, o, now)
    }

    /** A timer has looked at the first `n` orders. */
    ghost predicate PassAt(t: Timer, move: Move, e: seq<Entry>, rows: seq<Order>, m: map<nat, Move>, ids: seq<nat>, n: nat)
      reads this, ledger
    {
      && Valid() && AllSettled() && n <= |rows|
      && orders == RowsAfter(t, rows, n, now) && ids == Hits(t, rows, n, now)
      && Settles(e, rows, m, ledger.entries, orders, moves) && Added(m, moves, ids, move)
    }

    method ReleaseWindows(ghost c: nat) returns (released: seq<nat>)
      requires Valid() && c !in calls && AllSettled()
      modifies this`orders, this`calls, this`moves, ledger`entries, ledger`transfers
      ensures Valid() && calls == old(calls) && AllSettled()
      ensures Settles(old(ledger.entries), old(orders), old(moves), ledger.entries, orders, moves)
      ensures orders == RowsAfter(WindowTimer, old(orders), |old(orders)|, now) && released == Hits(WindowTimer, old(orders), |old(orders)|, now)
      ensures Added(old(moves), moves, released, PaidOut)
    {
      released := [];
      ghost var e, rows, m := ledger.entries, orders, moves;
      NothingSettled(e, rows, rows, m);
      var o := 0;
      while o < |orders|
        invariant o <= |rows| == |orders| && calls == old(calls)
        invariant PassAt(WindowTimer, PaidOut, e, rows, m, released, o)
      {
        released := ReleaseAt(o, c, released, e, rows, m);
        o := o + 1;
      }
    }

    method ReleaseAt(o: nat, ghost c: nat, released: seq<nat>, ghost e: seq<Entry>, ghost rows: seq<Order>,
                     ghost m: map<nat, Move>) returns (more: seq<nat>)
      requires c !in calls && o < |orders| && PassAt(WindowTimer, PaidOut, e, rows, m, released, o)
      modifies this`orders, this`calls, this`moves, ledger`entries, ledger`transfers
      ensures calls == old(calls) && |orders| == |old(orders)| && PassAt(WindowTimer, PaidOut, e, rows, m, more, o + 1)
    {
      RowsAfterAt(WindowTimer, rows, o, now, o);
      more := released;
      if WindowOver(orders[o], now) {
        more := ReleaseNext(o, c, released, e, rows, m);
      }
    }

    method ReleaseNext(o: nat, ghost c: nat, released: seq<nat>, ghost e: seq<Entry>, ghost rows: seq<Order>,
                       ghost m: map<nat, Move>) returns (more: seq<nat>)
      requires Valid() && c !in calls && AllSettled() && o < |orders| && orders[o].status == OrderWindow
      requires Settles(e, rows, m, ledger.entries, orders, moves) && Added(m, moves, released, PaidOut)
      modifies this`orders, this`calls, this`moves, ledger`entries, ledger`transfers
      ensures Valid() && calls == old(calls) && AllSettled() && more == released + [o]
      ensures orders == old(orders)[o := AsReleased(old(orders)[o], now)] && moves == old(moves)[o := PaidOut]
      ensures Settles(e, rows, m, ledger.entries, orders, moves) && Added(m, moves, more, PaidOut)
    {
      ghost var before, was, known := ledger.entries, orders, moves;
      var won := ReleaseOrder(o, c);
      SettlesOn(e, rows, m, before, was, known, ledger.entries, orders, moves);
      OneAdded(m, known, released, PaidOut, o);
      more := released + [o];
    }

    /** Claim, refund, mark, retire: the buyer of an order the seller did not ship in time
        gets the price back, and an item still waiting goes. */
    method RefundOrder(o: nat, ghost c: nat)
      requires Valid() && o < |orders| && c !in calls && Unshipped(orders[o], now)
      modifies this`orders, this`calls, this`moves, this`autoRefunded, ledger`entries, ledger`transfers
      ensures Valid() && calls == old(calls)
      ensures orders == old(orders)[o := AsRefunded(old(orders)[o], now)]
              && o !in old(moves) && moves == old(moves)[o := PaidBack]
      ensures Settles(old(ledger.entries), old(orders), old(moves), ledger.entries, orders, moves)
    {
      ClaimAndRefund(o, c);
      ghost var paid := orders;
      FinishRefund(o, c);
      SettlesBetween(old(orders), old(ledger.entries), old(orders), old(moves), ledger.entries, paid, moves, orders);
    }

    method ClaimAndRefund(o: nat, ghost c: nat)
      requires Valid() && o < |orders| && c !in calls && Unshipped(orders[o], now)
      modifies this`orders, this`calls, this`moves, this`autoRefunded, ledger`entries, ledger`transfers
      ensures Valid() && calls == old(calls)[c := WillMarkRefunded(o)]
      ensures orders == old(orders)[o := old(orders)[o].(status := OrderCanceled)]
              && o !in old(moves) && moves == old(moves)[o := PaidBack]
      ensures Settles(old(ledger.entries), old(orders), old(moves), ledger.entries, orders, moves)
    {
      OrderFacts(View(), o);
      ClaimRefund(o, c);
      ghost var claimed := orders;
      Refund(o, c, true);
      SettlesBetween(old(orders), old(ledger.entries), claimed, old(moves), ledger.entries, claimed, moves, orders);
    }

    method FinishRefund(o: nat, ghost c: nat)
      requires Valid() && o < |orders| && c in calls && calls[c] == WillMarkRefunded(o)
      modifies this`orders, this`calls
      ensures Valid() && calls == old(calls) - {c}
      ensures orders == old(orders)[o := AsRefunded(old(orders)[o], now)]
    {
      MarkOrderRefunded(o, c);
      Retire(o, false, c);
    }

    method ClaimRefund(o: nat, ghost c: nat)
      requires Valid() && o < |orders| && c !in calls && Unshipped(orders[o], now)
      modifies this`orders, this`calls, this`autoRefunded
      ensures Valid() && calls == old(calls)[c := WillRefund(o, true)]
      ensures orders == old(orders)[o := old(orders)[o].(status := OrderCanceled)]
    {
      ghost var s := View();
      orders := orders[o := orders[o].(status := OrderCanceled)];
      calls := calls[c := WillRefund(o, true)];
      autoRefunded := autoRefunded + {o};
      Goes(s, RefundUnshipped(c, o), View());
    }

    method MarkOrderRefunded(o: nat, ghost c: nat)
      requires Valid() && o < |orders| && c in calls && calls[c] == WillMarkRefunded(o)
      modifies this`orders, this`calls
      ensures Valid() && calls == old(calls)[c := WillRetire(o, false)]
      ensures orders == old(orders)[o := old(orders)[o].(status := OrderRefunded, refundedAt := Some(now))]
    {
      ghost var s := View();
      orders := orders[o := orders[o].(status := OrderRefunded, refundedAt := Some(now))];
      calls := calls[c := WillRetire(o, false)];
      Goes(s, MarkRefunded(c), View());
    }

    method RefundUnshippedOrders(ghost c: nat) returns (refunded: seq<nat>)
      requires Valid() && c !in calls && AllSettled()
      modifies this`orders, this`calls, this`moves, this`autoRefunded, ledger`entries, ledger`transfers
      ensures Valid() && calls == old(calls) && AllSettled()
      ensures Settles(old(ledger.entries), old(orders), old(moves), ledger.entries, orders, moves)
      ensures orders == RowsAfter(ShipTimer, old(orders), |old(orders)|, now) && refunded == Hits(ShipTimer, old(orders), |old(orders)|, now)
      ensures Added(old(moves), moves, refunded, PaidBack)
    {
      refunded := [];
      ghost var e, rows, m := ledger.entries, orders, moves;
      NothingSettled(e, rows, rows, m);
      var o := 0;
      while o < |orders|
        invariant o <= |rows| == |orders| && calls == old(calls)
        invariant PassAt(ShipTimer, PaidBack, e, rows, m, refunded, o)
      {
        refunded := RefundAt(o, c, refunded, e, rows, m);
        o := o + 1;
      }
    }

    method RefundAt(o: nat, ghost c: nat, refunded: seq<nat>, ghost e: seq<Entry>, ghost rows: seq<Order>,
                     ghost m: map<nat, Move>) returns (more: seq<nat>)
      requires c !in calls && o < |orders| && PassAt(ShipTimer, PaidBack, e, rows, m, refunded, o)
      modifies this`orders, this`calls, this`moves, this`autoRefunded, ledger`entries, ledger`transfers
      ensures calls == old(calls) && |orders| == |old(orders)| && PassAt(ShipTimer, PaidBack, e, rows, m, more, o + 1)
    {
      RowsAfterAt(ShipTimer, rows, o, now, o);
      more := refunded;
      if Unshipped(orders[o], now) {
        more := RefundNext(o, c, refunded, e, rows, m);
      }
    }

    method RefundNext(o: nat, ghost c: nat, refunded: seq<nat>, ghost e: seq<Entry>, ghost rows: seq<Order>,
                      ghost m: map<nat, Move>) returns (more: seq<nat>)
      requires Valid() && c !in calls && AllSettled() && o < |orders| && Unshipped(orders[o], now)
      requires Settles(e, rows, m, ledger.entries, orders, moves) && Added(m, moves, refunded, PaidBack)
      modifies this`orders, this`calls, this`moves, this`autoRefunded, ledger`entries, ledger`transfers
      ensures Valid() && calls == old(calls) && AllSettled() && more == refunded + [o]
      ensures orders == old(orders)[o := AsRefunded(old(orders)[o], now)] && moves == old(moves)[o := PaidBack]
      ensures Settles(e, rows, m, ledger.entries, orders, moves) && Added(m, moves, more, PaidBack)
    {
      ghost var before, was, known := ledger.entries, orders, moves;
      RefundOrder(o, c);
      SettlesOn(e, rows, m, before, was, known, ledger.entries, orders, moves);
      OneAdded(m, known, refunded, PaidBack, o);
      more := refunded + [o];
    }

    method ForfeitAbandoned(ghost c: nat) returns (gone: seq<nat>)
      requires Valid() && c !in calls && AllSettled()
      modifies this`orders, this`calls, this`moves, this`forfeited, ledger`entries, ledger`transfers
      ensures Valid() && calls == old(calls) && AllSettled()
      ensures Settles(old(ledger.entries), old(orders), old(moves), ledger.entries, orders, moves)
      ensures orders == RowsAfter(HoldTimer, old(orders), |old(orders)|, now) && gone == Hits(HoldTimer, old(orders), |old(orders)|, now)
      ensures Added(old(moves), moves, gone, PaidOut)
    {
      gone := [];
      ghost var e, rows, m := ledger.entries, orders, moves;
      NothingSettled(e, rows, rows, m);
      var o := 0;
      while o < |orders|
        invariant o <= |rows| == |orders| && calls == old(calls)
        invariant PassAt(HoldTimer, PaidOut, e, rows, m, gone, o)
      {
        gone := ForfeitAt(o, c, gone, e, rows, m);
        o := o + 1;
      }
    }

    method ForfeitAt(o: nat, ghost c: nat, gone: seq<nat>, ghost e: seq<Entry>, ghost rows: seq<Order>,
                     ghost m: map<nat, Move>) returns (more: seq<nat>)
      requires c !in calls && o < |orders| && PassAt(HoldTimer, PaidOut, e, rows, m, gone, o)
      modifies this`orders, this`calls, this`moves, this`forfeited, ledger`entries, ledger`transfers
      ensures calls == old(calls) && |orders| == |old(orders)| && PassAt(HoldTimer, PaidOut, e, rows, m, more, o + 1)
    {
      RowsAfterAt(HoldTimer, rows, o, now, o);
      more := gone;
      if Abandoned(orders[o], now) {
        more := ForfeitNext(o, c, gone, e, rows, m);
      }
    }

    method ForfeitNext(o: nat, ghost c: nat, gone: seq<nat>, ghost e: seq<Entry>, ghost rows: seq<Order>,
                       ghost m: map<nat, Move>) returns (more: seq<nat>)
      requires Valid() && c !in calls && AllSettled() && o < |orders| && Abandoned(orders[o], now)
      requires Settles(e, rows, m, ledger.entries, orders, moves) && Added(m, moves, gone, PaidOut)
      modifies this`orders, this`calls, this`moves, this`forfeited, ledger`entries, ledger`transfers
      ensures Valid() && calls == old(calls) && AllSettled() && more == gone + [o]
      ensures orders == old(orders)[o := AsForfeited(old(orders)[o], now)] && moves == old(moves)[o := PaidOut]
      ensures Settles(e, rows, m, ledger.entries, orders, moves) && Added(m, moves, more, PaidOut)
    {
      ghost var before, was, known := ledger.entries, orders, moves;
      Forfeit(o, true, c);
      SettlesOn(e, rows, m, before, was, known, ledger.entries, orders, moves);
      OneAdded(m, known, gone, PaidOut, o);
      more := gone + [o];
    }

    /** A complete timer pass. Every order ends where its own timer puts it, the three lists
        say which, and every decision of the last day - including those a crash had left
        half done - has exactly its money move in the books; direct orders have none. An order
        whose window, deadline or hold still runs is left alone. */
    method ProcessOrderTimers(ghost c: nat) returns (released: seq<nat>, refunded: seq<nat>, gone: seq<nat>)
      requires Valid() && c !in calls
      modifies this`orders, this`calls, this`moves, this`autoRefunded, this`forfeited, ledger`entries, ledger`transfers
      ensures Valid() && calls == old(calls) && AllSettled()
      ensures |orders| == |old(orders)| && forall p | 0 <= p < |orders| :: orders[p] == AfterTimers(old(orders)[p], now)
      ensures forall p: nat :: p in released <==>
                p < |orders| && old(orders)[p].status == OrderWindow
                && old(orders)[p].windowEndsAt.Some? && old(orders)[p].windowEndsAt.value <= now
      ensures forall p: nat :: p in refunded <==>
                p < |orders| && old(orders)[p].status == OrderLocked
                && old(orders)[p].noShipDeadline.Some? && old(orders)[p].noShipDeadline.value <= now
      ensures forall p: nat :: p in gone <==>
                p < |orders| && old(orders)[p].status == OrderLocked && old(orders)[p].noShipDeadline == None
                && old(orders)[p].item == ReadyToShip
                && old(orders)[p].heldUntil.Some? && old(orders)[p].heldUntil.value <= now
      ensures PassMoved(old(orders), old(moves), moves, released + gone, refunded, now)
      ensures forall p | 0 <= p < |orders| && !orders[p].direct && orders[p].status == OrderReleased
                         && orders[p].releasedAt.Some? && orders[p].releasedAt.value >= now - 86_400_000 ::
                p in moves && moves[p] == PaidOut
      ensures forall p | 0 <= p < |orders| && !orders[p].direct && orders[p].status == OrderRefunded
                         && orders[p].refundedAt.Some? && orders[p].refundedAt.value >= now - 86_400_000 ::
                p in moves && moves[p] == PaidBack
      ensures Settles(old(ledger.entries), old(orders), old(moves), ledger.entries, orders, moves)
      ensures forall p | 0 <= p < |orders| && orders[p].direct :: p !in moves
    {
      ghost var before := View();
      RecoverMoves(c);
      ghost var recovered := View();
      released, refunded, gone := RunTimers(c);
      SettlesOn(before.entries, before.orders, before.moves, recovered.entries, recovered.orders, recovered.moves,
                ledger.entries, orders, moves);
      PassMoves(before.orders, before.moves, recovered.moves, moves, released, refunded, gone, now);
      DirectHaveNone();
    }

    lemma DirectHaveNone()
      requires Valid()
      ensures forall p | 0 <= p < |orders| && orders[p].direct :: p !in moves
    {
      forall p | 0 <= p < |orders| && orders[p].direct
        ensures p !in moves
      {
        OrderFacts(View(), p);
      }
    }

    /** The three timers, one after the other. */
    method RunTimers(ghost c: nat) returns (released: seq<nat>, refunded: seq<nat>, gone: seq<nat>)
      requires Valid() && c !in calls && AllSettled()
      modifies this`orders, this`calls, this`moves, this`autoRefunded, this`forfeited, ledger`entries, ledger`transfers
      ensures Valid() && calls == old(calls) && AllSettled()
      ensures |orders| == |old(orders)| && forall p | 0 <= p < |orders| :: orders[p] == AfterTimers(old(orders)[p], now)
      ensures forall p: nat :: p in released <==> p < |orders| && WindowOver(old(orders)[p], now)
      ensures forall p: nat :: p in refunded <==> p < |orders| && Unshipped(old(orders)[p], now)
      ensures forall p: nat :: p in gone <==> p < |orders| && Abandoned(old(orders)[p], now)
      ensures AddedInTurn(old(moves), moves, released, refunded, gone)
      ensures Settles(old(ledger.entries), old(orders), old(moves), ledger.entries, orders, moves)
    {
      ghost var s0 := View();
      released := ReleaseWindows(c);
      ghost var s1 := View();
      refunded := RefundUnshippedOrders(c);
      ghost var s2 := View();
      gone := ForfeitAbandoned(c);
      SettlesOn(s0.entries, s0.orders, s0.moves, s1.entries, s1.orders, s1.moves, s2.entries, s2.orders, s2.moves);
      SettlesOn(s0.entries, s0.orders, s0.moves, s2.entries, s2.orders, s2.moves, ledger.entries, orders, moves);
      TimersCompose(s0.orders, now);
    }
  }
}
