/** What terminal moves do to balances (packages/backend/src/escrow.ts, orders.ts): a release
    pays the seller and the two pools out of escrow, a refund gives the buyer everything
    back. */
module Payouts {
  import opened Schema
  import opened Books
  import opened Escrow

  /** What the terminal move of an order changes at account `a`. */
  function MoveChange(row: Order, move: Move, a: Account): int {
    match move
    case PaidOut => PayoutChange(row.seller, row.amount, a)
    case PaidBack => Change(Account.Escrow, User(row.buyer), row.amount, a)
  }

  /** What the moves that are new in `after` change, over the first `n` orders. */
  function NewMoves(orders: seq<Order>, before: map<nat, Move>, after: map<nat, Move>, n: nat, a: Account): int
    requires n <= |orders|
  {
    if n == 0 then 0
    else NewMoves(orders, before, after, n - 1, a)
         + (if n - 1 in after && n - 1 !in before then MoveChange(orders[n - 1], after[n - 1], a) else 0)
  }

  /** Every balance changes by the new moves, and by nothing else. */
  ghost predicate PaidAs(entries: seq<Entry>, orders: seq<Order>, moves: map<nat, Move>, after: seq<Entry>, moves': map<nat, Move>) {
    forall a :: Settled(after, a) == Settled(entries, a) + NewMoves(orders, moves, moves', |orders|, a)
  }

  /** Moves are only added, for orders that are there. */
  predicate Grows(moves: map<nat, Move>, moves': map<nat, Move>, n: nat) {
    && (forall o | o in moves :: o in moves' && moves'[o] == moves[o])
    && (forall o | o in moves' && o !in moves :: o < n)
  }

  predicate SameParties(orders: seq<Order>, after: seq<Order>) {
    && |after| == |orders|
    && forall o | 0 <= o < |orders| ::
         after[o].buyer == orders[o].buyer && after[o].seller == orders[o].seller && after[o].amount == orders[o].amount
         && after[o].direct == orders[o].direct
  }

  /** Work that moves the money of some orders and changes nobody's part in them. */
  ghost predicate Settles(entries: seq<Entry>, orders: seq<Order>, moves: map<nat, Move>,
                          entries': seq<Entry>, orders': seq<Order>, moves': map<nat, Move>) {
    PaidAs(entries, orders, moves, entries', moves') && Grows(moves, moves', |orders|) && SameParties(orders, orders')
  }

  lemma {:induction false} NoNewMoves(orders: seq<Order>, moves: map<nat, Move>, n: nat, a: Account)
    requires n <= |orders|
    ensures NewMoves(orders, moves, moves, n, a) == 0
  {
    if n > 0 {
      NoNewMoves(orders, moves, n - 1, a);
    }
  }

  lemma {:induction false} OneNewMove(orders: seq<Order>, moves: map<nat, Move>, o: nat, move: Move, n: nat, a: Account)
    requires n <= |orders| && o !in moves
    ensures NewMoves(orders, moves, moves[o := move], n, a) == if o < n then MoveChange(orders[o], move, a) else 0
  {
    if n > 0 {
      OneNewMove(orders, moves, o, move, n - 1, a);
    }
  }

  lemma {:induction false} MovesAdd(orders: seq<Order>, orders': seq<Order>, m: map<nat, Move>, m': map<nat, Move>,
                                    m'': map<nat, Move>, n: nat, a: Account)
    requires n <= |orders| && SameParties(orders, orders') && Grows(m, m', |orders|) && Grows(m', m'', |orders|)
    ensures NewMoves(orders, m, m'', n, a) == NewMoves(orders, m, m', n, a) + NewMoves(orders', m', m'', n, a)
  {
    if n > 0 {
      MovesAdd(orders, orders', m, m', m'', n - 1, a);
    }
  }

  lemma NothingSettled(entries: seq<Entry>, orders: seq<Order>, orders': seq<Order>, moves: map<nat, Move>)
    requires SameParties(orders, orders')
    ensures Settles(entries, orders, moves, entries, orders', moves)
  {
    forall a { NoNewMoves(orders, moves, |orders|, a); }
  }

  lemma OneSettled(entries: seq<Entry>, orders: seq<Order>, moves: map<nat, Move>, entries': seq<Entry>, orders': seq<Order>,
                   o: nat, move: Move)
    requires o < |orders| && o !in moves && SameParties(orders, orders')
    requires forall a :: Settled(entries', a) == Settled(entries, a) + MoveChange(orders[o], move, a)
    ensures Settles(entries, orders, moves, entries', orders', moves[o := move])
  {
    forall a { OneNewMove(orders, moves, o, move, |orders|, a); }
  }

  lemma SettlesOn(e: seq<Entry>, o: seq<Order>, m: map<nat, Move>, e': seq<Entry>, o': seq<Order>, m': map<nat, Move>,
                  e'': seq<Entry>, o'': seq<Order>, m'': map<nat, Move>)
    requires Settles(e, o, m, e', o', m') && Settles(e', o', m', e'', o'', m'')
    ensures Settles(e, o, m, e'', o'', m'')
  {
    forall a
      ensures Settled(e'', a) == Settled(e, a) + NewMoves(o, m, m'', |o|, a)
    {
      MovesAdd(o, o', m, m', m'', |o|, a);
    }
  }

  /** Rows may be rewritten before and after, as long as the parties stay. */
  lemma SettlesBetween(o: seq<Order>, e: seq<Entry>, p: seq<Order>, m: map<nat, Move>, e': seq<Entry>, p': seq<Order>,
                       m': map<nat, Move>, o': seq<Order>)
    requires SameParties(o, p) && Settles(e, p, m, e', p', m') && SameParties(p', o')
    ensures Settles(e, o, m, e', o', m')
  {
    NothingSettled(e, o, p, m);
    NothingSettled(e', p', o', m');
    SettlesOn(e, o, m, e, p, m, e', p', m');
    SettlesOn(e, o, m, e', p', m', e', o', m');
  }

  /** The listed orders, none of which had a move, have got this one; nothing else is new. */
  ghost predicate Added(before: map<nat, Move>, after: map<nat, Move>, ids: seq<nat>, move: Move) {
    && (forall o | o in ids :: o !in before)
    && (forall o :: o in after <==> o in before || o in ids)
    && (forall o | o in after :: after[o] == if o in before then before[o] else move)
  }

  lemma OneAdded(before: map<nat, Move>, middle: map<nat, Move>, ids: seq<nat>, move: Move, o: nat)
    requires Added(before, middle, ids, move) && o !in middle
    ensures Added(before, middle[o := move], ids + [o], move)
  {
  }
}
