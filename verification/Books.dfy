/** Balance sums over the append-only entries, and the legs each operation posts
    (packages/backend/src/ledger.ts). */
module Books {
  import opened Schema
  import opened Money

  // ---------------------------------------------------------------------------
  // Balances: never stored, always summed
  // ---------------------------------------------------------------------------

  function AmountFor(e: Entry, a: Account): int {
    if e.account == a then e.amount else 0
  }

  /** The settled balance of an account. */
  function Settled(entries: seq<Entry>, a: Account): int {
    if entries == [] then 0
    else Settled(entries[..|entries| - 1], a) + AmountFor(entries[|entries| - 1], a)
  }

  /** The grand total over every account. */
  function Total(entries: seq<Entry>): int {
    if entries == [] then 0
    else Total(entries[..|entries| - 1]) + entries[|entries| - 1].amount
  }

  function HeldFor(h: Hold, user: nat): int {
    if h.user == user && h.status == Held then h.amount else 0
  }

  /** The sum of a user's active holds. */
  function ActiveHolds(holds: seq<Hold>, user: nat): int {
    if holds == [] then 0
    else ActiveHolds(holds[..|holds| - 1], user) + HeldFor(holds[|holds| - 1], user)
  }

  /** What a user may still spend or reserve. */
  function Available(entries: seq<Entry>, holds: seq<Hold>, user: nat): int {
    Settled(entries, User(user)) - ActiveHolds(holds, user)
  }

  lemma {:induction false} SettledConcat(x: seq<Entry>, y: seq<Entry>, a: Account)
    ensures Settled(x + y, a) == Settled(x, a) + Settled(y, a)
  {
    if y == [] {
      assert x + y == x;
    } else {
      var y' := y[..|y| - 1];
      assert (x + y)[..|x + y| - 1] == x + y';
      SettledConcat(x, y', a);
    }
  }

  lemma {:induction false} TotalConcat(x: seq<Entry>, y: seq<Entry>)
    ensures Total(x + y) == Total(x) + Total(y)
  {
    if y == [] {
      assert x + y == x;
    } else {
      var y' := y[..|y| - 1];
      assert (x + y)[..|x + y| - 1] == x + y';
      TotalConcat(x, y');
    }
  }

  /** Changing one hold row changes the owner's sum by exactly that row. */
  lemma {:induction false} ActiveHoldsUpdate(holds: seq<Hold>, i: nat, h: Hold, user: nat)
    requires i < |holds|
    ensures ActiveHolds(holds[i := h], user) == ActiveHolds(holds, user) - HeldFor(holds[i], user) + HeldFor(h, user)
  {
    var n := |holds| - 1;
    var after := holds[i := h];
    if i == n {
      assert after[..n] == holds[..n];
    } else {
      assert after[..n] == holds[..n][i := h];
      ActiveHoldsUpdate(holds[..n], i, h, user);
    }
  }

  lemma ActiveHoldsAppend(holds: seq<Hold>, h: Hold, user: nat)
    ensures ActiveHolds(holds + [h], user) == ActiveHolds(holds, user) + HeldFor(h, user)
  {
    assert (holds + [h])[..|holds|] == holds;
  }

  /** Non-negative holds sum to at least any one of them. */
  lemma {:induction false} ActiveHoldsAtLeast(holds: seq<Hold>, i: nat, user: nat)
    requires i < |holds|
    requires forall j | 0 <= j < |holds| :: holds[j].amount >= 0
    ensures ActiveHolds(holds, user) >= HeldFor(holds[i], user) >= 0
  {
    var n := |holds| - 1;
    if i < n {
      ActiveHoldsAtLeast(holds[..n], i, user);
    } else if n > 0 {
      ActiveHoldsAtLeast(holds[..n], 0, user);
    }
  }

  // ---------------------------------------------------------------------------
  // Posting
  // ---------------------------------------------------------------------------

  predicate KeyPosted(entries: seq<Entry>, k: Key) {
    exists i :: 0 <= i < |entries| && entries[i].key == Some(k)
  }

  predicate Present(entries: seq<Entry>, key: Option<Key>) {
    key.Some? && KeyPosted(entries, key.value)
  }

  predicate UniqueKeys(entries: seq<Entry>) {
    forall i, j :: 0 <= i < j < |entries| && entries[i].key.Some? ==> entries[i].key != entries[j].key
  }

  /** Zero legs are accepted and simply not written. */
  function NonZero(legs: seq<Entry>): seq<Entry> {
    if legs == [] then []
    else
      var rest := NonZero(legs[..|legs| - 1]);
      if legs[|legs| - 1].amount != 0 then rest + [legs[|legs| - 1]] else rest
  }

  /** Dropping zero legs changes no balance. */
  lemma {:induction false} NonZeroKeepsBalances(legs: seq<Entry>, a: Account)
    ensures Settled(NonZero(legs), a) == Settled(legs, a)
    ensures Total(NonZero(legs)) == Total(legs)
  {
    if legs != [] {
      var rest := legs[..|legs| - 1];
      NonZeroKeepsBalances(rest, a);
      SettledConcat(NonZero(rest), [legs[|legs| - 1]], a);
      TotalConcat(NonZero(rest), [legs[|legs| - 1]]);
      assert Settled([legs[|legs| - 1]], a) == AmountFor(legs[|legs| - 1], a) by {
        assert [legs[|legs| - 1]][..0] == [];
      }
      assert Total([legs[|legs| - 1]]) == legs[|legs| - 1].amount by {
        assert [legs[|legs| - 1]][..0] == [];
      }
    }
  }

  /** Leg `i` alone carries a key, and it is not zero. */
  predicate KeyedAt(legs: seq<Entry>, i: nat, k: Key) {
    && i < |legs|
    && legs[i].key == Some(k)
    && legs[i].amount != 0
    && forall j | 0 <= j < |legs| && j != i :: legs[j].key == None
  }

  /** The shape every keyed operation posts: balanced legs, exactly one of them keyed. */
  ghost predicate KeyedMove(legs: seq<Entry>, k: Key) {
    Total(legs) == 0 && exists i: nat :: KeyedAt(legs, i, k)
  }

  predicate Unkeyed(legs: seq<Entry>) {
    forall i | 0 <= i < |legs| :: legs[i].key == None
  }

  lemma {:induction false} UnkeyedStaysUnkeyed(legs: seq<Entry>)
    requires Unkeyed(legs)
    ensures Unkeyed(NonZero(legs))
  {
    if legs != [] {
      UnkeyedStaysUnkeyed(legs[..|legs| - 1]);
    }
  }

  /** The keyed leg survives the zero-leg filter, and it is the only keyed row written. */
  lemma {:induction false} KeyedLegIsWritten(legs: seq<Entry>, i: nat, k: Key) returns (j: nat)
    requires KeyedAt(legs, i, k)
    ensures KeyedAt(NonZero(legs), j, k)
  {
    var n := |legs| - 1;
    if i < n {
      j := KeyedLegIsWritten(legs[..n], i, k);
    } else {
      UnkeyedStaysUnkeyed(legs[..n]);
      j := |NonZero(legs[..n])|;
    }
  }

  /** Appending a keyed move posts its key and no other. */
  lemma AppendPosts(entries: seq<Entry>, legs: seq<Entry>, i: nat, k: Key)
    requires KeyedAt(legs, i, k)
    ensures forall k' :: KeyPosted(entries + legs, k') <==> KeyPosted(entries, k') || k' == k
  {
    var after := entries + legs;
    assert after[|entries| + i] == legs[i];
    forall k'
      ensures KeyPosted(after, k') <==> KeyPosted(entries, k') || k' == k
    {
      if KeyPosted(entries, k') {
        var j :| 0 <= j < |entries| && entries[j].key == Some(k');
        assert after[j].key == Some(k');
      }
      if KeyPosted(after, k') {
        var j :| 0 <= j < |after| && after[j].key == Some(k');
        assert j < |entries| || after[j] == legs[j - |entries|];
      }
    }
  }

  // ---------------------------------------------------------------------------
  // The legs of each operation
  // ---------------------------------------------------------------------------

  /** Money coming in from outside: a deposit, or a withdrawal handed back. */
  function CreditLegs(user: nat, amount: int, key: Option<Key>): seq<Entry> {
    [Entry(External, -amount, None), Entry(User(user), amount, key)]
  }

  /** Money leaving the system. */
  function DebitLegs(user: nat, amount: int, key: Option<Key>): seq<Entry> {
    [Entry(User(user), -amount, key), Entry(External, amount, None)]
  }

  function DirectSaleLegs(order: nat, buyer: nat, seller: nat, amount: int): seq<Entry> {
    [Entry(User(buyer), -amount, Some(DirectSaleKey(order))), Entry(User(seller), amount, None)]
  }

  function ShippingLegs(shipment: nat, buyer: nat, amount: int): seq<Entry> {
    [Entry(User(buyer), -amount, Some(ShippingKey(shipment))), Entry(Fee, amount, None)]
  }

  function EscrowLockLegs(order: nat, buyer: nat, amount: int): seq<Entry> {
    [Entry(User(buyer), -amount, Some(EscrowLockKey(order))), Entry(Escrow, amount, None)]
  }

  function EscrowReleaseLegs(order: nat, seller: nat, amount: nat): seq<Entry> {
    var s := SplitSale(amount);
    [Entry(Escrow, 0 - amount, Some(EscrowSettleKey(order))),
     Entry(User(seller), s.sellerProceeds, None),
     Entry(Platform, s.buybackFee, None),
     Entry(Fee, s.platformFee, None)]
  }

  function EscrowRefundLegs(order: nat, buyer: nat, amount: int): seq<Entry> {
    [Entry(Escrow, -amount, Some(EscrowSettleKey(order))), Entry(User(buyer), amount, None)]
  }

  /** Settling an auction captures every active hold its winner has on it. */
  function CaptureHolds(holds: seq<Hold>, auction: nat, user: nat): seq<Hold> {
    seq(|holds|, i requires 0 <= i < |holds| =>
      if holds[i].source == ForAuction(auction) && holds[i].user == user && holds[i].status == Held
      then holds[i].(status := Captured) else holds[i])
  }

  /** Nothing of the winner's on that auction stays active; nobody else's holds, and none on
      anything else, are touched. */
  lemma {:induction false} CaptureIsOwn(holds: seq<Hold>, auction: nat, user: nat, v: nat)
    ensures var after := CaptureHolds(holds, auction, user);
            && |after| == |holds|
            && (forall i | 0 <= i < |holds| && after[i] != holds[i] ::
                  holds[i].user == user && holds[i].source == ForAuction(auction) && after[i] == holds[i].(status := Captured))
            && (forall i | 0 <= i < |holds| && after[i].user == user && after[i].source == ForAuction(auction) :: after[i].status != Held)
            && (v != user ==> ActiveHolds(after, v) == ActiveHolds(holds, v))
  {
    if holds != [] {
      var n := |holds| - 1;
      CaptureIsOwn(holds[..n], auction, user, v);
      assert CaptureHolds(holds, auction, user)[..n] == CaptureHolds(holds[..n], auction, user);
    }
  }

  // ---------------------------------------------------------------------------
  // Outbox
  // ---------------------------------------------------------------------------

  predicate LegQueued(transfers: seq<Transfer>, k: LegKey) {
    exists i :: 0 <= i < |transfers| && transfers[i].leg.key == k
  }

  predicate UniqueLegs(transfers: seq<Transfer>) {
    forall i, j :: 0 <= i < j < |transfers| ==> transfers[i].leg.key != transfers[j].leg.key
  }

  /** The shipping fee is moved from the pooled wallet into the fee wallet. */
  function ShippingChainLegs(shipment: nat, amount: int): seq<ChainLeg> {
    [ChainLeg(ShippingLeg(shipment), Treasury, FeeWallet, amount)]
  }

  /** Zero legs are dropped; a leg whose key is already queued is skipped. */
  function Enqueue(transfers: seq<Transfer>, legs: seq<ChainLeg>): (r: seq<Transfer>)
    ensures UniqueLegs(transfers) ==> UniqueLegs(r)
    ensures |transfers| <= |r| && r[..|transfers|] == transfers
  {
    if legs == [] then transfers
    else
      var before := Enqueue(transfers, legs[..|legs| - 1]);
      var leg := legs[|legs| - 1];
      if leg.amount > 0 && !LegQueued(before, leg.key)
      then before + [Transfer(leg, TransferPending, None, 0)]
      else before
  }

  predicate DistinctLegs(legs: seq<ChainLeg>) {
    forall i, j | 0 <= i < j < |legs| :: legs[i].key != legs[j].key
  }

  /** A queued leg starts pending, unsent and untried. */
  ghost predicate QueuedNew(transfers: seq<Transfer>, legs: seq<ChainLeg>, t: Transfer) {
    exists i :: 0 <= i < |legs| && legs[i].amount > 0 && !LegQueued(transfers, legs[i].key)
                && t == Transfer(legs[i], TransferPending, None, 0)
  }

  lemma {:induction false} QueuesOwnKeys(transfers: seq<Transfer>, legs: seq<ChainLeg>, k: LegKey)
    requires forall i | 0 <= i < |legs| :: legs[i].key != k
    ensures LegQueued(Enqueue(transfers, legs), k) <==> LegQueued(transfers, k)
  {
    if legs != [] {
      var n := |legs| - 1;
      QueuesOwnKeys(transfers, legs[..n], k);
      var before, after := Enqueue(transfers, legs[..n]), Enqueue(transfers, legs);
      assert forall i | 0 <= i < |before| :: after[i] == before[i];
    }
  }

  /** Exactly the positive legs whose keys are new are queued, and no row is lost. */
  lemma {:induction false} EnqueueAdds(transfers: seq<Transfer>, legs: seq<ChainLeg>, t: Transfer)
    requires DistinctLegs(legs)
    ensures t in Enqueue(transfers, legs) <==> t in transfers || QueuedNew(transfers, legs, t)
  {
    if legs != [] {
      var n := |legs| - 1;
      EnqueueAdds(transfers, legs[..n], t);
      QueuesOwnKeys(transfers, legs[..n], legs[n].key);
      assert forall i | 0 <= i < n :: legs[..n][i] == legs[i];
    }
  }

  /** A two-leg move, account by account. */
  lemma TwoLegs(legs: seq<Entry>, a: Account)
    requires |legs| == 2
    ensures Settled(legs, a) == AmountFor(legs[0], a) + AmountFor(legs[1], a)
    ensures Total(legs) == legs[0].amount + legs[1].amount
  {
    var first := legs[..1];
    assert first[..0] == [];
    assert Settled(first, a) == AmountFor(legs[0], a) && Total(first) == legs[0].amount;
  }

  lemma FourLegs(legs: seq<Entry>, a: Account)
    requires |legs| == 4
    ensures Settled(legs, a) == AmountFor(legs[0], a) + AmountFor(legs[1], a) + AmountFor(legs[2], a) + AmountFor(legs[3], a)
    ensures Total(legs) == legs[0].amount + legs[1].amount + legs[2].amount + legs[3].amount
  {
    var x, y := legs[..2], legs[2..];
    assert legs == x + y;
    SettledConcat(x, y, a);
    TotalConcat(x, y);
    TwoLegs(x, a);
    TwoLegs(y, a);
  }

  // ---------------------------------------------------------------------------
  // Who pays whom
  // ---------------------------------------------------------------------------

  /** What handing `amount` from one account to another changes at account `a`. */
  function Change(from: Account, to: Account, amount: int, a: Account): int {
    (if a == to then amount else 0) - (if a == from then amount else 0)
  }

  /** What paying a seller out of escrow changes at account `a`: 95 percent to the seller, 4
      and 1 to the two pools, each of the two rounded down. */
  function PayoutChange(seller: nat, amount: nat, a: Account): int {
    var (buyback, fee) := (amount * 4 / 100, amount / 100);
    Change(Escrow, User(seller), amount - buyback - fee, a) + Change(Escrow, Platform, buyback, a) + Change(Escrow, Fee, fee, a)
  }

  lemma CreditMoves(user: nat, amount: int, key: Option<Key>, a: Account)
    ensures Settled(CreditLegs(user, amount, key), a) == Change(External, User(user), amount, a)
  {
    TwoLegs(CreditLegs(user, amount, key), a);
  }

  lemma DebitMoves(user: nat, amount: int, key: Option<Key>, a: Account)
    ensures Settled(DebitLegs(user, amount, key), a) == Change(User(user), External, amount, a)
  {
    TwoLegs(DebitLegs(user, amount, key), a);
  }

  lemma DirectSaleMoves(order: nat, buyer: nat, seller: nat, amount: int, a: Account)
    ensures Settled(DirectSaleLegs(order, buyer, seller, amount), a) == Change(User(buyer), User(seller), amount, a)
  {
    TwoLegs(DirectSaleLegs(order, buyer, seller, amount), a);
  }

  lemma ShippingMoves(shipment: nat, buyer: nat, amount: int, a: Account)
    ensures Settled(ShippingLegs(shipment, buyer, amount), a) == Change(User(buyer), Fee, amount, a)
  {
    TwoLegs(ShippingLegs(shipment, buyer, amount), a);
  }

  lemma LockMoves(order: nat, buyer: nat, amount: int, a: Account)
    ensures Settled(EscrowLockLegs(order, buyer, amount), a) == Change(User(buyer), Escrow, amount, a)
  {
    TwoLegs(EscrowLockLegs(order, buyer, amount), a);
  }

  /** A refund moves exactly the order's amount out of escrow and back to its buyer, and
      touches no other account. */
  lemma RefundMovesTheAmount(order: nat, buyer: nat, amount: int, a: Account)
    ensures var legs := EscrowRefundLegs(order, buyer, amount);
            && Total(legs) == 0
            && Settled(legs, Escrow) == -amount
            && Settled(legs, User(buyer)) == amount
            && (a !in {Escrow, User(buyer)} ==> Settled(legs, a) == 0)
            && Settled(legs, a) == Change(Escrow, User(buyer), amount, a)
  {
    var legs := EscrowRefundLegs(order, buyer, amount);
    TwoLegs(legs, Escrow);
    TwoLegs(legs, User(buyer));
    TwoLegs(legs, a);
  }

  /** A release moves exactly the order's amount out of escrow and into the seller's
      balance and the two fee pools, and touches no other account. */
  lemma ReleaseMovesTheAmount(order: nat, seller: nat, amount: nat, a: Account)
    ensures var legs := EscrowReleaseLegs(order, seller, amount);
            && Total(legs) == 0
            && Settled(legs, Escrow) == 0 - amount
            && Settled(legs, User(seller)) == SplitSale(amount).sellerProceeds
            && Settled(legs, Platform) == SplitSale(amount).buybackFee
            && Settled(legs, Fee) == SplitSale(amount).platformFee
            && (a !in {Escrow, User(seller), Platform, Fee} ==> Settled(legs, a) == 0)
  {
    var legs := EscrowReleaseLegs(order, seller, amount);
    SplitSaleConserves(amount);
    FourLegs(legs, Escrow);
    FourLegs(legs, User(seller));
    FourLegs(legs, Platform);
    FourLegs(legs, Fee);
    FourLegs(legs, a);
  }

  lemma ReleaseMoves(order: nat, seller: nat, amount: nat, a: Account)
    ensures Settled(EscrowReleaseLegs(order, seller, amount), a) == PayoutChange(seller, amount, a)
  {
    FeesAreRoundedDown(amount);
    FourLegs(EscrowReleaseLegs(order, seller, amount), a);
  }
}
