/** The ledger: the operations that move money (packages/backend/src/ledger.ts). */
module Ledger {
  import opened Schema
  import opened Books

  datatype PostOutcome = Posted | Imbalanced(sum: int) | UniqueViolation

  /** What a charge does: reject a bad amount, do nothing for a key already posted, refuse
      when `funds` is short, and otherwise append exactly `legs`. */
  ghost predicate Charged(before: seq<Entry>, after: seq<Entry>, r: Outcome<LedgerError>,
                          user: nat, amount: int, key: Option<Key>, funds: int, legs: seq<Entry>) {
    if amount <= 0 then r == Threw(InvalidAmount(amount)) && after == before
    else if Present(before, key) then r == Ok && after == before
    else if funds < amount then r == Threw(InsufficientFunds(user, funds, amount)) && after == before
    else r == Ok && after == before + legs
  }

  /** Whether this call is the one that appends its legs. */
  ghost predicate Applies(before: seq<Entry>, amount: int, key: Option<Key>, funds: int) {
    amount > 0 && !Present(before, key) && amount <= funds
  }

  /** Every balance changes as handing `amount` from one account to the other does. */
  ghost predicate Handed(before: seq<Entry>, after: seq<Entry>, from: Account, to: Account, amount: int) {
    forall a :: Settled(after, a) == Settled(before, a) + Change(from, to, amount, a)
  }

  /** A charge whose legs hand the amount over does exactly that if it applies. */
  lemma ChargeHands(before: seq<Entry>, after: seq<Entry>, r: Outcome<LedgerError>, user: nat, amount: int,
                    key: Option<Key>, funds: int, legs: seq<Entry>, from: Account, to: Account)
    requires Charged(before, after, r, user, amount, key, funds, legs)
    requires forall a :: Settled(legs, a) == Change(from, to, amount, a)
    ensures Handed(before, after, from, to, if Applies(before, amount, key, funds) then amount else 0)
  {
    forall a
      ensures Applies(before, amount, key, funds) ==> Settled(after, a) == Settled(before, a) + Change(from, to, amount, a)
    {
      SettledConcat(before, legs, a);
    }
  }

  class Ledger {
    var entries: seq<Entry>
    var holds: seq<Hold>
    var transfers: seq<Transfer>

    ghost predicate Valid()
      reads this
    {
      Total(entries) == 0 && UniqueKeys(entries) && UniqueLegs(transfers)
    }

    constructor ()
      ensures Valid()
      ensures entries == [] && holds == [] && transfers == []
    {
      entries, holds, transfers := [], [], [];
    }

    function AvailableTo(user: nat): int
      reads this
    {
      Available(entries, holds, user)
    }

    /** Post balanced legs atomically; a repeated key aborts the whole insert. */
    method PostEntries(legs: seq<Entry>) returns (r: PostOutcome)
      requires Valid()
      modifies this`entries
      ensures Valid()
      ensures r == if Total(legs) != 0 then Imbalanced(Total(legs))
                   else if UniqueKeys(old(entries) + NonZero(legs)) then Posted
                   else UniqueViolation
      ensures entries == if r == Posted then old(entries) + NonZero(legs) else old(entries)
    {
      var sum := Total(legs);
      if sum != 0 {
        return Imbalanced(sum);
      }
      var nonZero := NonZero(legs);
      if nonZero == [] {
        assert entries + nonZero == entries;
        return Posted;
      }
      if !UniqueKeys(entries + nonZero) {
        return UniqueViolation;
      }
      TotalConcat(entries, nonZero);
      NonZeroKeepsBalances(legs, Fee);
      entries := entries + nonZero;
      r := Posted;
    }

    /** Bring money in. A key already posted makes the call a no-op. */
    method Credit(user: nat, amount: int, key: Option<Key>) returns (r: Outcome<LedgerError>)
      requires Valid()
      modifies this`entries
      ensures Valid()
      ensures Charged(old(entries), entries, r, user, amount, key, amount, CreditLegs(user, amount, key))
      ensures Handed(old(entries), entries, External, User(user), if Applies(old(entries), amount, key, amount) then amount else 0)
    {
      if amount <= 0 {
        return Threw(InvalidAmount(amount));
      }
      if Present(entries, key) {
        return Ok;
      }
      NewKeyFits(entries, CreditLegs(user, amount, key), key);
      ghost var before := entries;
      var posted := PostEntries(CreditLegs(user, amount, key));
      r := Ok;
      forall a { CreditMoves(user, amount, key, a); }
      ChargeHands(before, entries, r, user, amount, key, amount, CreditLegs(user, amount, key), External, User(user));
    }

    /** Take money out, from what is available only. */
    method Debit(user: nat, amount: int, key: Option<Key>) returns (r: Outcome<LedgerError>)
      requires Valid()
      modifies this`entries
      ensures Valid()
      ensures Charged(old(entries), entries, r, user, amount, key, old(AvailableTo(user)), DebitLegs(user, amount, key))
      ensures Handed(old(entries), entries, User(user), External,
                if Applies(old(entries), amount, key, old(AvailableTo(user))) then amount else 0)
    {
      r := ChargeAvailable(user, amount, key, DebitLegs(user, amount, key));
      forall a { DebitMoves(user, amount, key, a); }
      ChargeHands(old(entries), entries, r, user, amount, key, old(AvailableTo(user)), DebitLegs(user, amount, key),
                  User(user), External);
    }

    /** The shared body of every charge against available funds. */
    method ChargeAvailable(user: nat, amount: int, key: Option<Key>, legs: seq<Entry>) returns (r: Outcome<LedgerError>)
      requires Valid()
      requires amount > 0 ==> TwoLegCharge(legs, key)
      modifies this`entries
      ensures Valid()
      ensures Charged(old(entries), entries, r, user, amount, key, old(AvailableTo(user)), legs)
    {
      if amount <= 0 {
        return Threw(InvalidAmount(amount));
      }
      if Present(entries, key) {
        return Ok;
      }
      var available := AvailableTo(user);
      if available < amount {
        return Threw(InsufficientFunds(user, available, amount));
      }
      NewKeyFits(entries, legs, key);
      var posted := PostEntries(legs);
      r := Ok;
    }

    /** Charge a buyer for a shipment: the whole fee goes to the operator's pool, and the
        wallet move that mirrors it is queued with it. */
    method SettleShipping(buyer: nat, amount: int, shipment: nat) returns (r: Outcome<LedgerError>)
      requires Valid()
      modifies this`entries, this`transfers
      ensures Valid()
      ensures Charged(old(entries), entries, r, buyer, amount, Some(ShippingKey(shipment)), old(AvailableTo(buyer)),
                ShippingLegs(shipment, buyer, amount))
      ensures Handed(old(entries), entries, User(buyer), Fee,
                if Applies(old(entries), amount, Some(ShippingKey(shipment)), old(AvailableTo(buyer))) then amount else 0)
      ensures transfers == if Applies(old(entries), amount, Some(ShippingKey(shipment)), old(AvailableTo(buyer)))
                           then Enqueue(old(transfers), ShippingChainLegs(shipment, amount)) else old(transfers)
    {
      var key := Some(ShippingKey(shipment));
      var isNew := !Present(entries, key);
      r := ChargeAvailable(buyer, amount, key, ShippingLegs(shipment, buyer, amount));
      forall a { ShippingMoves(shipment, buyer, amount, a); }
      ChargeHands(old(entries), entries, r, buyer, amount, key, old(AvailableTo(buyer)), ShippingLegs(shipment, buyer, amount),
                  User(buyer), Fee);
      if r == Ok && isNew {
        transfers := Enqueue(transfers, ShippingChainLegs(shipment, amount));
      }
    }

    /** Pay the seller in full at once. An auction win captures its hold and is checked
        against the settled balance; any other sale is paid from what is available. */
    method SettleDirectSale(buyer: nat, seller: nat, amount: int, order: nat, auction: Option<nat>)
        returns (r: Outcome<LedgerError>)
      requires Valid()
      modifies this`entries, this`holds
      ensures Valid()
      ensures Charged(old(entries), entries, r, buyer, amount, Some(DirectSaleKey(order)),
                old(Spendable(buyer, auction)), DirectSaleLegs(order, buyer, seller, amount))
      ensures Handed(old(entries), entries, User(buyer), User(seller),
                if Applies(old(entries), amount, Some(DirectSaleKey(order)), old(Spendable(buyer, auction))) then amount else 0)
      ensures holds == if auction.Some? && Applies(old(entries), amount, Some(DirectSaleKey(order)), old(Spendable(buyer, auction)))
                       then CaptureHolds(old(holds), auction.value, buyer) else old(holds)
    {
      r := ChargeSale(buyer, amount, Some(DirectSaleKey(order)), DirectSaleLegs(order, buyer, seller, amount), auction);
      forall a { DirectSaleMoves(order, buyer, seller, amount, a); }
      ChargeHands(old(entries), entries, r, buyer, amount, Some(DirectSaleKey(order)), old(Spendable(buyer, auction)),
                  DirectSaleLegs(order, buyer, seller, amount), User(buyer), User(seller));
    }

    /** Move the buyer's money into escrow, whole; no fee is taken here. */
    method EscrowLock(buyer: nat, amount: int, order: nat, auction: Option<nat>, chainLegs: seq<ChainLeg>)
        returns (r: Outcome<LedgerError>)
      requires Valid()
      modifies this`entries, this`holds, this`transfers
      ensures Valid()
      ensures Charged(old(entries), entries, r, buyer, amount, Some(EscrowLockKey(order)),
                old(Spendable(buyer, auction)), EscrowLockLegs(order, buyer, amount))
      ensures Handed(old(entries), entries, User(buyer), Escrow,
                if Applies(old(entries), amount, Some(EscrowLockKey(order)), old(Spendable(buyer, auction))) then amount else 0)
      ensures holds == if auction.Some? && Applies(old(entries), amount, Some(EscrowLockKey(order)), old(Spendable(buyer, auction)))
                       then CaptureHolds(old(holds), auction.value, buyer) else old(holds)
      ensures transfers == if Applies(old(entries), amount, Some(EscrowLockKey(order)), old(Spendable(buyer, auction)))
                           then Enqueue(old(transfers), chainLegs) else old(transfers)
    {
      var key := Some(EscrowLockKey(order));
      var isNew := !Present(entries, key);
      r := ChargeSale(buyer, amount, key, EscrowLockLegs(order, buyer, amount), auction);
      forall a { LockMoves(order, buyer, amount, a); }
      ChargeHands(old(entries), entries, r, buyer, amount, key, old(Spendable(buyer, auction)), EscrowLockLegs(order, buyer, amount),
                  User(buyer), Escrow);
      if r == Ok && isNew {
        transfers := Enqueue(transfers, chainLegs);
      }
    }

    /** The balance a sale is checked against: settled for an auction win (its hold is
        captured in the same transaction), available for everything else. */
    function Spendable(buyer: nat, auction: Option<nat>): int
      reads this
    {
      if auction.Some? then Settled(entries, User(buyer)) else AvailableTo(buyer)
    }

    /** The shared body of the two sale charges. A throw rolls the capture back. */
    method ChargeSale(buyer: nat, amount: int, key: Option<Key>, legs: seq<Entry>, auction: Option<nat>)
        returns (r: Outcome<LedgerError>)
      requires Valid()
      requires amount > 0 ==> TwoLegCharge(legs, key)
      modifies this`entries, this`holds
      ensures Valid()
      ensures Charged(old(entries), entries, r, buyer, amount, key, old(Spendable(buyer, auction)), legs)
      ensures holds == if auction.Some? && Applies(old(entries), amount, key, old(Spendable(buyer, auction)))
                       then CaptureHolds(old(holds), auction.value, buyer) else old(holds)
    {
      if amount <= 0 {
        return Threw(InvalidAmount(amount));
      }
      if Present(entries, key) {
        return Ok;
      }
      var rollback := holds;
      var funds;
      if auction.Some? {
        holds := CaptureHolds(holds, auction.value, buyer);
        funds := Settled(entries, User(buyer));
      } else {
        funds := AvailableTo(buyer);
      }
      if funds < amount {
        holds := rollback;
        return Threw(InsufficientFunds(buyer, funds, amount));
      }
      NewKeyFits(entries, legs, key);
      var posted := PostEntries(legs);
      r := Ok;
    }

    /** Pay an escrowed order out. Release and refund share one key, so at most one of them
        ever posts for an order. */
    method EscrowRelease(seller: nat, amount: nat, order: nat, chainLegs: seq<ChainLeg>)
        returns (r: Outcome<LedgerError>)
      requires Valid()
      modifies this`entries, this`transfers
      ensures Valid()
      ensures Charged(old(entries), entries, r, seller, amount, Some(EscrowSettleKey(order)), amount,
                NonZero(EscrowReleaseLegs(order, seller, amount)))
      ensures forall a :: Settled(entries, a) == Settled(old(entries), a)
                + if Applies(old(entries), amount, Some(EscrowSettleKey(order)), amount) then PayoutChange(seller, amount, a) else 0
      ensures transfers == if Applies(old(entries), amount, Some(EscrowSettleKey(order)), amount)
                           then Enqueue(old(transfers), chainLegs) else old(transfers)
    {
      if amount <= 0 {
        return Threw(InvalidAmount(amount));
      }
      var key := Some(EscrowSettleKey(order));
      if !Present(entries, key) {
        var legs := EscrowReleaseLegs(order, seller, amount);
        ReleaseMovesTheAmount(order, seller, amount, Fee);
        KeyedMoveFits(entries, legs, 0, EscrowSettleKey(order));
        var posted := PostEntries(legs);
        transfers := Enqueue(transfers, chainLegs);
        forall a
          ensures Settled(entries, a) == Settled(old(entries), a) + PayoutChange(seller, amount, a)
        {
          ReleasePays(old(entries), order, seller, amount, a);
        }
      }
      r := Ok;
    }

    /** Give the buyer everything back. */
    method EscrowRefund(buyer: nat, amount: int, order: nat, chainLegs: seq<ChainLeg>) returns (r: Outcome<LedgerError>)
      requires Valid()
      modifies this`entries, this`transfers
      ensures Valid()
      ensures Charged(old(entries), entries, r, buyer, amount, Some(EscrowSettleKey(order)), amount, EscrowRefundLegs(order, buyer, amount))
      ensures Handed(old(entries), entries, Account.Escrow, User(buyer),
                if Applies(old(entries), amount, Some(EscrowSettleKey(order)), amount) then amount else 0)
      ensures transfers == if Applies(old(entries), amount, Some(EscrowSettleKey(order)), amount)
                           then Enqueue(old(transfers), chainLegs) else old(transfers)
    {
      if amount <= 0 {
        return Threw(InvalidAmount(amount));
      }
      var key := Some(EscrowSettleKey(order));
      if Present(entries, key) {
        return Ok;
      }
      var legs := EscrowRefundLegs(order, buyer, amount);
      NewKeyFits(entries, legs, key);
      var posted := PostEntries(legs);
      transfers := Enqueue(transfers, chainLegs);
      r := Ok;
      forall a { RefundMovesTheAmount(order, buyer, amount, a); }
      ChargeHands(old(entries), entries, r, buyer, amount, key, amount, legs, Account.Escrow, User(buyer));
    }
  }

  lemma ReleasePays(before: seq<Entry>, order: nat, seller: nat, amount: nat, a: Account)
    ensures Settled(before + NonZero(EscrowReleaseLegs(order, seller, amount)), a) ==
            Settled(before, a) + PayoutChange(seller, amount, a)
  {
    var legs := EscrowReleaseLegs(order, seller, amount);
    SettledConcat(before, NonZero(legs), a);
    NonZeroKeepsBalances(legs, a);
    ReleaseMoves(order, seller, amount, a);
  }

  /** Two opposite legs, the key (if any) on one of them. */
  predicate TwoLegCharge(legs: seq<Entry>, key: Option<Key>) {
    && |legs| == 2
    && legs[0].amount == -legs[1].amount != 0
    && (legs[0].key, legs[1].key) in {(key, None), (None, key)}
  }

  /** Legs with a key nobody has posted can be written. */
  lemma KeyedMoveFits(entries: seq<Entry>, legs: seq<Entry>, i: nat, k: Key)
    requires UniqueKeys(entries) && !KeyPosted(entries, k) && KeyedAt(legs, i, k)
    ensures UniqueKeys(entries + NonZero(legs))
  {
    var j := KeyedLegIsWritten(legs, i, k);
  }

  lemma NewKeyFits(entries: seq<Entry>, legs: seq<Entry>, key: Option<Key>)
    requires UniqueKeys(entries) && !Present(entries, key) && TwoLegCharge(legs, key)
    ensures Total(legs) == 0 && NonZero(legs) == legs && UniqueKeys(entries + legs)
  {
    TwoLegs(legs, Fee);
    assert NonZero(legs[..1]) == legs[..1] by {
      assert legs[..1][..0] == [];
    }
    assert legs[..1] + [legs[1]] == legs;
  }
}
