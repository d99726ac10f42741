/** Why replaying a keyed operation is harmless (packages/backend/src/ledger.ts).
    Callers look up the key, then post in a transaction; between the two, any other
    caller may run. The lookup may even be skipped: the unique key alone decides. */
module Replay {
  import opened Schema
  import opened Books

  /** One ledger operation: its legs, and its idempotency key if it has one. */
  datatype Op = Op(key: Option<Key>, legs: seq<Entry>)

  ghost predicate WellFormed(op: Op) {
    if op.key.Some? then KeyedMove(op.legs, op.key.value)
    else Total(op.legs) == 0 && Unkeyed(op.legs)
  }

  /** `Look` is the lookup before the transaction (`looks` false: not done at all);
      `Post` is the transaction, `funded` telling whether its funds check passes. */
  datatype Event =
    | Look(caller: nat, op: Op, looks: bool)
    | Post(caller: nat, funded: bool)

  /** `waiting` holds the calls between lookup and transaction; `returned` the calls that
      came back without throwing, oldest first. */
  datatype State = State(entries: seq<Entry>, waiting: map<nat, Op>, returned: seq<Op>)

  const Start := State([], map[], [])

  ghost function Exec(s: State, e: Event): State {
    match e
    case Look(c, op, looks) =>
      if c in s.waiting || !WellFormed(op) then s
      else if looks && Present(s.entries, op.key) then s.(returned := s.returned + [op])
      else s.(waiting := s.waiting[c := op])
    case Post(c, funded) =>
      if c !in s.waiting then s
      else
        var op := s.waiting[c];
        var left := s.(waiting := s.waiting - {c});
        if !funded then left
        else if Present(s.entries, op.key) then left.(returned := s.returned + [op])
        else left.(entries := s.entries + NonZero(op.legs), returned := s.returned + [op])
  }

  ghost function Run(events: seq<Event>): State {
    if events == [] then Start
    else Exec(Run(events[..|events| - 1]), events[|events| - 1])
  }

  // ---------------------------------------------------------------------------
  // The reference: apply each distinct key once
  // ---------------------------------------------------------------------------

  predicate HasKey(ops: seq<Op>, k: Key) {
    exists i :: 0 <= i < |ops| && ops[i].key == Some(k)
  }

  /** The calls without every later call that repeats a key. */
  function FirstOnly(calls: seq<Op>): seq<Op> {
    if calls == [] then []
    else
      var kept := FirstOnly(calls[..|calls| - 1]);
      var last := calls[|calls| - 1];
      if last.key.Some? && HasKey(kept, last.key.value) then kept else kept + [last]
  }

  /** The balance of an account when the operations simply run one after the other. */
  function Applied(ops: seq<Op>, a: Account): int {
    if ops == [] then 0
    else Applied(ops[..|ops| - 1], a) + Settled(ops[|ops| - 1].legs, a)
  }

  ghost predicate Inv(s: State) {
    && (forall c | c in s.waiting :: WellFormed(s.waiting[c]))
    && (forall i | 0 <= i < |s.returned| :: WellFormed(s.returned[i]))
    && UniqueKeys(s.entries)
    && Total(s.entries) == 0
    && (forall k :: KeyPosted(s.entries, k) <==> HasKey(FirstOnly(s.returned), k))
    && (forall a :: Settled(s.entries, a) == Applied(FirstOnly(s.returned), a))
  }

  lemma AppendCall(calls: seq<Op>, op: Op)
    ensures FirstOnly(calls + [op]) ==
            if op.key.Some? && HasKey(FirstOnly(calls), op.key.value) then FirstOnly(calls)
            else FirstOnly(calls) + [op]
  {
    assert (calls + [op])[..|calls|] == calls;
  }

  lemma AppendKey(ops: seq<Op>, op: Op, k: Key)
    ensures HasKey(ops + [op], k) <==> HasKey(ops, k) || op.key == Some(k)
  {
    if HasKey(ops, k) {
      var i :| 0 <= i < |ops| && ops[i].key == Some(k);
      assert (ops + [op])[i].key == Some(k);
    }
    assert (ops + [op])[|ops|] == op;
  }

  /** Writing an operation whose key is new adds that key and no other. */
  lemma WrittenKeys(entries: seq<Entry>, op: Op)
    requires WellFormed(op) && UniqueKeys(entries) && !Present(entries, op.key)
    ensures UniqueKeys(entries + NonZero(op.legs))
    ensures forall k :: KeyPosted(entries + NonZero(op.legs), k) <==> KeyPosted(entries, k) || op.key == Some(k)
  {
    var w := NonZero(op.legs);
    var after := entries + w;
    if op.key.Some? {
      var i: nat :| KeyedAt(op.legs, i, op.key.value);
      var j := KeyedLegIsWritten(op.legs, i, op.key.value);
      assert after[|entries| + j] == w[j];
    } else {
      UnkeyedStaysUnkeyed(op.legs);
    }
    forall k
      ensures KeyPosted(after, k) <==> KeyPosted(entries, k) || op.key == Some(k)
    {
      if KeyPosted(entries, k) {
        var i :| 0 <= i < |entries| && entries[i].key == Some(k);
        assert after[i].key == Some(k);
      }
      if KeyPosted(after, k) {
        var i :| 0 <= i < |after| && after[i].key == Some(k);
        assert i < |entries| || after[i] == w[i - |entries|];
      }
    }
  }

  /** A call that takes effect. */
  lemma FirstPostKeepsInv(s: State, op: Op)
    requires Inv(s) && WellFormed(op) && !Present(s.entries, op.key)
    ensures Inv(s.(entries := s.entries + NonZero(op.legs), returned := s.returned + [op]))
  {
    var kept := FirstOnly(s.returned);
    AppendCall(s.returned, op);
    assert FirstOnly(s.returned + [op]) == kept + [op];
    WrittenKeys(s.entries, op);
    forall k { AppendKey(kept, op, k); }
    TotalConcat(s.entries, NonZero(op.legs));
    NonZeroKeepsBalances(op.legs, Escrow);
    forall a
      ensures Settled(s.entries + NonZero(op.legs), a) == Applied(kept + [op], a)
    {
      SettledConcat(s.entries, NonZero(op.legs), a);
      NonZeroKeepsBalances(op.legs, a);
      assert (kept + [op])[..|kept|] == kept;
    }
  }

  lemma ExecKeepsInv(s: State, e: Event)
    requires Inv(s)
    ensures Inv(Exec(s, e))
  {
    match e
    case Look(c, op, looks) =>
      if c !in s.waiting && WellFormed(op) && looks && Present(s.entries, op.key) {
        AppendCall(s.returned, op);
      }
    case Post(c, funded) =>
      if c in s.waiting && funded {
        var op := s.waiting[c];
        if Present(s.entries, op.key) {
          AppendCall(s.returned, op);
        } else {
          FirstPostKeepsInv(s, op);
        }
      }
  }

  lemma {:induction false} RunKeepsInv(events: seq<Event>)
    ensures Inv(Run(events))
  {
    if events != [] {
      RunKeepsInv(events[..|events| - 1]);
      ExecKeepsInv(Run(events[..|events| - 1]), events[|events| - 1]);
    }
  }

  lemma {:induction false} EveryKeyIsKept(calls: seq<Op>, i: nat)
    requires i < |calls| && calls[i].key.Some?
    ensures HasKey(FirstOnly(calls), calls[i].key.value)
  {
    var n := |calls| - 1;
    var kept := FirstOnly(calls[..n]);
    if i < n {
      EveryKeyIsKept(calls[..n], i);
      AppendKey(kept, calls[n], calls[i].key.value);
    } else {
      AppendKey(kept, calls[n], calls[i].key.value);
    }
  }

  /** Over every interleaving of repeated calls, two callers past the lookup included: each
      balance is what running every distinct key once gives, the books sum to zero, no key
      is written twice, and no call that returned has lost its keyed row. */
  lemma ReplayRefinesOnce(events: seq<Event>)
    ensures var s := Run(events);
            && (forall a :: Settled(s.entries, a) == Applied(FirstOnly(s.returned), a))
            && Total(s.entries) == 0
            && UniqueKeys(s.entries)
            && (forall i | 0 <= i < |s.returned| && s.returned[i].key.Some? ::
                KeyPosted(s.entries, s.returned[i].key.value))
  {
    RunKeepsInv(events);
    var s := Run(events);
    forall i | 0 <= i < |s.returned| && s.returned[i].key.Some?
      ensures KeyPosted(s.entries, s.returned[i].key.value)
    {
      EveryKeyIsKept(s.returned, i);
    }
  }

  lemma TwoLegMove(legs: seq<Entry>, i: nat, k: Key)
    requires |legs| == 2 && legs[0].amount == -legs[1].amount && KeyedAt(legs, i, k)
    ensures WellFormed(Op(Some(k), legs))
  {
    TwoLegs(legs, Fee);
  }

  /** Every keyed operation of the ledger has the shape the argument needs, as soon as its
      amount is positive - the check each of them makes first. */
  lemma OperationsAreWellFormed(id: nat, k: Key, buyer: nat, seller: nat, amount: nat)
    requires amount > 0
    ensures WellFormed(Op(Some(k), CreditLegs(buyer, amount, Some(k))))
    ensures WellFormed(Op(Some(k), DebitLegs(buyer, amount, Some(k))))
    ensures WellFormed(Op(Some(DirectSaleKey(id)), DirectSaleLegs(id, buyer, seller, amount)))
    ensures WellFormed(Op(Some(ShippingKey(id)), ShippingLegs(id, buyer, amount)))
    ensures WellFormed(Op(Some(EscrowLockKey(id)), EscrowLockLegs(id, buyer, amount)))
    ensures WellFormed(Op(Some(EscrowSettleKey(id)), EscrowReleaseLegs(id, seller, amount)))
    ensures WellFormed(Op(Some(EscrowSettleKey(id)), EscrowRefundLegs(id, buyer, amount)))
  {
    TwoLegMove(CreditLegs(buyer, amount, Some(k)), 1, k);
    TwoLegMove(DebitLegs(buyer, amount, Some(k)), 0, k);
    TwoLegMove(DirectSaleLegs(id, buyer, seller, amount), 0, DirectSaleKey(id));
    TwoLegMove(ShippingLegs(id, buyer, amount), 0, ShippingKey(id));
    TwoLegMove(EscrowLockLegs(id, buyer, amount), 0, EscrowLockKey(id));
    TwoLegMove(EscrowRefundLegs(id, buyer, amount), 0, EscrowSettleKey(id));
    var release := EscrowReleaseLegs(id, seller, amount);
    ReleaseMovesTheAmount(id, seller, amount, Fee);
    assert KeyedAt(release, 0, EscrowSettleKey(id));
  }
}
