/** The class that runs withdrawals (packages/backend/src/withdrawals.ts): the request, the
    settle loop, the reversal and the reconciler's pass. Other calls may be suspended in the
    middle of their own work; what they still owe is the ghost map `calls`. */
module WithdrawalRail {
  import opened Schema
  import opened Books
  import opened Withdrawals
  import L = Ledger

  const INLINE_SETTLE_ATTEMPTS := 3
  const BATCH := 200

  datatype Rejection = BadAddress | TooSmall | InternalAddress | OverDailyCap | TooManyToday | TooManyNewDestinations

  datatype RequestResult = Rejected(why: Rejection) | DebitThrew(payout: nat, error: LedgerError) | Begun(payout: nat)

  /** The checks a request goes through, in their order. */
  function RejectionOf(limits: Limits, rows: seq<Payout>, now: int, user: nat, amount: int,
                       validAddress: bool, internalAddress: bool, needsFunding: bool): Option<Rejection> {
    if !validAddress then Some(BadAddress)
    else if amount < limits.floor then Some(TooSmall)
    else if internalAddress then Some(InternalAddress)
    else if WindowTotal(Dollars, rows, user, now - 24 * 3_600_000, now) + amount > limits.cap then Some(OverDailyCap)
    else if WindowTotal(Starts, rows, user, now - 24 * 3_600_000, now) >= limits.countCap then Some(TooManyToday)
    else if needsFunding && WindowTotal(NewDestinations, rows, user, now - 24 * 3_600_000, now) >= limits.newDestinationCap
      then Some(TooManyNewDestinations)
    else None
  }

  /** The oldest rows still waiting for an answer, at most `limit` of them. */
  function UnsettledRows(rows: seq<Payout>, limit: nat): (r: seq<nat>)
    ensures |r| <= limit
    ensures forall k | 0 <= k < |r| :: r[k] < |rows| && Unsettled(rows[r[k]]) && rows[r[k]].sig.Some?
    ensures forall j, k | 0 <= j < k < |r| :: r[j] < r[k]
  {
    if rows == [] then []
    else
      var n := |rows| - 1;
      var rest := UnsettledRows(rows[..n], limit);
      if |rest| < limit && Unsettled(rows[n]) && rows[n].sig.Some? then rest + [n] else rest
  }

  /** Every withdrawal that was sent and has no answer is listed, unless the list is full of
      older ones. */
  lemma {:induction false} OldestWithdrawalsFirst(rows: seq<Payout>, limit: nat)
    ensures forall i | 0 <= i < |rows| && rows[i].status in {PayoutSubmitted, PayoutNeedsReview} && rows[i].sig.Some?
                       && i !in UnsettledRows(rows, limit) ::
              var list := UnsettledRows(rows, limit);
              |list| == limit && forall k | 0 <= k < limit :: list[k] < i
  {
    if rows != [] {
      var n := |rows| - 1;
      OldestWithdrawalsFirst(rows[..n], limit);
      var rest, all := UnsettledRows(rows[..n], limit), UnsettledRows(rows, limit);
      assert all != rest ==> all[|rest|] == n;
      forall i | 0 <= i < |rows| && rows[i].status in {PayoutSubmitted, PayoutNeedsReview} && rows[i].sig.Some? && i !in all
        ensures |all| == limit && forall k | 0 <= k < limit :: all[k] < i
      {
        if i < n {
          assert rows[..n][i] == rows[i];
          assert forall k | 0 <= k < |rest| :: all[k] == rest[k];
        }
      }
    }
  }

  /** Only row `w` may differ, and not in what the request fixed. */
  predicate OnlyRow(before: seq<Payout>, after: seq<Payout>, w: nat) {
    && |after| == |before|
    && (forall v | 0 <= v < |before| && v != w :: after[v] == before[v])
    && (w < |before| ==> SameRequest(before[w], after[w]))
  }

  /** One broadcast of the row more, or none if the send throws. */
  predicate SentOnce(before: seq<Tx>, after: seq<Tx>, w: nat, sendThrows: bool) {
    && |after| == |before| + (if sendThrows then 0 else 1)
    && (forall g | 0 <= g < |before| :: after[g].payout == before[g].payout)
    && (!sendThrows ==> after[|before|].payout == w)
  }

  /** How an accepted request has ended: its debit thrown and the row failed; or debited and
      sent once - the row submitted, confirmed, or found dead and reversed - or reversed
      because the send threw. The user has paid exactly if it has not failed. */
  ghost predicate Ended(r: RequestResult, s: State, s': State, available: int, sendThrows: bool, answers: seq<(nat, Fate)>,
                        answers': seq<(nat, Fate)>) {
    && !r.Rejected? && r.payout < |s'.rows|
    && var (w, p) := (r.payout, s'.rows[r.payout]);
       && L.Handed(s.entries, s'.entries, User(p.user), External, if r.Begun? && p.status != PayoutFailed then p.amount else 0)
       && (r.DebitThrew? ==>
             p.status == PayoutFailed && s'.txs == s.txs && s'.entries == s.entries && (p.amount <= 0 || available < p.amount))
       && (r.Begun? ==>
             && DebitPosted(s', w) && 0 < p.amount <= available && SentOnce(s.txs, s'.txs, w, sendThrows)
             && (sendThrows ==> p.status == PayoutFailed)
             && (!sendThrows ==>
                   p.sig == Some(|s.txs|) && AskedUntil(answers, answers', |s.txs|, 3, p.status != PayoutSubmitted))
             && match p.status
                case PayoutConfirmed => HasLanded(s'.txs, w) && !ReversalPosted(s', w)
                case PayoutFailed => AllDropped(s'.txs, w) && ReversalPosted(s', w)
                case PayoutSubmitted => !ReversalPosted(s', w)
                case _ => false)
  }

  predicate SameRequest(p: Payout, q: Payout) {
    p.user == q.user && p.amount == q.amount && p.createdAt == q.createdAt && p.funded == q.funded
  }

  /** The chain was asked about `sig` only, until it gave a definite answer, `attempts` times
      at most. */
  predicate AskedUntil(before: seq<(nat, Fate)>, after: seq<(nat, Fate)>, sig: nat, attempts: nat, resolved: bool) {
    && |before| <= |after| <= |before| + attempts && after[..|before|] == before
    && (forall i | |before| <= i < |after| :: after[i].0 == sig)
    && (forall i | |before| <= i < |after| - (if resolved then 1 else 0) :: after[i].1 == Unknown)
    && (if resolved then |after| > |before| && after[|after| - 1].1 != Unknown else |after| == |before| + attempts)
  }

  /** What an answer makes of a row. A transfer found dead leaves the row failed, unless an
      earlier reversal had been flagged over. No answer for half an hour asks for review, if
      the reconciler looks. */
  predicate AfterAnswer(was: Payout, p: Payout, fate: Fate, now: int) {
    match fate
    case Confirmed => p == was.(status := PayoutConfirmed)
    case Dead => if was.reversedAt.Some? then p == was else p == was.(status := PayoutFailed, reversedAt := Some(now))
    case Unknown =>
      p == was.(status := if was.status == PayoutSubmitted && now - was.createdAt > 30 * 60_000 then PayoutNeedsReview else was.status)
  }

  predicate Terminal(p: Payout) {
    p.status == PayoutConfirmed || p.status == PayoutFailed
  }

  class WithdrawalRail {
    const ledger: L.Ledger
    const limits: Limits
    var now: int
    var rows: seq<Payout>
    var txs: seq<Tx>
    ghost var calls: map<nat, Call>
    ghost var elsewhere: int
    // what the chain was asked about, and what it answered
    ghost var answers: seq<(nat, Fate)>

    constructor (ledger: L.Ledger, limits: Limits, now: int)
      requires ledger.Valid() && ledger.entries == []
      ensures this.ledger == ledger && this.limits == limits && rows == [] && txs == [] && Valid()
    {
      this.ledger, this.limits, this.now := ledger, limits, now;
      rows, txs, calls, elsewhere, answers := [], [], map[], 0, [];
      new;
      InitialIsReached(View());
    }

    ghost function View(): State
      reads this, ledger
    {
      State(limits, now, rows, ledger.entries, txs, calls, elsewhere)
    }

    /** What is stored right now was reached by a run of the withdrawal machine, so every
        guarantee of its runs holds here. */
    ghost predicate Valid()
      reads this, ledger
    {
      ledger.Valid() && Reached(View())
    }

    /** Time passes. */
    method Elapse(ms: nat)
      requires Valid()
      modifies this`now
      ensures Valid() && now == old(now) + ms
    {
      ghost var s := View();
      now := now + ms;
      Goes(s, Pass(ms), View());
    }

    /** The chain decides some broadcasts. */
    method ChainDecides()
      requires Valid()
      modifies this`txs
      ensures Valid() && |txs| == |old(txs)|
      ensures forall g | 0 <= g < |txs| :: txs[g].payout == old(txs)[g].payout
    {
      var g := 0;
      while g < |txs|
        invariant 0 <= g <= |txs| == |old(txs)|
        invariant Valid()
        invariant forall g | 0 <= g < |txs| :: txs[g].payout == old(txs)[g].payout
      {
        if txs[g].state == InFlight {
          ghost var s := View();
          if * {
            txs := txs[g := txs[g].(state := Landed)];
            Goes(s, Land(g), View());
          } else if * {
            txs := txs[g := txs[g].(state := Dropped)];
            Goes(s, Drop(g), View());
          }
        }
        g := g + 1;
      }
    }

    method GetTransferStatus(sig: nat) returns (fate: Fate)
      requires sig < |txs|
      modifies this`answers
      ensures Truthful(fate, txs[sig]) && answers == old(answers) + [(sig, fate)]
    {
      fate := Unknown;
      if * {
        fate := match txs[sig].state
          case InFlight => Unknown
          case Landed => Confirmed
          case Dropped => Dead;
      }
      answers := answers + [(sig, fate)];
    }

    /** Hand the money back and mark the row failed - unless it is confirmed, or reversed
        already. Only ever called about a transfer that is dead for good. */
    method ReverseWithdrawal(w: nat, ghost c: nat)
      requires Valid() && w < |rows| && c in calls && calls[c] == WillReverse(w)
      modifies this`rows, this`calls, ledger`entries
      ensures Valid() && calls == old(calls) - {c}
      ensures OnlyRow(old(rows), rows, w)
      ensures old(rows[w].status == PayoutConfirmed || rows[w].reversedAt.Some?) ==>
                rows == old(rows) && ledger.entries == old(ledger.entries)
      ensures L.Handed(old(ledger.entries), ledger.entries, External, User(rows[w].user),
                if ReversalPosted(View(), w) && !old(ReversalPosted(View(), w)) then rows[w].amount else 0)
      ensures !old(rows[w].status == PayoutConfirmed || rows[w].reversedAt.Some?) ==>
                && rows[w] == old(rows)[w].(status := PayoutFailed, reversedAt := Some(now))
                && ReversalPosted(View(), w)
                && ledger.entries == if old(ReversalPosted(View(), w)) then old(ledger.entries)
                                     else old(ledger.entries) + CreditLegs(rows[w].user, rows[w].amount, Some(WithdrawReverseKey(w)))
    {
      var done := rows[w].status == PayoutConfirmed || rows[w].reversedAt.Some?;
      ReadRow(w, c);
      if !done {
        CreditBack(w, c);
        MarkRowFailed(w, c);
      }
      ReversalHands(old(ledger.entries), rows[w].user, rows[w].amount, w);
    }

    lemma ReversalHands(before: seq<Entry>, user: nat, amount: int, w: nat)
      ensures L.Handed(before, before + CreditLegs(user, amount, Some(WithdrawReverseKey(w))), External, User(user), amount)
      ensures L.Handed(before, before, External, User(user), 0)
    {
      var legs := CreditLegs(user, amount, Some(WithdrawReverseKey(w)));
      forall a
        ensures Settled(before + legs, a) == Settled(before, a) + Change(External, User(user), amount, a)
      {
        SettledConcat(before, legs, a);
        CreditMoves(user, amount, Some(WithdrawReverseKey(w)), a);
      }
    }

    ghost method ReadRow(w: nat, c: nat)
      requires Valid() && w < |rows| && c in calls && calls[c] == WillReverse(w)
      modifies this`calls
      ensures Valid()
      ensures calls == if rows[w].status == PayoutConfirmed
              || rows[w].reversedAt.Some? then old(calls) - {c} else old(calls)[c := WillCredit(w)]
    {
      var s := View();
      calls := if rows[w].status == PayoutConfirmed
        || rows[w].reversedAt.Some? then calls - {c} else calls[c := WillCredit(w)];
      Goes(s, ReadForReversal(c), View());
    }

    /** The reversing credit; its key makes it happen once. */
    method CreditBack(w: nat, ghost c: nat)
      requires Valid() && w < |rows| && c in calls && calls[c] == WillCredit(w)
      modifies this`calls, ledger`entries
      ensures Valid() && calls == old(calls)[c := WillMarkFailed(w)]
      ensures KeyPosted(ledger.entries, WithdrawReverseKey(w))
      ensures ledger.entries == if KeyPosted(old(ledger.entries), WithdrawReverseKey(w)) then old(ledger.entries)
                                else old(ledger.entries) + CreditLegs(rows[w].user, rows[w].amount, Some(WithdrawReverseKey(w)))
    {
      ghost var s := View();
      WillReverseIsDead(s, c);
      var posted := ledger.Credit(rows[w].user, rows[w].amount, Some(WithdrawReverseKey(w)));
      CreditIsPosted(s.entries, rows[w].user, rows[w].amount, WithdrawReverseKey(w));
      calls := calls[c := WillMarkFailed(w)];
      Goes(s, PostReversal(c), View());
    }

    method MarkRowFailed(w: nat, ghost c: nat)
      requires Valid() && w < |rows| && c in calls && calls[c] == WillMarkFailed(w)
      modifies this`rows, this`calls
      ensures Valid() && calls == old(calls) - {c}
      ensures rows == old(rows)[w := old(rows)[w].(status := PayoutFailed, reversedAt := Some(now))]
    {
      ghost var s := View();
      rows := rows[w := rows[w].(status := PayoutFailed, reversedAt := Some(now))];
      calls := calls - {c};
      Goes(s, MarkFailed(c), View());
    }

    /** Ask the chain up to `attempts` times, and act on the first definite answer: a landed
        transfer is confirmed, a dead one reversed. Without one nothing changes, and the
        call still owes an answer. */
    method SettleWithdrawal(w: nat, sig: nat, attempts: nat, ghost c: nat) returns (resolved: bool)
      requires Valid() && w < |rows| && c in calls && calls[c].Asking? && calls[c].payout == w && calls[c].sig == sig
      requires Unsettled(rows[w])
      modifies this`rows, this`txs, this`calls, this`answers, ledger`entries
      ensures Valid() && |txs| == |old(txs)| && forall g | 0 <= g < |txs| :: txs[g].payout == old(txs)[g].payout
      ensures OnlyRow(old(rows), rows, w)
      ensures AskedUntil(old(answers), answers, sig, attempts, resolved)
      ensures resolved ==> |answers| > 0 && AfterAnswer(old(rows)[w], rows[w], answers[|answers| - 1].1, now)
      ensures !resolved ==> rows == old(rows) && ledger.entries == old(ledger.entries) && calls == old(calls)
      ensures resolved ==> calls == old(calls) - {c}
      ensures resolved && HasLanded(txs, w) ==>
                rows[w].status == PayoutConfirmed && ledger.entries == old(ledger.entries) && !ReversalPosted(View(), w)
      ensures resolved && !HasLanded(txs, w) ==>
                AllDropped(txs, w) && ReversalPosted(View(), w)
                && (rows[w].status == PayoutFailed
                    || (old(rows[w].reversedAt.Some?) && rows[w] == old(rows[w])
                        && rows[w].status == PayoutNeedsReview))
      ensures rows[w].sig == old(rows[w].sig)
      ensures L.Handed(old(ledger.entries), ledger.entries, External, User(rows[w].user),
                if ReversalPosted(View(), w) && !old(ReversalPosted(View(), w)) then rows[w].amount else 0)
    {
      NothingReversed(ledger.entries, rows[w].user);
      var i := 0;
      while i < attempts
        invariant Valid() && |txs| == |old(txs)| && forall g | 0 <= g < |txs| :: txs[g].payout == old(txs)[g].payout
        invariant rows == old(rows) && ledger.entries == old(ledger.entries) && calls == old(calls)
        invariant i <= attempts && AskedUntil(old(answers), answers, sig, i, false)
      {
        SigIsOnChain(View(), c);
        var fate := GetTransferStatus(sig);
        if fate != Unknown {
          ActOn(w, sig, fate, c);
          return true;
        }
        ChainDecides();
        i := i + 1;
      }
      return false;
    }

    /** A definite answer: the row is confirmed, or the withdrawal reversed. */
    method ActOn(w: nat, sig: nat, fate: Fate, ghost c: nat)
      requires Valid() && w < |rows| && c in calls && calls[c].Asking? && calls[c].payout == w && calls[c].sig == sig
      requires Unsettled(rows[w]) && sig < |txs| && Truthful(fate, txs[sig]) && fate != Unknown
      modifies this`rows, this`calls, ledger`entries
      ensures Valid() && calls == old(calls) - {c}
      ensures OnlyRow(old(rows), rows, w) && AfterAnswer(old(rows)[w], rows[w], fate, now)
      ensures HasLanded(txs, w) ==>
                rows[w].status == PayoutConfirmed && ledger.entries == old(ledger.entries) && !ReversalPosted(View(), w)
      ensures !HasLanded(txs, w) ==>
                AllDropped(txs, w) && ReversalPosted(View(), w)
                && (rows[w].status == PayoutFailed
                    || (old(rows[w].reversedAt.Some?) && rows[w] == old(rows[w])
                        && rows[w].status == PayoutNeedsReview))
      ensures rows[w].sig == old(rows[w].sig)
      ensures L.Handed(old(ledger.entries), ledger.entries, External, User(rows[w].user),
                if ReversalPosted(View(), w) && !old(ReversalPosted(View(), w)) then rows[w].amount else 0)
    {
      SigIsOnChain(View(), c);
      if fate == Confirmed {
        NothingReversed(ledger.entries, rows[w].user);
        MarkLanded(w, sig, c);
      } else {
        ghost var s := View();
        calls := calls[c := WillReverse(w)];
        Goes(s, Ask(c, Dead), View());
        WillReverseIsDead(View(), c);
        ReverseWithdrawal(w, c);
      }
    }

    lemma NothingReversed(before: seq<Entry>, user: nat)
      ensures L.Handed(before, before, External, User(user), 0)
    {
    }

    /** The transfer landed: the row is confirmed, if no reversal came first - and none can. */
    method MarkLanded(w: nat, sig: nat, ghost c: nat)
      requires Valid() && w < |rows| && c in calls && calls[c].Asking? && calls[c].payout == w && calls[c].sig == sig
      requires sig < |txs| && txs[sig].state == Landed && Unsettled(rows[w])
      modifies this`rows, this`calls
      ensures Valid() && calls == old(calls) - {c}
      ensures rows == old(rows)[w := old(rows)[w].(status := PayoutConfirmed)]
      ensures HasLanded(txs, w) && !ReversalPosted(View(), w)
    {
      ghost var s := View();
      SigIsOnChain(s, c);
      assert txs[sig] == Tx(w, Landed);
      calls := calls[c := HeardConfirmed(w)];
      Goes(s, Ask(c, Confirmed), View());
      s := View();
      if Unsettled(rows[w]) && rows[w].reversedAt == None {
        rows := rows[w := rows[w].(status := PayoutConfirmed)];
      }
      calls := calls - {c};
      Goes(s, MarkConfirmed(c), View());
    }

    /** A withdrawal request: checked, recorded, debited, sent once, recorded as sent, and
        settled at once if the chain is quick. `sendThrows`: the send throws, and nothing goes
        out. */
    method RequestWithdrawal(user: nat, amount: int, validAddress: bool, internalAddress: bool, needsFunding: bool,
        sendThrows: bool, ghost c: nat)
      returns (r: RequestResult)
      requires Valid() && c !in calls
      modifies this`rows, this`txs, this`calls, this`answers, ledger`entries
      ensures Valid()
      ensures match old(RejectionOf(limits, rows, now, user, amount, validAddress, internalAddress, needsFunding))
              case Some(why) => r == Rejected(why) && rows == old(rows) && txs == old(txs)
                && ledger.entries == old(ledger.entries)
              case None =>
                && !r.Rejected? && r.payout == |old(rows)| && |rows| == |old(rows)| + 1
                && (forall v | 0 <= v < |old(rows)| :: rows[v] == old(rows)[v])
                && SameRequest(rows[r.payout], Payout(user, amount, PayoutPending, None, None, now, needsFunding))
                && Ended(r, old(View()), View(), old(ledger.AvailableTo(user)), sendThrows, old(answers), answers)
    {
      var why := CheckRequest(user, amount, validAddress, internalAddress, needsFunding);
      if why.Some? {
        return Rejected(why.value);
      }
      r := CarryOut(user, amount, needsFunding, sendThrows, c);
    }

    /** An accepted request: record it, debit, send. */
    method CarryOut(user: nat, amount: int, needsFunding: bool, sendThrows: bool, ghost c: nat) returns (r: RequestResult)
      requires Valid() && c !in calls && WithinLimits(limits, rows, now, user, amount, needsFunding)
      modifies this`rows, this`txs, this`calls, this`answers, ledger`entries
      ensures Valid() && !r.Rejected? && r.payout == |old(rows)| && |rows| == |old(rows)| + 1
      ensures forall v | 0 <= v < |old(rows)| :: rows[v] == old(rows)[v]
      ensures SameRequest(rows[r.payout], Payout(user, amount, PayoutPending, None, None, now, needsFunding))
      ensures Ended(r, old(View()), View(), old(ledger.AvailableTo(user)), sendThrows, old(answers), answers)
    {
      CreateRow(user, amount, needsFunding, c);
      r := DebitAndSend(user, amount, |rows| - 1, sendThrows, c);
    }

    method DebitAndSend(user: nat, amount: int, w: nat, sendThrows: bool, ghost c: nat) returns (r: RequestResult)
      requires Valid() && w < |rows| && c in calls && calls[c] == Created(w) && rows[w].user == user && rows[w].amount == amount
      modifies this`rows, this`txs, this`calls, this`answers, ledger`entries
      ensures Valid() && !r.Rejected? && r.payout == w && OnlyRow(old(rows), rows, w)
      ensures Ended(r, old(View()), View(), old(ledger.AvailableTo(user)), sendThrows, old(answers), answers)
    {
      NothingHanded(ledger.entries, user);
      var debit := DebitRow(w, c);
      if debit.Threw? {
        return DebitThrew(w, debit.error);
      }
      DebitHands(old(ledger.entries), user, amount, w);
      Broadcast(w, sendThrows, c);
      r := Begun(w);
    }

    method CheckRequest(user: nat, amount: int, validAddress: bool, internalAddress: bool, needsFunding: bool)
      returns (why: Option<Rejection>)
      ensures why == RejectionOf(limits, rows, now, user, amount, validAddress, internalAddress, needsFunding)
    {
      if !validAddress {
        return Some(BadAddress);
      }
      if amount < limits.floor {
        return Some(TooSmall);
      }
      if internalAddress {
        return Some(InternalAddress);
      }
      if WindowTotal(Dollars, rows, user, now - DAY_MS, now) + amount > limits.cap {
        return Some(OverDailyCap);
      }
      if WindowTotal(Starts, rows, user, now - DAY_MS, now) >= limits.countCap {
        return Some(TooManyToday);
      }
      if needsFunding && WindowTotal(NewDestinations, rows, user, now - DAY_MS, now) >= limits.newDestinationCap {
        return Some(TooManyNewDestinations);
      }
      why := None;
    }

    lemma NothingHanded(before: seq<Entry>, user: nat)
      ensures L.Handed(before, before, User(user), External, 0)
    {
    }

    lemma DebitHands(before: seq<Entry>, user: nat, amount: int, w: nat)
      ensures L.Handed(before, before + DebitLegs(user, amount, Some(WithdrawKey(w))), User(user), External, amount)
    {
      var legs := DebitLegs(user, amount, Some(WithdrawKey(w)));
      forall a
        ensures Settled(before + legs, a) == Settled(before, a) + Change(User(user), External, amount, a)
      {
        SettledConcat(before, legs, a);
        DebitMoves(user, amount, Some(WithdrawKey(w)), a);
      }
    }

    /** The row, under the user's lock. */
    method CreateRow(user: nat, amount: int, needsFunding: bool, ghost c: nat)
      requires Valid() && c !in calls && WithinLimits(limits, rows, now, user, amount, needsFunding)
      modifies this`rows, this`calls
      ensures Valid() && calls == old(calls)[c := Created(|old(rows)|)]
      ensures rows == old(rows) + [Payout(user, amount, PayoutPending, None, None, now, needsFunding)]
    {
      ghost var s := View();
      calls := calls[c := Created(|rows|)];
      rows := rows + [Payout(user, amount, PayoutPending, None, None, now, needsFunding)];
      Goes(s, Create(c, user, amount, needsFunding), View());
    }

    /** Debit first: this is where overspending is refused. */
    method DebitRow(w: nat, ghost c: nat) returns (debit: Outcome<LedgerError>)
      requires Valid() && w < |rows| && c in calls && calls[c] == Created(w)
      modifies this`rows, this`calls, ledger`entries
      ensures Valid()
      ensures |rows| == |old(rows)|
      ensures debit == Ok <==> rows[w].amount > 0 && old(ledger.AvailableTo(rows[w].user)) >= rows[w].amount
      ensures debit == Ok ==>
                && rows == old(rows) && calls == old(calls)[c := Debited(w)]
                && ledger.entries == old(ledger.entries) + DebitLegs(rows[w].user, rows[w].amount, Some(WithdrawKey(w)))
      ensures debit != Ok ==>
                && rows == old(rows)[w := old(rows)[w].(status := PayoutFailed)] && calls == old(calls) - {c}
                && ledger.entries == old(ledger.entries)
    {
      ghost var s := View();
      RequestFacts(s, c);
      debit := ledger.Debit(rows[w].user, rows[w].amount, Some(WithdrawKey(w)));
      if debit.Threw? {
        calls := calls[c := DebitRejected(w)];
        Goes(s, RejectDebit(c), View());
        s := View();
        rows := rows[w := rows[w].(status := PayoutFailed)];
        calls := calls - {c};
        Goes(s, MarkRejected(c), View());
        return;
      }
      calls := calls[c := Debited(w)];
      Goes(s, PostDebit(c), View());
    }

    /** Broadcast a debited withdrawal. A throw comes before broadcast, so it is reversed;
        otherwise it is submitted, and settled inline if the chain answers in time. */
    method Broadcast(w: nat, sendThrows: bool, ghost c: nat)
      requires Valid() && w < |rows| && c in calls && calls[c] == Debited(w)
      modifies this`rows, this`txs, this`calls, this`answers, ledger`entries
      ensures Valid() && OnlyRow(old(rows), rows, w)
      ensures SentOnce(old(txs), txs, w, sendThrows) && (sendThrows ==> rows[w].status == PayoutFailed)
      ensures !sendThrows ==>
                && rows[w].sig == Some(|old(txs)|)
                && AskedUntil(old(answers), answers, |old(txs)|, 3, rows[w].status != PayoutSubmitted)
      ensures DebitPosted(View(), w)
      ensures L.Handed(old(ledger.entries), ledger.entries, External, User(rows[w].user),
                if rows[w].status == PayoutFailed then rows[w].amount else 0)
      ensures match rows[w].status
              case PayoutConfirmed => HasLanded(txs, w) && !ReversalPosted(View(), w)
              case PayoutFailed => AllDropped(txs, w) && ReversalPosted(View(), w)
              case PayoutSubmitted => !ReversalPosted(View(), w) && rows[w].sig.Some?
              case _ => false
    {
      RequestFacts(View(), c);
      if sendThrows {
        SendThrew(w, c);
        ReverseWithdrawal(w, c);
        ReversedWasDebited(View(), w);
        return;
      }
      var sig := SendAndSubmit(w, c);
      var resolved := SettleWithdrawal(w, sig, INLINE_SETTLE_ATTEMPTS, c);
      SentFacts(View(), w);
      if !resolved {
        StopAsking(w, c);
      }
    }

    ghost method SendThrew(w: nat, c: nat)
      requires Valid() && w < |rows| && c in calls && calls[c] == Debited(w)
      modifies this`calls
      ensures Valid() && calls == old(calls)[c := WillReverse(w)]
      ensures DebitPosted(View(), w) && AllDropped(txs, w)
    {
      var s := View();
      calls := calls[c := WillReverse(w)];
      Goes(s, SendThrows(c), View());
      WillReverseIsDead(View(), c);
    }

    ghost method StopAsking(w: nat, c: nat)
      requires Valid() && w < |rows| && c in calls && calls[c].Asking? && calls[c].payout == w
      modifies this`calls
      ensures Valid() && calls == old(calls) - {c}
    {
      var s := View();
      calls := calls - {c};
      Goes(s, GiveUp(c), View());
    }

    /** The broadcast went out: its signature is recorded, and from here on the transfer may
        land. */
    method SendAndSubmit(w: nat, ghost c: nat) returns (sig: nat)
      requires Valid() && w < |rows| && c in calls && calls[c] == Debited(w)
      modifies this`rows, this`txs, this`calls
      ensures Valid() && sig == |old(txs)| && SentOnce(old(txs), txs, w, false)
      ensures rows == old(rows)[w := old(rows)[w].(status := PayoutSubmitted, sig := Some(sig))]
      ensures calls == old(calls)[c := Asking(w, sig, false)]
      ensures !ReversalPosted(View(), w)
    {
      ghost var s := View();
      RequestFacts(s, c);
      sig := |txs|;
      txs := txs + [Tx(w, InFlight)];
      calls := calls[c := Sent(w, sig)];
      Goes(s, Send(c), View());
      MarkRowSubmitted(w, sig, c);
    }

    method MarkRowSubmitted(w: nat, sig: nat, ghost c: nat)
      requires Valid() && w < |rows| && c in calls && calls[c] == Sent(w, sig)
      modifies this`rows, this`calls
      ensures Valid() && calls == old(calls)[c := Asking(w, sig, false)]
      ensures rows == old(rows)[w := old(rows)[w].(status := PayoutSubmitted, sig := Some(sig))]
    {
      ghost var s := View();
      rows := rows[w := rows[w].(status := PayoutSubmitted, sig := Some(sig))];
      calls := calls[c := Asking(w, sig, false)];
      Goes(s, MarkSubmitted(c), View());
    }

    /** The reconciler's look at one row: settle it once, and flag it for review if it has
        been submitted for too long without an answer. */
    method CheckRow(w: nat, ghost c: nat) returns (settled: bool)
      requires Valid() && c !in calls && w < |rows| && Unsettled(rows[w]) && rows[w].sig.Some?
      modifies this`rows, this`txs, this`calls, this`answers, ledger`entries
      ensures Valid() && calls == old(calls)
      ensures OnlyRow(old(rows), rows, w)
      ensures settled <==> Terminal(rows[w])
      ensures |answers| == |old(answers)| + 1 && answers[..|old(answers)|] == old(answers)
      ensures answers[|old(answers)|].0 == old(rows)[w].sig.value
              && AfterAnswer(old(rows)[w], rows[w], answers[|old(answers)|].1, now)
    {
      var sig := rows[w].sig.value;
      StartAsking(w, c);
      var resolved := SettleWithdrawal(w, sig, 1, c);
      settled := Terminal(rows[w]);
      if resolved {
        assert calls == old(calls);
      } else if rows[w].status == PayoutSubmitted && now - rows[w].createdAt > STUCK_MS {
        FlagRow(w, c);
      } else {
        StopAsking(w, c);
      }
    }

    ghost method StartAsking(w: nat, c: nat)
      requires Valid() && c !in calls && w < |rows| && Unsettled(rows[w]) && rows[w].sig.Some?
      modifies this`calls
      ensures Valid() && calls == old(calls)[c := Asking(w, rows[w].sig.value, rows[w].status == PayoutSubmitted)]
    {
      var s := View();
      calls := calls[c := Asking(w, rows[w].sig.value, rows[w].status == PayoutSubmitted)];
      Goes(s, BeginSettle(c, w, true), View());
    }

    /** Unresolved for too long: an operator should look. The debit stays. */
    method FlagRow(w: nat, ghost c: nat)
      requires Valid() && w < |rows| && c in calls && calls[c].Asking? && calls[c].payout == w && calls[c].mayFlag
      requires now - rows[w].createdAt > STUCK_MS
      modifies this`rows, this`calls
      ensures Valid() && calls == old(calls) - {c}
      ensures rows == old(rows)[w := old(rows)[w].(status := PayoutNeedsReview)]
    {
      ghost var s := View();
      calls := calls[c := WillFlag(w)];
      Goes(s, FindStuck(c), View());
      s := View();
      rows := rows[w := rows[w].(status := PayoutNeedsReview)];
      calls := calls - {c};
      Goes(s, MarkNeedsReview(c), View());
    }

    /** The next row of a pass. */
    method CheckNext(ghost start: seq<Payout>, list: seq<nat>, k: nat, ghost n: nat, ghost c: nat) returns (settled: nat)
      requires Valid() && c !in calls && k < |list|
      requires list == UnsettledRows(start, BATCH) && PassSoFar(start, rows, list, k, now, n, answers)
      modifies this`rows, this`txs, this`calls, this`answers, ledger`entries
      ensures Valid() && calls == old(calls)
      ensures PassSoFar(start, rows, list, k + 1, now, n, answers)
      ensures TerminalCount(rows, list[..k + 1]) == TerminalCount(old(rows), list[..k]) + settled
    {
      ghost var before, asked := rows, answers;
      StillUnsettled(start, rows, list, k, now, n, answers);
      var one := CheckRow(list[k], c);
      PassGoesOn(start, before, rows, list, k, now, n, asked, answers);
      CountNext(before, rows, list, k);
      settled := if one then 1 else 0;
    }

    /** One pass over the oldest unsettled rows. It counts those that reached a terminal
        state, leaves no listed row submitted past the review threshold, and touches no
        other row. */
    method Tick(ghost c: nat) returns (settled: nat)
      requires Valid() && c !in calls
      modifies this`rows, this`txs, this`calls, this`answers, ledger`entries
      ensures Valid() && calls == old(calls)
      ensures var list := UnsettledRows(old(rows), 200);
              && PassSoFar(old(rows), rows, list, |list|, now, |old(answers)|, answers)
              && settled == |EndedRows(rows, list)|
    {
      var list := UnsettledRows(rows, BATCH);
      settled := 0;
      var k := 0;
      while k < |list|
        invariant 0 <= k <= |list| && Valid() && calls == old(calls)
        invariant PassSoFar(old(rows), rows, list, k, now, |old(answers)|, answers)
        invariant settled == TerminalCount(rows, list[..k])
      {
        var one := CheckNext(old(rows), list, k, |old(answers)|, c);
        settled := settled + one;
        k := k + 1;
      }
      assert list[..k] == list;
      CountIsTheNumber(rows, list);
    }
  }

  /** The listed rows that have reached a terminal state. */
  function EndedRows(rows: seq<Payout>, list: seq<nat>): set<nat> {
    set w | w in list && w < |rows| && (rows[w].status == PayoutConfirmed || rows[w].status == PayoutFailed)
  }

  lemma {:induction false} CountIsTheNumber(rows: seq<Payout>, list: seq<nat>)
    requires forall k | 0 <= k < |list| :: list[k] < |rows|
    requires forall j, k | 0 <= j < k < |list| :: list[j] < list[k]
    ensures TerminalCount(rows, list) == |EndedRows(rows, list)|
  {
    if list == [] {
      assert EndedRows(rows, list) == {};
    } else {
      var n := |list| - 1;
      var w := list[n];
      CountIsTheNumber(rows, list[..n]);
      assert list == list[..n] + [w];
      OneMoreEnded(rows, list[..n], w);
    }
  }

  lemma OneMoreEnded(rows: seq<Payout>, list: seq<nat>, w: nat)
    requires w < |rows| && w !in list
    ensures |EndedRows(rows, list + [w])| == |EndedRows(rows, list)|
              + if rows[w].status == PayoutConfirmed || rows[w].status == PayoutFailed then 1 else 0
  {
    var before, after := EndedRows(rows, list), EndedRows(rows, list + [w]);
    assert w !in before;
    assert after == if w in after then before + {w} else before;
  }

  /** What the pass has done when it has looked at the first `k` of its list: it has asked
      about each of them once, in turn, and done what the answer asks for. */
  ghost predicate PassSoFar(start: seq<Payout>, rows: seq<Payout>, list: seq<nat>, k: nat, now: int, n: nat, answers: seq<(nat, Fate)>)
    requires k <= |list|
  {
    && |rows| == |start| && |answers| == n + k
    && (forall v | 0 <= v < |rows| && NotAmong(list, k, v) :: rows[v] == start[v])
    && (forall j | 0 <= j < k :: Checked(start, rows, list[j], answers[n + j], now))
  }

  /** What the reconciler makes of a row it has asked about. */
  predicate Checked(start: seq<Payout>, rows: seq<Payout>, w: nat, answer: (nat, Fate), now: int) {
    w < |rows| == |start| && start[w].sig == Some(answer.0) && AfterAnswer(start[w], rows[w], answer.1, now)
  }

  lemma StillUnsettled(start: seq<Payout>, rows: seq<Payout>, list: seq<nat>, k: nat, now: int, n: nat, answers: seq<(nat, Fate)>)
    requires k < |list| && list == UnsettledRows(start, BATCH) && PassSoFar(start, rows, list, k, now, n, answers)
    ensures list[k] < |rows| && rows[list[k]] == start[list[k]]
  {
    assert NotAmong(list, k, list[k]);
  }

  lemma PassGoesOn(start: seq<Payout>, before: seq<Payout>, rows: seq<Payout>, list: seq<nat>, k: nat, now: int, n: nat,
                   asked: seq<(nat, Fate)>, answers: seq<(nat, Fate)>)
    requires k < |list| && list == UnsettledRows(start, BATCH) && PassSoFar(start, before, list, k, now, n, asked)
    requires OnlyRow(before, rows, list[k]) && |answers| == |asked| + 1 && answers[..|asked|] == asked
    requires Checked(before, rows, list[k], answers[|asked|], now)
    ensures PassSoFar(start, rows, list, k + 1, now, n, answers)
  {
    assert NotAmong(list, k, list[k]);
    forall v | 0 <= v < |rows| && NotAmong(list, k + 1, v)
      ensures rows[v] == start[v]
    {
      assert NotAmong(list, k, v);
    }
    forall j | 0 <= j < k
      ensures Checked(start, rows, list[j], answers[n + j], now)
    {
      assert Checked(start, before, list[j], asked[n + j], now);
      assert answers[..|asked|][n + j] == answers[n + j];
    }
  }

  /** Row `v` is not one of the first `k` on the list. */
  predicate NotAmong(list: seq<nat>, k: nat, v: nat)
    requires k <= |list|
  {
    forall j | 0 <= j < k :: list[j] != v
  }

  function TerminalCount(rows: seq<Payout>, list: seq<nat>): nat
    requires forall k | 0 <= k < |list| :: list[k] < |rows|
  {
    if list == [] then 0
    else TerminalCount(rows, list[..|list| - 1]) + (if Terminal(rows[list[|list| - 1]]) then 1 else 0)
  }

  lemma {:induction false} SameCount(before: seq<Payout>, after: seq<Payout>, list: seq<nat>)
    requires |after| == |before| && forall k | 0 <= k < |list| :: list[k] < |before| && after[list[k]] == before[list[k]]
    ensures TerminalCount(before, list) == TerminalCount(after, list)
  {
    if list != [] {
      SameCount(before, after, list[..|list| - 1]);
    }
  }

  lemma CountNext(before: seq<Payout>, after: seq<Payout>, list: seq<nat>, k: nat)
    requires k < |list| && (forall j | 0 <= j <= k :: list[j] < |before|) && OnlyRow(before, after, list[k])
    requires forall j | 0 <= j < k :: list[j] != list[k]
    ensures TerminalCount(after, list[..k + 1]) ==
            TerminalCount(before, list[..k]) + (if Terminal(after[list[k]]) then 1 else 0)
  {
    SameCount(before, after, list[..k]);
    assert list[..k + 1][..k] == list[..k];
  }

  // What a reached state says about one call.

  lemma SigIsOnChain(s: State, c: nat)
    requires Reached(s) && c in s.calls && s.calls[c].Asking?
    ensures At(s, c) && s.calls[c].sig < |s.txs| && s.txs[s.calls[c].sig].payout == s.calls[c].payout
    ensures s.txs[s.calls[c].sig].state == Landed ==>
              HasLanded(s.txs, s.calls[c].payout) && !ReversalPosted(s, s.calls[c].payout)
                && s.rows[s.calls[c].payout].reversedAt == None
  {
    ReachedIsSafe(s);
    var w := s.calls[c].payout;
    assert At(s, c) && CallSafe(s.calls[c], s.rows[w], s.entries, s.txs) && RowSafe(s.rows[w], w, s.entries, s.txs);
    assert s.txs[s.calls[c].sig].state == Landed ==> s.txs[s.calls[c].sig] == Tx(w, Landed);
  }

  lemma WillReverseIsDead(s: State, c: nat)
    requires Reached(s) && c in s.calls && (s.calls[c].WillReverse? || s.calls[c].WillCredit?)
    ensures At(s, c)
    ensures var w := s.calls[c].payout;
            && DebitPosted(s, w) && AllDropped(s.txs, w) && s.rows[w].amount > 0
            && (s.rows[w].reversedAt.Some? ==> ReversalPosted(s, w) && s.rows[w].status != PayoutSubmitted)
            && s.rows[w].status != PayoutConfirmed
  {
    ReachedIsSafe(s);
    var w := s.calls[c].payout;
    assert At(s, c) && CallSafe(s.calls[c], s.rows[w], s.entries, s.txs) && RowSafe(s.rows[w], w, s.entries, s.txs);
  }

  lemma CreditIsPosted(entries: seq<Entry>, user: nat, amount: int, k: Key)
    ensures KeyPosted(entries + CreditLegs(user, amount, Some(k)), k)
  {
    assert (entries + CreditLegs(user, amount, Some(k)))[|entries| + 1].key == Some(k);
  }

  lemma RequestFacts(s: State, c: nat)
    requires Reached(s) && c in s.calls && Requesting(s.calls[c])
    ensures At(s, c)
    ensures var w := s.calls[c].payout;
            && s.rows[w].status == PayoutPending && s.rows[w].reversedAt == None
            && !ReversalPosted(s, w)
            && (s.calls[c].Created? ==> !DebitPosted(s, w))
            && (s.calls[c].Debited? ==> DebitPosted(s, w))
  {
    ReachedIsSafe(s);
    var w := s.calls[c].payout;
    assert At(s, c) && CallSafe(s.calls[c], s.rows[w], s.entries, s.txs) && RowSafe(s.rows[w], w, s.entries, s.txs);
  }

  lemma ReversedWasDebited(s: State, w: nat)
    requires Reached(s) && w < |s.rows| && ReversalPosted(s, w)
    ensures DebitPosted(s, w)
  {
    ReachedIsSafe(s);
    assert RowSafe(s.rows[w], w, s.entries, s.txs);
  }

  lemma SentFacts(s: State, w: nat)
    requires Reached(s) && w < |s.rows| && s.rows[w].sig.Some?
    ensures DebitPosted(s, w)
    ensures s.rows[w].status == PayoutConfirmed ==> HasLanded(s.txs, w) && !ReversalPosted(s, w)
  {
    ReachedIsSafe(s);
    assert RowSafe(s.rows[w], w, s.entries, s.txs);
    var g := s.rows[w].sig.value;
    assert s.txs[g].payout == w;
    assert s.rows[w].status == PayoutConfirmed ==> s.txs[g] == Tx(w, Landed);
  }
}
