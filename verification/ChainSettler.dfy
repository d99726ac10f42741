/** The class that drives the outbox (packages/backend/src/chain-settle.ts), and the audit
    of the wallets against the ledger (packages/backend/src/audit.ts). */
module ChainSettler {
  import opened Schema
  import opened Books
  import opened Outbox
  import opened OutboxTheorems
  import opened OutboxCrashes
  import P = Prices
  import L = Ledger

  const BATCH := 200

  /** What was asked of the chain, and what it answered. */
  datatype Call = Sent(row: nat, result: Option<nat>) | Asked(sig: nat, fate: Fate)

  /** The chain as its client sees it. Broadcasts are decided behind the caller's back. */
  class Chain {
    const cfg: Addresses
    var txs: seq<Tx>
    var balances: map<nat, int>
    ghost var log: seq<Call>

    constructor (cfg: Addresses)
      ensures this.cfg == cfg && txs == [] && balances == map[] && log == []
    {
      this.cfg := cfg;
      txs, balances, log := [], map[], [];
    }

    /** Throws only before broadcast: no signature, nothing sent. */
    method SendTransfer(row: nat) returns (sig: Option<nat>)
      modifies this`txs, this`log
      ensures log == old(log) + [Sent(row, sig)]
      ensures sig == None ==> txs == old(txs)
      ensures sig.Some? ==> sig.value == |old(txs)| && txs == old(txs) + [Tx(row, InFlight)]
    {
      sig := None;
      if * {
        sig := Some(|txs|);
        txs := txs + [Tx(row, InFlight)];
      }
      log := log + [Sent(row, sig)];
    }

    method GetTransferStatus(sig: nat) returns (fate: Fate)
      requires sig < |txs|
      modifies this`log
      ensures log == old(log) + [Asked(sig, fate)]
      ensures Truthful(fate, txs[sig])
    {
      fate := Unknown;
      if * {
        fate := match txs[sig].state
          case InFlight => Unknown
          case Landed => Confirmed
          case Dropped => Dead;
      }
      log := log + [Asked(sig, fate)];
    }
  }

  /** The oldest rows not confirmed yet, at most `limit` of them. */
  function OpenRows(transfers: seq<Transfer>, limit: nat): (r: seq<(nat, Transfer)>)
    ensures |r| <= limit && DistinctRows(r)
    ensures forall k | 0 <= k < |r| :: r[k].0 < |transfers| && transfers[r[k].0] == r[k].1 && OpenRow(r[k].1)
    ensures forall j, k | 0 <= j < k < |r| :: r[j].0 < r[k].0
  {
    if transfers == [] then []
    else
      var n := |transfers| - 1;
      var rest := OpenRows(transfers[..n], limit);
      if |rest| < limit && OpenRow(transfers[n]) then rest + [(n, transfers[n])] else rest
  }

  /** Every leg under way is listed, unless the list is full of older ones. */
  lemma {:induction false} OldestLegsFirst(transfers: seq<Transfer>, limit: nat)
    ensures forall i | 0 <= i < |transfers| && transfers[i].status in {TransferPending, TransferSubmitted}
                       && OffList(OpenRows(transfers, limit), i) ::
              var list := OpenRows(transfers, limit);
              |list| == limit && forall k | 0 <= k < limit :: list[k].0 < i
  {
    if transfers != [] {
      var n := |transfers| - 1;
      OldestLegsFirst(transfers[..n], limit);
      var rest, all := OpenRows(transfers[..n], limit), OpenRows(transfers, limit);
      assert all != rest ==> all[|rest|].0 == n;
      forall i | 0 <= i < |transfers| && transfers[i].status in {TransferPending, TransferSubmitted} && OffList(all, i)
        ensures |all| == limit && forall k | 0 <= k < limit :: all[k].0 < i
      {
        if i < n {
          assert transfers[..n][i] == transfers[i];
          assert forall k | 0 <= k < |rest| :: all[k] == rest[k];
        }
      }
    }
  }

  function ConfirmedCount(transfers: seq<Transfer>): nat {
    if transfers == [] then 0
    else ConfirmedCount(transfers[..|transfers| - 1]) + (if transfers[|transfers| - 1].status == TransferConfirmed then 1 else 0)
  }

  lemma {:induction false} CountUpdate(transfers: seq<Transfer>, row: nat, t: Transfer)
    requires row < |transfers| && transfers[row].status != TransferConfirmed
    ensures ConfirmedCount(transfers[row := t]) ==
            ConfirmedCount(transfers) + (if t.status == TransferConfirmed then 1 else 0)
  {
    var n := |transfers| - 1;
    var after := transfers[row := t];
    if row == n {
      assert after[..n] == transfers[..n];
    } else {
      assert after[..n] == transfers[..n][row := t];
      CountUpdate(transfers[..n], row, t);
    }
  }

  /** What the answer of the chain makes of a submitted leg: confirmed, or - found dead -
      pending again, or waiting on. */
  function Answered(t: Transfer, fate: Fate): Transfer {
    match fate
    case Confirmed => t.(status := TransferConfirmed)
    case Dead => t.(status := TransferPending, sig := None)
    case Unknown => t
  }

  /** What processing a leg does, in calls to the chain and in its row. A pending leg between
      wallets of one address is confirmed at once. Any other is sent once, and asked about
      if its signature was recorded - not if the write throws. A submitted one is asked about
      and never sent. */
  predicate Attended(row: nat, was: Transfer, t: Transfer, sameAddress: bool, throws: bool, calls: seq<Call>) {
    if was.status == TransferPending && sameAddress then calls == [] && t == was.(status := TransferConfirmed)
    else if was.status == TransferPending then
      && calls != [] && calls[0].Sent? && calls[0].row == row
      && var tried := was.(attempts := was.attempts + 1);
         || (|calls| == 1 && (calls[0].result == None || throws) && t == tried)
         || (|calls| == 2 && calls[0].result.Some? && !throws && calls[1].Asked? && calls[1].sig == calls[0].result.value
             && t == Answered(tried.(status := TransferSubmitted, sig := calls[0].result), calls[1].fate))
    else
      |calls| == 1 && calls[0].Asked? && was.sig == Some(calls[0].sig) && t == Answered(was, calls[0].fate)
  }

  predicate OneAddress(cfg: Addresses, leg: ChainLeg) {
    AddressOf(cfg, leg.from) == AddressOf(cfg, leg.to)
  }

  /** What a pass has done, and what it has asked of the chain, when it has been through the
      first `k` of the rows it read. */
  ghost predicate PassDid(cfg: Addresses, before: seq<Transfer>, after: seq<Transfer>, todo: seq<(nat, Transfer)>, k: nat,
                          failing: set<nat>, log: seq<Call>, log': seq<Call>)
    requires k <= |todo|
  {
    && |after| == |before| && |log| <= |log'|
    && (forall row | 0 <= row < |before| && OffList(todo[..k], row) :: after[row] == before[row])
    && (forall j | 0 <= j < k :: RowAttended(cfg, before, after, todo[j].0, failing, log', |log|))
  }

  /** The row was attended to by consecutive calls, the first of them not before call `from`. */
  ghost predicate RowAttended(cfg: Addresses, before: seq<Transfer>, after: seq<Transfer>, row: nat, failing: set<nat>,
                              log: seq<Call>, from: nat) {
    exists p: nat, q: nat :: AttendedBy(cfg, before, after, row, failing, log, from, p, q)
  }

  predicate AttendedBy(cfg: Addresses, before: seq<Transfer>, after: seq<Transfer>, row: nat, failing: set<nat>, log: seq<Call>,
                       from: nat, p: nat, q: nat) {
    && row < |before| == |after| && from <= p <= q <= |log|
    && Attended(row, before[row], after[row], OneAddress(cfg, before[row].leg), row in failing, log[p..q])
  }

  class ChainSettler {
    const ledger: L.Ledger
    const chain: Chain
    var running: bool
    ghost var uncredited: int
    ghost var leaving: int
    ghost var unrecorded: set<nat>

    constructor (ledger: L.Ledger, chain: Chain)
      requires ledger.Valid() && ledger.entries == [] && ledger.transfers == [] && chain.txs == []
               && chain.balances == map[]
      ensures this.ledger == ledger && this.chain == chain && !running && Valid()
    {
      this.ledger, this.chain := ledger, chain;
      running, uncredited, leaving, unrecorded := false, 0, 0, {};
      new;
      WideInitialIsReached(View(Idle));
    }

    ghost function View(settler: Settler): WideState
      reads this, ledger, chain
    {
      WideState(State(chain.cfg, ledger.entries, ledger.transfers, chain.txs, chain.balances, uncredited, leaving, settler), unrecorded)
    }

    /** What is stored right now was reached by a run of the wallet machine, unrecorded
        broadcasts included, so every guarantee of its runs holds here. */
    ghost predicate Valid()
      reads this, ledger, chain
    {
      ledger.Valid() && WideReached(View(Idle))
    }

    /** The chain decides some broadcasts; each that lands moves its leg's money. */
    method ChainDecides(ghost settler: Settler)
      requires ledger.Valid() && WideReached(View(settler))
      modifies chain`txs, chain`balances
      ensures ledger.Valid() && WideReached(View(settler))
      ensures |chain.txs| == |old(chain.txs)|
    {
      var g := 0;
      while g < |chain.txs|
        invariant 0 <= g <= |chain.txs| == |old(chain.txs)|
        invariant ledger.Valid() && WideReached(View(settler))
      {
        if chain.txs[g].state == InFlight {
          if * {
            LandOne(g, settler);
          } else if * {
            DropOne(g, settler);
          }
        }
        g := g + 1;
      }
    }

    /** A broadcast lands: its leg's money moves from address to address. */
    method LandOne(g: nat, ghost settler: Settler)
      requires ledger.Valid() && WideReached(View(settler)) && g < |chain.txs| && chain.txs[g].state == InFlight
      modifies chain`txs, chain`balances
      ensures ledger.Valid() && WideReached(View(settler)) && |chain.txs| == |old(chain.txs)|
    {
      ghost var s := View(settler);
      BroadcastHasRow(s, g);
      var leg := ledger.transfers[chain.txs[g].row].leg;
      Move(AddressOf(chain.cfg, leg.from), -leg.amount);
      Move(AddressOf(chain.cfg, leg.to), leg.amount);
      chain.txs := chain.txs[g := chain.txs[g].(state := Landed)];
      WideGoes(s, Plain(Land(g)), View(settler));
    }

    method Move(a: nat, amount: int)
      modifies chain`balances
      ensures chain.balances == old(chain.balances)[a := (if a in old(chain.balances) then old(chain.balances)[a] else 0) + amount]
    {
      chain.balances := chain.balances[a := (if a in chain.balances then chain.balances[a] else 0) + amount];
    }

    method DropOne(g: nat, ghost settler: Settler)
      requires ledger.Valid() && WideReached(View(settler)) && g < |chain.txs| && chain.txs[g].state == InFlight
      modifies chain`txs
      ensures ledger.Valid() && WideReached(View(settler)) && |chain.txs| == |old(chain.txs)|
    {
      ghost var s := View(settler);
      chain.txs := chain.txs[g := chain.txs[g].(state := Dropped)];
      WideGoes(s, Plain(Drop(g)), View(settler));
    }

    method Confirm(row: nat)
      requires row < |ledger.transfers|
      modifies ledger`transfers
      ensures ledger.transfers == old(ledger.transfers)[row := old(ledger.transfers)[row].(status := TransferConfirmed)]
    {
      ledger.transfers := ledger.transfers[row := ledger.transfers[row].(status := TransferConfirmed)];
    }

    /** Broadcast a pending row and record its signature. If the record fails the row waits on,
        as if nothing had been sent. */
    method Broadcast(row: nat, throws: bool, ghost todo: seq<(nat, Transfer)>)
      returns (sig: Option<nat>, ghost sent: Option<nat>)
      requires ledger.Valid() && WideReached(View(Ticking(todo, Between)))
      requires todo != [] && todo[0].0 == row && todo[0].1.status == TransferPending
      requires row < |ledger.transfers|
               && AddressOf(chain.cfg, ledger.transfers[row].leg.from) != AddressOf(chain.cfg, ledger.transfers[row].leg.to)
      modifies ledger`transfers, chain`txs, chain`log, this`unrecorded
      ensures ledger.Valid()
      ensures chain.log == old(chain.log) + [Sent(row, sent)] && sig == if throws then None else sent
      ensures |ledger.transfers| == |old(ledger.transfers)|
      ensures var t := old(ledger.transfers)[row];
              ledger.transfers[row] == if sig == None then t.(attempts := t.attempts + 1)
                else t.(status := TransferSubmitted, sig := sig, attempts := t.attempts + 1)
      ensures ledger.transfers == old(ledger.transfers)[row := ledger.transfers[row]]
      ensures chain.txs == old(chain.txs) || chain.txs == old(chain.txs) + [Tx(row, InFlight)]
      ensures unrecorded == if sig == None && chain.txs != old(chain.txs) then old(unrecorded) + {|old(chain.txs)|}
              else old(unrecorded)
      ensures WideReached(View(Ticking(todo[1..], if sig == None then Between else Asking(row, sig.value))))
    {
      ghost var s := View(Ticking(todo, Between));
      RowsAsRead(s);
      var t := ledger.transfers[row];
      sig := chain.SendTransfer(row);
      sent := sig;
      if sig == None {
        ledger.transfers := ledger.transfers[row := t.(attempts := t.attempts + 1)];
        WideGoes(s, Plain(SendFails), View(Ticking(todo[1..], Between)));
        return;
      }
      if throws {
        // the write throws: the attempt is noted, the signature is lost
        ledger.transfers := ledger.transfers[row := t.(attempts := t.attempts + 1)];
        unrecorded := unrecorded + {sig.value};
        WideGoes(s, Unrecorded(true), View(Ticking(todo[1..], Between)));
        sig := None;
        return;
      }
      ledger.transfers := ledger.transfers[row := t.(status := TransferSubmitted, sig := sig, attempts := t.attempts + 1)];
      WideGoes(s, Plain(Send), View(Ticking(todo[1..], Asking(row, sig.value))));
    }

    /** Ask the chain about a submitted row, and write down a definite answer. */
    method Resolve(row: nat, sig: nat, ghost todo: seq<(nat, Transfer)>) returns (confirmed: bool, ghost answer: Fate)
      requires ledger.Valid() && WideReached(View(Ticking(todo, Asking(row, sig))))
      modifies ledger`transfers, chain`log
      ensures ledger.Valid()
      ensures |ledger.transfers| == |old(ledger.transfers)| && row < |ledger.transfers|
      ensures ledger.transfers == old(ledger.transfers)[row := ledger.transfers[row]]
      ensures chain.log == old(chain.log) + [Asked(sig, answer)]
      ensures ledger.transfers[row] == Answered(old(ledger.transfers)[row], answer)
      ensures confirmed <==> ledger.transfers[row].status == TransferConfirmed
      ensures WideReached(View(Ticking(todo, Between)))
    {
      ghost var s := View(Ticking(todo, Asking(row, sig)));
      AskedRow(s);
      var fate := chain.GetTransferStatus(sig);
      answer := fate;
      ghost var heard := View(Ticking(todo, Heard(row, fate)));
      WideGoes(s, Plain(Ask(fate)), heard);
      var t := ledger.transfers[row];
      match fate {
        case Confirmed => Confirm(row);
        case Dead => ledger.transfers := ledger.transfers[row := t.(status := TransferPending, sig := None)];
        case Unknown =>
      }
      WideGoes(heard, Plain(Record), View(Ticking(todo, Between)));
      confirmed := fate == Confirmed;
    }

    /** One row: broadcast it if it is pending, then resolve it if the chain can tell. */
    method Process(row: nat, throws: bool, ghost todo: seq<(nat, Transfer)>)
      returns (confirmed: bool, ghost calls: seq<Call>)
      requires ledger.Valid() && WideReached(View(Ticking(todo, Between))) && todo != [] && todo[0].0 == row
      modifies ledger`transfers, chain`txs, chain`balances, chain`log, this`unrecorded
      ensures ledger.Valid() && WideReached(View(Ticking(todo[1..], Between)))
      ensures chain.log == old(chain.log) + calls
      ensures |ledger.transfers| == |old(ledger.transfers)| && row < |ledger.transfers|
      ensures ledger.transfers == old(ledger.transfers)[row := ledger.transfers[row]]
      ensures Attended(row, old(ledger.transfers)[row], ledger.transfers[row], OneAddress(chain.cfg, old(ledger.transfers)[row].leg), throws, calls)
      ensures confirmed <==> ledger.transfers[row].status == TransferConfirmed
      ensures old(ledger.transfers)[row].status == TransferSubmitted ==> |chain.txs| == |old(chain.txs)|
      ensures old(ledger.transfers)[row].status == TransferPending
              && AddressOf(chain.cfg, old(ledger.transfers)[row].leg.from) ==
                 AddressOf(chain.cfg, old(ledger.transfers)[row].leg.to)
              ==> confirmed && chain.txs == old(chain.txs) && chain.balances == old(chain.balances)
    {
      ghost var s := View(Ticking(todo, Between));
      RowsAsRead(s);
      var t := ledger.transfers[row];
      var sig := t.sig;
      calls := [];
      if t.status == TransferPending {
        if AddressOf(chain.cfg, t.leg.from) == AddressOf(chain.cfg, t.leg.to) {
          Confirm(row);
          WideGoes(s, Plain(ConfirmSameAddress), View(Ticking(todo[1..], Between)));
          return true, [];
        }
        ghost var sent;
        sig, sent := Broadcast(row, throws, todo);
        calls := [Sent(row, sent)];
        if sig == None {
          return false, calls;
        }
      } else {
        SubmittedHasSig(s);
        WideGoes(s, Plain(TakeSubmitted), View(Ticking(todo[1..], Asking(row, sig.value))));
      }
      ChainDecides(Ticking(todo[1..], Asking(row, sig.value)));
      ghost var fate;
      confirmed, fate := Resolve(row, sig.value, todo[1..]);
      calls := calls + [Asked(sig.value, fate)];
    }

    /** Process the next row of the list, keeping count. */
    method Advance(ghost start: seq<Transfer>, ghost log: seq<Call>, rows: seq<(nat, Transfer)>, k: nat,
        failing: set<nat>) returns (confirmed: nat)
      requires k < |rows| && Working(rows[k..]) && DistinctRows(rows) && PassDid(chain.cfg, start, ledger.transfers, rows, k, failing, log, chain.log)
      modifies ledger`transfers, chain`txs, chain`balances, chain`log, this`unrecorded
      ensures Working(rows[k + 1..]) && PassDid(chain.cfg, start, ledger.transfers, rows, k + 1, failing, log, chain.log)
      ensures ConfirmedCount(ledger.transfers) == ConfirmedCount(old(ledger.transfers)) + confirmed
    {
      ghost var before, was := ledger.transfers, chain.log;
      RowsAsRead(View(Ticking(rows[k..], Between)));
      var ok, calls := Process(rows[k].0, rows[k].0 in failing, rows[k..]);
      assert chain.log[|was|..|chain.log|] == calls;
      CountUpdate(before, rows[k].0, ledger.transfers[rows[k].0]);
      PassGoesOn(chain.cfg, start, before, ledger.transfers, rows, k, failing, log, was, chain.log);
      assert rows[k..][1..] == rows[k + 1..];
      confirmed := if ok then 1 else 0;
    }

    ghost predicate Working(todo: seq<(nat, Transfer)>)
      reads this, ledger, chain
    {
      ledger.Valid() && WideReached(View(Ticking(todo, Between)))
    }

    /** Every row of the list, in order. */
    method Pass(rows: seq<(nat, Transfer)>, failing: set<nat>) returns (confirmed: nat)
      requires Working(rows) && DistinctRows(rows)
      modifies ledger`transfers, chain`txs, chain`balances, chain`log, this`unrecorded
      ensures Working([])
      ensures ConfirmedCount(ledger.transfers) == ConfirmedCount(old(ledger.transfers)) + confirmed
      ensures PassDid(chain.cfg, old(ledger.transfers), ledger.transfers, rows, |rows|, failing, old(chain.log), chain.log)
    {
      confirmed := 0;
      var k := 0;
      assert rows[k..] == rows;
      while k < |rows|
        invariant 0 <= k <= |rows| && Working(rows[k..])
        invariant ConfirmedCount(ledger.transfers) == ConfirmedCount(old(ledger.transfers)) + confirmed
        invariant PassDid(chain.cfg, old(ledger.transfers), ledger.transfers, rows, k, failing, old(chain.log), chain.log)
      {
        var one := Advance(old(ledger.transfers), old(chain.log), rows, k, failing);
        confirmed := confirmed + one;
        k := k + 1;
      }
      assert rows[k..] == [];
    }

    /** One pass. A tick that finds another under way does nothing; otherwise it returns how
        many rows it confirmed, attends to every row it read - the oldest open ones - and to no
        other, changes no leg, and leaves every guarantee of the wallet machine standing.
        `failing` are the rows whose write after the send throws. */
    method Tick(failing: set<nat>) returns (confirmed: nat)
      requires Valid()
      modifies ledger`transfers, chain`txs, chain`balances, chain`log, this`running, this`unrecorded
      ensures Valid() && running == old(running)
      ensures old(running) ==>
                && confirmed == 0 && ledger.transfers == old(ledger.transfers)
                && chain.txs == old(chain.txs) && chain.balances == old(chain.balances) && chain.log == old(chain.log)
      ensures ConfirmedCount(ledger.transfers) == ConfirmedCount(old(ledger.transfers)) + confirmed
      ensures !old(running) ==>
                var list := OpenRows(old(ledger.transfers), 200);
                PassDid(chain.cfg, old(ledger.transfers), ledger.transfers, list, |list|, failing, old(chain.log), chain.log)
    {
      if running {
        return 0;
      }
      running := true;
      var rows := OpenRows(ledger.transfers, BATCH);
      PassBegins(rows);
      confirmed := Pass(rows, failing);
      PassEnds();
      running := false;
    }

    lemma PassBegins(rows: seq<(nat, Transfer)>)
      requires Valid() && rows == OpenRows(ledger.transfers, BATCH)
      ensures Working(rows)
    {
      WideGoes(View(Idle), Plain(BeginTick(rows)), View(Ticking(rows, Between)));
    }

    lemma PassEnds()
      requires Working([])
      ensures Valid()
    {
      WideGoes(View(Ticking([], Between)), Plain(EndTick), View(Idle));
    }
  }

  lemma PassGoesOn(cfg: Addresses, start: seq<Transfer>, before: seq<Transfer>, after: seq<Transfer>,
      todo: seq<(nat, Transfer)>, k: nat, failing: set<nat>, log: seq<Call>, log': seq<Call>, log'': seq<Call>)
    requires k < |todo| && DistinctRows(todo) && PassDid(cfg, start, before, todo, k, failing, log, log')
    requires |log'| <= |log''| && log''[..|log'|] == log'
    requires AttendedBy(cfg, before, after, todo[k].0, failing, log'', |log'|, |log'|, |log''|)
    requires after == before[todo[k].0 := after[todo[k].0]]
    ensures PassDid(cfg, start, after, todo, k + 1, failing, log, log'')
  {
    assert OffList(todo[..k], todo[k].0);
    forall row | 0 <= row < |start| && OffList(todo[..k + 1], row)
      ensures after[row] == start[row]
    {
      assert todo[..k + 1][k] == todo[k];
      assert forall j | 0 <= j < k :: todo[..k][j] == todo[..k + 1][j];
    }
    forall j | 0 <= j < k + 1
      ensures RowAttended(cfg, start, after, todo[j].0, failing, log'', |log|)
    {
      if j < k {
        var p: nat, q: nat :| AttendedBy(cfg, start, before, todo[j].0, failing, log', |log|, p, q);
        assert log''[p..q] == log''[..|log'|][p..q];
        assert AttendedBy(cfg, start, after, todo[j].0, failing, log'', |log|, p, q);
      } else {
        assert AttendedBy(cfg, start, after, todo[k].0, failing, log'', |log|, |log'|, |log''|);
      }
    }
  }

  // What a reached state says about the settler's work.

  lemma BroadcastHasRow(w: WideState, g: nat)
    requires WideReached(w) && g < |w.wallet.txs|
    ensures w.wallet.txs[g].row < |w.wallet.transfers|
  {
    WideReachedIsSafe(w);
  }

  lemma RowsAsRead(w: WideState)
    requires WideReached(w) && w.wallet.settler.Ticking? && w.wallet.settler.todo != []
    ensures var (row, t) := w.wallet.settler.todo[0];
            row < |w.wallet.transfers| && w.wallet.transfers[row] == t && OpenRow(t)
  {
    WideReachedIsSafe(w);
  }

  /** A submitted row has the signature to ask about. */
  lemma SubmittedHasSig(w: WideState)
    requires WideReached(w) && w.wallet.settler.Ticking? && w.wallet.settler.todo != []
    requires w.wallet.settler.todo[0].1.status == TransferSubmitted
    ensures w.wallet.settler.todo[0].1.sig.Some?
  {
    WideReachedIsSafe(w);
    assert RowOkBut(w.wallet, w.wallet.settler.todo[0].0, w.unrecorded);
  }

  lemma AskedRow(w: WideState)
    requires WideReached(w) && w.wallet.settler.Ticking? && w.wallet.settler.stage.Asking?
    ensures w.wallet.settler.stage.row < |w.wallet.transfers| && w.wallet.settler.stage.sig < |w.wallet.txs|
    ensures w.wallet.transfers[w.wallet.settler.stage.row].status == TransferSubmitted
  {
    WideReachedIsSafe(w);
  }

  // ---------------------------------------------------------------------------
  // Audit
  // ---------------------------------------------------------------------------

  datatype Recon = Recon(
    escrowDiff: int,
    buybackDiff: int,
    feeDiff: int,
    treasuryDiff: int,
    pendingLegs: nat,
    solPriced: bool,
    reconciled: bool)

  /** One account for every user with entries, each once. */
  predicate ListsUsers(entries: seq<Entry>, users: seq<nat>) {
    && (forall i, j | 0 <= i < j < |users| :: users[i] != users[j])
    && (forall i | 0 <= i < |entries| && entries[i].account.User? :: entries[i].account.id in users)
  }

  function SumOf(entries: seq<Entry>, users: seq<nat>): int {
    if users == [] then 0
    else SumOf(entries, users[..|users| - 1]) + Settled(entries, User(users[|users| - 1]))
  }

  lemma {:induction false} SumOfNothing(users: seq<nat>)
    ensures SumOf([], users) == 0
  {
    if users != [] {
      SumOfNothing(users[..|users| - 1]);
    }
  }

  /** One more ledger row changes the sum over distinct accounts once at most. */
  lemma {:induction false} SumOfOneMore(entries: seq<Entry>, e: Entry, users: seq<nat>)
    requires forall i, j | 0 <= i < j < |users| :: users[i] != users[j]
    ensures SumOf(entries + [e], users) ==
            SumOf(entries, users) + (if e.account.User? && e.account.id in users then e.amount else 0)
  {
    if users != [] {
      var n := |users| - 1;
      SumOfOneMore(entries, e, users[..n]);
      assert (entries + [e])[..|entries|] == entries;
      assert users == users[..n] + [users[n]];
    }
  }

  /** The audit's loop over the accounts finds every user's money. */
  lemma {:induction false} SumOfIsUserTotal(entries: seq<Entry>, users: seq<nat>)
    requires ListsUsers(entries, users)
    ensures SumOf(entries, users) == UserTotal(entries)
  {
    if entries == [] {
      SumOfNothing(users);
    } else {
      var n := |entries| - 1;
      SumOfIsUserTotal(entries[..n], users);
      assert entries == entries[..n] + [entries[n]];
      SumOfOneMore(entries[..n], entries[n], users);
    }
  }

  /** How many legs are still in flight. */
  function OpenCount(transfers: seq<Transfer>): nat {
    if transfers == [] then 0
    else OpenCount(transfers[..|transfers| - 1]) + (if OpenRow(transfers[|transfers| - 1]) then 1 else 0)
  }

  /** The rows that are open. */
  function StillOpen(transfers: seq<Transfer>): set<nat> {
    set row: nat | row < |transfers| && OpenRow(transfers[row])
  }

  lemma {:induction false} OpenCountIsTheNumber(transfers: seq<Transfer>)
    ensures OpenCount(transfers) == |StillOpen(transfers)|
  {
    if transfers == [] {
      assert StillOpen(transfers) == {};
    } else {
      var n := |transfers| - 1;
      OpenCountIsTheNumber(transfers[..n]);
      assert StillOpen(transfers) == StillOpen(transfers[..n]) + if OpenRow(transfers[n]) then {n} else {};
    }
  }

  /** The audit: the segregated wallets must match their accounts to the micro-unit, the
      treasury - its SOL valued at the spot price - must not be short; SOL that nobody
      prices leaves the audit unreconciled. */
  method ReconcileWallets(ledger: L.Ledger, chain: Chain, users: seq<nat>, solLamports: nat, price: Option<nat>)
      returns (r: Recon)
    requires ListsUsers(ledger.entries, users)
    ensures var s := State(chain.cfg, ledger.entries, ledger.transfers, chain.txs, chain.balances, 0, 0, Idle);
            var sol := if solLamports > 0 && price.Some?
              then P.LamportsToUsdcMicros(solLamports, price.value, 0) else 0;
            && r.escrowDiff == AuditDiff(s, EscrowWallet)
            && r.buybackDiff == AuditDiff(s, BuybackWallet)
            && r.feeDiff == AuditDiff(s, FeeWallet)
            && r.treasuryDiff == AuditDiff(s, Treasury) + sol
            && (r.solPriced <==> solLamports == 0 || price.Some?)
            && r.pendingLegs == |StillOpen(ledger.transfers)|
            && (r.reconciled <==> r.escrowDiff == 0 && r.buybackDiff == 0 && r.feeDiff == 0 && r.solPriced && r.treasuryDiff >= 0)
  {
    var userTotal := 0;
    var i := 0;
    while i < |users|
      invariant 0 <= i <= |users|
      invariant userTotal == SumOf(ledger.entries, users[..i])
    {
      assert users[..i + 1][..i] == users[..i];
      userTotal := userTotal + Settled(ledger.entries, User(users[i]));
      i := i + 1;
    }
    assert users[..i] == users;
    SumOfIsUserTotal(ledger.entries, users);
    OpenCountIsTheNumber(ledger.transfers);
    var sol, solPriced := 0, true;
    if solLamports > 0 {
      if price.Some? {
        sol := P.LamportsToUsdcMicros(solLamports, price.value, 0);
      } else {
        solPriced := false;
      }
    }
    var escrow := BalanceAt(chain, chain.cfg.escrow) - Settled(ledger.entries, Escrow);
    var buyback := BalanceAt(chain, chain.cfg.buyback) - Settled(ledger.entries, Platform);
    var fee := BalanceAt(chain, chain.cfg.fee) - Settled(ledger.entries, Fee);
    var treasury := BalanceAt(chain, chain.cfg.treasury) + sol - userTotal;
    r := Recon(escrow, buyback, fee, treasury, OpenCount(ledger.transfers), solPriced,
               escrow == 0 && buyback == 0 && fee == 0 && solPriced && treasury >= 0);
  }

  function BalanceAt(chain: Chain, a: nat): int
    reads chain
  {
    if a in chain.balances then chain.balances[a] else 0
  }
}
