/** What happens when the settler broadcasts a leg and does not get to record it - it crashes,
    or its write fails (packages/backend/src/chain-settle.ts). The row stays PENDING, and the
    next tick broadcasts the leg again. */
module OutboxCrashes {
  import opened Schema
  import opened Books
  import opened Outbox
  import opened OutboxTheorems

  /** `unrecorded` are the broadcasts that were never recorded. */
  datatype WideState = WideState(wallet: State, unrecorded: set<nat>)

  /** A step of the wallet machine, or a broadcast that is not recorded; `noted` if at least
      the failed attempt was. */
  datatype WideStep = Plain(step: Step) | Unrecorded(noted: bool)

  /** The broadcast goes out, and its row still waits. */
  ghost predicate SendsUnrecorded(s: State, noted: bool, s': State) {
    && AtRow(s) && s.settler.todo[0].1.status == TransferPending
    && var row := s.settler.todo[0].0;
       && !SameAddress(s, row)
       && s' == SetTransfer(s, row, s.transfers[row].(attempts := s.transfers[row].attempts + if noted then 1 else 0))
                  .(txs := s.txs + [Tx(row, InFlight)], settler := Ticking(s.settler.todo[1..], Between))
  }

  ghost predicate WideNext(w: WideState, step: WideStep, w': WideState) {
    match step
    case Plain(p) =>
      Next(w.wallet, p, w'.wallet) && w'.unrecorded == w.unrecorded
    case Unrecorded(noted) =>
      SendsUnrecorded(w.wallet, noted, w'.wallet) && w'.unrecorded == w.unrecorded + {|w.wallet.txs|}
  }

  ghost predicate CanWideStep(w: WideState, w': WideState) {
    exists step :: WideNext(w, step, w')
  }

  predicate WideInitial(w: WideState) {
    Initial(w.wallet) && w.unrecorded == {}
  }

  ghost predicate IsWideRun(run: seq<WideState>) {
    && run != [] && WideInitial(run[0])
    && forall i | 0 <= i < |run| - 1 :: CanWideStep(run[i], run[i + 1])
  }

  // ---------------------------------------------------------------------------
  // What landed, and what landed again
  // ---------------------------------------------------------------------------

  /** What the first `n` broadcasts have brought to address `a`. */
  function Brought(s: State, a: nat, n: nat): int
    requires TxRowsOk(s) && n <= |s.txs|
  {
    if n == 0 then 0
    else Brought(s, a, n - 1) + if s.txs[n - 1].state == Landed
      then NetInto(s.cfg, s.transfers[s.txs[n - 1].row].leg, a) else 0
  }

  /** What the first `n` legs bring if each one that has landed counts once. */
  function LandedOnce(s: State, a: nat, n: nat): int
    requires n <= |s.transfers|
  {
    if n == 0 then 0
    else LandedOnce(s, a, n - 1) + if HasLanded(s.txs, n - 1) then NetInto(s.cfg, s.transfers[n - 1].leg, a) else 0
  }

  /** What address `a` has received - or paid - by landing legs again. */
  function Surplus(s: State, a: nat): int
    requires TxRowsOk(s)
  {
    Brought(s, a, |s.txs|) - LandedOnce(s, a, |s.transfers|)
  }

  lemma {:induction false} BroughtSame(s: State, s': State, a: nat, n: nat)
    requires TxRowsOk(s) && TxRowsOk(s') && s'.cfg == s.cfg && n <= |s.txs| && n <= |s'.txs|
    requires forall g | 0 <= g < n ::
               && s'.transfers[s'.txs[g].row].leg == s.transfers[s.txs[g].row].leg
               && (s'.txs[g].state == Landed <==> s.txs[g].state == Landed)
    ensures Brought(s', a, n) == Brought(s, a, n)
  {
    if n > 0 {
      BroughtSame(s, s', a, n - 1);
    }
  }

  lemma {:induction false} BroughtMore(s: State, s': State, g: nat, a: nat, n: nat)
    requires TxRowsOk(s) && g < |s.txs| && n <= |s.txs| && s.txs[g].state == InFlight
    requires s'.transfers == s.transfers && s'.cfg == s.cfg && s'.txs == s.txs[g := s.txs[g].(state := Landed)]
    ensures TxRowsOk(s')
    ensures Brought(s', a, n) == Brought(s, a, n) + if g < n
            then NetInto(s.cfg, s.transfers[s.txs[g].row].leg, a) else 0
  {
    if n > 0 {
      BroughtMore(s, s', g, a, n - 1);
    }
  }

  lemma {:induction false} LandedOnceSame(s: State, s': State, a: nat, n: nat)
    requires n <= |s.transfers| && n <= |s'.transfers| && s.cfg == s'.cfg
    requires forall row | 0 <= row < n :: s.transfers[row].leg == s'.transfers[row].leg
    requires forall row | 0 <= row < n :: HasLanded(s.txs, row) == HasLanded(s'.txs, row)
    ensures LandedOnce(s, a, n) == LandedOnce(s', a, n)
  {
    if n > 0 {
      LandedOnceSame(s, s', a, n - 1);
    }
  }

  lemma {:induction false} LandedOnceMore(s: State, s': State, row: nat, a: nat, n: nat)
    requires row < |s.transfers| && n <= |s.transfers| && s'.transfers == s.transfers && s'.cfg == s.cfg
    requires !HasLanded(s.txs, row) && HasLanded(s'.txs, row)
    requires forall r: nat | r != row :: HasLanded(s.txs, r) == HasLanded(s'.txs, r)
    ensures LandedOnce(s', a, n) == LandedOnce(s, a, n) + if row < n then NetInto(s.cfg, s.transfers[row].leg, a) else 0
  {
    if n > 0 {
      LandedOnceMore(s, s', row, a, n - 1);
    }
  }

  lemma {:induction false} NothingLandedBeyond(s: State, a: nat, m: nat, n: nat)
    requires TxRowsOk(s) && m <= n <= |s.transfers| && forall row: nat | m <= row :: !HasLanded(s.txs, row)
    ensures LandedOnce(s, a, n) == LandedOnce(s, a, m)
  {
    if m < n {
      NothingLandedBeyond(s, a, m, n - 1);
    }
  }

  // ---------------------------------------------------------------------------
  // Each step
  // ---------------------------------------------------------------------------

  /** What a step other than a landing does to the rows and the broadcasts. */
  ghost predicate Lands(s: State, s': State) {
    && |s.transfers| <= |s'.transfers| && |s.txs| <= |s'.txs| && s'.cfg == s.cfg
    && (forall row | 0 <= row < |s.transfers| :: s'.transfers[row].leg == s.transfers[row].leg)
    && (forall g | 0 <= g < |s.txs| :: s'.txs[g].row == s.txs[g].row && (s'.txs[g].state == Landed <==> s.txs[g].state == Landed))
    && (forall g | |s.txs| <= g < |s'.txs| :: s'.txs[g].state == InFlight && s'.txs[g].row < |s.transfers|)
  }

  lemma BookLands(s: State, m: Move, s': State)
    requires Next(s, Book(m), s')
    ensures Lands(s, s')
  {
    EnqueueKeys(s.transfers, WalletLegs(m));
    assert forall row | 0 <= row < |s.transfers| :: s'.transfers[row] == s'.transfers[..|s.transfers|][row];
  }

  lemma PlainLands(s: State, step: Step, s': State)
    requires Next(s, step, s') && !step.Land? && !step.Book?
    ensures Lands(s, s')
  {
  }

  lemma UnrecordedLands(s: State, noted: bool, s': State)
    requires SendsUnrecorded(s, noted, s')
    ensures Lands(s, s')
  {
  }

  lemma NothingNewLands(w: WideState, step: WideStep, w': WideState)
    requires WideNext(w, step, w') && !(step.Plain? && step.step.Land?)
    ensures Lands(w.wallet, w'.wallet)
  {
    if step.Unrecorded? {
      UnrecordedLands(w.wallet, step.noted, w'.wallet);
    } else if step.step.Book? {
      BookLands(w.wallet, step.step.move, w'.wallet);
    } else {
      PlainLands(w.wallet, step.step, w'.wallet);
    }
  }

  lemma SameLanded(s: State, s': State, row: nat)
    requires Lands(s, s')
    ensures HasLanded(s'.txs, row) == HasLanded(s.txs, row)
  {
    if HasLanded(s.txs, row) {
      var g :| 0 <= g < |s.txs| && s.txs[g] == Tx(row, Landed);
      assert s'.txs[g] == Tx(row, Landed);
    }
    if HasLanded(s'.txs, row) {
      var g :| 0 <= g < |s'.txs| && s'.txs[g] == Tx(row, Landed);
      assert s.txs[g] == Tx(row, Landed);
    }
  }

  lemma {:induction false} NewBringNothing(s: State, a: nat, m: nat, n: nat)
    requires TxRowsOk(s) && m <= n <= |s.txs| && forall g | m <= g < n :: s.txs[g].state == InFlight
    ensures Brought(s, a, n) == Brought(s, a, m)
  {
    if m < n {
      NewBringNothing(s, a, m, n - 1);
    }
  }

  lemma SameSurplus(s: State, s': State, a: nat)
    requires TxRowsOk(s) && Lands(s, s')
    ensures TxRowsOk(s') && Surplus(s', a) == Surplus(s, a)
  {
    forall row: nat { SameLanded(s, s', row); }
    BroughtSame(s, s', a, |s.txs|);
    NewBringNothing(s', a, |s.txs|, |s'.txs|);
    LandedOnceSame(s, s', a, |s.transfers|);
    forall row: nat | |s.transfers| <= row
      ensures !HasLanded(s'.txs, row)
    {
      assert !HasLanded(s.txs, row);
    }
    NothingLandedBeyond(s', a, |s.transfers|, |s'.transfers|);
  }

  /** A landing adds to the surplus what it brings, if its leg had landed before. */
  lemma LandSurplus(s: State, g: nat, s': State, a: nat)
    requires TxRowsOk(s) && Next(s, Land(g), s')
    ensures TxRowsOk(s')
    ensures Surplus(s', a) == Surplus(s, a) + if HasLanded(s.txs, s.txs[g].row)
            then NetInto(s.cfg, s.transfers[s.txs[g].row].leg, a) else 0
  {
    var row := s.txs[g].row;
    BroughtMore(s, s', g, a, |s.txs|);
    LandChangesRow(s, g, s');
    if HasLanded(s.txs, row) {
      LandedOnceSame(s, s', a, |s.transfers|);
    } else {
      LandedOnceMore(s, s', row, a, |s.transfers|);
    }
  }

  lemma LandChangesRow(s: State, g: nat, s': State)
    requires Next(s, Land(g), s')
    ensures HasLanded(s'.txs, s.txs[g].row)
    ensures forall r: nat | r != s.txs[g].row :: HasLanded(s'.txs, r) == HasLanded(s.txs, r)
  {
    assert s'.txs[g] == Tx(s.txs[g].row, Landed);
    forall r: nat | r != s.txs[g].row
      ensures HasLanded(s'.txs, r) == HasLanded(s.txs, r)
    {
      if HasLanded(s.txs, r) {
        var h :| 0 <= h < |s.txs| && s.txs[h] == Tx(r, Landed);
        assert s'.txs[h] == Tx(r, Landed);
      }
      if HasLanded(s'.txs, r) {
        var h :| 0 <= h < |s'.txs| && s'.txs[h] == Tx(r, Landed);
        assert s.txs[h] == Tx(r, Landed);
      }
    }
  }

  lemma LandPays(s: State, g: nat, s': State, a: nat)
    requires Next(s, Land(g), s')
    ensures Balance(s', a) == Balance(s, a) + NetInto(s.cfg, s.transfers[s.txs[g].row].leg, a)
  {
  }

  lemma LandCorrespondsWith(s: State, g: nat, s': State, a: nat)
    requires TxRowsOk(s) && CorrespondsWith(s, a, Surplus(s, a)) && Next(s, Land(g), s')
    ensures TxRowsOk(s') && CorrespondsWith(s', a, Surplus(s', a))
  {
    LandSurplus(s, g, s', a);
    LandChangesRow(s, g, s');
    LandPays(s, g, s', a);
    if HasLanded(s.txs, s.txs[g].row) {
      UnlandedSame(s, s', a, |s.transfers|);
    } else {
      UnlandedDrops(s, s', s.txs[g].row, a, |s.transfers|);
    }
  }

  lemma UnrecordedCorresponds(s: State, noted: bool, s': State, a: nat, x: int)
    requires SendsUnrecorded(s, noted, s') && CorrespondsWith(s, a, x)
    ensures CorrespondsWith(s', a, x)
  {
    UnrecordedLands(s, noted, s');
    forall row: nat { SameLanded(s, s', row); }
    UnlandedSame(s, s', a, |s.transfers|);
  }

  // ---------------------------------------------------------------------------
  // Invariants of every run
  // ---------------------------------------------------------------------------

  /** Rows and settler are as in the narrow machine, but for the unrecorded broadcasts. */
  ghost predicate RowsInv(w: WideState) {
    RowsOkBut(w.wallet, w.unrecorded) && SettlerOk(w.wallet) && forall g | g in w.unrecorded :: g < |w.wallet.txs|
  }

  ghost predicate SumsInv(w: WideState) {
    && TxRowsOk(w.wallet) && LegsBooked(w.wallet)
    && forall a: nat :: CorrespondsWith(w.wallet, a, Surplus(w.wallet, a))
  }

  lemma UnrecordedRows(s: State, noted: bool, s': State, exempt: set<nat>)
    requires RowsOkBut(s, exempt) && SettlerOk(s) && SendsUnrecorded(s, noted, s')
    ensures RowsOkBut(s', exempt + {|s.txs|})
  {
    var own := s.settler.todo[0].0;
    forall row | 0 <= row < |s'.transfers|
      ensures RowOkBut(s', row, exempt + {|s.txs|})
    {
      assert RowOkBut(s, row, exempt);
      assert row != own ==> s'.transfers[row] == s.transfers[row];
    }
  }

  lemma UnrecordedSettler(s: State, noted: bool, s': State)
    requires SettlerOk(s) && SendsUnrecorded(s, noted, s')
    ensures SettlerOk(s')
  {
  }

  lemma TxsOnlyGrow(s: State, step: Step, s': State)
    requires Next(s, step, s')
    ensures |s.txs| <= |s'.txs|
  {
  }

  lemma StepKeepsRowsInv(w: WideState, step: WideStep, w': WideState)
    requires RowsInv(w) && WideNext(w, step, w')
    ensures RowsInv(w')
  {
    if step.Plain? {
      StepKeepsRows(w.wallet, step.step, w'.wallet, w.unrecorded);
      StepKeepsSettler(w.wallet, step.step, w'.wallet, w.unrecorded);
      TxsOnlyGrow(w.wallet, step.step, w'.wallet);
    } else {
      UnrecordedRows(w.wallet, step.noted, w'.wallet, w.unrecorded);
      UnrecordedSettler(w.wallet, step.noted, w'.wallet);
    }
  }

  lemma StepCorresponds(w: WideState, step: WideStep, w': WideState, a: nat)
    requires SumsInv(w) && WideNext(w, step, w')
    ensures TxRowsOk(w'.wallet) && CorrespondsWith(w'.wallet, a, Surplus(w'.wallet, a))
  {
    var (s, s') := (w.wallet, w'.wallet);
    assert CorrespondsWith(s, a, Surplus(s, a));
    if step.Plain? && step.step.Land? {
      LandCorrespondsWith(s, step.step.sig, s', a);
    } else {
      NothingNewLands(w, step, w');
      SameSurplus(s, s', a);
      if step.Plain? {
        OtherStepsCorrespond(s, step.step, s', a, Surplus(s, a));
      } else {
        UnrecordedCorresponds(s, step.noted, s', a, Surplus(s, a));
      }
    }
  }

  lemma UnrecordedKeepsLegs(s: State, noted: bool, s': State)
    requires LegsBooked(s) && SendsUnrecorded(s, noted, s')
    ensures LegsBooked(s')
  {
  }

  lemma StepKeepsSums(w: WideState, step: WideStep, w': WideState)
    requires SumsInv(w) && WideNext(w, step, w')
    ensures SumsInv(w')
  {
    if step.Plain? {
      StepKeepsLegsBooked(w.wallet, step.step, w'.wallet);
    } else {
      UnrecordedKeepsLegs(w.wallet, step.noted, w'.wallet);
    }
    StepCorresponds(w, step, w', 0);
    forall a: nat { StepCorresponds(w, step, w', a); }
  }

  lemma {:induction false} WideRunKeeps(run: seq<WideState>, i: nat)
    requires IsWideRun(run) && i < |run|
    ensures RowsInv(run[i]) && SumsInv(run[i])
  {
    if i > 0 {
      WideRunKeeps(run, i - 1);
      assert CanWideStep(run[i - 1], run[i - 1 + 1]);
      var step :| WideNext(run[i - 1], step, run[i]);
      StepKeepsRowsInv(run[i - 1], step, run[i]);
      StepKeepsSums(run[i - 1], step, run[i]);
    }
  }

  // ---------------------------------------------------------------------------
  // Reachable states
  // ---------------------------------------------------------------------------

  ghost predicate RunTo(run: seq<WideState>, w: WideState) {
    IsWideRun(run) && run[|run| - 1] == w
  }

  /** Some run, unrecorded broadcasts included, ends here. */
  ghost predicate WideReached(w: WideState) {
    exists run :: RunTo(run, w)
  }

  lemma WideInitialIsReached(w: WideState)
    requires WideInitial(w)
    ensures WideReached(w)
  {
    assert RunTo([w], w);
  }

  lemma WideGoes(w: WideState, step: WideStep, w': WideState)
    requires WideReached(w) && WideNext(w, step, w')
    ensures WideReached(w')
  {
    var run :| RunTo(run, w);
    var more := Extend(run, step, w');
    assert RunTo(more, w');
  }

  lemma WideReachedIsSafe(w: WideState)
    requires WideReached(w)
    ensures RowsInv(w)
  {
    var run :| RunTo(run, w);
    WideRunKeeps(run, |run| - 1);
  }

  lemma Extend(run: seq<WideState>, step: WideStep, w': WideState) returns (more: seq<WideState>)
    requires IsWideRun(run) && WideNext(run[|run| - 1], step, w')
    ensures IsWideRun(more) && more == run + [w']
  {
    more := run + [w'];
    forall i | 0 <= i < |more| - 1
      ensures CanWideStep(more[i], more[i + 1])
    {
      if i < |run| - 1 {
        assert CanWideStep(run[i], run[i + 1]);
      }
    }
  }

  // ---------------------------------------------------------------------------
  // Theorems
  // ---------------------------------------------------------------------------

  /** In every run, unrecorded broadcasts included: an address is off by exactly what legs
      have brought it beyond their first landing. */
  lemma WalletsCorrespondUpToTheSurplus(run: seq<WideState>, i: nat, a: nat)
    requires IsWideRun(run) && i < |run|
    ensures var s := run[i].wallet;
            && TxRowsOk(s)
            && Balance(s, a) + Unlanded(s, a, |s.transfers|) ==
               Backed(s.cfg, s.entries, a) + (if a == s.cfg.treasury then s.uncredited + s.leaving else 0) + Surplus(s, a)
  {
    WideRunKeeps(run, i);
    assert CorrespondsWith(run[i].wallet, a, Surplus(run[i].wallet, a));
  }

  /** Step `i` of the run broadcast `g`, for `row`, and did not record it. */
  ghost predicate LeavesUnrecorded(run: seq<WideState>, i: nat, g: nat, row: nat) {
    && i + 1 < |run| && |run[i].wallet.txs| == g && (exists noted :: WideNext(run[i], Unrecorded(noted), run[i + 1]))
    && run[i].wallet.settler.Ticking? && run[i].wallet.settler.todo != [] && run[i].wallet.settler.todo[0].0 == row
  }

  lemma StepUnrecorded(w: WideState, step: WideStep, w': WideState, g: nat)
    requires WideNext(w, step, w') && g in w'.unrecorded && (g in w.unrecorded ==> g < |w.wallet.txs|)
    ensures g < |w'.wallet.txs|
    ensures g in w.unrecorded ==> w'.wallet.txs[g].row == w.wallet.txs[g].row
    ensures g !in w.unrecorded ==>
              step.Unrecorded? && g == |w.wallet.txs| && w'.wallet.txs[g].row == w.wallet.settler.todo[0].0
  {
  }

  /** The set is what it says: each of its broadcasts was made, for its row, by a step that
      did not record it. */
  lemma {:induction false} UnrecordedWasLeft(run: seq<WideState>, n: nat, g: nat)
    requires IsWideRun(run) && n < |run| && g in run[n].unrecorded
    ensures g < |run[n].wallet.txs| && exists i | 0 <= i < n :: LeavesUnrecorded(run, i, g, run[n].wallet.txs[g].row)
  {
    if n > 0 {
      WideRunKeeps(run, n - 1);
      assert CanWideStep(run[n - 1], run[n - 1 + 1]);
      var step :| WideNext(run[n - 1], step, run[n]);
      StepUnrecorded(run[n - 1], step, run[n], g);
      if g in run[n - 1].unrecorded {
        UnrecordedWasLeft(run, n - 1, g);
      } else {
        assert LeavesUnrecorded(run, n - 1, g, run[n].wallet.txs[g].row);
      }
    }
  }

  /** Any broadcast of a waiting row that is not dropped was not recorded. */
  lemma LiveMeansUnrecorded(run: seq<WideState>, n: nat, g: nat)
    requires IsWideRun(run) && n < |run| && g < |run[n].wallet.txs| && run[n].wallet.txs[g].state != Dropped
    requires var s := run[n].wallet; s.txs[g].row < |s.transfers| && s.transfers[s.txs[g].row].status == TransferPending
    ensures g in run[n].unrecorded
  {
    WideRunKeeps(run, n);
    assert RowOkBut(run[n].wallet, run[n].wallet.txs[g].row, run[n].unrecorded);
  }

  /** At most one broadcast of each leg is not dropped. */
  predicate Single(s: State) {
    forall g, h | 0 <= g < h < |s.txs| && s.txs[g].row == s.txs[h].row :: s.txs[g].state == Dropped
      || s.txs[h].state == Dropped
  }

  /** The row has an unrecorded broadcast that is not dropped. */
  predicate Haunted(w: WideState, row: nat) {
    exists g :: g in w.unrecorded && g < |w.wallet.txs| && w.wallet.txs[g].row == row
      && w.wallet.txs[g].state != Dropped
  }

  predicate Broadcasts(step: WideStep) {
    step.Unrecorded? || step.step.Send?
  }

  /** A tick sends a row whose own unrecorded broadcast has not been dropped. */
  ghost predicate Resends(w: WideState, w': WideState) {
    exists step :: WideNext(w, step, w') && Broadcasts(step) && Haunted(w, w.wallet.settler.todo[0].0)
  }

  lemma BroadcastTxs(w: WideState, step: WideStep, w': WideState)
    requires WideNext(w, step, w') && Broadcasts(step)
    ensures AtRow(w.wallet) && w.wallet.settler.todo[0].1.status == TransferPending
    ensures w'.wallet.txs == w.wallet.txs + [Tx(w.wallet.settler.todo[0].0, InFlight)]
  {
  }

  lemma OtherTxs(w: WideState, step: WideStep, w': WideState)
    requires WideNext(w, step, w') && !Broadcasts(step)
    ensures |w'.wallet.txs| == |w.wallet.txs|
    ensures forall g | 0 <= g < |w.wallet.txs| ::
              && w'.wallet.txs[g].row == w.wallet.txs[g].row
              && (w.wallet.txs[g].state == Dropped ==> w'.wallet.txs[g].state == Dropped)
  {
  }

  /** A waiting row that is not haunted has only dropped broadcasts. */
  lemma WaitingIsDead(w: WideState, row: nat)
    requires RowsInv(w) && row < |w.wallet.transfers| && w.wallet.transfers[row].status == TransferPending
             && !Haunted(w, row)
    ensures forall g | 0 <= g < |w.wallet.txs| && w.wallet.txs[g].row == row :: w.wallet.txs[g].state == Dropped
  {
    assert RowOkBut(w.wallet, row, w.unrecorded);
  }

  lemma StepStaysSingleIff(w: WideState, step: WideStep, w': WideState)
    requires RowsInv(w) && Single(w.wallet) && WideNext(w, step, w')
    ensures Single(w'.wallet) <==> !(Broadcasts(step) && Haunted(w, w.wallet.settler.todo[0].0))
  {
    if Broadcasts(step) {
      BroadcastTxs(w, step, w');
      var (row, n) := (w.wallet.settler.todo[0].0, |w.wallet.txs|);
      if Haunted(w, row) {
        var g :| g in w.unrecorded && g < n && w.wallet.txs[g].row == row && w.wallet.txs[g].state != Dropped;
        assert w'.wallet.txs[g] == w.wallet.txs[g] && w'.wallet.txs[n] == Tx(row, InFlight);
      } else {
        WaitingIsDead(w, row);
      }
    } else {
      OtherTxs(w, step, w');
    }
  }

  ghost predicate SingleAt(run: seq<WideState>, i: nat) {
    i < |run| && Single(run[i].wallet)
  }

  ghost predicate ResendsAt(run: seq<WideState>, i: nat) {
    i + 1 < |run| && Resends(run[i], run[i + 1])
  }

  ghost predicate TurnsAt(run: seq<WideState>, i: nat) {
    SingleAt(run, i) ==> (SingleAt(run, i + 1) <==> !ResendsAt(run, i))
  }

  lemma EveryStepTurns(run: seq<WideState>, i: nat)
    requires IsWideRun(run) && i + 1 < |run|
    ensures TurnsAt(run, i)
  {
    WideRunKeeps(run, i);
    assert CanWideStep(run[i], run[i + 1]);
    if SingleAt(run, i) {
      if ResendsAt(run, i) {
        var step :| WideNext(run[i], step, run[i + 1]) && Broadcasts(step)
          && Haunted(run[i], run[i].wallet.settler.todo[0].0);
        StepStaysSingleIff(run[i], step, run[i + 1]);
      } else {
        var step :| WideNext(run[i], step, run[i + 1]);
        StepStaysSingleIff(run[i], step, run[i + 1]);
      }
    }
  }

  lemma {:induction false} SingleChain(run: seq<WideState>, n: nat)
    requires SingleAt(run, 0) && forall i | 0 <= i < n :: TurnsAt(run, i)
    ensures (forall i | 0 <= i <= n :: SingleAt(run, i)) <==> (forall i | 0 <= i < n :: !ResendsAt(run, i))
  {
    if n > 0 {
      SingleChain(run, n - 1);
      assert TurnsAt(run, n - 1);
    }
  }

  /** Over every run: no leg ever has two broadcasts that can land if and only if no tick
      sends a row whose own unrecorded broadcast has not been dropped. */
  lemma StaysSingleIff(run: seq<WideState>, n: nat)
    requires IsWideRun(run) && n < |run|
    ensures (forall i | 0 <= i <= n :: SingleAt(run, i)) <==> (forall i | 0 <= i < n :: !ResendsAt(run, i))
  {
    assert SingleAt(run, 0);
    forall i | 0 <= i < n { EveryStepTurns(run, i); }
    SingleChain(run, n);
  }

  /** A landing under `Single` is the first of its leg. */
  lemma SingleKeepsSurplus(w: WideState, step: WideStep, w': WideState, a: nat)
    requires TxRowsOk(w.wallet) && Single(w.wallet) && WideNext(w, step, w')
    ensures TxRowsOk(w'.wallet) && Surplus(w'.wallet, a) == Surplus(w.wallet, a)
  {
    if step.Plain? && step.step.Land? {
      LandSurplus(w.wallet, step.step.sig, w'.wallet, a);
    } else {
      NothingNewLands(w, step, w');
      SameSurplus(w.wallet, w'.wallet, a);
    }
  }

  /** In such runs nothing is moved twice, and every address holds what it backs. */
  lemma {:induction false} SingleRunsCorrespond(run: seq<WideState>, n: nat, a: nat)
    requires IsWideRun(run) && n < |run| && forall i | 0 <= i < n :: !ResendsAt(run, i)
    ensures var s := run[n].wallet; Single(s) && TxRowsOk(s) && Surplus(s, a) == 0 && CorrespondsAt(s, a)
  {
    StaysSingleIff(run, n);
    assert SingleAt(run, n);
    WideRunKeeps(run, n);
    if n > 0 {
      SingleRunsCorrespond(run, n - 1, a);
      assert CanWideStep(run[n - 1], run[n - 1 + 1]);
      var step :| WideNext(run[n - 1], step, run[n]);
      SingleKeepsSurplus(run[n - 1], step, run[n], a);
    }
    assert CorrespondsWith(run[n].wallet, a, Surplus(run[n].wallet, a));
  }

  /** Step `j` sends `row`, and a broadcast of that very row was left unrecorded by step `i`. */
  ghost predicate ResendOf(run: seq<WideState>, i: nat, j: nat, row: nat) {
    && i < j < |run| && run[j].wallet.settler.Ticking? && run[j].wallet.settler.todo != []
    && run[j].wallet.settler.todo[0].0 == row
    && exists g: nat :: LeavesUnrecorded(run, i, g, row)
  }

  /** And only an unrecorded broadcast of the very leg can lead there. */
  lemma ResendNeedsUnrecorded(run: seq<WideState>, n: nat)
    requires IsWideRun(run) && ResendsAt(run, n)
    ensures exists i, row :: ResendOf(run, i, n, row)
  {
    var w := run[n];
    var step :| WideNext(w, step, run[n + 1]) && Broadcasts(step) && Haunted(w, w.wallet.settler.todo[0].0);
    BroadcastTxs(w, step, run[n + 1]);
    var row := w.wallet.settler.todo[0].0;
    var g :| g in w.unrecorded && g < |w.wallet.txs| && w.wallet.txs[g].row == row && w.wallet.txs[g].state != Dropped;
    UnrecordedWasLeft(run, n, g);
    var i :| 0 <= i < n && LeavesUnrecorded(run, i, g, row);
    assert ResendOf(run, i, n, row);
  }

  // ---------------------------------------------------------------------------
  // A leg that lands twice
  // ---------------------------------------------------------------------------

  const Four := Addresses(0, 1, 2, 3)

  const Leg := ChainLeg(LockLeg(0), Treasury, EscrowWallet, 100)

  const Waiting := Transfer(Leg, TransferPending, None, 0)

  /** An order of 100 is locked; its wallet leg is queued. */
  lemma LegQueuedAlone() returns (run: seq<WideState>)
    ensures IsWideRun(run)
    ensures run[|run| - 1] == WideState(State(Four, EscrowLockLegs(0, 7, 100), [Waiting], [], map[], 0, 0, Idle), {})
  {
    var s0 := State(Four, [], [], [], map[], 0, 0, Idle);
    var legs := EscrowLockLegs(0, 7, 100);
    assert NonZero(legs[..1]) == legs[..1] by {
      assert legs[..1][..0] == [];
    }
    assert legs[..1] + [legs[1]] == legs && [] + legs == legs;
    assert LockChainLegs(0, 100)[..0] == [];
    run := Extend([WideState(s0, {})], Plain(Book(LockMove(0, 7, 100))), WideState(State(Four, legs, [Waiting], [], map[], 0, 0, Idle), {}));
  }

  /** The tick broadcasts it and crashes. */
  lemma SentUnrecorded() returns (run: seq<WideState>)
    ensures IsWideRun(run)
    ensures run[|run| - 1] ==
            WideState(State(Four, EscrowLockLegs(0, 7, 100), [Waiting], [Tx(0, InFlight)], map[], 0, 0, Idle), {0})
  {
    run := LegQueuedAlone();
    var s := run[|run| - 1].wallet;
    run := Extend(run, Plain(BeginTick([(0, Waiting)])), WideState(s.(settler := Ticking([(0, Waiting)], Between)), {}));
    assert [(0, Waiting)][1..] == [];
    var s2 := s.(txs := [Tx(0, InFlight)], settler := Ticking([], Between));
    run := Extend(run, Unrecorded(false), WideState(s2, {0}));
    run := Extend(run, Plain(CrashSettler), WideState(s2.(settler := Idle), {0}));
  }

  /** The broadcast lands. The next tick, which still finds the leg waiting, sends it again. */
  lemma SentAgain() returns (run: seq<WideState>)
    ensures IsWideRun(run)
    ensures run[|run| - 1] ==
            WideState(State(Four, EscrowLockLegs(0, 7, 100), [Transfer(Leg, TransferSubmitted, Some(1), 1)],
                            [Tx(0, Landed), Tx(0, InFlight)], map[0 := -100, 1 := 100], 0, 0, Ticking([], Outbox.Asking(0, 1))),
                      {0})
  {
    run := SentUnrecorded();
    var s := run[|run| - 1].wallet.(txs := [Tx(0, Landed)], balances := map[0 := -100, 1 := 100]);
    run := Extend(run, Plain(Land(0)), WideState(s, {0}));
    run := Extend(run, Plain(BeginTick([(0, Waiting)])), WideState(s.(settler := Ticking([(0, Waiting)], Between)), {0}));
    assert [(0, Waiting)][1..] == [];
    var sent := s.(transfers := [Transfer(Leg, TransferSubmitted, Some(1), 1)], txs := [Tx(0, Landed), Tx(0, InFlight)],
                   settler := Ticking([], Outbox.Asking(0, 1)));
    run := Extend(run, Plain(Send), WideState(sent, {0}));
  }

  /** That lands too: the escrow wallet holds twice the order, paid by the treasury. */
  lemma LegLandsTwice() returns (run: seq<WideState>)
    ensures IsWideRun(run)
    ensures var s := run[|run| - 1].wallet;
            && Balance(s, s.cfg.escrow) == 200 && Backs(s.entries, EscrowWallet) == 100
            && Balance(s, s.cfg.treasury) == -200 && Backs(s.entries, Treasury) == -100
  {
    run := SentAgain();
    var s := run[|run| - 1].wallet.(txs := [Tx(0, Landed), Tx(0, Landed)], balances := map[0 := -200, 1 := 200]);
    run := Extend(run, Plain(Land(1)), WideState(s, {0}));
    TwoLegs(s.entries, Escrow);
    TwoLegUserTotal(s.entries);
  }
}
