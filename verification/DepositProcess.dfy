/** The one process that runs the deposit watcher (packages/backend/src/deposits.ts,
    packages/backend/scripts/dev-server.ts): it boots, finishes its startup pass, and only
    then starts to poll and to listen; a poll is skipped while another is under way. A poll
    sweeps deposit addresses into the treasury before anything is written down. The process
    may be killed anywhere and boot again. */
module DepositProcess {
  import opened Schema
  import opened Deposits

  /** `Reconciling` and `Crediting` name the pass that is awaited. */
  datatype Tick = Idle | Polling | Crediting(pass: nat)

  datatype Phase = Down | Booting | Reconciling(pass: nat) | Serving(tick: Tick)

  /** `swept` are the signatures of all transfers into the treasury; `hand` the deposits that
      the poll has reported and the tick has not recorded yet. */
  datatype Process = Process(db: State, phase: Phase, swept: set<nat>, hand: set<Receipt>)

  datatype ProcessStep =
    | Boot
    | Reconcile(pass: nat, todo: seq<(nat, Receipt)>)
    | Serve
    | StartTick
    | Sweep(receipt: Receipt)
    | SweepUnreported(sig: nat)
    | RecordEvent(receipt: Receipt)
    | FailRecord(receipt: Receipt)
    | CreditPending(pass: nat, todo: seq<(nat, Receipt)>)
    | Advance(step: Step)
    | Elsewhere(legs: seq<Entry>)
    | FinishTick
    | Kill

  /** The pass the process awaits, if any. */
  predicate Awaits(phase: Phase, c: nat) {
    || phase == Reconciling(c)
    || phase == Serving(Crediting(c))
  }

  /** What a pass under way does; it begins and reads in a step of its own. */
  predicate OfPass(step: Step) {
    step.Take? || step.Credit? || step.Close? || step.Fail? || step.End?
  }

  ghost predicate ProcessNext(p: Process, step: ProcessStep, p': Process) {
    match step
    case Boot =>
      p.phase == Down && p' == p.(phase := Booting)
    case Reconcile(c, todo) =>
      && p.phase == Booting && Next(p.db, Begin(c, todo), p'.db)
      && p' == p.(db := p'.db, phase := Reconciling(c))
    case Serve =>
      && (p.phase == Booting || (p.phase.Reconciling? && p.phase.pass !in p.db.passes))
      && p' == p.(phase := Serving(Idle))
    case StartTick =>
      p.phase == Serving(Idle) && p' == p.(phase := Serving(Polling))
    case Sweep(r) =>
      && p.phase == Serving(Polling) && FreshReceipt(r) && r.sig !in p.swept
      && p' == p.(swept := p.swept + {r.sig}, hand := p.hand + {r})
    case SweepUnreported(sig) =>
      && p.phase == Serving(Polling) && sig !in p.swept
      && p' == p.(swept := p.swept + {sig})
    case RecordEvent(r) =>
      && p.phase == Serving(Polling) && r in p.hand && Next(p.db, Record(r), p'.db)
      && p' == p.(db := p'.db, hand := p.hand - {r})
    case FailRecord(r) =>
      p.phase == Serving(Polling) && r in p.hand && p' == p.(hand := p.hand - {r})
    case CreditPending(c, todo) =>
      && p.phase == Serving(Polling) && p.hand == {} && Next(p.db, Begin(c, todo), p'.db)
      && p' == p.(db := p'.db, phase := Serving(Crediting(c)))
    case Advance(work) =>
      OfPass(work) && Next(p.db, work, p'.db) && p' == p.(db := p'.db)
    case Elsewhere(legs) =>
      Next(p.db, Other(legs), p'.db) && p' == p.(db := p'.db)
    case FinishTick =>
      && ((p.phase == Serving(Polling) && p.hand == {})
          || (p.phase.Serving? && p.phase.tick.Crediting? && p.phase.tick.pass !in p.db.passes))
      && p' == p.(phase := Serving(Idle))
    case Kill =>
      p' == p.(db := p.db.(passes := map[]), phase := Down, hand := {})
  }

  ghost predicate ProcessCanStep(p: Process, p': Process) {
    exists step :: ProcessNext(p, step, p')
  }

  ghost predicate IsProcessRun(run: seq<Process>) {
    && run != [] && run[0] == Process(Empty, Down, {}, {})
    && forall i | 0 <= i < |run| - 1 :: ProcessCanStep(run[i], run[i + 1])
  }

  // ---------------------------------------------------------------------------
  // One pass at a time
  // ---------------------------------------------------------------------------

  /** The passes under way are the one that is awaited. */
  predicate OnlyAwaited(p: Process) {
    forall c | c in p.db.passes :: Awaits(p.phase, c)
  }

  ghost predicate SerialTo(states: seq<State>, s: State) {
    IsSerialRun(states) && states[|states| - 1] == s
  }

  /** Some serial run of passes ends here. */
  ghost predicate SerialReached(s: State) {
    exists states :: SerialTo(states, s)
  }

  lemma SerialGoes(s: State, step: Step, s': State)
    requires SerialReached(s) && Alone(s, step) && Next(s, step, s')
    ensures SerialReached(s')
  {
    var states :| SerialTo(states, s);
    var more := states + [s'];
    forall i | 0 <= i < |more| - 1
      ensures CanStepAlone(more[i], more[i + 1])
    {
      if i < |states| - 1 {
        assert CanStepAlone(states[i], states[i + 1]);
      }
    }
    assert SerialTo(more, s');
  }

  /** A killed process leaves no pass behind: its one pass ends where it stands. */
  lemma KilledIsSerial(p: Process)
    requires OnlyAwaited(p) && SerialReached(p.db)
    ensures SerialReached(p.db.(passes := map[]))
  {
    var s := p.db;
    if s.passes == map[] {
      assert s.(passes := map[]) == s;
    } else {
      var c :| c in s.passes;
      assert s.passes - {c} == map[];
      SerialGoes(s, End(c), s.(passes := map[]));
    }
  }

  lemma ProcessStepIsSerial(p: Process, step: ProcessStep, p': Process)
    requires ProcessNext(p, step, p') && OnlyAwaited(p) && SerialReached(p.db)
    ensures OnlyAwaited(p') && SerialReached(p'.db)
  {
    match step
    case Reconcile(c, todo) => NoPass(p); SerialGoes(p.db, Begin(c, todo), p'.db);
    case RecordEvent(r) => SerialGoes(p.db, Record(r), p'.db);
    case CreditPending(c, todo) => NoPass(p); SerialGoes(p.db, Begin(c, todo), p'.db);
    case Advance(work) => SerialGoes(p.db, work, p'.db);
    case Elsewhere(legs) => SerialGoes(p.db, Other(legs), p'.db);
    case Kill => KilledIsSerial(p);
    case _ =>
  }

  lemma NoPass(p: Process)
    requires OnlyAwaited(p) && forall c :: !Awaits(p.phase, c)
    ensures p.db.passes == map[]
  {
  }

  /** The guard of the poll and the awaited startup pass make every run of the process
      serial, kills and reboots included. So what is proved of serial runs holds of it. */
  lemma {:induction false} ProcessIsSerial(run: seq<Process>, n: nat)
    requires IsProcessRun(run) && n < |run|
    ensures OnlyAwaited(run[n]) && SerialReached(run[n].db)
  {
    if n == 0 {
      assert SerialTo([Empty], Empty);
    } else {
      ProcessIsSerial(run, n - 1);
      assert ProcessCanStep(run[n - 1], run[n - 1 + 1]);
      var step :| ProcessNext(run[n - 1], step, run[n]);
      ProcessStepIsSerial(run[n - 1], step, run[n]);
    }
  }

  /** A closed receipt of the process was credited in full at the price it stores, or is
      worth nothing; and no two passes are ever under way. */
  lemma ProcessClosesInFull(run: seq<Process>, n: nat, i: nat)
    requires IsProcessRun(run) && n < |run| && i < |run[n].db.receipts|
    ensures var r := run[n].db.receipts[i];
            r.credited ==> r.amount <= 0 || CreditedInFull(run[n].db.entries, r)
    ensures forall c, d | c in run[n].db.passes && d in run[n].db.passes :: c == d
  {
    ProcessIsSerial(run, n);
    var states :| SerialTo(states, run[n].db);
    ClosedMeansCreditedInFull(states, |states| - 1, i);
  }

  // ---------------------------------------------------------------------------
  // What a crash can lose
  // ---------------------------------------------------------------------------

  predicate InHand(p: Process, sig: nat) {
    exists r :: r in p.hand && r.sig == sig
  }

  /** The deposit is in the treasury, and neither a receipt nor the tick knows of it. */
  predicate Lost(p: Process, sig: nat) {
    sig in p.swept && !SigKnown(p.db.receipts, sig) && !InHand(p, sig)
  }

  /** The deposit of the signature goes out of the tick's hand unrecorded: its write fails,
      the process is killed, or the transfer landed without the call reporting it. */
  ghost predicate Drops(p: Process, p': Process, sig: nat) {
    || (exists r :: r in p.hand && r.sig == sig && ProcessNext(p, FailRecord(r), p'))
    || (InHand(p, sig) && ProcessNext(p, Kill, p'))
    || ProcessNext(p, SweepUnreported(sig), p')
  }

  /** Every deposit is in one place: swept once, in hand or on record. */
  predicate HandOk(p: Process) {
    && (forall r | r in p.hand :: r.sig in p.swept && !SigKnown(p.db.receipts, r.sig))
    && (forall q, r | q in p.hand && r in p.hand && q.sig == r.sig :: q == r)
    && (forall i | 0 <= i < |p.db.receipts| :: p.db.receipts[i].sig in p.swept)
  }

  lemma SigsSame(s: State, step: Step, s': State)
    requires Next(s, step, s') && !step.Record?
    ensures |s'.receipts| == |s.receipts| && forall i | 0 <= i < |s.receipts| :: s'.receipts[i].sig == s.receipts[i].sig
  {
  }

  lemma KnownSame(s: State, s': State, sig: nat)
    requires |s'.receipts| == |s.receipts| && forall i | 0 <= i < |s.receipts| ::
             s'.receipts[i].sig == s.receipts[i].sig
    ensures SigKnown(s'.receipts, sig) <==> SigKnown(s.receipts, sig)
  {
    if SigKnown(s.receipts, sig) {
      var i :| 0 <= i < |s.receipts| && s.receipts[i].sig == sig;
      assert s'.receipts[i].sig == sig;
    }
    if SigKnown(s'.receipts, sig) {
      var i :| 0 <= i < |s'.receipts| && s'.receipts[i].sig == sig;
      assert s.receipts[i].sig == sig;
    }
  }

  lemma RecordKnows(s: State, r: Receipt, s': State, sig: nat)
    requires Next(s, Record(r), s')
    ensures SigKnown(s'.receipts, sig) <==> SigKnown(s.receipts, sig) || sig == r.sig
  {
    if SigKnown(s.receipts, sig) {
      var i :| 0 <= i < |s.receipts| && s.receipts[i].sig == sig;
      assert s'.receipts[i].sig == sig;
    } else if sig == r.sig {
      assert s'.receipts[|s.receipts|].sig == sig;
    }
  }

  /** What a process step does to receipts, other than recording one. */
  lemma OtherStepsKnow(p: Process, step: ProcessStep, p': Process, sig: nat)
    requires ProcessNext(p, step, p') && !step.RecordEvent?
    ensures SigKnown(p'.db.receipts, sig) <==> SigKnown(p.db.receipts, sig)
    ensures |p'.db.receipts| == |p.db.receipts| && forall i | 0 <= i < |p.db.receipts| ::
            p'.db.receipts[i].sig == p.db.receipts[i].sig
  {
    match step
    case Reconcile(c, todo) => SigsSame(p.db, Begin(c, todo), p'.db); KnownSame(p.db, p'.db, sig);
    case CreditPending(c, todo) => SigsSame(p.db, Begin(c, todo), p'.db); KnownSame(p.db, p'.db, sig);
    case Advance(work) => SigsSame(p.db, work, p'.db); KnownSame(p.db, p'.db, sig);
    case Elsewhere(legs) => SigsSame(p.db, Other(legs), p'.db); KnownSame(p.db, p'.db, sig);
    case _ =>
  }

  lemma HandStaysOk(p: Process, step: ProcessStep, p': Process)
    requires HandOk(p) && ProcessNext(p, step, p')
    ensures HandOk(p')
  {
    forall r | r in p'.hand
      ensures r.sig in p'.swept && !SigKnown(p'.db.receipts, r.sig)
    {
      if step.RecordEvent? {
        RecordKnows(p.db, step.receipt, p'.db, r.sig);
      } else {
        OtherStepsKnow(p, step, p', r.sig);
        assert r !in p.hand ==> step == Sweep(r);
      }
    }
    if !step.RecordEvent? {
      OtherStepsKnow(p, step, p', 0);
    }
  }

  lemma {:induction false} ProcessKeepsHand(run: seq<Process>, n: nat)
    requires IsProcessRun(run) && n < |run|
    ensures HandOk(run[n])
  {
    if n > 0 {
      ProcessKeepsHand(run, n - 1);
      assert ProcessCanStep(run[n - 1], run[n - 1 + 1]);
      var step :| ProcessNext(run[n - 1], step, run[n]);
      HandStaysOk(run[n - 1], step, run[n]);
    }
  }

  lemma DroppedIsLost(p: Process, p': Process, sig: nat)
    requires HandOk(p) && Drops(p, p', sig)
    ensures Lost(p', sig)
  {
    if ProcessNext(p, SweepUnreported(sig), p') {
      OtherStepsKnow(p, SweepUnreported(sig), p', sig);
    } else if InHand(p, sig) && ProcessNext(p, Kill, p') {
      OtherStepsKnow(p, Kill, p', sig);
    } else {
      var r :| r in p.hand && r.sig == sig && ProcessNext(p, FailRecord(r), p');
      OtherStepsKnow(p, FailRecord(r), p', sig);
    }
  }

  lemma LostStaysLost(p: Process, step: ProcessStep, p': Process, sig: nat)
    requires HandOk(p) && ProcessNext(p, step, p') && Lost(p, sig)
    ensures Lost(p', sig)
  {
    if step.RecordEvent? {
      RecordKnows(p.db, step.receipt, p'.db, sig);
    } else {
      OtherStepsKnow(p, step, p', sig);
    }
    forall r | r in p'.hand
      ensures r.sig != sig
    {
      if r !in p.hand {
        assert step == Sweep(r);
      }
    }
  }

  lemma LossIsADrop(p: Process, step: ProcessStep, p': Process, sig: nat)
    requires HandOk(p) && ProcessNext(p, step, p') && Lost(p', sig) && !Lost(p, sig)
    ensures Drops(p, p', sig)
  {
    if step.RecordEvent? {
      RecordKnows(p.db, step.receipt, p'.db, sig);
    } else {
      OtherStepsKnow(p, step, p', sig);
    }
    assert step.Sweep? ==> step.receipt in p'.hand;
    if InHand(p, sig) {
      var r :| r in p.hand && r.sig == sig;
      assert r !in p'.hand;
      assert step.RecordEvent? || step == FailRecord(r) || step == Kill;
    } else {
      assert step == SweepUnreported(sig);
    }
  }

  ghost predicate DropsAt(run: seq<Process>, i: nat, sig: nat) {
    i + 1 < |run| && Drops(run[i], run[i + 1], sig)
  }

  lemma RunStepLosesIff(run: seq<Process>, i: nat, sig: nat)
    requires IsProcessRun(run) && i + 1 < |run|
    ensures Lost(run[i + 1], sig) <==> Lost(run[i], sig) || DropsAt(run, i, sig)
  {
    ProcessKeepsHand(run, i);
    assert ProcessCanStep(run[i], run[i + 1]);
    var step :| ProcessNext(run[i], step, run[i + 1]);
    if Lost(run[i], sig) {
      LostStaysLost(run[i], step, run[i + 1], sig);
    } else if DropsAt(run, i, sig) {
      DroppedIsLost(run[i], run[i + 1], sig);
    } else if Lost(run[i + 1], sig) {
      LossIsADrop(run[i], step, run[i + 1], sig);
    }
  }

  /** The promise that a crash between sweep and credit never loses a deposit holds from the
      record on, not before it: over every run a swept deposit is lost if and only if its
      tick was killed or its write failed before the record, or the transfer landed
      unreported. */
  lemma {:induction false} LostIff(run: seq<Process>, n: nat, sig: nat)
    requires IsProcessRun(run) && n < |run|
    ensures Lost(run[n], sig) <==> exists i | 0 <= i < n :: DropsAt(run, i, sig)
  {
    if n > 0 {
      LostIff(run, n - 1, sig);
      RunStepLosesIff(run, n - 1, sig);
    }
  }

  /** Such a run: the process is killed right after it swept a deposit of 100. */
  lemma KilledAfterTheSweep() returns (run: seq<Process>)
    ensures IsProcessRun(run) && Lost(run[|run| - 1], 0)
  {
    var r := Receipt(7, 0, Usdc, 0, 100, None, false);
    var p0 := Process(Empty, Down, {}, {});
    var p1 := p0.(phase := Booting);
    var p2 := p0.(phase := Serving(Idle));
    var p3 := p0.(phase := Serving(Polling));
    var p4 := p3.(swept := {0}, hand := {r});
    var p5 := p0.(swept := {0});
    assert ProcessNext(p0, Boot, p1) && ProcessNext(p1, Serve, p2) && ProcessNext(p2, StartTick, p3);
    assert ProcessNext(p3, Sweep(r), p4) && ProcessNext(p4, Kill, p5);
    run := [p0, p1, p2, p3, p4, p5];
    assert ProcessCanStep(p0, p1) && ProcessCanStep(p1, p2) && ProcessCanStep(p2, p3) && ProcessCanStep(p3, p4)
           && ProcessCanStep(p4, p5);
  }
}
