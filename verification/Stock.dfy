/** The units of one listing under concurrent sales (packages/backend/src/store.ts,
    market.ts, auction.ts, orders.ts, sellers.ts). Each conditional claim and each write is
    a step; a purchase or settlement may crash between its steps. */
module Stock {
  import opened Ids

  datatype ListingStatus = Queued | Live | Sold | Unsold | Delisted

  /** An auction of one unit. `ordered`: a settlement has created its order. */
  datatype Room = RoomPending | RoomRunning | RoomSettling(ordered: bool) | RoomDone

  datatype Call =
    | Claimed
    | WillUndo
    | Charged
    | WillRetire
    | Checked
    | WillStart(auction: nat)
    | WillTakeUnit(auction: nat)
    | WillSetStatus(status: ListingStatus)

  /** `claimed`: purchases holding a unit that is neither paid nor handed back (if one
      crashes there, it holds the unit for good). `sold`: units paid for and taken off. */
  datatype State = State(
    initial: nat,
    quantity: int,
    status: ListingStatus,
    rooms: map<nat, Room>,
    calls: map<nat, Call>,
    claimed: set<nat>,
    sold: nat)

  datatype Step =
    | Claim(call: nat)
    | ChargePosts(call: nat)
    | ChargeFails(call: nat)
    | Undo(call: nat)
    | ReadStock(call: nat)
    | Retire(call: nat)
    | Delist
    | CheckQueued(call: nat)
    | CreateRoom(call: nat, auction: nat)
    | StartRoom(call: nat)
    | CloseRoom(auction: nat, won: bool)
    | MakeOrder(call: nat, auction: nat)
    | TakeUnit(call: nat)
    | SetStatus(call: nat)
    | Crash(call: nat)

  function SetCall(s: State, c: nat, call: Call): State {
    s.(calls := s.calls[c := call])
  }

  function EndCall(s: State, c: nat): State {
    s.(calls := s.calls - {c})
  }

  predicate Is(s: State, c: nat, call: Call) {
    c in s.calls && s.calls[c] == call
  }

  ghost predicate Next(s: State, step: Step, s': State) {
    match step
    case Claim(c) =>
      && c !in s.calls && c !in s.claimed && s.status == Queued && s.quantity > 0
      && s' == SetCall(s, c, Claimed).(quantity := s.quantity - 1, claimed := s.claimed + {c})
    case ChargePosts(c) =>
      Is(s, c, Claimed) && s' == SetCall(s, c, Charged).(claimed := s.claimed - {c}, sold := s.sold + 1)
    case ChargeFails(c) =>
      Is(s, c, Claimed) && s' == SetCall(s, c, WillUndo)
    case Undo(c) =>
      Is(s, c, WillUndo) && s' == EndCall(s, c).(quantity := s.quantity + 1, claimed := s.claimed - {c})
    case ReadStock(c) =>
      Is(s, c, Charged) && s' == if s.quantity <= 0 then SetCall(s, c, WillRetire) else EndCall(s, c)
    case Retire(c) =>
      Is(s, c, WillRetire) && s' == EndCall(s, c).(status := Sold)
    case Delist =>
      s.status == Queued && s.quantity > 0 && s' == s.(status := Delisted)
    case CheckQueued(c) =>
      c !in s.calls && c !in s.claimed && s.quantity > 0 && s.status == Queued && s' == SetCall(s, c, Checked)
    case CreateRoom(c, a) =>
      Is(s, c, Checked) && a !in s.rooms && s' == SetCall(s, c, WillStart(a)).(rooms := s.rooms[a := RoomPending])
    case StartRoom(c) =>
      && c in s.calls && s.calls[c].WillStart?
      && var a := s.calls[c].auction;
         && a in s.rooms && s.rooms[a] == RoomPending
         && s' == EndCall(s, c).(rooms := s.rooms[a := RoomRunning], status := Live)
    case CloseRoom(a, won) =>
      && a in s.rooms && s.rooms[a] == RoomRunning
      && s' == if won then s.(rooms := s.rooms[a := RoomSettling(false)], status := Sold)
               else s.(rooms := s.rooms[a := RoomDone], status := if s.quantity > 0 then Queued else Unsold)
    case MakeOrder(c, a) =>
      && c !in s.calls && c !in s.claimed && a in s.rooms && s.rooms[a] == RoomSettling(false)
      && s' == SetCall(s, c, WillTakeUnit(a)).(rooms := s.rooms[a := RoomSettling(true)])
    case TakeUnit(c) =>
      && c in s.calls && s.calls[c].WillTakeUnit?
      && var q := s.quantity - 1;
         s' == SetCall(s, c, WillSetStatus(if q > 0 then Queued else Sold))
                 .(quantity := q, sold := s.sold + 1, rooms := s.rooms[s.calls[c].auction := RoomDone])
    case SetStatus(c) =>
      && c in s.calls && s.calls[c].WillSetStatus? && s' == EndCall(s, c).(status := s.calls[c].status)
    case Crash(c) =>
      c in s.calls && s' == EndCall(s, c)
  }

  predicate Initial(s: State) {
    s == State(s.initial, s.initial, Queued, map[], map[], {}, 0)
  }

  ghost predicate CanStep(s: State, s': State) {
    exists step :: Next(s, step, s')
  }

  ghost predicate IsRun(states: seq<State>) {
    && states != [] && Initial(states[0])
    && forall i | 0 <= i < |states| - 1 :: CanStep(states[i], states[i + 1])
  }

  // ---------------------------------------------------------------------------
  // Conservation: every run
  // ---------------------------------------------------------------------------

  predicate Conserved(s: State) {
    && s.quantity + |s.claimed| + s.sold == s.initial
    && (forall c | c in s.calls && (s.calls[c] == Claimed || s.calls[c] == WillUndo) :: c in s.claimed)
  }

  lemma StepConserves(s: State, step: Step, s': State)
    requires Conserved(s) && Next(s, step, s')
    ensures Conserved(s') && s'.initial == s.initial
  {
  }

  /** Units left, units claimed by purchases under way and units sold add up to the initial
      quantity at every step of every run: store buys, market buys, accepted offers, failed
      charges, delistings and auctions, in any interleaving and with any crashes. */
  lemma {:induction false} UnitsAreConserved(states: seq<State>, i: nat)
    requires IsRun(states) && i < |states|
    ensures Conserved(states[i]) && states[i].initial == states[0].initial
  {
    if i > 0 {
      UnitsAreConserved(states, i - 1);
      assert CanStep(states[i - 1], states[i - 1 + 1]);
      var step :| Next(states[i - 1], step, states[i]);
      StepConserves(states[i - 1], step, states[i]);
    }
  }

  // ---------------------------------------------------------------------------
  // No overselling: safe starts
  // ---------------------------------------------------------------------------

  predicate TakesUnit(s: State, c: nat, a: nat) {
    Is(s, c, WillTakeUnit(a))
  }

  /** The auction may still take a unit: it runs, or its settlement is to come or under way. */
  predicate MayTake(s: State, a: nat) {
    && a in s.rooms
    && match s.rooms[a]
       case RoomRunning => true
       case RoomSettling(ordered) => ordered ==> exists c :: c in s.calls && TakesUnit(s, c, a)
       case _ => false
  }

  /** Who keeps the listing out of the queue, and a unit with it: an auction that may take
      one, or a settlement that has yet to put the listing back. */
  datatype Holder = InRoom(auction: nat) | Requeueing(call: nat)

  predicate Holds(s: State, h: Holder) {
    match h
    case InRoom(a) => MayTake(s, a)
    case Requeueing(c) => Is(s, c, WillSetStatus(Queued))
  }

  /** At most one of them, and a unit for it; each settlement takes its own auction's unit. */
  ghost predicate UnitKept(s: State) {
    && s.quantity >= 0
    && (forall h | Holds(s, h) :: s.quantity >= 1 && s.status != Queued)
    && (forall h, g | Holds(s, h) && Holds(s, g) :: h == g)
    && (forall c | c in s.calls && s.calls[c].WillTakeUnit? ::
          s.calls[c].auction in s.rooms && s.rooms[s.calls[c].auction] == RoomSettling(true)
            && Holds(s, InRoom(s.calls[c].auction)))
    && (forall c, d | c in s.calls && d in s.calls && s.calls[c].WillTakeUnit? && s.calls[d].WillTakeUnit? :: c == d)
    && (forall c | c in s.calls && s.calls[c].WillSetStatus? :: s.calls[c].status in {Queued, Sold})
  }

  /** A start is safe when there is stock and nobody else holds a unit of it. */
  ghost predicate SafeStart(s: State) {
    s.quantity > 0 && forall h :: !Holds(s, h)
  }

  ghost predicate Safe(s: State, step: Step) {
    step.StartRoom? ==> SafeStart(s)
  }

  ghost predicate CanStepSafe(s: State, s': State) {
    exists step :: Safe(s, step) && Next(s, step, s')
  }

  /** A run, from anywhere, whose auctions start safely. */
  ghost predicate IsSafeRun(states: seq<State>) {
    states != [] && forall i | 0 <= i < |states| - 1 :: CanStepSafe(states[i], states[i + 1])
  }

  /** The check the seller's control makes - queued and in stock - made when the listing goes
      live, would make the start safe. */
  lemma RecheckIsSafe(s: State)
    requires UnitKept(s) && s.status == Queued && s.quantity > 0
    ensures SafeStart(s)
  {
  }

  predicate OfRoom(step: Step) {
    step.StartRoom? || step.CloseRoom? || step.MakeOrder?
  }

  lemma RoomStepKeeps(s: State, step: Step, s': State)
    requires UnitKept(s) && Safe(s, step) && Next(s, step, s') && OfRoom(step)
    ensures UnitKept(s')
  {
    var a := if step.StartRoom? then s.calls[step.call].auction else step.auction;
    assert step.CloseRoom? || step.MakeOrder? ==> Holds(s, InRoom(a));
    assert step.MakeOrder? ==> TakesUnit(s', step.call, a);
    forall h | Holds(s', h)
      ensures h == InRoom(a) && s'.quantity >= 1 && s'.status != Queued
    {
      if h != InRoom(a) {
        HeldBefore(s, step, s', h);
      }
    }
    forall c | c in s'.calls && s'.calls[c].WillTakeUnit?
      ensures Holds(s', InRoom(s'.calls[c].auction))
    {
      assert TakesUnit(s', c, s'.calls[c].auction);
    }
  }

  /** A holder the step did not make was one before. */
  lemma HeldBefore(s: State, step: Step, s': State, h: Holder)
    requires Next(s, step, s') && OfRoom(step) && Holds(s', h)
    requires h != InRoom(if step.StartRoom? then s.calls[step.call].auction else step.auction)
    ensures Holds(s, h)
  {
    if h.InRoom? && s'.rooms[h.auction] == RoomSettling(true) {
      var c :| c in s'.calls && TakesUnit(s', c, h.auction);
      assert TakesUnit(s, c, h.auction);
    }
  }

  /** The settlement's steps. */
  lemma TakeUnitKeeps(s: State, c: nat, s': State)
    requires UnitKept(s) && Next(s, TakeUnit(c), s')
    ensures UnitKept(s')
  {
    var a := s.calls[c].auction;
    assert Holds(s, InRoom(a));
    forall h | Holds(s', h) && h != Requeueing(c)
      ensures Holds(s, h)
    {
      if h.InRoom? && s'.rooms[h.auction] == RoomSettling(true) {
        var d :| d in s'.calls && TakesUnit(s', d, h.auction);
        assert TakesUnit(s, d, h.auction);
      }
    }
    assert !Holds(s', InRoom(a));
    assert forall h | Holds(s', h) :: h == Requeueing(c);
  }

  lemma OtherStepKeeps(s: State, step: Step, s': State)
    requires UnitKept(s) && Next(s, step, s') && !OfRoom(step) && !step.TakeUnit?
    ensures UnitKept(s')
  {
    if step.SetStatus? && s.calls[step.call].status == Queued {
      assert Holds(s, Requeueing(step.call));
    }
    forall h | Holds(s', h)
      ensures Holds(s, h) && s'.quantity >= 1 && s'.status != Queued
    {
      if h.InRoom? && s'.rooms[h.auction] == RoomSettling(true) {
        var d :| d in s'.calls && TakesUnit(s', d, h.auction);
        assert TakesUnit(s, d, h.auction);
      }
      assert Holds(s, h);
    }
    forall c | c in s'.calls && s'.calls[c].WillTakeUnit?
      ensures c in s.calls && s.calls[c] == s'.calls[c] && Holds(s', InRoom(s'.calls[c].auction))
    {
      assert TakesUnit(s', c, s'.calls[c].auction);
    }
  }

  lemma SafeStepKeeps(s: State, step: Step, s': State)
    requires UnitKept(s) && Safe(s, step) && Next(s, step, s')
    ensures UnitKept(s')
  {
    if OfRoom(step) {
      RoomStepKeeps(s, step, s');
    } else if step.TakeUnit? {
      TakeUnitKeeps(s, step.call, s');
    } else {
      OtherStepKeeps(s, step, s');
    }
  }

  lemma {:induction false} SafeRunKeeps(states: seq<State>, i: nat)
    requires IsSafeRun(states) && UnitKept(states[0]) && i < |states|
    ensures UnitKept(states[i])
  {
    if i > 0 {
      SafeRunKeeps(states, i - 1);
      assert CanStepSafe(states[i - 1], states[i - 1 + 1]);
      var step :| Safe(states[i - 1], step) && Next(states[i - 1], step, states[i]);
      SafeStepKeeps(states[i - 1], step, states[i]);
    }
  }

  lemma SafeRunIsRun(states: seq<State>)
    requires IsSafeRun(states) && Initial(states[0])
    ensures IsRun(states)
  {
    forall i | 0 <= i < |states| - 1
      ensures CanStep(states[i], states[i + 1])
    {
      assert CanStepSafe(states[i], states[i + 1]);
    }
  }

  /** As long as every auction starts safely, no run oversells: the quantity never goes below
      zero, and never more than the initial units are sold. */
  lemma NeverOversold(states: seq<State>, i: nat)
    requires IsSafeRun(states) && Initial(states[0]) && i < |states|
    ensures UnitKept(states[i])
    ensures states[i].quantity >= 0 && states[i].sold <= states[0].initial
  {
    SafeRunKeeps(states, i);
    SafeRunIsRun(states);
    UnitsAreConserved(states, i);
  }

  // ---------------------------------------------------------------------------
  // The condition is exact
  // ---------------------------------------------------------------------------

  ghost predicate LeadsBelowZero(states: seq<State>, s: State) {
    IsSafeRun(states) && states[0] == s && states[|states| - 1].quantity < 0
  }

  /** Some continuation, with every later start safe, takes a unit that is not there. */
  ghost predicate MayOversell(s: State) {
    exists states :: LeadsBelowZero(states, s)
  }

  lemma OneStepFurther(s: State, step: Step, s': State)
    requires !step.StartRoom? && Next(s, step, s') && MayOversell(s')
    ensures MayOversell(s)
  {
    var states :| LeadsBelowZero(states, s');
    var more := [s] + states;
    forall i | 0 <= i < |more| - 1
      ensures CanStepSafe(more[i], more[i + 1])
    {
      if i == 0 {
        assert Safe(s, step);
      } else {
        assert CanStepSafe(states[i - 1], states[i - 1 + 1]);
      }
    }
    assert LeadsBelowZero(more, s);
  }

  lemma FreshCall(s: State) returns (c: nat)
    ensures c !in s.calls && c !in s.claimed
  {
    c := AboveAll(s.calls.Keys + s.claimed);
  }

  /** An auction that may take a unit when none is left. */
  lemma TakesTheMissingUnit(s: State, a: nat)
    requires MayTake(s, a) && s.quantity <= 0
    ensures MayOversell(s)
  {
    if s.rooms[a] == RoomRunning {
      var closed := s.(rooms := s.rooms[a := RoomSettling(false)], status := Sold);
      SettlesTheMissingUnit(closed, a);
      OneStepFurther(s, CloseRoom(a, true), closed);
    } else {
      SettlesTheMissingUnit(s, a);
    }
  }

  lemma SettlesTheMissingUnit(s: State, a: nat)
    requires MayTake(s, a) && s.rooms[a].RoomSettling? && s.quantity <= 0
    ensures MayOversell(s)
  {
    if s.rooms[a].ordered {
      var c :| c in s.calls && TakesUnit(s, c, a);
      TakesNow(s, c);
    } else {
      var c := FreshCall(s);
      var ordered := SetCall(s, c, WillTakeUnit(a)).(rooms := s.rooms[a := RoomSettling(true)]);
      TakesNow(ordered, c);
      OneStepFurther(s, MakeOrder(c, a), ordered);
    }
  }

  lemma TakesNow(s: State, c: nat)
    requires c in s.calls && s.calls[c].WillTakeUnit? && s.quantity <= 0
    ensures MayOversell(s)
  {
    var taken := AfterTake(s, c);
    assert LeadsBelowZero([taken], taken);
    OneStepFurther(s, TakeUnit(c), taken);
  }

  /** The state once call `c` has taken its unit. */
  function AfterTake(s: State, c: nat): State
    requires c in s.calls && s.calls[c].WillTakeUnit?
  {
    var q := s.quantity - 1;
    SetCall(s, c, WillSetStatus(if q > 0 then Queued else Sold)).(quantity := q, sold := s.sold + 1, rooms := s.rooms[s.calls[c].auction := RoomDone])
  }

  lemma StillMayTake(s: State, s': State, a: nat)
    requires MayTake(s, a) && a in s'.rooms && s'.rooms[a] == s.rooms[a]
    requires forall c | TakesUnit(s, c, a) :: TakesUnit(s', c, a)
    ensures MayTake(s', a)
  {
    if s.rooms[a] == RoomSettling(true) {
      var c :| c in s.calls && TakesUnit(s, c, a);
      assert TakesUnit(s', c, a);
    }
  }

  /** While the listing is queued during an auction, buyers can take every unit. */
  lemma {:induction false} BuyersDrainTheStock(s: State, a: nat)
    requires MayTake(s, a) && s.status == Queued
    ensures MayOversell(s)
    decreases if s.quantity > 0 then s.quantity else 0
  {
    if s.quantity <= 0 {
      TakesTheMissingUnit(s, a);
    } else {
      var c := FreshCall(s);
      var claimed := SetCall(s, c, Claimed).(quantity := s.quantity - 1, claimed := s.claimed + {c});
      StillMayTake(s, claimed, a);
      BuyersDrainTheStock(claimed, a);
      OneStepFurther(s, Claim(c), claimed);
    }
  }

  /** A settlement puts the listing back in the queue during another auction. */
  lemma RequeuedTooEarly(s: State, a: nat, c: nat)
    requires MayTake(s, a) && Is(s, c, WillSetStatus(Queued))
    ensures MayOversell(s)
  {
    var queued := EndCall(s, c).(status := Queued);
    StillMayTake(s, queued, a);
    BuyersDrainTheStock(queued, a);
    OneStepFurther(s, SetStatus(c), queued);
  }

  /** Two auctions of one listing. */
  lemma TwoRooms(s: State, a: nat, b: nat)
    requires MayTake(s, a) && MayTake(s, b) && a != b
    ensures MayOversell(s)
  {
    if s.rooms[b] == RoomRunning {
      var closed := s.(rooms := s.rooms[b := RoomSettling(false)], status := Sold);
      StillMayTake(s, closed, a);
      TwoRoomsOneSettling(closed, a, b);
      OneStepFurther(s, CloseRoom(b, true), closed);
    } else {
      TwoRoomsOneSettling(s, a, b);
    }
  }

  lemma TwoRoomsOneSettling(s: State, a: nat, b: nat)
    requires MayTake(s, a) && MayTake(s, b) && a != b && s.rooms[b].RoomSettling?
    ensures MayOversell(s)
  {
    if s.rooms[b].ordered {
      var c :| c in s.calls && TakesUnit(s, c, b);
      TwoRoomsOneTaking(s, a, c);
    } else {
      var c := FreshCall(s);
      var ordered := SetCall(s, c, WillTakeUnit(b)).(rooms := s.rooms[b := RoomSettling(true)]);
      StillMayTake(s, ordered, a);
      TwoRoomsOneTaking(ordered, a, c);
      OneStepFurther(s, MakeOrder(c, b), ordered);
    }
  }

  lemma TwoRoomsOneTaking(s: State, a: nat, c: nat)
    requires MayTake(s, a) && c in s.calls && s.calls[c].WillTakeUnit? && s.calls[c].auction != a
    ensures MayOversell(s)
  {
    var taken := AfterTake(s, c);
    StillMayTake(s, taken, a);
    if taken.quantity <= 0 {
      TakesTheMissingUnit(taken, a);
    } else {
      RequeuedTooEarly(taken, a, c);
    }
    OneStepFurther(s, TakeUnit(c), taken);
  }

  lemma UnsafeStartMayOversell(s: State, c: nat, s': State)
    requires UnitKept(s) && Next(s, StartRoom(c), s') && !SafeStart(s)
    ensures MayOversell(s')
  {
    var a := s.calls[c].auction;
    assert MayTake(s', a);
    if s.quantity <= 0 {
      TakesTheMissingUnit(s', a);
    } else {
      var h :| Holds(s, h);
      match h
      case InRoom(b) =>
        StillMayTake(s, s', b);
        TwoRooms(s', a, b);
      case Requeueing(d) =>
        RequeuedTooEarly(s', a, d);
    }
  }

  /** Exactly when starting an auction can end in overselling: when there is no stock, or
      somebody else already holds a unit. The code checks neither at that moment. */
  lemma StartOversellsIff(s: State, c: nat, s': State)
    requires UnitKept(s) && Next(s, StartRoom(c), s')
    ensures MayOversell(s') <==> !SafeStart(s)
  {
    if SafeStart(s) {
      SafeStepKeeps(s, StartRoom(c), s');
      if MayOversell(s') {
        var states :| LeadsBelowZero(states, s');
        SafeRunKeeps(states, |states| - 1);
        assert false;
      }
    } else {
      UnsafeStartMayOversell(s, c, s');
    }
  }

  // ---------------------------------------------------------------------------
  // How it happens
  // ---------------------------------------------------------------------------

  lemma Extend(states: seq<State>, step: Step, s': State)
    requires IsRun(states) && Next(states[|states| - 1], step, s')
    ensures IsRun(states + [s'])
  {
    var more := states + [s'];
    forall i | 0 <= i < |more| - 1
      ensures CanStep(more[i], more[i + 1])
    {
      if i < |states| - 1 {
        assert CanStep(states[i], states[i + 1]);
      }
    }
  }

  /** The seller starts an auction of the last unit; after the check, and before the listing
      goes live, a buyer buys that unit outright. */
  lemma StaleStart() returns (states: seq<State>)
    ensures IsRun(states)
    ensures states[|states| - 1] == State(1, 0, Live, map[0 := RoomRunning], map[2 := Charged], {}, 1)
  {
    var s0 := State(1, 1, Queued, map[], map[], {}, 0);
    states := [s0];
    var s1 := SetCall(s0, 1, Checked);
    Extend(states, CheckQueued(1), s1);
    states := states + [s1];
    var s2 := SetCall(s1, 1, WillStart(0)).(rooms := map[0 := RoomPending]);
    Extend(states, CreateRoom(1, 0), s2);
    states := states + [s2];
    var s3 := SetCall(s2, 2, Claimed).(quantity := 0, claimed := {2});
    Extend(states, Claim(2), s3);
    states := states + [s3];
    var s4 := SetCall(s3, 2, Charged).(claimed := {}, sold := 1);
    assert s3.claimed - {2} == {};
    Extend(states, ChargePosts(2), s4);
    states := states + [s4];
    var s5 := EndCall(s4, 1).(rooms := s4.rooms[0 := RoomRunning], status := Live);
    assert s5.calls == map[2 := Charged] && s5.rooms == map[0 := RoomRunning];
    Extend(states, StartRoom(1), s5);
    states := states + [s5];
  }

  /** The auction is won as well, and the settlement takes a unit that is not there. */
  lemma StaleStartOversells() returns (states: seq<State>)
    ensures IsRun(states)
    ensures var s := states[|states| - 1]; s.quantity < 0 && s.sold > s.initial
  {
    states := StaleStart();
    var s5 := states[|states| - 1];
    var s6 := s5.(rooms := s5.rooms[0 := RoomSettling(false)], status := Sold);
    Extend(states, CloseRoom(0, true), s6);
    states := states + [s6];
    var s7 := SetCall(s6, 3, WillTakeUnit(0)).(rooms := s6.rooms[0 := RoomSettling(true)]);
    Extend(states, MakeOrder(3, 0), s7);
    states := states + [s7];
    var s8 := SetCall(s7, 3, WillSetStatus(Sold)).(quantity := -1, sold := 2, rooms := s7.rooms[0 := RoomDone]);
    Extend(states, TakeUnit(3), s8);
    states := states + [s8];
  }
}
