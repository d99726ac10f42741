/** Reserving and spending under concurrency (packages/backend/src/auction.ts, offers.ts,
    ledger.ts). Database transactions are cut into their visible steps: take the auction
    lock and read its row, take the account lock, read the settled balance, read the
    active holds, commit. Any other step may run in between. Steps that take no account
    lock (credits, refunds, payouts, freed reserves) may run at any moment. */
module Funds {
  import opened Schema
  import opened Books
  import opened AuctionRules

  /** What a transaction wants of `user`'s money. */
  datatype Intent =
    | Charge(user: nat, amount: int, legs: seq<Entry>)
    | Offering(user: nat, offer: nat, row: Offer)
    | Bidding(user: nat, auction: nat, amount: int, shippingC: int, floorMs: Option<int>, at: int)
    | Capturing(user: nat, auction: nat, amount: int, legs: seq<Entry>)

  /** A transaction in progress and what it has read so far. Nothing of it is visible to
      others before it commits. */
  datatype Txn = Txn(intent: Intent, locked: bool, settled: Option<int>, held: Option<int>)

  /** `owed`: offers closed by a call that has not freed their hold yet (if that call
      crashes, forever). `captured`: auctions whose settlement charge has posted - one
      order per auction, one key per order. */
  datatype State = State(
    now: int,
    entries: seq<Entry>,
    holds: seq<Hold>,
    auctions: map<nat, Auction>,
    offers: map<nat, Offer>,
    owed: set<nat>,
    captured: set<nat>,
    txns: map<nat, Txn>)

  datatype Step =
    | Pass(ms: nat)
    | PostUnlocked(legs: seq<Entry>)
    | Create(auction: nat, row: Auction)
    | Start(auction: nat)
    | Close(auction: nat)
    | Begin(txn: nat, intent: Intent)
    | LockAccount(txn: nat)
    | ReadSettled(txn: nat)
    | ReadHolds(txn: nat)
    | Commit(txn: nat)
    | Abort(txn: nat)
    | CounterOffer(offer: nat, amount: int, expiresAt: int)
    | ClaimOffer(offer: nat, to: OfferStatus)
    | FreeOffer(offer: nat)
    | FailAccepted(offer: nat)

  predicate Live(o: Offer) {
    o.status == OfferPending || o.status == Countered
  }

  /** What the intent reserves or spends. */
  function Needs(i: Intent): int {
    match i
    case Charge(_, amount, _) => amount
    case Offering(_, _, row) => row.amount + row.shippingC
    case Bidding(_, _, amount, shippingC, _, _) => amount + shippingC
    case Capturing(_, _, amount, _) => amount
  }

  /** Legs that take at most `amount` from `user` and nothing from anyone else. */
  ghost predicate TakesAtMost(legs: seq<Entry>, user: nat, amount: int) {
    && Settled(legs, User(user)) >= -amount
    && forall v: nat | v != user :: Settled(legs, User(v)) >= 0
  }

  predicate AuctionFree(s: State, auction: nat) {
    forall t | t in s.txns :: !(s.txns[t].intent.Bidding? && s.txns[t].intent.auction == auction)
  }

  predicate AccountFree(s: State, user: nat) {
    forall t | t in s.txns :: !(s.txns[t].locked && s.txns[t].intent.user == user)
  }

  /** The auction is settled by an order for exactly its winning bid. */
  predicate Settles(s: State, auction: nat, user: nat, amount: int) {
    && auction in s.auctions
    && s.auctions[auction].status == Settling
    && s.auctions[auction].leader == Some(user)
    && s.auctions[auction].currentBid == Some(amount)
  }

  ghost predicate MayBegin(s: State, i: Intent) {
    match i
    case Charge(user, amount, legs) =>
      TakesAtMost(legs, user, amount)
    case Offering(user, offer, row) =>
      row.buyer == user && row.status == OfferPending && row.amount > 0 && row.shippingC >= 0 && row.counter == None
    case Bidding(user, auction, amount, shippingC, floorMs, at) =>
      && auction in s.auctions && AuctionFree(s, auction)
      && at == s.now
      && BidRejected(s.auctions[auction], user, amount, shippingC, at) == None
    case Capturing(user, auction, amount, legs) =>
      Settles(s, auction, user, amount) && TakesAtMost(legs, user, amount)
  }

  /** The transaction has read what it compares, and the comparison lets it through. */
  predicate MayCommit(s: State, x: Txn) {
    && x.locked
    && x.settled.Some?
    && match x.intent
       case Capturing(_, auction, amount, _) =>
         auction !in s.captured && x.settled.value >= amount
       case Offering(_, offer, _) =>
         offer !in s.offers && x.held.Some? && x.settled.value - x.held.value >= Needs(x.intent)
       case _ =>
         x.held.Some? && x.settled.value - x.held.value >= Needs(x.intent)
  }

  ghost predicate Enabled(s: State, step: Step) {
    match step
    case Pass(_) => true
    case PostUnlocked(legs) => forall v: nat :: Settled(legs, User(v)) >= 0
    case Create(a, row) => a !in s.auctions && row.status == Pending && row.bids == [] && row.leader == None
      && row.currentBid == None
    case Start(a) => a in s.auctions && AuctionFree(s, a) && s.auctions[a].status == Pending
    case Close(a) => a in s.auctions && AuctionFree(s, a) && Due(s.auctions[a], s.now)
    case Begin(t, i) => t !in s.txns && MayBegin(s, i)
    case LockAccount(t) => t in s.txns && !s.txns[t].locked && AccountFree(s, s.txns[t].intent.user)
    case ReadSettled(t) => t in s.txns && s.txns[t].locked
    case ReadHolds(t) => t in s.txns && s.txns[t].locked
    case Commit(t) => t in s.txns && MayCommit(s, s.txns[t])
    case Abort(t) => t in s.txns
    case CounterOffer(o, c, _) => o in s.offers && s.offers[o].status == OfferPending && c > s.offers[o].amount
    case ClaimOffer(o, to) => o in s.offers && Live(s.offers[o]) && to in {Accepted, Declined, Canceled, Expired}
    case FreeOffer(o) => o in s.offers && !Live(s.offers[o])
    case FailAccepted(o) => o in s.offers && s.offers[o].status == Accepted
  }

  function Committed(s: State, i: Intent): State {
    match i
    case Charge(_, _, legs) =>
      s.(entries := s.entries + legs)
    case Offering(user, offer, row) =>
      s.(offers := s.offers[offer := row],
         holds := s.holds + [Hold(user, ForOffer(offer), row.amount + row.shippingC, Held)])
    case Bidding(user, a, amount, shippingC, floorMs, at) =>
      if a in s.auctions && s.auctions[a].endsAt.Some? then
        s.(holds := HoldsAfterBid(s.holds, a, user, amount + shippingC),
           auctions := s.auctions[a := AcceptBid(s.auctions[a], user, amount, shippingC, at, floorMs)])
      else s
    case Capturing(user, a, _, legs) =>
      s.(entries := s.entries + legs,
         holds := CaptureHolds(s.holds, a, user),
         captured := s.captured + {a})
  }

  function SetTxn(s: State, t: nat, x: Txn): State {
    s.(txns := s.txns[t := x])
  }

  function Apply(s: State, step: Step): State {
    match step
    case Pass(ms) => s.(now := s.now + ms)
    case PostUnlocked(legs) => s.(entries := s.entries + legs)
    case Create(a, row) => s.(auctions := s.auctions[a := row])
    case Start(a) => if a in s.auctions then s.(auctions := s.auctions[a := StartAuction(s.auctions[a], s.now)]) else s
    case Close(a) => if a in s.auctions then s.(auctions := s.auctions[a := CloseAuction(s.auctions[a])]) else s
    case Begin(t, i) => SetTxn(s, t, Txn(i, false, None, None))
    case LockAccount(t) => if t in s.txns then SetTxn(s, t, s.txns[t].(locked := true)) else s
    case ReadSettled(t) =>
      if t in s.txns then SetTxn(s, t, s.txns[t].(settled := Some(Settled(s.entries, User(s.txns[t].intent.user))))) else s
    case ReadHolds(t) =>
      if t in s.txns then SetTxn(s, t, s.txns[t].(held := Some(ActiveHolds(s.holds, s.txns[t].intent.user)))) else s
    case Commit(t) => if t in s.txns then Committed(s, s.txns[t].intent).(txns := s.txns - {t}) else s
    case Abort(t) => s.(txns := s.txns - {t})
    case CounterOffer(o, c, e) =>
      if o in s.offers then s.(offers := s.offers[o := s.offers[o].(status := Countered, counter := Some(c), expiresAt := e)]) else s
    case ClaimOffer(o, to) =>
      if o in s.offers then s.(offers := s.offers[o := s.offers[o].(status := to)], owed := s.owed + {o}) else s
    case FreeOffer(o) => s.(holds := ReleaseHolds(s.holds, o), owed := s.owed - {o})
    case FailAccepted(o) => if o in s.offers then s.(offers := s.offers[o := s.offers[o].(status := Expired)]) else s
  }

  const Empty := State(0, [], [], map[], map[], {}, {}, map[])

  function After(s: State, steps: seq<Step>): State {
    if steps == [] then s else Apply(After(s, steps[..|steps| - 1]), steps[|steps| - 1])
  }

  /** A run: every step is enabled where it is taken. */
  ghost predicate IsRun(s: State, steps: seq<Step>) {
    steps == [] ||
    (IsRun(s, steps[..|steps| - 1]) && Enabled(After(s, steps[..|steps| - 1]), steps[|steps| - 1]))
  }

  // ---------------------------------------------------------------------------
  // Invariants
  // ---------------------------------------------------------------------------

  /** No user has reserved or spent more than they have. */
  ghost predicate Solvent(s: State) {
    forall u: nat :: Available(s.entries, s.holds, u) >= 0
  }

  /** Auctions whose leader's reserve must still be standing. */
  predicate NeedsHold(s: State, a: nat) {
    && a in s.auctions
    && s.auctions[a].bids != []
    && (s.auctions[a].status == Running || (s.auctions[a].status == Settling && a !in s.captured))
  }

  predicate OfferNeedsHold(s: State, o: nat) {
    o in s.offers && (Live(s.offers[o]) || o in s.owed)
  }

  /** The one reserve a source must have, if any. */
  function Wanted(s: State, source: HoldSource): Option<(nat, int)> {
    match source
    case ForAuction(a) =>
      if NeedsHold(s, a) then Some((Top(s.auctions[a]).user, Top(s.auctions[a]).amount + Top(s.auctions[a]).shippingC))
        else None
    case ForOffer(o) =>
      if OfferNeedsHold(s, o) then Some((s.offers[o].buyer, s.offers[o].amount + s.offers[o].shippingC)) else None
  }

  ghost predicate HoldsLinked(s: State) {
    forall source :: HoldMatches(s.holds, source, Wanted(s, source))
  }

  /** A counter is above the offer it answers. */
  predicate OfferSane(o: Offer) {
    o.amount > 0 && o.shippingC >= 0 && (o.counter.Some? ==> o.counter.value > o.amount)
  }

  ghost predicate RowsKept(s: State) {
    && (forall a | a in s.auctions :: WellKept(s.auctions[a], s.now))
    && (forall i | 0 <= i < |s.holds| :: s.holds[i].amount >= 0)
    && (forall a | a in s.captured :: a in s.auctions && s.auctions[a].status == Settling)
    && (forall o | o in s.offers :: OfferSane(s.offers[o]))
    && (forall o | o in s.owed :: o in s.offers && !Live(s.offers[o]))
  }

  /** What a transaction read can only have become better since, for as long as it holds
      the account lock. */
  ghost predicate ReadsSafe(s: State, x: Txn) {
    && ((x.settled.Some? || x.held.Some?) ==> x.locked)
    && (x.settled.Some? ==> x.settled.value <= Settled(s.entries, User(x.intent.user)))
    && (x.held.Some? ==> x.held.value >= ActiveHolds(s.holds, x.intent.user))
  }

  ghost predicate IntentSafe(s: State, x: Txn) {
    match x.intent
    case Charge(user, amount, legs) => TakesAtMost(legs, user, amount)
    case Offering(user, _, row) => row.buyer == user && row.status == OfferPending && row.amount > 0
      && row.shippingC >= 0 && row.counter == None
    case Bidding(user, a, amount, shippingC, _, at) =>
      && a in s.auctions && at <= s.now
      && BidRejected(s.auctions[a], user, amount, shippingC, at) == None
    case Capturing(user, a, amount, legs) =>
      && Settles(s, a, user, amount) && TakesAtMost(legs, user, amount)
      && (a !in s.captured && x.settled.Some? ==> x.settled.value >= amount)
  }

  /** Row locks are exclusive. */
  ghost predicate LocksHeld(s: State) {
    forall t, t' | t in s.txns && t' in s.txns && t != t' ::
      && !(s.txns[t].locked && s.txns[t'].locked && s.txns[t].intent.user == s.txns[t'].intent.user)
      && !(s.txns[t].intent.Bidding? && s.txns[t'].intent.Bidding?
          && s.txns[t].intent.auction == s.txns[t'].intent.auction)
  }

  ghost predicate TxnsSafe(s: State) {
    forall t | t in s.txns :: ReadsSafe(s, s.txns[t]) && IntentSafe(s, s.txns[t])
  }

  ghost predicate Inv(s: State) {
    Solvent(s) && HoldsLinked(s) && RowsKept(s) && TxnsSafe(s) && LocksHeld(s)
  }

  // ---------------------------------------------------------------------------
  // Each step keeps the invariant
  // ---------------------------------------------------------------------------

  lemma PassKeeps(s: State, ms: nat)
    requires Inv(s)
    ensures Inv(Apply(s, Pass(ms)))
  {
    var s' := Apply(s, Pass(ms));
    forall a | a in s.auctions
      ensures WellKept(s'.auctions[a], s'.now)
    {
      TimePassesKeepsRow(s.auctions[a], s.now, s'.now);
    }
    forall source
      ensures HoldMatches(s'.holds, source, Wanted(s', source))
    {
      assert Wanted(s', source) == Wanted(s, source);
    }
    forall t | t in s'.txns
      ensures ReadsSafe(s', s'.txns[t]) && IntentSafe(s', s'.txns[t])
    {
      assert ReadsSafe(s, s.txns[t]) && IntentSafe(s, s.txns[t]);
    }
  }

  /** Posting legs that take at most `amount` from `user`, when that much is there and no
      other transaction holds the user's account lock. */
  lemma PostKeeps(s: State, s': State, legs: seq<Entry>)
    requires Solvent(s) && TxnsSafe(s)
    requires s' == s.(entries := s.entries + legs)
    requires forall v: nat :: Settled(legs, User(v)) >= 0
    ensures Solvent(s') && TxnsSafe(s')
  {
    forall v: nat
      ensures Settled(s'.entries, User(v)) >= Settled(s.entries, User(v))
    {
      SettledConcat(s.entries, legs, User(v));
    }
    forall u: nat
      ensures Available(s'.entries, s'.holds, u) >= 0
    {
      assert Available(s.entries, s.holds, u) >= 0;
    }
    forall t | t in s'.txns
      ensures ReadsSafe(s', s'.txns[t]) && IntentSafe(s', s'.txns[t])
    {
      assert ReadsSafe(s, s.txns[t]) && IntentSafe(s, s.txns[t]);
    }
  }

  lemma PostUnlockedKeeps(s: State, legs: seq<Entry>)
    requires Inv(s) && Enabled(s, PostUnlocked(legs))
    ensures Inv(Apply(s, PostUnlocked(legs)))
  {
    var s' := Apply(s, PostUnlocked(legs));
    PostKeeps(s, s', legs);
    forall source
      ensures HoldMatches(s'.holds, source, Wanted(s', source))
    {
      assert Wanted(s', source) == Wanted(s, source);
    }
  }

  lemma AuctionStepLinks(s: State, s': State, a: nat)
    requires HoldsLinked(s) && a in s'.auctions && s' == s.(auctions := s.auctions[a := s'.auctions[a]])
    requires Wanted(s', ForAuction(a)) == Wanted(s, ForAuction(a))
    ensures HoldsLinked(s')
  {
    forall source
      ensures HoldMatches(s'.holds, source, Wanted(s', source))
    {
      assert HoldMatches(s.holds, source, Wanted(s, source));
      assert Wanted(s', source) == Wanted(s, source);
    }
  }

  lemma AuctionStepTxns(s: State, s': State, a: nat)
    requires TxnsSafe(s) && AuctionFree(s, a) && (a in s.auctions ==> s.auctions[a].status != Settling)
    requires a in s'.auctions && s' == s.(auctions := s.auctions[a := s'.auctions[a]])
    ensures TxnsSafe(s')
  {
    forall t | t in s'.txns
      ensures ReadsSafe(s', s'.txns[t]) && IntentSafe(s', s'.txns[t])
    {
      assert ReadsSafe(s, s.txns[t]) && IntentSafe(s, s.txns[t]);
    }
  }

  /** Steps on one auction row that no transaction is bidding on and nobody settles. */
  lemma AuctionStepKeeps(s: State, s': State, a: nat)
    requires Inv(s) && AuctionFree(s, a)
    requires a in s.auctions ==> s.auctions[a].status != Settling
    requires a in s'.auctions && s' == s.(auctions := s.auctions[a := s'.auctions[a]])
    requires WellKept(s'.auctions[a], s.now)
    requires Wanted(s', ForAuction(a)) == Wanted(s, ForAuction(a))
    ensures Inv(s')
  {
    AuctionStepLinks(s, s', a);
    AuctionStepTxns(s, s', a);
    forall u: nat
      ensures Available(s'.entries, s'.holds, u) >= 0
    {
      assert Available(s.entries, s.holds, u) >= 0;
    }
  }

  lemma CloseKeeps(s: State, a: nat)
    requires Inv(s) && Enabled(s, Close(a))
    ensures Inv(Apply(s, Close(a)))
  {
    CloseKeepsRow(s.auctions[a], s.now);
    AuctionStepKeeps(s, Apply(s, Close(a)), a);
  }

  /** Steps that only move a transaction along. */
  lemma TxnStepKeeps(s: State, s': State)
    requires Inv(s)
    requires s' == s.(txns := s'.txns)
    requires TxnsSafe(s') && LocksHeld(s')
    ensures Inv(s')
  {
    forall source
      ensures HoldMatches(s'.holds, source, Wanted(s', source))
    {
      assert HoldMatches(s.holds, source, Wanted(s, source));
      assert Wanted(s', source) == Wanted(s, source);
    }
    forall u: nat
      ensures Available(s'.entries, s'.holds, u) >= 0
    {
      assert Available(s.entries, s.holds, u) >= 0;
    }
  }

  lemma TxnsElsewhere(s: State, s': State, t: nat)
    requires TxnsSafe(s)
    requires s' == s.(txns := s'.txns)
    requires forall u | u in s'.txns && u != t :: u in s.txns && s'.txns[u] == s.txns[u]
    requires t in s'.txns ==> ReadsSafe(s', s'.txns[t]) && IntentSafe(s', s'.txns[t])
    ensures TxnsSafe(s')
  {
    forall u | u in s'.txns
      ensures ReadsSafe(s', s'.txns[u]) && IntentSafe(s', s'.txns[u])
    {
      if u != t {
        assert ReadsSafe(s, s.txns[u]) && IntentSafe(s, s.txns[u]);
      }
    }
  }

  /** The settled balance covers any one standing reserve: this is why the settlement of an
      auction may look at the settled balance alone. */
  lemma ReserveIsCovered(s: State, a: nat)
    requires Inv(s) && NeedsHold(s, a)
    ensures var top := Top(s.auctions[a]);
            Settled(s.entries, User(top.user)) >= top.amount + top.shippingC
  {
    var top := Top(s.auctions[a]);
    assert HoldMatches(s.holds, ForAuction(a), Wanted(s, ForAuction(a)));
    var i: nat :| OnlyHeld(s.holds, ForAuction(a), i) && s.holds[i].user == top.user
      && s.holds[i].amount == top.amount + top.shippingC;
    ActiveHoldsAtLeast(s.holds, i, top.user);
    assert Available(s.entries, s.holds, top.user) >= 0;
  }

  /** Transaction `x` shares no row lock with another one. */
  predicate LocksApart(s: State, t: nat, x: Txn) {
    forall u | u in s.txns && u != t ::
      && !(x.locked && s.txns[u].locked && x.intent.user == s.txns[u].intent.user)
      && !(x.intent.Bidding? && s.txns[u].intent.Bidding? && x.intent.auction == s.txns[u].intent.auction)
  }

  lemma SetTxnKeeps(s: State, t: nat, x: Txn)
    requires Inv(s) && ReadsSafe(s, x) && IntentSafe(s, x) && LocksApart(s, t, x)
    ensures Inv(SetTxn(s, t, x))
  {
    var s' := SetTxn(s, t, x);
    TxnsElsewhere(s, s', t);
    TxnStepKeeps(s, s');
  }

  lemma BeginKeeps(s: State, t: nat, i: Intent)
    requires Inv(s) && Enabled(s, Begin(t, i))
    ensures Inv(Apply(s, Begin(t, i)))
  {
    SetTxnKeeps(s, t, Txn(i, false, None, None));
  }

  lemma LockAccountKeeps(s: State, t: nat)
    requires Inv(s) && Enabled(s, LockAccount(t))
    ensures Inv(Apply(s, LockAccount(t)))
  {
    IntentOf(s, t);
    SetTxnKeeps(s, t, s.txns[t].(locked := true));
  }

  lemma ReadKeeps(s: State, step: Step)
    requires Inv(s) && Enabled(s, step) && (step.ReadSettled? || step.ReadHolds?)
    ensures Inv(Apply(s, step))
  {
    IntentOf(s, step.txn);
    if step.ReadSettled? && s.txns[step.txn].intent.Capturing? {
      CaptureReadsEnough(s, step.txn);
    }
    SetTxnKeeps(s, step.txn, Apply(s, step).txns[step.txn]);
  }

  lemma AbortKeeps(s: State, t: nat)
    requires Inv(s) && Enabled(s, Abort(t))
    ensures Inv(Apply(s, Abort(t)))
  {
    TxnsElsewhere(s, Apply(s, Abort(t)), t);
    TxnStepKeeps(s, Apply(s, Abort(t)));
  }

  /** A settlement that reads the settled balance finds the price there. */
  lemma CaptureReadsEnough(s: State, t: nat)
    requires Inv(s) && t in s.txns && s.txns[t].intent.Capturing?
    ensures var i := s.txns[t].intent;
            i.auction !in s.captured ==> Settled(s.entries, User(i.user)) >= i.amount
  {
    var i := s.txns[t].intent;
    IntentOf(s, t);
    if i.auction !in s.captured {
      assert WellKept(s.auctions[i.auction], s.now);
      ReserveIsCovered(s, i.auction);
      var top := Top(s.auctions[i.auction]);
      assert BidInTime(s.auctions[i.auction], top, s.now);
    }
  }

  // ---------------------------------------------------------------------------
  // Commits
  // ---------------------------------------------------------------------------

  /** The locked reads bound what is really there. */
  lemma ReadsBound(s: State, x: Txn)
    requires ReadsSafe(s, x) && x.settled.Some? && x.held.Some?
    ensures x.settled.value - x.held.value <= Available(s.entries, s.holds, x.intent.user)
  {
  }

  /** While one transaction has a user's lock, no other has read that user's balance. */
  lemma OthersUnread(s: State, t: nat, u: nat)
    requires Inv(s) && t in s.txns && s.txns[t].locked
    requires u in s.txns && u != t && (s.txns[u].settled.Some? || s.txns[u].held.Some?)
    ensures s.txns[u].intent.user != s.txns[t].intent.user
  {
    assert ReadsSafe(s, s.txns[u]);
  }

  /** What a commit may do to balances: take from the locked user no more than is available,
      and from nobody else. */
  ghost predicate Gentle(s: State, s': State, user: nat) {
    && Available(s'.entries, s'.holds, user) >= 0
    && (forall v: nat | v != user ::
          && Settled(s'.entries, User(v)) >= Settled(s.entries, User(v))
          && ActiveHolds(s'.holds, v) <= ActiveHolds(s.holds, v))
  }

  lemma GentleKeeps(s: State, s': State, t: nat)
    requires Inv(s) && t in s.txns && s.txns[t].locked
    requires Gentle(s, s', s.txns[t].intent.user)
    requires s'.txns == s.txns - {t}
    requires forall u | u in s'.txns :: IntentSafe(s', s.txns[u])
    ensures Solvent(s') && TxnsSafe(s') && LocksHeld(s')
  {
    forall u: nat
      ensures Available(s'.entries, s'.holds, u) >= 0
    {
      assert Available(s.entries, s.holds, u) >= 0;
    }
    forall u | u in s'.txns
      ensures ReadsSafe(s', s'.txns[u])
    {
      assert ReadsSafe(s, s.txns[u]);
      if s.txns[u].settled.Some? || s.txns[u].held.Some? {
        OthersUnread(s, t, u);
      }
    }
  }

  lemma LinksUntouched(s: State, s': State)
    requires HoldsLinked(s)
    requires s'.holds == s.holds && s'.auctions == s.auctions && s'.offers == s.offers && s'.owed == s.owed
             && s'.captured == s.captured
    ensures HoldsLinked(s')
  {
    forall source
      ensures HoldMatches(s'.holds, source, Wanted(s', source))
    {
      assert HoldMatches(s.holds, source, Wanted(s, source));
    }
  }

  lemma IntentsUntouched(s: State, s': State, t: nat)
    requires TxnsSafe(s) && s'.txns == s.txns - {t}
    requires s'.now == s.now && s'.auctions == s.auctions && s.captured <= s'.captured
    ensures forall u | u in s'.txns :: IntentSafe(s', s.txns[u])
  {
    forall u | u in s'.txns
      ensures IntentSafe(s', s.txns[u])
    {
      assert IntentSafe(s, s.txns[u]);
    }
  }

  lemma CommitChargeBalances(s: State, s': State, t: nat)
    requires Inv(s) && t in s.txns && MayCommit(s, s.txns[t]) && s.txns[t].intent.Charge?
    requires s'.holds == s.holds && s'.entries == s.entries + s.txns[t].intent.legs
    ensures Gentle(s, s', s.txns[t].intent.user)
  {
    var x := s.txns[t];
    assert ReadsSafe(s, x) && IntentSafe(s, x);
    ReadsBound(s, x);
    forall v: nat
      ensures Settled(s'.entries, User(v)) == Settled(s.entries, User(v)) + Settled(x.intent.legs, User(v))
    {
      SettledConcat(s.entries, x.intent.legs, User(v));
    }
  }

  lemma CommitChargeKeeps(s: State, t: nat)
    requires Inv(s) && Enabled(s, Commit(t)) && s.txns[t].intent.Charge?
    ensures Inv(Apply(s, Commit(t)))
  {
    var s' := Apply(s, Commit(t));
    CommitChargeBalances(s, s', t);
    IntentsUntouched(s, s', t);
    GentleKeeps(s, s', t);
    LinksUntouched(s, s');
  }

  lemma CommitOfferingBalances(s: State, s': State, t: nat)
    requires Inv(s) && t in s.txns && MayCommit(s, s.txns[t]) && s.txns[t].intent.Offering?
    requires s'.entries == s.entries
    requires var i := s.txns[t].intent;
             s'.holds == s.holds + [Hold(i.user, ForOffer(i.offer), i.row.amount + i.row.shippingC, Held)]
    ensures Gentle(s, s', s.txns[t].intent.user)
  {
    var x := s.txns[t];
    var i := x.intent;
    var h := Hold(i.user, ForOffer(i.offer), i.row.amount + i.row.shippingC, Held);
    assert ReadsSafe(s, x);
    ReadsBound(s, x);
    forall v: nat
      ensures ActiveHolds(s'.holds, v) == ActiveHolds(s.holds, v) + HeldFor(h, v)
    {
      ActiveHoldsAppend(s.holds, h, v);
    }
  }

  lemma CommitOfferingLinks(s: State, s': State, user: nat, offer: nat, row: Offer)
    requires Inv(s) && offer !in s.offers
    requires row.buyer == user && row.status == OfferPending
    requires s'.auctions == s.auctions && s'.captured == s.captured && s'.owed == s.owed
    requires s'.offers == s.offers[offer := row]
    requires s'.holds == s.holds + [Hold(user, ForOffer(offer), row.amount + row.shippingC, Held)]
    ensures HoldsLinked(s')
  {
    var h := Hold(user, ForOffer(offer), row.amount + row.shippingC, Held);
    forall source
      ensures HoldMatches(s'.holds, source, Wanted(s', source))
    {
      assert HoldMatches(s.holds, source, Wanted(s, source));
      if source == ForOffer(offer) {
        MatchAppendOwn(s.holds, h);
      } else {
        assert Wanted(s', source) == Wanted(s, source);
        MatchAppendOther(s.holds, h, source, Wanted(s, source));
      }
    }
  }

  lemma CommitOfferingRows(s: State, s': State, offer: nat, row: Offer, h: Hold)
    requires RowsKept(s) && offer !in s.offers && OfferSane(row) && h.amount >= 0
    requires s'.offers == s.offers[offer := row] && s'.holds == s.holds + [h]
    requires s'.auctions == s.auctions && s'.now == s.now && s'.captured == s.captured && s'.owed == s.owed
    ensures RowsKept(s')
  {
  }

  lemma CommitOfferingSafe(s: State, t: nat)
    requires Inv(s) && Enabled(s, Commit(t)) && s.txns[t].intent.Offering?
    ensures var s' := Apply(s, Commit(t)); Solvent(s') && TxnsSafe(s') && LocksHeld(s')
  {
    var s' := Apply(s, Commit(t));
    CommitOfferingBalances(s, s', t);
    IntentsUntouched(s, s', t);
    GentleKeeps(s, s', t);
  }

  lemma CommitOfferingKeeps(s: State, t: nat)
    requires Inv(s) && Enabled(s, Commit(t)) && s.txns[t].intent.Offering?
    ensures Inv(Apply(s, Commit(t)))
  {
    var i := s.txns[t].intent;
    var s' := Apply(s, Commit(t));
    IntentOf(s, t);
    CommitOfferingSafe(s, t);
    CommitOfferingLinks(s, s', i.user, i.offer, i.row);
    CommitOfferingRows(s, s', i.offer, i.row, Hold(i.user, ForOffer(i.offer), i.row.amount + i.row.shippingC, Held));
  }

  /** What is known of a transaction under way. */
  lemma IntentOf(s: State, t: nat)
    requires TxnsSafe(s) && t in s.txns
    ensures IntentSafe(s, s.txns[t]) && ReadsSafe(s, s.txns[t])
  {
  }

  /** Freeing or capturing a hold can only lower what is held. */
  lemma DropHold(holds: seq<Hold>, i: nat, status: HoldStatus, v: nat)
    requires i < |holds| && holds[i].amount >= 0 && status != Held && holds[i].status == Held
    ensures ActiveHolds(holds[i := holds[i].(status := status)], v) ==
            ActiveHolds(holds, v) - (if holds[i].user == v then holds[i].amount else 0)
  {
    ActiveHoldsUpdate(holds, i, holds[i].(status := status), v);
  }

  lemma CommitBiddingBalances(s: State, t: nat)
    requires Inv(s) && Enabled(s, Commit(t)) && s.txns[t].intent.Bidding?
    ensures Gentle(s, Apply(s, Commit(t)), s.txns[t].intent.user)
  {
    var x := s.txns[t];
    var i := x.intent;
    var s' := Apply(s, Commit(t));
    assert ReadsSafe(s, x) && IntentSafe(s, x);
    ReadsBound(s, x);
    var previous := FindHeld(s.holds, ForAuction(i.auction));
    var freed := if previous.Some? then s.holds[previous.value := s.holds[previous.value].(status := Released)]
      else s.holds;
    var h := Hold(i.user, ForAuction(i.auction), i.amount + i.shippingC, Held);
    forall v: nat
      ensures ActiveHolds(s'.holds, v) <= ActiveHolds(s.holds, v) + HeldFor(h, v)
    {
      if previous.Some? {
        DropHold(s.holds, previous.value, Released, v);
      }
      ActiveHoldsAppend(freed, h, v);
    }
  }

  /** Placing a bid swaps the reserve of its auction and leaves every other one alone. */
  lemma BidSwapsReserve(holds: seq<Hold>, auction: nat, user: nat, reserve: int, before: Option<(nat, int)>,
      source: HoldSource, want: Option<(nat, int)>)
    requires HoldMatches(holds, ForAuction(auction), before)
    requires HoldMatches(holds, source, want)
    ensures HoldMatches(HoldsAfterBid(holds, auction, user, reserve), source,
                        if source == ForAuction(auction) then Some((user, reserve)) else want)
  {
    var own := ForAuction(auction);
    var previous := FindHeld(holds, own);
    var freed := if previous.Some? then holds[previous.value := holds[previous.value].(status := Released)] else holds;
    var h := Hold(user, own, reserve, Held);
    if source == own {
      assert HoldMatches(freed, own, None);
      MatchAppendOwn(freed, h);
    } else {
      if previous.Some? {
        MatchUpdateOther(holds, previous.value, holds[previous.value].(status := Released), source, want);
      }
      MatchAppendOther(freed, h, source, want);
    }
  }

  lemma CommitBiddingLinks(s: State, s': State, a: nat, user: nat, amount: int, shippingC: int)
    requires HoldsLinked(s) && a in s.auctions && a in s'.auctions
    requires s'.auctions == s.auctions[a := s'.auctions[a]]
    requires s'.offers == s.offers && s'.owed == s.owed && s'.captured == s.captured
    requires s'.auctions[a].bids != [] && s'.auctions[a].status == Running
    requires Top(s'.auctions[a]).user == user && Top(s'.auctions[a]).amount == amount
             && Top(s'.auctions[a]).shippingC == shippingC
    requires s'.holds == HoldsAfterBid(s.holds, a, user, amount + shippingC)
    ensures HoldsLinked(s')
  {
    forall source
      ensures HoldMatches(s'.holds, source, Wanted(s', source))
    {
      BidSwapsReserve(s.holds, a, user, amount + shippingC, Wanted(s, ForAuction(a)), source, Wanted(s, source));
      assert source != ForAuction(a) ==> Wanted(s', source) == Wanted(s, source);
    }
  }

  lemma CommitBiddingIntents(s: State, s': State, t: nat)
    requires TxnsSafe(s) && LocksHeld(s) && t in s.txns && s.txns[t].intent.Bidding?
    requires var a := s.txns[t].intent.auction;
             a in s.auctions && a in s'.auctions && s.auctions[a].status == Running
               && s'.auctions == s.auctions[a := s'.auctions[a]]
    requires s'.txns == s.txns - {t} && s'.now == s.now && s'.captured == s.captured
    ensures forall u | u in s'.txns :: IntentSafe(s', s.txns[u])
  {
    forall u | u in s'.txns
      ensures IntentSafe(s', s.txns[u])
    {
      assert IntentSafe(s, s.txns[u]);
    }
  }

  lemma CommitBiddingRows(s: State, s': State, a: nat, user: nat, reserve: int)
    requires RowsKept(s) && reserve >= 0
    requires a in s.auctions && a in s'.auctions && s.auctions[a].status == Running && WellKept(s'.auctions[a], s.now)
    requires s' == s.(auctions := s.auctions[a := s'.auctions[a]], holds := HoldsAfterBid(s.holds, a, user, reserve), txns := s'.txns)
    ensures RowsKept(s')
  {
  }

  lemma CommitBiddingSafe(s: State, t: nat)
    requires Inv(s) && Enabled(s, Commit(t)) && s.txns[t].intent.Bidding?
    ensures var s' := Apply(s, Commit(t)); Solvent(s') && TxnsSafe(s') && LocksHeld(s')
  {
    var s' := Apply(s, Commit(t));
    assert IntentSafe(s, s.txns[t]);
    CommitBiddingBalances(s, t);
    CommitBiddingIntents(s, s', t);
    GentleKeeps(s, s', t);
  }

  /** What the commit of a bid writes. */
  lemma BidCommitted(s: State, t: nat)
    requires RowsKept(s) && TxnsSafe(s) && Enabled(s, Commit(t)) && s.txns[t].intent.Bidding?
    ensures var i := s.txns[t].intent;
            var s' := Apply(s, Commit(t));
            && i.amount + i.shippingC >= 0
            && i.auction in s.auctions && s.auctions[i.auction].status == Running && i.auction in s'.auctions
            && s' == s.(auctions := s.auctions[i.auction := s'.auctions[i.auction]],
                        holds := HoldsAfterBid(s.holds, i.auction, i.user, i.amount + i.shippingC), txns := s'.txns)
            && WellKept(s'.auctions[i.auction], s.now)
            && s'.auctions[i.auction].status == Running && s'.auctions[i.auction].bids != []
            && Top(s'.auctions[i.auction]) == Bid(i.user, i.amount, i.shippingC, Leading, i.at, i.floorMs)
  {
    var i := s.txns[t].intent;
    IntentOf(s, t);
    AcceptKeepsRow(s.auctions[i.auction], i.user, i.amount, i.shippingC, i.at, i.floorMs, s.now);
  }

  lemma CommitBiddingLinked(s: State, t: nat)
    requires HoldsLinked(s) && RowsKept(s) && TxnsSafe(s) && Enabled(s, Commit(t)) && s.txns[t].intent.Bidding?
    ensures HoldsLinked(Apply(s, Commit(t)))
  {
    var i := s.txns[t].intent;
    BidCommitted(s, t);
    CommitBiddingLinks(s, Apply(s, Commit(t)), i.auction, i.user, i.amount, i.shippingC);
  }

  lemma CommitBiddingRowsKept(s: State, t: nat)
    requires RowsKept(s) && TxnsSafe(s) && Enabled(s, Commit(t)) && s.txns[t].intent.Bidding?
    ensures RowsKept(Apply(s, Commit(t)))
  {
    var i := s.txns[t].intent;
    BidCommitted(s, t);
    CommitBiddingRows(s, Apply(s, Commit(t)), i.auction, i.user, i.amount + i.shippingC);
  }

  lemma CommitBiddingKeeps(s: State, t: nat)
    requires Inv(s) && Enabled(s, Commit(t)) && s.txns[t].intent.Bidding?
    ensures Inv(Apply(s, Commit(t)))
  {
    CommitBiddingSafe(s, t);
    CommitBiddingLinked(s, t);
    CommitBiddingRowsKept(s, t);
  }

  /** The captured hold is the winner's whole reserve. */
  lemma CapturedHold(s: State, a: nat, user: nat, amount: int) returns (i: nat)
    requires Inv(s) && Settles(s, a, user, amount) && a !in s.captured
    ensures OnlyHeld(s.holds, ForAuction(a), i) && s.holds[i].user == user
    ensures s.holds[i].amount == amount + Top(s.auctions[a]).shippingC >= amount
    ensures CaptureHolds(s.holds, a, user) == s.holds[i := s.holds[i].(status := Captured)]
  {
    assert WellKept(s.auctions[a], s.now);
    assert BidInTime(s.auctions[a], Top(s.auctions[a]), s.now);
    assert HoldMatches(s.holds, ForAuction(a), Wanted(s, ForAuction(a)));
    i :| OnlyHeld(s.holds, ForAuction(a), i) && s.holds[i].user == user
      && s.holds[i].amount == amount + Top(s.auctions[a]).shippingC;
    CaptureIsUpdate(s.holds, a, i);
  }

  lemma CommitCapturingBalances(s: State, s': State, t: nat, k: nat)
    requires Inv(s) && t in s.txns && s.txns[t].intent.Capturing?
    requires k < |s.holds| && s.holds[k].status == Held && s.holds[k].user == s.txns[t].intent.user
    requires s.holds[k].amount >= s.txns[t].intent.amount
    requires s'.holds == s.holds[k := s.holds[k].(status := Captured)]
    requires s'.entries == s.entries + s.txns[t].intent.legs
    ensures Gentle(s, s', s.txns[t].intent.user)
  {
    var i := s.txns[t].intent;
    assert IntentSafe(s, s.txns[t]);
    assert Available(s.entries, s.holds, i.user) >= 0;
    forall v: nat
      ensures Settled(s'.entries, User(v)) == Settled(s.entries, User(v)) + Settled(i.legs, User(v))
      ensures ActiveHolds(s'.holds, v) == ActiveHolds(s.holds, v) - (if v == i.user then s.holds[k].amount else 0)
    {
      SettledConcat(s.entries, i.legs, User(v));
      DropHold(s.holds, k, Captured, v);
    }
  }

  lemma CommitCapturingLinks(s: State, s': State, a: nat, k: nat)
    requires HoldsLinked(s) && OnlyHeld(s.holds, ForAuction(a), k)
    requires s'.auctions == s.auctions && s'.offers == s.offers && s'.owed == s.owed && s'.captured == s.captured + {a}
    requires a in s.auctions && s.auctions[a].status == Settling
    requires s'.holds == s.holds[k := s.holds[k].(status := Captured)]
    ensures HoldsLinked(s')
  {
    forall source
      ensures HoldMatches(s'.holds, source, Wanted(s', source))
    {
      assert HoldMatches(s.holds, source, Wanted(s, source));
      if source != ForAuction(a) {
        assert Wanted(s', source) == Wanted(s, source);
        MatchUpdateOther(s.holds, k, s.holds[k].(status := Captured), source, Wanted(s, source));
      }
    }
  }

  lemma CommitCapturingKeeps(s: State, t: nat)
    requires Inv(s) && Enabled(s, Commit(t)) && s.txns[t].intent.Capturing?
    ensures Inv(Apply(s, Commit(t)))
  {
    var i := s.txns[t].intent;
    var s' := Apply(s, Commit(t));
    assert IntentSafe(s, s.txns[t]);
    var k := CapturedHold(s, i.auction, i.user, i.amount);
    CommitCapturingBalances(s, s', t, k);
    IntentsUntouched(s, s', t);
    GentleKeeps(s, s', t);
    CommitCapturingLinks(s, s', i.auction, k);
  }

  // ---------------------------------------------------------------------------
  // Offers
  // ---------------------------------------------------------------------------

  lemma OfferRowKeeps(s: State, s': State, o: nat)
    requires Inv(s) && o in s.offers && o in s'.offers
    requires s' == s.(offers := s.offers[o := s'.offers[o]], owed := s'.owed)
    requires s'.offers[o] == s.offers[o].(status := s'.offers[o].status, counter := s'.offers[o].counter, expiresAt := s'.offers[o].expiresAt)
    requires s'.owed - {o} == s.owed - {o}
    requires o in s'.owed ==> !Live(s'.offers[o])
    requires OfferNeedsHold(s', o) == OfferNeedsHold(s, o)
    requires OfferSane(s'.offers[o])
    ensures Inv(s')
  {
    forall source
      ensures HoldMatches(s'.holds, source, Wanted(s', source))
    {
      assert HoldMatches(s.holds, source, Wanted(s, source));
      if source.ForOffer? && source.offer != o {
        assert source.offer in s'.owed <==> source.offer in s'.owed - {o};
        assert source.offer in s.owed <==> source.offer in s.owed - {o};
      }
      assert Wanted(s', source) == Wanted(s, source);
    }
    forall p | p in s'.owed
      ensures p in s'.offers && !Live(s'.offers[p])
    {
      if p != o {
        assert p in s'.owed - {o};
      }
    }
    forall u: nat
      ensures Available(s'.entries, s'.holds, u) >= 0
    {
      assert Available(s.entries, s.holds, u) >= 0;
    }
    forall t | t in s'.txns
      ensures ReadsSafe(s', s'.txns[t]) && IntentSafe(s', s'.txns[t])
    {
      assert ReadsSafe(s, s.txns[t]) && IntentSafe(s, s.txns[t]);
    }
  }

  /** Freeing an offer's reserve needs no lock: it can only raise availability. */
  lemma FreeOfferKeeps(s: State, o: nat)
    requires Inv(s) && Enabled(s, FreeOffer(o))
    ensures Inv(Apply(s, FreeOffer(o)))
  {
    var s' := Apply(s, FreeOffer(o));
    var own := ForOffer(o);
    assert HoldMatches(s.holds, own, Wanted(s, own));
    if o !in s.owed {
      ReleaseNothing(s.holds, o);
      assert s' == s;
      return;
    }
    var i: nat :| OnlyHeld(s.holds, own, i);
    ReleaseIsUpdate(s.holds, o, i);
    forall v: nat
      ensures ActiveHolds(s'.holds, v) <= ActiveHolds(s.holds, v)
    {
      DropHold(s.holds, i, Released, v);
    }
    forall source
      ensures HoldMatches(s'.holds, source, Wanted(s', source))
    {
      assert HoldMatches(s.holds, source, Wanted(s, source));
      if source != own {
        assert Wanted(s', source) == Wanted(s, source);
        MatchUpdateOther(s.holds, i, s.holds[i].(status := Released), source, Wanted(s, source));
      }
    }
    forall u: nat
      ensures Available(s'.entries, s'.holds, u) >= 0
    {
      assert Available(s.entries, s.holds, u) >= 0;
    }
    forall t | t in s'.txns
      ensures ReadsSafe(s', s'.txns[t]) && IntentSafe(s', s'.txns[t])
    {
      assert ReadsSafe(s, s.txns[t]) && IntentSafe(s, s.txns[t]);
    }
  }

  // ---------------------------------------------------------------------------
  // Every step, every run
  // ---------------------------------------------------------------------------

  lemma CommitKeeps(s: State, t: nat)
    requires Inv(s) && Enabled(s, Commit(t))
    ensures Inv(Apply(s, Commit(t)))
  {
    match s.txns[t].intent
    case Charge(_, _, _) => CommitChargeKeeps(s, t);
    case Offering(_, _, _) => CommitOfferingKeeps(s, t);
    case Bidding(_, _, _, _, _, _) => CommitBiddingKeeps(s, t);
    case Capturing(_, _, _, _) => CommitCapturingKeeps(s, t);
  }

  lemma StepKeeps(s: State, step: Step)
    requires Inv(s) && Enabled(s, step)
    ensures Inv(Apply(s, step))
  {
    match step
    case Pass(ms) => PassKeeps(s, ms);
    case PostUnlocked(legs) => PostUnlockedKeeps(s, legs);
    case Create(a, row) =>
      forall t | t in s.txns && s.txns[t].intent.Bidding?
        ensures s.txns[t].intent.auction != a
      {
        assert IntentSafe(s, s.txns[t]);
      }
      AuctionStepKeeps(s, Apply(s, step), a);
    case Start(a) => AuctionStepKeeps(s, Apply(s, step), a);
    case Close(a) => CloseKeeps(s, a);
    case Commit(t) => CommitKeeps(s, t);
    case CounterOffer(o, _, _) => OfferRowKeeps(s, Apply(s, step), o);
    case ClaimOffer(o, _) => OfferRowKeeps(s, Apply(s, step), o);
    case FreeOffer(o) => FreeOfferKeeps(s, o);
    case FailAccepted(o) => OfferRowKeeps(s, Apply(s, step), o);
    case Begin(t, i) => BeginKeeps(s, t, i);
    case LockAccount(t) => LockAccountKeeps(s, t);
    case ReadSettled(_) => ReadKeeps(s, step);
    case ReadHolds(_) => ReadKeeps(s, step);
    case Abort(t) => AbortKeeps(s, t);
  }

  lemma {:induction false} RunKeeps(steps: seq<Step>)
    requires IsRun(Empty, steps)
    ensures Inv(After(Empty, steps))
  {
    if steps == [] {
      assert forall source :: Wanted(Empty, source) == None;
    } else {
      var n := |steps| - 1;
      RunKeeps(steps[..n]);
      StepKeeps(After(Empty, steps[..n]), steps[n]);
    }
  }

  lemma RunKeepsRow(steps: seq<Step>, a: nat)
    requires IsRun(Empty, steps) && a in After(Empty, steps).auctions
    ensures WellKept(After(Empty, steps).auctions[a], After(Empty, steps).now)
  {
    RunKeeps(steps);
  }

  lemma RunKeepsLink(steps: seq<Step>, source: HoldSource)
    requires IsRun(Empty, steps)
    ensures HoldMatches(After(Empty, steps).holds, source, Wanted(After(Empty, steps), source))
  {
    RunKeeps(steps);
  }
}
