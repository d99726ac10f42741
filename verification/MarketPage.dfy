/** The marketplace feed (packages/backend/src/market.ts): running auctions and buy-now
    listings, each fetched as the top of its own database order, merged and paged. */
module MarketPage {
  import opened Schema

  const PAGE_SIZE := 24
  const LAST_PAGE := 200

  datatype Sort = Ending | Newest | PriceUp | PriceDown

  /** A feed entry; `ends` is None for a buy-now listing, `bid` until somebody bids. `ask` is
      the starting bid or the buy-now price. */
  datatype Card = Card(id: nat, ends: Option<int>, created: int, bid: Option<int>, ask: int)

  function Price(c: Card): int {
    if c.bid.Some? then c.bid.value else c.ask
  }

  /** The merge comparator. */
  function Compare(sort: Sort, a: Card, b: Card): int {
    match sort
    case Newest => b.created - a.created
    case PriceUp => if Price(a) < Price(b) then -1 else if Price(a) > Price(b) then 1 else b.created - a.created
    case PriceDown => if Price(a) > Price(b) then -1 else if Price(a) < Price(b) then 1 else b.created - a.created
    case Ending =>
      if a.ends.Some? && b.ends.Some? then a.ends.value - b.ends.value
      else if a.ends.Some? then -1
      else if b.ends.Some? then 1
      else b.created - a.created
  }

  predicate Leq(sort: Sort, a: Card, b: Card) {
    Compare(sort, a, b) <= 0
  }

  /** In every sort mode, across both kinds, the comparator is a total order up to ties. */
  lemma ComparatorIsTotal(sort: Sort, a: Card, b: Card, c: Card)
    ensures Leq(sort, a, b) || Leq(sort, b, a)
    ensures Compare(sort, a, b) < 0 <==> Compare(sort, b, a) > 0
    ensures Leq(sort, a, b) && Leq(sort, b, c) ==> Leq(sort, a, c)
    ensures sort == Ending && a.ends.Some? && b.ends.None? ==> Compare(sort, a, b) < 0
  {
  }

  /** What each mode asks for: the newest first; the cheapest or the dearest first, by the
      leading bid or else the asking price, and then the newest; auctions that end soonest
      first, and then the newest listings. */
  lemma ModesMean(sort: Sort, a: Card, b: Card)
    requires Leq(sort, a, b)
    ensures sort == Newest ==> a.created >= b.created
    ensures var (x, y) := (if a.bid.Some? then a.bid.value else a.ask, if b.bid.Some? then b.bid.value else b.ask);
            && (sort == PriceUp ==> x < y || (x == y && a.created >= b.created))
            && (sort == PriceDown ==> x > y || (x == y && a.created >= b.created))
    ensures sort == Ending ==>
              match (a.ends, b.ends)
              case (Some(x), Some(y)) => x <= y
              case (Some(_), None) => true
              case (None, Some(_)) => false
              case (None, None) => a.created >= b.created
  {
  }

  predicate Sorted(sort: Sort, s: seq<Card>) {
    forall i, j | 0 <= i < j < |s| :: Leq(sort, s[i], s[j])
  }

  /** Put a card behind everything that is not after it. */
  function Insert(sort: Sort, s: seq<Card>, x: Card): seq<Card> {
    if s == [] then [x]
    else if Leq(sort, s[0], x) then [s[0]] + Insert(sort, s[1..], x)
    else [x] + s
  }

  /** The stable sort of the merged rows. */
  function StableSort(sort: Sort, s: seq<Card>): seq<Card> {
    if s == [] then [] else Insert(sort, StableSort(sort, s[..|s| - 1]), s[|s| - 1])
  }

  function Take(s: seq<Card>, n: nat): seq<Card> {
    if n < |s| then s[..n] else s
  }

  function Drop(s: seq<Card>, n: nat): seq<Card> {
    if n < |s| then s[n..] else []
  }

  /** Whatever page was asked for, clamped. */
  function ClampPage(page: int): nat {
    if page < 0 then 0 else if page > LAST_PAGE then LAST_PAGE else page
  }

  /** The page the feed serves, from the two database result sets. */
  function ListMarket(sort: Sort, auctions: seq<Card>, fixed: seq<Card>, asked: int): seq<Card> {
    var page := ClampPage(asked);
    var window := (page + 1) * PAGE_SIZE;
    var entries := StableSort(sort, Take(auctions, window) + Take(fixed, window));
    Take(Drop(entries, page * PAGE_SIZE), PAGE_SIZE)
  }

  // ---------------------------------------------------------------------------
  // The sort
  // ---------------------------------------------------------------------------

  function Ties(sort: Sort, s: seq<Card>, x: Card): seq<Card> {
    if s == [] then []
    else (if Compare(sort, s[0], x) == 0 then [s[0]] else []) + Ties(sort, s[1..], x)
  }

  lemma {:induction false} InsertAdds(sort: Sort, s: seq<Card>, x: Card)
    ensures multiset(Insert(sort, s, x)) == multiset(s) + multiset{x}
    ensures forall y | y in Insert(sort, s, x) :: y == x || y in s
  {
    if s != [] {
      assert s == [s[0]] + s[1..];
      InsertAdds(sort, s[1..], x);
    }
  }

  lemma {:induction false} InsertSorts(sort: Sort, s: seq<Card>, x: Card)
    requires Sorted(sort, s)
    ensures Sorted(sort, Insert(sort, s, x))
  {
    if s != [] && Leq(sort, s[0], x) {
      InsertSorts(sort, s[1..], x);
      InsertAdds(sort, s[1..], x);
      var rest := Insert(sort, s[1..], x);
      assert forall j | 0 <= j < |rest| :: rest[j] == x || rest[j] in s[1..];
    } else if s != [] {
      forall j | 0 <= j < |s|
        ensures Leq(sort, x, s[j])
      {
        ComparatorIsTotal(sort, x, s[0], s[j]);
      }
    }
  }

  lemma {:induction false} TiesConcat(sort: Sort, s: seq<Card>, t: seq<Card>, x: Card)
    ensures Ties(sort, s + t, x) == Ties(sort, s, x) + Ties(sort, t, x)
  {
    if s == [] {
      assert s + t == t;
    } else {
      assert (s + t)[1..] == s[1..] + t;
      TiesConcat(sort, s[1..], t, x);
    }
  }

  lemma {:induction false} NoTies(sort: Sort, s: seq<Card>, x: Card)
    requires forall i | 0 <= i < |s| :: Compare(sort, s[i], x) != 0
    ensures Ties(sort, s, x) == []
  {
    if s != [] {
      NoTies(sort, s[1..], x);
    }
  }

  lemma AfterIsNoTie(sort: Sort, x: Card, first: Card, later: Card, y: Card)
    requires !Leq(sort, first, x) && Leq(sort, first, later) && Compare(sort, x, y) == 0
    ensures Compare(sort, later, y) != 0
  {
  }

  lemma InsertFrontIsStable(sort: Sort, s: seq<Card>, x: Card, y: Card)
    requires Sorted(sort, s) && s != [] && !Leq(sort, s[0], x)
    ensures Ties(sort, [x] + s, y) == Ties(sort, s, y) + Ties(sort, [x], y)
  {
    assert ([x] + s)[1..] == s;
    assert [x][1..] == [];
    if Compare(sort, x, y) == 0 {
      forall i | 0 <= i < |s|
        ensures Compare(sort, s[i], y) != 0
      {
        AfterIsNoTie(sort, x, s[0], s[i], y);
      }
      NoTies(sort, s, y);
    }
  }

  /** A card goes behind the cards it ties with. */
  lemma {:induction false} InsertIsStable(sort: Sort, s: seq<Card>, x: Card, y: Card)
    requires Sorted(sort, s)
    ensures Ties(sort, Insert(sort, s, x), y) == Ties(sort, s, y) + Ties(sort, [x], y)
  {
    if s != [] && Leq(sort, s[0], x) {
      InsertIsStable(sort, s[1..], x, y);
      assert ([s[0]] + Insert(sort, s[1..], x))[1..] == Insert(sort, s[1..], x);
    } else if s != [] {
      InsertFrontIsStable(sort, s, x, y);
    }
  }

  /** The sort orders the entries, loses and invents none, and keeps ties in the order the
      database gave them. */
  lemma {:induction false} SortIsStable(sort: Sort, s: seq<Card>, y: Card)
    ensures Sorted(sort, StableSort(sort, s))
    ensures multiset(StableSort(sort, s)) == multiset(s)
    ensures Ties(sort, StableSort(sort, s), y) == Ties(sort, s, y)
  {
    if s != [] {
      var n := |s| - 1;
      SortIsStable(sort, s[..n], y);
      var front := StableSort(sort, s[..n]);
      InsertSorts(sort, front, s[n]);
      InsertAdds(sort, front, s[n]);
      InsertIsStable(sort, front, s[n], y);
      TiesConcat(sort, s[..n], [s[n]], y);
      assert s == s[..n] + [s[n]];
    }
  }

  // ---------------------------------------------------------------------------
  // Top rows of each source are enough
  // ---------------------------------------------------------------------------

  function Merge(sort: Sort, a: seq<Card>, b: seq<Card>): seq<Card> {
    if a == [] then b
    else if b == [] then a
    else if Leq(sort, a[0], b[0]) then [a[0]] + Merge(sort, a[1..], b)
    else [b[0]] + Merge(sort, a, b[1..])
  }

  lemma {:induction false} InsertLast(sort: Sort, s: seq<Card>, x: Card)
    requires Sorted(sort, s + [x])
    ensures Insert(sort, s, x) == s + [x]
  {
    if s != [] {
      assert (s + [x])[0] == s[0] && (s + [x])[|s|] == x;
      assert (s + [x])[1..] == s[1..] + [x];
      InsertLast(sort, s[1..], x);
      assert [s[0]] + (s[1..] + [x]) == s + [x];
    }
  }

  /** Inserting the next row of the second source is merging one row more. */
  lemma {:induction false} InsertIntoMerge(sort: Sort, a: seq<Card>, b: seq<Card>, x: Card)
    requires Sorted(sort, a) && Sorted(sort, b + [x])
    ensures Insert(sort, Merge(sort, a, b), x) == Merge(sort, a, b + [x])
  {
    if a == [] {
      InsertLast(sort, b, x);
    } else if b == [] {
      assert b + [x] == [x];
      if Leq(sort, a[0], x) {
        InsertIntoMerge(sort, a[1..], b, x);
        assert Merge(sort, a[1..], b) == a[1..];
      } else {
        assert [x][1..] == [];
      }
    } else {
      assert (b + [x])[1..] == b[1..] + [x];
      assert (b + [x])[0] == b[0] && (b + [x])[|b|] == x;
      if Leq(sort, a[0], b[0]) {
        ComparatorIsTotal(sort, a[0], b[0], x);
        InsertIntoMerge(sort, a[1..], b, x);
        assert Merge(sort, a, b)[1..] == Merge(sort, a[1..], b);
      } else {
        InsertIntoMerge(sort, a, b[1..], x);
        assert Merge(sort, a, b)[1..] == Merge(sort, a, b[1..]);
      }
    }
  }

  lemma {:induction false} SortedIsFixed(sort: Sort, a: seq<Card>)
    requires Sorted(sort, a)
    ensures StableSort(sort, a) == a
  {
    if a != [] {
      var n := |a| - 1;
      assert a[..n] + [a[n]] == a;
      SortedIsFixed(sort, a[..n]);
      InsertLast(sort, a[..n], a[n]);
    }
  }

  lemma {:induction false} SortIsMerge(sort: Sort, a: seq<Card>, b: seq<Card>)
    requires Sorted(sort, a) && Sorted(sort, b)
    ensures StableSort(sort, a + b) == Merge(sort, a, b)
  {
    if b == [] {
      assert a + b == a;
      SortedIsFixed(sort, a);
    } else {
      var n := |b| - 1;
      SortIsMerge(sort, a, b[..n]);
      assert (a + b)[..|a + b| - 1] == a + b[..n];
      assert b[..n] + [b[n]] == b;
      InsertIntoMerge(sort, a, b[..n], b[n]);
    }
  }

  /** The first `w` of a merge need no more than the first `w` of each side. */
  lemma {:induction false} MergeTop(sort: Sort, a: seq<Card>, b: seq<Card>, m: nat, n: nat, w: nat)
    requires w <= m && w <= n
    ensures Take(Merge(sort, Take(a, m), Take(b, n)), w) == Take(Merge(sort, a, b), w)
    decreases w
  {
    var a', b' := Take(a, m), Take(b, n);
    var whole, top := Merge(sort, a, b), Merge(sort, a', b');
    if w > 0 {
      if a == [] || b == [] {
        assert top == if a == [] then b' else a';
      } else if Leq(sort, a[0], b[0]) {
        assert a'[1..] == Take(a[1..], m - 1);
        MergeTop(sort, a[1..], b, m - 1, n, w - 1);
        TakeCons(a[0], Merge(sort, a[1..], b), w);
        TakeCons(a[0], Merge(sort, a'[1..], b'), w);
      } else {
        assert b'[1..] == Take(b[1..], n - 1);
        MergeTop(sort, a, b[1..], m, n - 1, w - 1);
        TakeCons(b[0], Merge(sort, a, b[1..]), w);
        TakeCons(b[0], Merge(sort, a', b'[1..]), w);
      }
    }
  }

  lemma TakeCons(x: Card, s: seq<Card>, w: nat)
    requires w > 0
    ensures Take([x] + s, w) == [x] + Take(s, w - 1)
  {
  }

  lemma SortedTake(sort: Sort, s: seq<Card>, n: nat)
    requires Sorted(sort, s)
    ensures Sorted(sort, Take(s, n))
  {
  }

  lemma PageOfTop(s: seq<Card>, t: seq<Card>, from: nat, size: nat)
    requires Take(s, from + size) == Take(t, from + size)
    ensures Take(Drop(s, from), size) == Take(Drop(t, from), size)
  {
    assert Take(Drop(s, from), size) == Drop(Take(s, from + size), from);
    assert Take(Drop(t, from), size) == Drop(Take(t, from + size), from);
  }

  lemma TopOfEachIsEnough(sort: Sort, a: seq<Card>, b: seq<Card>, w: nat)
    requires Sorted(sort, a) && Sorted(sort, b)
    ensures Take(StableSort(sort, Take(a, w) + Take(b, w)), w) == Take(StableSort(sort, a + b), w)
  {
    SortedTake(sort, a, w);
    SortedTake(sort, b, w);
    SortIsMerge(sort, a, b);
    SortIsMerge(sort, Take(a, w), Take(b, w));
    MergeTop(sort, a, b, w, w, w);
  }

  /** Whenever the database gives each source in the order of the comparator, sorting only
      the top rows of each and slicing serves exactly the page of the whole merged feed,
      ties included. */
  lemma PageIsExact(sort: Sort, auctions: seq<Card>, fixed: seq<Card>, asked: int)
    requires Sorted(sort, auctions) && Sorted(sort, fixed)
    ensures ListMarket(sort, auctions, fixed, asked) ==
            Take(Drop(StableSort(sort, auctions + fixed), ClampPage(asked) * PAGE_SIZE), PAGE_SIZE)
  {
    var from := ClampPage(asked) * PAGE_SIZE;
    var window := (ClampPage(asked) + 1) * PAGE_SIZE;
    TopOfEachIsEnough(sort, auctions, fixed, window);
    PageOfTop(StableSort(sort, Take(auctions, window) + Take(fixed, window)), StableSort(sort, auctions + fixed), from, PAGE_SIZE);
  }

  /** In rows: two dozen of the whole feed, fewer at its end, none beyond it; a page before the
      first is the first, one after the two hundredth is that. */
  lemma PageIsTheSlice(sort: Sort, auctions: seq<Card>, fixed: seq<Card>, asked: int, page: nat)
    requires Sorted(sort, auctions) && Sorted(sort, fixed)
    requires page == if asked < 0 then 0 else if asked > 200 then 200 else asked
    ensures var feed := StableSort(sort, auctions + fixed);
            ListMarket(sort, auctions, fixed, asked) == feed[Least(24 * page, |feed|)..Least(24 * page + 24, |feed|)]
  {
    PageIsExact(sort, auctions, fixed, asked);
    SliceOf(StableSort(sort, auctions + fixed), 24 * page);
  }

  function Least(a: nat, b: nat): nat {
    if a < b then a else b
  }

  lemma SliceOf(s: seq<Card>, from: nat)
    ensures Take(Drop(s, from), 24) == s[Least(from, |s|)..Least(from + 24, |s|)]
  {
  }

  // ---------------------------------------------------------------------------
  // The default order
  // ---------------------------------------------------------------------------

  /** The database orders of the default mode: auctions by deadline, listings newest first. */
  predicate EndingOrders(auctions: seq<Card>, fixed: seq<Card>) {
    && (forall i | 0 <= i < |auctions| :: auctions[i].ends.Some?)
    && (forall i, j | 0 <= i < j < |auctions| :: auctions[i].ends.value <= auctions[j].ends.value)
    && (forall i | 0 <= i < |fixed| :: fixed[i].ends.None?)
    && (forall i, j | 0 <= i < j < |fixed| :: fixed[i].created >= fixed[j].created)
  }

  /** In the default order the feed is every auction, then every listing, and the row of
      rank r is served as row r mod 24 of page r div 24: no row is skipped or repeated. */
  lemma EveryRowHasItsPlace(auctions: seq<Card>, fixed: seq<Card>, r: nat)
    requires EndingOrders(auctions, fixed)
    requires r < |auctions| + |fixed| && r < 24 * 201
    ensures var page := ListMarket(Ending, auctions, fixed, r / 24);
            r % 24 < |page| <= 24 && page[r % 24] == (auctions + fixed)[r]
  {
    PageIsExact(Ending, auctions, fixed, r / PAGE_SIZE);
    SortIsMerge(Ending, auctions, fixed);
    AuctionsFirst(auctions, fixed);
    RowOfPage(auctions + fixed, r);
  }

  lemma RowOfPage(s: seq<Card>, r: nat)
    requires r < |s|
    ensures var page := Take(Drop(s, r / PAGE_SIZE * PAGE_SIZE), PAGE_SIZE);
            r % PAGE_SIZE < |page| && page[r % PAGE_SIZE] == s[r]
  {
    assert r == r / PAGE_SIZE * PAGE_SIZE + r % PAGE_SIZE;
  }

  lemma {:induction false} AuctionsFirst(auctions: seq<Card>, fixed: seq<Card>)
    requires EndingOrders(auctions, fixed)
    ensures Merge(Ending, auctions, fixed) == auctions + fixed
  {
    if auctions != [] && fixed != [] {
      AuctionsFirst(auctions[1..], fixed);
      assert auctions + fixed == [auctions[0]] + (auctions[1..] + fixed);
    }
  }

  /** The database order of the auctions in the cheapest-first mode: by current bid, those
      without one first, then by starting bid. */
  predicate PriceUpOrder(auctions: seq<Card>) {
    forall i, j | 0 <= i < j < |auctions| ::
      match (auctions[i].bid, auctions[j].bid)
      case (Some(x), Some(y)) => x < y || (x == y && auctions[i].ask <= auctions[j].ask)
      case (Some(_), None) => false
      case (None, Some(_)) => true
      case (None, None) => auctions[i].ask <= auctions[j].ask
  }

  /** That order is not the comparator's: a page of dear unbid auctions hides a cheap auction
      with a bid, which the merged feed would show first. */
  lemma PriceSortHidesTheCheapest() returns (auctions: seq<Card>)
    ensures PriceUpOrder(auctions) && |auctions| == PAGE_SIZE + 1
    ensures StableSort(PriceUp, auctions + [])[0] == auctions[PAGE_SIZE]
    ensures auctions[PAGE_SIZE] !in ListMarket(PriceUp, auctions, [], 0)
  {
    var dear := seq(PAGE_SIZE, i => Card(1, Some(0), 0, None, 100));
    var cheap := Card(0, Some(0), 0, Some(1), 1);
    auctions := dear + [cheap];
    assert Take(auctions, PAGE_SIZE) == dear && auctions[..|auctions| - 1] == dear;
    assert dear + [] == dear && auctions + [] == auctions;
    SortIsStable(PriceUp, dear, cheap);
    var shown := StableSort(PriceUp, dear);
    forall x | x in shown
      ensures Price(x) == 100
    {
      assert x in multiset(shown);
      assert x in multiset(dear);
    }
    assert |shown| == |multiset(shown)| == |multiset(dear)| == |dear|;
    assert shown[0] in shown;
  }
}
