/** Exactly when a page of the marketplace feed is right (packages/backend/src/market.ts):
    for any two database orders, as long as no two rows tie. */
module PageWindows {
  import opened MarketPage

  // ---------------------------------------------------------------------------
  // Rows without ties
  // ---------------------------------------------------------------------------

  /** No two rows tie. */
  predicate Untied(sort: Sort, s: seq<Card>) {
    forall i, j | 0 <= i < j < |s| :: Compare(sort, s[i], s[j]) != 0
  }

  predicate Strict(sort: Sort, s: seq<Card>) {
    forall i, j | 0 <= i < j < |s| :: Compare(sort, s[i], s[j]) < 0
  }

  lemma {:induction false} InsertStrict(sort: Sort, s: seq<Card>, x: Card)
    requires Strict(sort, s) && forall y | y in s :: Compare(sort, y, x) != 0
    ensures Strict(sort, Insert(sort, s, x))
  {
    InsertAdds(sort, s, x);
    if s != [] {
      if Leq(sort, s[0], x) {
        InsertStrict(sort, s[1..], x);
        InsertAdds(sort, s[1..], x);
        var rest := Insert(sort, s[1..], x);
        assert forall j | 0 <= j < |rest| :: rest[j] == x || rest[j] in s[1..];
      } else {
        forall j | 0 <= j < |s|
          ensures Compare(sort, x, s[j]) < 0
        {
          ComparatorIsTotal(sort, x, s[0], s[j]);
          ComparatorIsTotal(sort, x, s[j], s[0]);
        }
      }
    }
  }

  lemma {:induction false} SortHasTheRows(sort: Sort, s: seq<Card>)
    ensures multiset(StableSort(sort, s)) == multiset(s) && |StableSort(sort, s)| == |s|
    ensures forall x :: x in StableSort(sort, s) <==> x in s
  {
    if s != [] {
      var n := |s| - 1;
      SortHasTheRows(sort, s[..n]);
      InsertAdds(sort, StableSort(sort, s[..n]), s[n]);
      assert s == s[..n] + [s[n]];
    }
    var sorted := StableSort(sort, s);
    assert |multiset(sorted)| == |multiset(s)|;
    forall x
      ensures x in sorted <==> x in s
    {
      assert x in sorted <==> x in multiset(sorted);
      assert x in s <==> x in multiset(s);
    }
  }

  lemma {:induction false} SortStrict(sort: Sort, s: seq<Card>)
    requires Untied(sort, s)
    ensures Strict(sort, StableSort(sort, s))
  {
    if s != [] {
      var n := |s| - 1;
      SortStrict(sort, s[..n]);
      SortHasTheRows(sort, s[..n]);
      InsertStrict(sort, StableSort(sort, s[..n]), s[n]);
    }
  }

  predicate Within(u: seq<Card>, s: seq<Card>) {
    forall x | x in u :: x in s
  }

  lemma NothingWithin(u: seq<Card>, s: seq<Card>)
    requires Within(u, s)
    ensures s == [] ==> u == []
  {
    if u != [] {
      assert u[0] in u;
    }
  }

  lemma TailWithin(sort: Sort, u: seq<Card>, s: seq<Card>)
    requires Strict(sort, u) && Strict(sort, s) && Within(u, s) && u != [] && s != []
    requires u[0] == s[0] || s[0] !in u
    ensures Within(u[1..], s[1..])
  {
    forall x | x in u[1..]
      ensures x in s[1..]
    {
      assert x in u && x in s && x != s[0];
    }
  }

  /** The least row comes first wherever it is. */
  lemma LeastIsFirst(sort: Sort, u: seq<Card>, s: seq<Card>)
    requires Strict(sort, u) && Strict(sort, s) && Within(u, s) && s != [] && s[0] in u
    ensures u[0] == s[0]
  {
    assert u[0] in s;
  }

  /** Rows that have the first `w` of a feed show the same first `w`. */
  lemma {:induction false} SameTop(sort: Sort, u: seq<Card>, s: seq<Card>, w: nat)
    requires Strict(sort, u) && Strict(sort, s) && Within(u, s)
    requires forall i | 0 <= i < w && i < |s| :: s[i] in u
    ensures Take(u, w) == Take(s, w)
    decreases w
  {
    NothingWithin(u, s);
    if s != [] && w > 0 {
      LeastIsFirst(sort, u, s);
      TailWithin(sort, u, s);
      forall i | 0 <= i < w - 1 && i < |s[1..]|
        ensures s[1..][i] in u[1..]
      {
        assert s[i + 1] in u && s[i + 1] != u[0];
      }
      SameTop(sort, u[1..], s[1..], w - 1);
      assert u == [u[0]] + u[1..] && s == [s[0]] + s[1..];
      TakeCons(u[0], u[1..], w);
      TakeCons(s[0], s[1..], w);
    }
  }

  /** If the first row is missing, the rest miss the next one as their first. */
  lemma NextIsMissing(sort: Sort, u: seq<Card>, s: seq<Card>)
    requires Strict(sort, u) && Strict(sort, s) && Within(u, s) && |u| > 1 && |s| > 1 && s[0] !in u
    ensures s[1] !in u[1..]
  {
    assert u[0] in u && u[0] in s;
    assert Leq(sort, s[1], u[0]);
    forall x | x in u[1..]
      ensures x != s[1]
    {
      ComparatorIsTotal(sort, s[1], u[0], x);
    }
  }

  /** Once a row is missing, every rank after it shows another row. */
  lemma {:induction false} ShiftedAfterAGap(sort: Sort, u: seq<Card>, s: seq<Card>, k: nat)
    requires Strict(sort, u) && Strict(sort, s) && Within(u, s) && s != [] && s[0] !in u && k < |u| && k < |s|
    ensures u[k] != s[k]
    decreases k
  {
    if k > 0 {
      TailWithin(sort, u, s);
      NextIsMissing(sort, u, s);
      ShiftedAfterAGap(sort, u[1..], s[1..], k - 1);
    }
  }

  /** The whole merged feed. */
  function Feed(sort: Sort, auctions: seq<Card>, fixed: seq<Card>): seq<Card> {
    StableSort(sort, auctions + fixed)
  }

  /** Every row up to the end of the page is among those its own source was asked for. */
  predicate TopIsFetched(sort: Sort, auctions: seq<Card>, fixed: seq<Card>, window: nat) {
    var feed := Feed(sort, auctions, fixed);
    forall i | 0 <= i < window && i < |feed| :: feed[i] in Take(auctions, window) + Take(fixed, window)
  }

  lemma FetchedRows(sort: Sort, auctions: seq<Card>, fixed: seq<Card>, window: nat)
    requires Untied(sort, auctions + fixed)
    ensures var shown := StableSort(sort, Take(auctions, window) + Take(fixed, window));
            && Strict(sort, shown) && Strict(sort, Feed(sort, auctions, fixed))
            && Within(shown, Feed(sort, auctions, fixed))
            && forall x :: x in shown <==> x in Take(auctions, window) + Take(fixed, window)
  {
    var rows := Take(auctions, window) + Take(fixed, window);
    assert Untied(sort, rows) by {
      FewerAreUntied(sort, auctions, fixed, window);
    }
    SortStrict(sort, rows);
    SortStrict(sort, auctions + fixed);
    SortHasTheRows(sort, rows);
    SortHasTheRows(sort, auctions + fixed);
  }

  lemma FewerAreUntied(sort: Sort, a: seq<Card>, b: seq<Card>, n: nat)
    requires Untied(sort, a + b)
    ensures Untied(sort, Take(a, n) + Take(b, n))
  {
    var (x, y) := (Take(a, n), Take(b, n));
    var (few, all) := (x + y, a + b);
    forall i, j | 0 <= i < j < |few|
      ensures Compare(sort, few[i], few[j]) != 0
    {
      var p := if i < |x| then i else i - |x| + |a|;
      var q := if j < |x| then j else j - |x| + |a|;
      assert few[i] == all[p] && few[j] == all[q];
    }
  }

  lemma RestWithin(sort: Sort, u: seq<Card>, s: seq<Card>, m: nat)
    requires Strict(sort, u) && Within(u, s) && m <= |u| && m <= |s| && u[..m] == s[..m]
    ensures Within(u[m..], s[m..])
  {
    forall x | x in u[m..]
      ensures x in s[m..]
    {
      var i :| m <= i < |u| && u[i] == x;
      assert x in u && x in s;
      forall j | 0 <= j < m
        ensures s[j] != x
      {
        assert u[..m][j] == s[..m][j];
        assert Compare(sort, u[j], u[i]) < 0;
      }
    }
  }

  /** If row `m` is missing, rank `r` shows another row, or none. */
  lemma GapShowsAt(sort: Sort, u: seq<Card>, s: seq<Card>, m: nat, r: nat)
    requires Strict(sort, u) && Strict(sort, s) && Within(u, s)
    requires m <= r < |s| && s[m] !in u && forall i | 0 <= i < m :: s[i] in u
    ensures r < |u| ==> u[r] != s[r]
  {
    SameTop(sort, u, s, m);
    if r < |u| {
      RestWithin(sort, u, s, m);
      ShiftedAfterAGap(sort, u[m..], s[m..], r - m);
    }
  }

  lemma PageShows(s: seq<Card>, from: nat, size: nat, r: nat)
    requires from <= r < from + size
    ensures var page := Take(Drop(s, from), size);
            && (r < |s| <==> r - from < |page|)
            && (r < |s| ==> page[r - from] == s[r])
  {
  }

  /** Two pages cut at the same place, one from a feed that misses a row up to its end. */
  lemma GapShows(sort: Sort, u: seq<Card>, s: seq<Card>, m: nat, from: nat, size: nat)
    requires Strict(sort, u) && Strict(sort, s) && Within(u, s) && size > 0
    requires m < |s| && m < from + size && from < |s| && s[m] !in u && forall i | 0 <= i < m :: s[i] in u
    ensures Take(Drop(u, from), size) != Take(Drop(s, from), size)
  {
    var r := if m < from then from else m;
    GapShowsAt(sort, u, s, m, r);
    PageShows(u, from, size, r);
    PageShows(s, from, size, r);
  }

  lemma {:induction false} FirstMissing(s: seq<Card>, u: seq<Card>, w: nat) returns (m: nat)
    requires exists i :: 0 <= i < w && i < |s| && s[i] !in u
    ensures m < w && m < |s| && s[m] !in u && forall i | 0 <= i < m :: s[i] in u
  {
    var i :| 0 <= i < w && i < |s| && s[i] !in u;
    if exists j :: 0 <= j < i && s[j] !in u {
      m := FirstMissing(s, u, i);
    } else {
      m := i;
    }
  }

  lemma FetchedIsExact(sort: Sort, auctions: seq<Card>, fixed: seq<Card>, from: nat, size: nat)
    requires Untied(sort, auctions + fixed) && TopIsFetched(sort, auctions, fixed, from + size)
    ensures var shown := StableSort(sort, Take(auctions, from + size) + Take(fixed, from + size));
            Take(Drop(shown, from), size) == Take(Drop(Feed(sort, auctions, fixed), from), size)
  {
    var window := from + size;
    var shown := StableSort(sort, Take(auctions, window) + Take(fixed, window));
    FetchedRows(sort, auctions, fixed, window);
    SameTop(sort, shown, Feed(sort, auctions, fixed), window);
    PageOfTop(shown, Feed(sort, auctions, fixed), from, size);
  }

  /** A short feed is fetched whole. */
  lemma MissingMeansMore(sort: Sort, auctions: seq<Card>, fixed: seq<Card>, from: nat, size: nat)
    requires !TopIsFetched(sort, auctions, fixed, from + size)
    ensures |Feed(sort, auctions, fixed)| > from + size
  {
    SortHasTheRows(sort, auctions + fixed);
  }

  lemma UnfetchedIsWrong(sort: Sort, auctions: seq<Card>, fixed: seq<Card>, from: nat, size: nat)
    requires Untied(sort, auctions + fixed) && !TopIsFetched(sort, auctions, fixed, from + size) && size > 0
    ensures var shown := StableSort(sort, Take(auctions, from + size) + Take(fixed, from + size));
            Take(Drop(shown, from), size) != Take(Drop(Feed(sort, auctions, fixed), from), size)
  {
    var window := from + size;
    var (feed, rows) := (Feed(sort, auctions, fixed), Take(auctions, window) + Take(fixed, window));
    var shown := StableSort(sort, rows);
    FetchedRows(sort, auctions, fixed, window);
    MissingMeansMore(sort, auctions, fixed, from, size);
    var m := FirstMissing(feed, shown, window);
    GapShows(sort, shown, feed, m, from, size);
  }

  /** Without ties, whatever the database orders: the page is the page of the whole merged
      feed if and only if every row up to its end is among the top rows of its own source. */
  lemma PageIsExactIff(sort: Sort, auctions: seq<Card>, fixed: seq<Card>, asked: int)
    requires Untied(sort, auctions + fixed)
    ensures ListMarket(sort, auctions, fixed, asked) ==
            Take(Drop(Feed(sort, auctions, fixed), ClampPage(asked) * PAGE_SIZE), PAGE_SIZE)
            <==> TopIsFetched(sort, auctions, fixed, (ClampPage(asked) + 1) * PAGE_SIZE)
  {
    var from := ClampPage(asked) * PAGE_SIZE;
    assert (ClampPage(asked) + 1) * PAGE_SIZE == from + PAGE_SIZE;
    if TopIsFetched(sort, auctions, fixed, from + PAGE_SIZE) {
      FetchedIsExact(sort, auctions, fixed, from, PAGE_SIZE);
    } else {
      UnfetchedIsWrong(sort, auctions, fixed, from, PAGE_SIZE);
    }
  }
}
