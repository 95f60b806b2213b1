/**
 * `getCategoryBreakdown` of the demo data: the visits of the listed sites
 * summed per category in an object used as an accumulator, then read out
 * with `Object.entries` as `{ name, value }` pairs and sorted by value,
 * largest first. Pairs are modelled as (name, value) tuples; visit counts
 * are integers.
 */
module BrowsingHistory {
  import opened Common
  import opened Sorting
  import opened Grouping

  /** A site of the demo data. */
  datatype BrowseEntry = BrowseEntry(
    domain: string, url: string, title: string, visits: int,
    category: string, favicon: string, lastVisited: string)

  /** The (category, visits) pair each site contributes, in site order. */
  function CategoryPairs(sites: seq<BrowseEntry>): (ps: seq<(string, int)>)
    ensures |ps| == |sites|
    ensures forall i :: 0 <= i < |sites| ==> ps[i] == (sites[i].category, sites[i].visits)
  {
    seq(|sites|, i requires 0 <= i < |sites| => (sites[i].category, sites[i].visits))
  }

  /**
   * `getCategoryBreakdown(sites)`: the loop `map[s.category] =
   * (map[s.category] || 0) + s.visits` keeps one running total per
   * category, in the order categories are first set; `Object.entries`
   * reads them out in that order and the stable sort puts larger values
   * first.
   */
  method CategoryBreakdown(sites: seq<BrowseEntry>) returns (r: seq<(string, int)>)
    ensures r == Ranked(CategoryPairs(sites))
  {
    var totals: map<string, int> := map[];
    var order: seq<string> := [];
    for i := 0 to |sites|
      invariant Accumulates(totals, order, CategoryPairs(sites)[..i])
    {
      var s := sites[i];
      assert CategoryPairs(sites)[..i + 1] == CategoryPairs(sites)[..i] + [(s.category, s.visits)];
      AccumulateStep(totals, order, CategoryPairs(sites)[..i], (s.category, s.visits));
      var current := if s.category in totals then totals[s.category] else 0;
      if s.category !in totals {
        order := order + [s.category];
      }
      totals := totals[s.category := current + s.visits];
    }
    assert CategoryPairs(sites)[..|sites|] == CategoryPairs(sites);
    AccumulatedValues(totals, order, CategoryPairs(sites));
    var entries := seq(|order|, j requires 0 <= j < |order| => (order[j], totals[order[j]]));
    r := SortBy(entries, Amount, AtLeast);
  }

  /** The total visits of the sites of category `c`. */
  function CategoryVisits(sites: seq<BrowseEntry>, c: string): int
  {
    if sites == [] then 0
    else CategoryVisits(sites[..|sites| - 1], c) + (if sites[|sites| - 1].category == c then sites[|sites| - 1].visits else 0)
  }

  /** The total visits of all sites. */
  function TotalVisits(sites: seq<BrowseEntry>): int
  {
    if sites == [] then 0 else TotalVisits(sites[..|sites| - 1]) + sites[|sites| - 1].visits
  }

  /** Summing the pairs of a category is summing the visits of its sites. */
  lemma {:induction false} CategoryPairsSums(sites: seq<BrowseEntry>, c: string)
    ensures KeySum(CategoryPairs(sites), c) == CategoryVisits(sites, c)
    ensures Total(CategoryPairs(sites)) == TotalVisits(sites)
  {
    if sites != [] {
      var n := |sites| - 1;
      assert CategoryPairs(sites)[..n] == CategoryPairs(sites[..n]);
      CategoryPairsSums(sites[..n], c);
    }
  }

  /** A category with no site has no pair. */
  lemma {:induction false} CategoryPresent(sites: seq<BrowseEntry>, c: string)
    requires KeyCount(CategoryPairs(sites), c) > 0
    ensures exists i :: 0 <= i < |sites| && sites[i].category == c
  {
    var n := |sites| - 1;
    assert CategoryPairs(sites)[..n] == CategoryPairs(sites[..n]);
    if sites[n].category != c {
      CategoryPresent(sites[..n], c);
      var i :| 0 <= i < n && sites[..n][i].category == c;
      assert sites[i].category == c;
    }
  }

  /** Every entry of the breakdown names a category some site has and holds its sites' visits. */
  lemma {:induction false} CategoryEntries(sites: seq<BrowseEntry>, i: nat)
    requires i < |Ranked(CategoryPairs(sites))|
    ensures var e := Ranked(CategoryPairs(sites))[i];
      && (exists k :: 0 <= k < |sites| && sites[k].category == e.0)
      && e.1 == CategoryVisits(sites, e.0)
  {
    var s := CategoryPairs(sites);
    RankedFacts(s);
    var e := Ranked(s)[i];
    assert KeyCount(s, e.0) > 0 && e.1 == KeySum(s, e.0);
    CategoryPresent(sites, e.0);
    CategoryPairsSums(sites, e.0);
  }

  /** Every site's category has an entry in the breakdown. */
  lemma {:induction false} CategoryCovered(sites: seq<BrowseEntry>, k: nat)
    requires k < |sites|
    ensures exists i :: 0 <= i < |Ranked(CategoryPairs(sites))| && Ranked(CategoryPairs(sites))[i].0 == sites[k].category
  {
    var s := CategoryPairs(sites);
    RankedFacts(s);
    assert s[k].0 == sites[k].category;
  }

  /**
   * The breakdown has one entry per distinct category and no other: every
   * entry names a category some site has, no category appears twice, and
   * every site's category appears. Each value is the sum of its sites'
   * visits, the values add up to all sites' visits, and the entries are
   * sorted non-increasing by value.
   */
  lemma {:induction false} CategoryBreakdownFacts(sites: seq<BrowseEntry>)
    ensures var r := Ranked(CategoryPairs(sites));
      && (forall i :: 0 <= i < |r| ==> exists k :: 0 <= k < |sites| && sites[k].category == r[i].0)
      && (forall i, j :: 0 <= i < |r| && 0 <= j < |r| && r[i].0 == r[j].0 ==> i == j)
      && (forall k :: 0 <= k < |sites| ==> exists i :: 0 <= i < |r| && r[i].0 == sites[k].category)
      && (forall i :: 0 <= i < |r| ==> r[i].1 == CategoryVisits(sites, r[i].0))
      && Total(r) == TotalVisits(sites)
      && (forall i :: 0 < i < |r| ==> r[i - 1].1 >= r[i].1)
  {
    var s := CategoryPairs(sites);
    var r := Ranked(s);
    forall i | 0 <= i < |r|
      ensures (exists k :: 0 <= k < |sites| && sites[k].category == r[i].0) && r[i].1 == CategoryVisits(sites, r[i].0)
    {
      CategoryEntries(sites, i);
    }
    forall k | 0 <= k < |sites| ensures exists i :: 0 <= i < |r| && r[i].0 == sites[k].category {
      CategoryCovered(sites, k);
    }
    CategoryShape(sites);
  }

  /** The breakdown names no category twice, keeps the total and is sorted largest first. */
  lemma {:induction false} CategoryShape(sites: seq<BrowseEntry>)
    ensures var r := Ranked(CategoryPairs(sites));
      && (forall i, j :: 0 <= i < |r| && 0 <= j < |r| && r[i].0 == r[j].0 ==> i == j)
      && Total(r) == TotalVisits(sites)
      && (forall i :: 0 < i < |r| ==> r[i - 1].1 >= r[i].1)
  {
    RankedFacts(CategoryPairs(sites));
    CategoryPairsSums(sites, "");
  }

  /** Listing the sites in another order changes no category's value. */
  lemma {:induction false} CategoryValuesIgnoreOrder(sites: seq<BrowseEntry>, other: seq<BrowseEntry>, c: string)
    requires multiset(sites) == multiset(other)
    ensures CategoryVisits(sites, c) == CategoryVisits(other, c)
  {
    CategoryPairsSums(sites, c);
    CategoryPairsSums(other, c);
    PairsPermutation(sites, other);
    KeySumPermutation(CategoryPairs(sites), CategoryPairs(other), c);
  }

  lemma {:induction false} PairsPermutation(sites: seq<BrowseEntry>, other: seq<BrowseEntry>)
    requires multiset(sites) == multiset(other)
    ensures multiset(CategoryPairs(sites)) == multiset(CategoryPairs(other))
  {
    if sites == [] {
      assert other == [];
    } else {
      var n := |sites| - 1;
      var j := PermutationSplit(sites, other);
      var rest := other[..j] + other[j + 1..];
      PairsPermutation(sites[..n], rest);
      PairsAppend(other[..j], [other[j]]);
      PairsAppend(other[..j] + [other[j]], other[j + 1..]);
      PairsAppend(other[..j], other[j + 1..]);
      PairsAppend(sites[..n], [sites[n]]);
      assert sites == sites[..n] + [sites[n]];
    }
  }

  lemma {:induction false} PairsAppend(a: seq<BrowseEntry>, b: seq<BrowseEntry>)
    ensures CategoryPairs(a + b) == CategoryPairs(a) + CategoryPairs(b)
  {
  }
}
