/**
 * The browser extension's background collector, `collectHistory`: it asks
 * the browser for the visits of the last `days` days, folds them into one
 * entry per (domain, UTC date) and stores the entries with a sync time.
 *
 * The browser is a parameter: `search(q)` is what `chrome.history.search(q)`
 * resolves to, `hostOf(url)` the hostname of `new URL(url)` (None when the
 * constructor throws), and `isoOf(ms)` the text of
 * `new Date(ms).toISOString()`. The two `Date.now()` readings are `now`
 * (before the search) and `syncNow` (after the fold).
 */
module ExtensionCollect {
  import opened Common
  import opened Sorting
  import opened Grouping
  import ChromeHistory

  /**
   * An item of the history search. An empty `url` or `title` stands for a
   * missing one, a zero `visitCount` for a missing or zero count: the
   * collector treats them alike.
   */
  datatype HistoryItem = HistoryItem(url: string, title: string, visitCount: nat, lastVisitTime: int)

  /** The argument of `chrome.history.search`. */
  datatype HistoryQuery = HistoryQuery(text: string, startTime: int, maxResults: nat)

  /** One stored domain-day entry. */
  datatype Entry = Entry(domain: string, date: string, visits: int, title: string)

  /** What one accepted item adds to the entry under `key`. */
  datatype Contribution = Contribution(key: string, domain: string, date: string, visits: int, title: string)

  /** The record written to `chrome.storage.local`. */
  datatype Snapshot = Snapshot(browseHistory: seq<Entry>, lastSync: int, totalUrls: nat)

  /** The value `collectHistory` resolves to. */
  datatype SyncStats = SyncStats(entries: nat, urls: nat, syncTime: int)

  const DayMs: int := 24 * 60 * 60 * 1000
  const MaxResults: nat := 100000

  /** The search the collector issues at time `now`. */
  function Query(now: int, days: int): (q: HistoryQuery)
    ensures q.text == "" && q.maxResults == 100000
    ensures q.startTime == now - days * 86400000
  {
    HistoryQuery("", now - days * DayMs, MaxResults)
  }

  /**
   * The domain an item counts under, or None when the loop skips the item:
   * no url, a url that does not parse, an empty hostname, or a `chrome://`
   * or `chrome-extension://` page.
   */
  function ItemDomain(item: HistoryItem, hostOf: string -> Option<string>): (d: Option<string>)
    ensures d.Some? ==> d.value != "" && item.url != ""
    ensures d.Some? ==> !StartsWith(item.url, "chrome://") && !StartsWith(item.url, "chrome-extension://")
    ensures d.Some? ==> hostOf(item.url).Some?
    ensures d.Some? && StartsWith(hostOf(item.url).value, "www.") ==> hostOf(item.url).value == "www." + d.value
    ensures d.Some? && !StartsWith(hostOf(item.url).value, "www.") ==> d.value == hostOf(item.url).value
    ensures d.None? ==> (item.url == "" || hostOf(item.url).None?
      || ChromeHistory.StripWww(hostOf(item.url).value) == ""
      || StartsWith(item.url, "chrome://") || StartsWith(item.url, "chrome-extension://"))
  {
    if item.url == "" then None
    else
      match hostOf(item.url)
      case None => None
      case Some(h) =>
        var domain := ChromeHistory.StripWww(h);
        if domain == "" || StartsWith(item.url, "chrome://") || StartsWith(item.url, "chrome-extension://")
        then None
        else Some(domain)
  }

  /** `toISOString().slice(0, 10)`: the UTC calendar date of the visit. */
  function DateOf(item: HistoryItem, isoOf: int -> string): (date: string)
    ensures |date| <= 10 && StartsWith(isoOf(item.lastVisitTime), date)
    ensures |isoOf(item.lastVisitTime)| >= 10 ==> |date| == 10
  {
    var iso := isoOf(item.lastVisitTime);
    iso[..if |iso| < 10 then |iso| else 10]
  }

  /** The object key of an entry. */
  function EntryKey(domain: string, date: string): string
  {
    domain + "|" + date
  }

  /** `visitCount || 1` */
  function ItemVisits(item: HistoryItem): (v: int)
    ensures v >= 1
    ensures item.visitCount > 0 ==> v == item.visitCount
    ensures item.visitCount == 0 ==> v == 1
  {
    if item.visitCount == 0 then 1 else item.visitCount
  }

  /** What an item contributes, or None when it is skipped. */
  function Contribute(item: HistoryItem, hostOf: string -> Option<string>, isoOf: int -> string): Option<Contribution>
  {
    match ItemDomain(item, hostOf)
    case None => None
    case Some(domain) =>
      var date := DateOf(item, isoOf);
      Some(Contribution(EntryKey(domain, date), domain, date, ItemVisits(item), item.title))
  }

  /** The contributions of the items, in search order. */
  function Contributions(items: seq<HistoryItem>, hostOf: string -> Option<string>, isoOf: int -> string): seq<Contribution>
  {
    if items == [] then []
    else
      var c := Contribute(items[|items| - 1], hostOf, isoOf);
      Contributions(items[..|items| - 1], hostOf, isoOf) + (if c.Some? then [c.value] else [])
  }

  /** The (key, visits) pairs of the contributions. */
  function Pairs(cs: seq<Contribution>): seq<(string, int)>
  {
    seq(|cs|, i requires 0 <= i < |cs| => (cs[i].key, cs[i].visits))
  }

  function KeyOf(c: Contribution): string
  {
    c.key
  }

  /** The title an entry starts with: the item's title, or else its domain. */
  function InitialTitle(c: Contribution): string
  {
    if c.title != "" then c.title else c.domain
  }

  /**
   * One contribution applied to the entry under its key (None: not yet
   * created): create it with the initial title, add the visits, and take
   * the item's title when it is strictly longer.
   */
  function Absorb(prev: Option<Entry>, c: Contribution): Entry
  {
    var e := if prev.Some? then prev.value else Entry(c.domain, c.date, 0, InitialTitle(c));
    var e' := e.(visits := e.visits + c.visits);
    if c.title != "" && |c.title| > |e'.title| then e'.(title := c.title) else e'
  }

  /** The entry under `k` after the contributions `cs`. */
  function EntryAfter(cs: seq<Contribution>, k: string): Option<Entry>
  {
    if cs == [] then None
    else
      var c := cs[|cs| - 1];
      var prev := EntryAfter(cs[..|cs| - 1], k);
      if c.key != k then prev else Some(Absorb(prev, c))
  }

  lemma {:induction false} EntryAfterPresent(cs: seq<Contribution>)
    ensures forall k :: k in Keys(Pairs(cs)) <==> EntryAfter(cs, k).Some?
  {
    if cs != [] {
      var cs' := cs[..|cs| - 1];
      EntryAfterPresent(cs');
      assert Pairs(cs)[..|cs'|] == Pairs(cs');
    }
  }

  /** `Object.values(entries)`: the entries in order of key creation. */
  function Collected(cs: seq<Contribution>): seq<Entry>
  {
    var ks := Keys(Pairs(cs));
    EntryAfterPresent(cs);
    seq(|ks|, i requires 0 <= i < |ks| => EntryAfter(cs, ks[i]).value)
  }

  /** The loop's object `entries` and its key order reflect the contributions `cs`. */
  ghost predicate Tracks(entries: map<string, Entry>, order: seq<string>, cs: seq<Contribution>)
  {
    && order == Keys(Pairs(cs))
    && (forall k :: k in order ==> k in entries)
    && (forall k :: k in entries ==> EntryAfter(cs, k) == Some(entries[k]))
    && (forall k :: k !in entries ==> EntryAfter(cs, k).None?)
  }

  /** One accepted item: the entry under its key becomes `Absorb` of the old one. */
  lemma {:induction false} AbsorbStep(entries: map<string, Entry>, order: seq<string>, cs: seq<Contribution>, c: Contribution, e: Entry)
    requires Tracks(entries, order, cs)
    requires e == Absorb(if c.key in entries then Some(entries[c.key]) else None, c)
    ensures Tracks(entries[c.key := e], if c.key in entries then order else order + [c.key], cs + [c])
  {
    var cs1 := cs + [c];
    assert cs1[..|cs|] == cs;
    assert Pairs(cs1) == Pairs(cs) + [(c.key, c.visits)];
    assert Pairs(cs1)[..|cs|] == Pairs(cs);
    EntryAfterPresent(cs);
  }

  lemma {:induction false} ContributionsSnoc(items: seq<HistoryItem>, i: nat, hostOf: string -> Option<string>, isoOf: int -> string)
    requires i < |items|
    ensures var c := Contribute(items[i], hostOf, isoOf);
      Contributions(items[..i + 1], hostOf, isoOf)
        == Contributions(items[..i], hostOf, isoOf) + (if c.Some? then [c.value] else [])
    ensures Contribute(items[i], hostOf, isoOf).None? ==>
      Contributions(items[..i + 1], hostOf, isoOf) == Contributions(items[..i], hostOf, isoOf)
  {
    assert items[..i + 1][..i] == items[..i];
  }

  /** Reading the tracked entries in key order gives the collected entries. */
  lemma {:induction false} TracksCollected(entries: map<string, Entry>, order: seq<string>, cs: seq<Contribution>)
    requires Tracks(entries, order, cs)
    ensures seq(|order|, j requires 0 <= j < |order| => entries[order[j]]) == Collected(cs)
  {
  }

  /** The checks at the top of the loop body: the item's contribution, or None to skip it. */
  method ContributionOf(item: HistoryItem, hostOf: string -> Option<string>, isoOf: int -> string)
    returns (c: Option<Contribution>)
    ensures c == Contribute(item, hostOf, isoOf)
  {
    if item.url == "" {
      return None;
    }
    var host := hostOf(item.url);
    if host.None? {
      return None;
    }
    var domain := ChromeHistory.StripWww(host.value);
    if domain == "" || StartsWith(item.url, "chrome://") || StartsWith(item.url, "chrome-extension://") {
      return None;
    }
    var iso := isoOf(item.lastVisitTime);
    var date := iso[..if |iso| < 10 then |iso| else 10];
    var key := domain + "|" + date;
    return Some(Contribution(key, domain, date, if item.visitCount == 0 then 1 else item.visitCount, item.title));
  }

  /** The stored record and the stats of one run. */
  method CollectHistory(days: int, now: int, syncNow: int, search: HistoryQuery -> seq<HistoryItem>,
                        hostOf: string -> Option<string>, isoOf: int -> string)
    returns (query: HistoryQuery, stored: Snapshot, stats: SyncStats)
    ensures query == Query(now, days)
    ensures stored == Snapshot(Collected(Contributions(search(query), hostOf, isoOf)), syncNow, |search(query)|)
    ensures stats == SyncStats(|stored.browseHistory|, |search(query)|, syncNow)
  {
    query := HistoryQuery("", now - days * 24 * 60 * 60 * 1000, 100000);
    var results := search(query);
    var entries: map<string, Entry> := map[];
    var order: seq<string> := [];
    for i := 0 to |results|
      invariant Tracks(entries, order, Contributions(results[..i], hostOf, isoOf))
    {
      var item := results[i];
      ContributionsSnoc(results, i, hostOf, isoOf);
      var contribution := ContributionOf(item, hostOf, isoOf);
      if contribution.None? {
        continue;
      }
      var Contribution(key, domain, date, visits, title) := contribution.value;
      ghost var entries0, order0 := entries, order;
      var e: Entry;
      if key !in entries {
        e := Entry(domain, date, 0, if title != "" then title else domain);
        order := order + [key];
      } else {
        e := entries[key];
      }
      e := e.(visits := e.visits + visits);
      if title != "" && |title| > |e.title| {
        e := e.(title := title);
      }
      entries := entries[key := e];
      AbsorbStep(entries0, order0, Contributions(results[..i], hostOf, isoOf), contribution.value, e);
    }
    assert results[..|results|] == results;
    var data := seq(|order|, j requires 0 <= j < |order| => entries[order[j]]);
    TracksCollected(entries, order, Contributions(results, hostOf, isoOf));
    stored := Snapshot(data, syncNow, |results|);
    stats := SyncStats(|data|, |results|, syncNow);
  }

  lemma {:induction false} ContributionsAppend(a: seq<HistoryItem>, b: seq<HistoryItem>,
                                               hostOf: string -> Option<string>, isoOf: int -> string)
    ensures Contributions(a + b, hostOf, isoOf) == Contributions(a, hostOf, isoOf) + Contributions(b, hostOf, isoOf)
  {
    if b == [] {
      assert a + b == a;
    } else {
      assert (a + b)[..|a + b| - 1] == a + b[..|b| - 1];
      ContributionsAppend(a, b[..|b| - 1], hostOf, isoOf);
    }
  }

  lemma {:induction false} ContributionsBound(items: seq<HistoryItem>, hostOf: string -> Option<string>, isoOf: int -> string)
    ensures |Contributions(items, hostOf, isoOf)| <= |items|
  {
    if items != [] {
      ContributionsBound(items[..|items| - 1], hostOf, isoOf);
    }
  }

  /** The (key, visits) pairs of the items, as a multiset, do not depend on the search order. */
  lemma {:induction false} PairsPermutation(a: seq<HistoryItem>, b: seq<HistoryItem>,
                                            hostOf: string -> Option<string>, isoOf: int -> string)
    requires multiset(a) == multiset(b)
    ensures multiset(Pairs(Contributions(a, hostOf, isoOf))) == multiset(Pairs(Contributions(b, hostOf, isoOf)))
  {
    if a == [] {
      assert b == [];
    } else {
      var x := a[|a| - 1];
      var j := PermutationSplit(a, b);
      var b1, b2 := b[..j], b[j + 1..];
      PairsPermutation(a[..|a| - 1], b1 + b2, hostOf, isoOf);
      ContributionsAppend(a[..|a| - 1], [x], hostOf, isoOf);
      assert a == a[..|a| - 1] + [x];
      ContributionsAppend(b1 + [x], b2, hostOf, isoOf);
      ContributionsAppend(b1, [x], hostOf, isoOf);
      ContributionsAppend(b1, b2, hostOf, isoOf);
      var P1, Px, P2 := Contributions(b1, hostOf, isoOf), Contributions([x], hostOf, isoOf), Contributions(b2, hostOf, isoOf);
      var A := Contributions(a[..|a| - 1], hostOf, isoOf);
      PairsAppend(P1 + Px, P2);
      PairsAppend(P1, Px);
      PairsAppend(P1, P2);
      PairsAppend(A, Px);
    }
  }

  lemma {:induction false} PairsAppend(a: seq<Contribution>, b: seq<Contribution>)
    ensures Pairs(a + b) == Pairs(a) + Pairs(b)
  {
  }

  /** The visits of a domain-day do not depend on the order the browser lists the items in. */
  lemma {:induction false} VisitsIgnoreOrder(a: seq<HistoryItem>, b: seq<HistoryItem>, hostOf: string -> Option<string>,
                          isoOf: int -> string, k: string)
    requires multiset(a) == multiset(b)
    ensures KeySum(Pairs(Contributions(a, hostOf, isoOf)), k) == KeySum(Pairs(Contributions(b, hostOf, isoOf)), k)
  {
    PairsPermutation(a, b, hostOf, isoOf);
    KeySumPermutation(Pairs(Contributions(a, hostOf, isoOf)), Pairs(Contributions(b, hostOf, isoOf)), k);
  }

  /**
   * What an entry holds: the domain and date of the first item under its
   * key, the sum of the items' visits, and the first of the longest titles
   * among the initial title and the items' titles.
   */
  lemma {:induction false} EntryFacts(cs: seq<Contribution>, k: string)
    ensures EntryAfter(cs, k).Some? <==> WithKey(cs, KeyOf, k) != []
    ensures EntryAfter(cs, k).Some? ==>
      var e, f := EntryAfter(cs, k).value, WithKey(cs, KeyOf, k);
      f[0].key == k && e.domain == f[0].domain && e.date == f[0].date
    ensures EntryAfter(cs, k).Some? ==> EntryAfter(cs, k).value.visits == KeySum(Pairs(cs), k)
    ensures EntryAfter(cs, k).Some? ==>
      var e, f := EntryAfter(cs, k).value, WithKey(cs, KeyOf, k);
      |InitialTitle(f[0])| <= |e.title| && forall j :: 0 <= j < |f| ==> |f[j].title| <= |e.title|
    ensures EntryAfter(cs, k).Some? ==>
      var e, f := EntryAfter(cs, k).value, WithKey(cs, KeyOf, k);
      || e.title == InitialTitle(f[0])
      || exists j :: 0 <= j < |f| && f[j].title == e.title && |InitialTitle(f[0])| < |e.title|
                     && forall i :: 0 <= i < j ==> |f[i].title| < |e.title|
  {
    if cs != [] {
      var cs', c := cs[..|cs| - 1], cs[|cs| - 1];
      EntryFacts(cs', k);
      assert Pairs(cs)[..|cs'|] == Pairs(cs');
      var f' := WithKey(cs', KeyOf, k);
      if c.key == k {
        var f := WithKey(cs, KeyOf, k);
        assert f == f' + [c];
        var e := EntryAfter(cs, k).value;
        if f' == [] {
          assert f == [c];
          EntryAfterPresent(cs');
          KeySumAbsent(Pairs(cs'), k);
          assert e.title == InitialTitle(f[0]);
        } else {
          var e' := EntryAfter(cs', k).value;
          assert forall i :: 0 <= i < |f'| ==> f[i] == f'[i];
          if e.title != e'.title {
            assert e.title == c.title && |e'.title| < |c.title|;
            assert f[|f'|].title == e.title;
            assert forall i :: 0 <= i < |f'| ==> |f[i].title| < |e.title|;
            assert |InitialTitle(f[0])| < |e.title|;
          } else if e.title != InitialTitle(f[0]) {
            var j :| 0 <= j < |f'| && f'[j].title == e'.title && |InitialTitle(f'[0])| < |e'.title|
                     && forall i :: 0 <= i < j ==> |f'[i].title| < |e'.title|;
            assert f[j] == f'[j];
            assert f[j].title == e.title && |InitialTitle(f[0])| < |e.title|;
            assert forall i :: 0 <= i < j ==> |f[i].title| < |e.title|;
          }
        }
      } else {
        assert WithKey(cs, KeyOf, k) == f';
        assert EntryAfter(cs, k) == EntryAfter(cs', k);
        assert KeySum(Pairs(cs), k) == KeySum(Pairs(cs'), k);
      }
    }
  }

  /** The object key of two domain-days tells them apart when the domains hold no `|`. */
  lemma {:induction false} EntryKeyInjective(d1: string, t1: string, d2: string, t2: string)
    requires '|' !in d1 && '|' !in d2
    requires EntryKey(d1, t1) == EntryKey(d2, t2)
    ensures d1 == d2 && t1 == t2
  {
    var k := EntryKey(d1, t1);
    assert k[|d1|] == '|' && k == EntryKey(d2, t2);
    assert k[|d2|] == '|';
    if |d1| < |d2| {
      assert false;
    } else if |d2| < |d1| {
      assert false;
    }
    assert d1 == k[..|d1|] == d2;
    assert t1 == k[|d1| + 1..] == t2;
  }

  /**
   * The collected entries: one per distinct object key, in order of first
   * appearance, no more than the items searched, each with at least one
   * visit per item under it.
   */
  lemma {:induction false} CollectedFacts(items: seq<HistoryItem>, hostOf: string -> Option<string>, isoOf: int -> string)
    ensures var cs := Contributions(items, hostOf, isoOf);
      var ks, r := Keys(Pairs(cs)), Collected(cs);
      && |r| == |ks| <= |items|
      && Distinct(ks)
      && (forall i :: 0 <= i < |r| ==> EntryKey(r[i].domain, r[i].date) == ks[i])
      && (forall i :: 0 <= i < |r| ==> r[i].visits == KeySum(Pairs(cs), ks[i]) >= KeyCount(Pairs(cs), ks[i]) >= 1)
      && (forall c :: c in cs ==> c.key in ks)
  {
    var cs := Contributions(items, hostOf, isoOf);
    var ks, r := Keys(Pairs(cs)), Collected(cs);
    ContributionsBound(items, hostOf, isoOf);
    KeysLength(Pairs(cs));
    KeysFacts(Pairs(cs));
    ContributionKeys(items, hostOf, isoOf);
    forall i | 0 <= i < |r|
      ensures EntryKey(r[i].domain, r[i].date) == ks[i]
      ensures r[i].visits == KeySum(Pairs(cs), ks[i]) >= KeyCount(Pairs(cs), ks[i]) >= 1
    {
      CollectedEntry(cs, i);
    }
    forall c | c in cs ensures c.key in ks {
      var j :| 0 <= j < |cs| && cs[j] == c;
      assert Pairs(cs)[j].0 == c.key;
    }
  }

  lemma {:induction false} CollectedEntry(cs: seq<Contribution>, i: nat)
    requires forall c :: c in cs ==> c.key == EntryKey(c.domain, c.date) && c.visits >= 1
    requires i < |Keys(Pairs(cs))|
    ensures var k, r := Keys(Pairs(cs))[i], Collected(cs);
      && i < |r|
      && EntryKey(r[i].domain, r[i].date) == k
      && r[i].visits == KeySum(Pairs(cs), k) >= KeyCount(Pairs(cs), k) >= 1
  {
    var k := Keys(Pairs(cs))[i];
    KeysFacts(Pairs(cs));
    EntryAfterPresent(cs);
    EntryFacts(cs, k);
    KeySumAtLeastCount(Pairs(cs), k);
    var f := WithKey(cs, KeyOf, k);
    WithKeyMembers(cs, k);
    assert f[0] in cs;
  }

  lemma {:induction false} WithKeyMembers(cs: seq<Contribution>, k: string)
    ensures forall c :: c in WithKey(cs, KeyOf, k) ==> c in cs && c.key == k
  {
    if cs != [] {
      WithKeyMembers(cs[..|cs| - 1], k);
    }
  }

  /** Every contribution is keyed by its own domain and date and brings at least one visit. */
  lemma {:induction false} ContributionKeys(items: seq<HistoryItem>, hostOf: string -> Option<string>, isoOf: int -> string)
    ensures forall c :: c in Contributions(items, hostOf, isoOf) ==> c.key == EntryKey(c.domain, c.date) && c.visits >= 1
  {
    if items != [] {
      ContributionKeys(items[..|items| - 1], hostOf, isoOf);
    }
  }

  /** The reply to `GET_HISTORY`; an external `SYNC_NOW` sends the same after a run, with its stats. */
  datatype HistoryReply = HistoryReply(data: seq<Entry>, lastSync: Option<int>, totalUrls: nat)

  /**
   * The reply built from what storage holds (None before the first run):
   * `browseHistory || []`, `lastSync || null`, `totalUrls || 0`.
   */
  function ReplyOf(stored: Option<Snapshot>): (r: HistoryReply)
    ensures stored.None? ==> r == HistoryReply([], None, 0)
    ensures stored.Some? ==> r.data == stored.value.browseHistory && r.totalUrls == stored.value.totalUrls
    ensures r.lastSync.Some? <==> stored.Some? && stored.value.lastSync != 0
    ensures r.lastSync.Some? ==> r.lastSync.value == stored.value.lastSync
  {
    match stored
    case None => HistoryReply([], None, 0)
    case Some(s) => HistoryReply(s.browseHistory, if s.lastSync == 0 then None else Some(s.lastSync), s.totalUrls)
  }

  /** `request.days || 30`: a missing or zero day count means 30 days. */
  function RequestedDays(days: Option<int>): (d: int)
    ensures d != 0
    ensures days.Some? && days.value != 0 ==> d == days.value
    ensures days.None? || days.value == 0 ==> d == 30
  {
    if days.None? || days.value == 0 then 30 else days.value
  }
}
