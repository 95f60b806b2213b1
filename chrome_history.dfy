/**
 * Normalisation of rows read from a Chrome `History` database file and the
 * two roll-ups the dashboard draws from them (src/lib/chromeHistory.ts).
 *
 * Foreign primitives are parameters: `hostOf(url)` is the hostname that
 * `new URL(url)` yields, or None when the constructor throws; `localOf(ms)`
 * gives the local-time calendar fields of the Date with time value `ms`.
 */
module ChromeHistory {
  import opened Common
  import opened Decimal
  import opened Sorting
  import opened Grouping

  datatype ChromeHistoryRow = ChromeHistoryRow(
    url: string, title: string, visitCount: int, typedCount: int,
    lastVisitTime: int)  // microseconds since 1601-01-01 UTC

  datatype NormalizedVisit = NormalizedVisit(
    url: string, title: string, domain: string,
    date: string,  // YYYY-MM-DD, local time
    visits: int)

  /** The local calendar fields `getFullYear()`, `getMonth()` (0-based) and `getDate()`. */
  datatype LocalDate = LocalDate(year: int, month0: int, day: int)

  /** `Date.UTC(1601, 0, 1)`: 134774 days before 1970-01-01, in milliseconds. */
  const Epoch1601Ms: int := -11644473600000

  /**
   * A whole number of milliseconds from a count of microseconds, truncated
   * toward zero as `new Date(x)` truncates a fractional time value.
   */
  function TruncMs(us: int): (ms: int)
    ensures us >= 0 ==> 0 <= ms * 1000 <= us < ms * 1000 + 1000
    ensures us < 0 ==> ms * 1000 - 1000 < us <= ms * 1000 <= 0
  {
    if us >= 0 then us / 1000 else -((-us) / 1000)
  }

  /**
   * The time value (ms since 1970) of `chromeTimeToDate(t)`, i.e. of
   * `new Date(Date.UTC(1601, 0, 1) + t / 1000)`.
   */
  function ChromeTimeToMs(t: int): (ms: int)
    ensures Epoch1601Ms * 1000 + t >= 0 ==> ms * 1000 <= Epoch1601Ms * 1000 + t < ms * 1000 + 1000
    ensures Epoch1601Ms * 1000 + t < 0 ==> ms * 1000 - 1000 < Epoch1601Ms * 1000 + t <= ms * 1000
  {
    TruncMs(Epoch1601Ms * 1000 + t)
  }

  /**
   * Chrome time 0 is 1601-01-01T00:00Z; the conversion never goes backwards
   * and moves forward with every whole millisecond from 1970 on. The Date
   * keeps no microseconds, so it is constant within a millisecond, and
   * truncation toward zero makes the millisecond around 1970-01-01T00:00Z
   * two milliseconds wide, so before 1970 only a 2 ms step is sure to move.
   */
  lemma {:induction false} ChromeTimeMonotone(t1: int, t2: int)
    ensures ChromeTimeToMs(0) == Epoch1601Ms
    ensures t1 <= t2 ==> ChromeTimeToMs(t1) <= ChromeTimeToMs(t2)
    ensures t1 >= -Epoch1601Ms * 1000 && t1 + 1000 <= t2 ==> ChromeTimeToMs(t1) < ChromeTimeToMs(t2)
    ensures t1 + 2000 <= t2 ==> ChromeTimeToMs(t1) < ChromeTimeToMs(t2)
    ensures t1 % 1000 == 0 ==> ChromeTimeToMs(t1) == Epoch1601Ms + t1 / 1000
  {
    var q1 := TruncMs(Epoch1601Ms * 1000 + t1);
    var q2 := TruncMs(Epoch1601Ms * 1000 + t2);
  }

  /** `hostname.replace(/^www\./, "")` */
  function StripWww(h: string): (r: string)
    ensures h == "www." + r || (h == r && !StartsWith(h, "www."))
  {
    if StartsWith(h, "www.") then h[4..] else h
  }

  /** Only one `www.` is removed, and only at the start. */
  lemma {:induction false} StripWwwOnce(x: string)
    ensures StripWww("www." + x) == x
    ensures !StartsWith(x, "www.") ==> StripWww(x) == x
  {
    assert ("www." + x)[..4] == "www.";
  }

  /**
   * `domainFromUrl(url)` given the parse outcome `host` of `new URL(url)`:
   * the host without a leading `www.`, or the URL itself when parsing fails.
   */
  function DomainFromUrl(url: string, host: Option<string>): (d: string)
    ensures host.None? ==> d == url
    ensures host.Some? && StartsWith(host.value, "www.") ==> host.value == "www." + d
    ensures host.Some? && !StartsWith(host.value, "www.") ==> d == host.value
  {
    match host
    case None => url
    case Some(h) => StripWww(h)
  }

  /** `toLocalYmd(d)`: year, then month and day padded to two digits. */
  function ToLocalYmd(d: LocalDate): (s: string)
    ensures |s| >= |IntToString(d.year)| + 6
    ensures StartsWith(s, IntToString(d.year) + "-")
  {
    IntToString(d.year) + "-" + PadTwo(NatToString(if d.month0 + 1 >= 0 then d.month0 + 1 else 0))
      + "-" + PadTwo(NatToString(if d.day >= 0 then d.day else 0))
  }

  /**
   * For calendar fields in the ranges `getMonth` and `getDate` return, the
   * text is the year, `-`, two digits reading back as the month, `-`, and
   * two digits reading back as the day.
   */
  lemma {:induction false} ToLocalYmdFields(d: LocalDate)
    requires 0 <= d.month0 < 12 && 1 <= d.day <= 31
    ensures var s := ToLocalYmd(d); var n := |s|;
      && n >= 7
      && s[..n - 6] == IntToString(d.year)
      && s[n - 6] == '-' && s[n - 3] == '-'
      && AllDigits(s[n - 5..n - 3]) && DigitsValue(s[n - 5..n - 3]) == d.month0 + 1
      && AllDigits(s[n - 2..]) && DigitsValue(s[n - 2..]) == d.day
  {
    PadTwoDigits(d.month0 + 1);
    PadTwoDigits(d.day);
    var y := IntToString(d.year);
    var m := PadTwo(NatToString(d.month0 + 1));
    var dd := PadTwo(NatToString(d.day));
    var s := ToLocalYmd(d);
    assert s == y + "-" + m + "-" + dd;
    assert |y| >= 1;
    assert s[|s| - 5..|s| - 3] == m;
    assert s[|s| - 2..] == dd;
  }

  /** `Math.max(1, visitCount || 1)` */
  function RowVisits(visitCount: int): (v: int)
    ensures v >= 1
    ensures visitCount >= 1 ==> v == visitCount
    ensures visitCount < 1 ==> v == 1
  {
    var c := if visitCount != 0 then visitCount else 1;
    if c > 1 then c else 1
  }

  /** The record built for one row before the window filter. */
  function NormalizeRow(r: ChromeHistoryRow, hostOf: string -> Option<string>, localOf: int -> LocalDate): NormalizedVisit
  {
    NormalizedVisit(r.url, r.title, DomainFromUrl(r.url, hostOf(r.url)),
      ToLocalYmd(localOf(ChromeTimeToMs(r.lastVisitTime))), RowVisits(r.visitCount))
  }

  /** The largest magnitude of a Date's time value, in milliseconds (ECMAScript TimeClip). */
  const MaxTimeMs: int := 8_640_000_000_000_000

  /**
   * `new Date(ms)` is a valid Date: its time value before truncation, here
   * counted in microseconds, lies within TimeClip's range. Beyond it the
   * Date is Invalid and its time value is NaN.
   */
  predicate ValidChromeTime(t: int)
  {
    -MaxTimeMs * 1000 <= Epoch1601Ms * 1000 + t <= MaxTimeMs * 1000
  }

  /**
   * `v._dt >= cutoff`, where `cutoffMs` is the time value of the cutoff
   * Date; an Invalid Date compares as NaN, so its row is dropped.
   */
  predicate InWindow(r: ChromeHistoryRow, cutoffMs: int)
  {
    ValidChromeTime(r.lastVisitTime) && ChromeTimeToMs(r.lastVisitTime) >= cutoffMs
  }

  /**
   * `normalizeRowsToVisits(rows, days)`; `cutoffMs` is the time value of
   * `new Date()` moved back `days` local calendar days.
   */
  function NormalizeRowsToVisits(rows: seq<ChromeHistoryRow>, cutoffMs: int,
                                 hostOf: string -> Option<string>, localOf: int -> LocalDate): (vs: seq<NormalizedVisit>)
    ensures |vs| <= |rows|
    ensures forall k :: 0 <= k < |vs| ==>
      exists i :: 0 <= i < |rows| && InWindow(rows[i], cutoffMs) && vs[k] == NormalizeRow(rows[i], hostOf, localOf)
  {
    if rows == [] then []
    else
      var last := rows[|rows| - 1];
      NormalizeRowsToVisits(rows[..|rows| - 1], cutoffMs, hostOf, localOf)
        + (if InWindow(last, cutoffMs) then [NormalizeRow(last, hostOf, localOf)] else [])
  }

  /**
   * Normalisation works row by row: the result for a concatenation is the
   * concatenation of the results, so order is kept and no rows are merged.
   */
  lemma {:induction false} NormalizeAppend(a: seq<ChromeHistoryRow>, b: seq<ChromeHistoryRow>, cutoffMs: int,
                                           hostOf: string -> Option<string>, localOf: int -> LocalDate)
    ensures NormalizeRowsToVisits(a + b, cutoffMs, hostOf, localOf)
         == NormalizeRowsToVisits(a, cutoffMs, hostOf, localOf) + NormalizeRowsToVisits(b, cutoffMs, hostOf, localOf)
  {
    if b == [] {
      assert a + b == a;
    } else {
      assert (a + b)[..|a + b| - 1] == a + b[..|b| - 1];
      NormalizeAppend(a, b[..|b| - 1], cutoffMs, hostOf, localOf);
    }
  }

  /**
   * A single row yields its record exactly when its time makes a valid Date
   * at or after the cutoff, and nothing otherwise; the record copies `url` and
   * `title` and has at least one visit, `visitCount` when that is positive.
   */
  lemma {:induction false} NormalizeSingle(r: ChromeHistoryRow, cutoffMs: int, hostOf: string -> Option<string>, localOf: int -> LocalDate)
    ensures var out := NormalizeRowsToVisits([r], cutoffMs, hostOf, localOf);
      && (out != [] <==> ValidChromeTime(r.lastVisitTime) && ChromeTimeToMs(r.lastVisitTime) >= cutoffMs)
      && (out != [] ==>
            && out == [NormalizeRow(r, hostOf, localOf)]
            && out[0].url == r.url && out[0].title == r.title
            && out[0].visits >= 1 && (r.visitCount >= 1 ==> out[0].visits == r.visitCount))
  {
    assert [r][..0] == [];
  }

  /** At most one record per row, and every record has at least one visit. */
  lemma {:induction false} NormalizeBounds(rows: seq<ChromeHistoryRow>, cutoffMs: int,
                                           hostOf: string -> Option<string>, localOf: int -> LocalDate)
    ensures var out := NormalizeRowsToVisits(rows, cutoffMs, hostOf, localOf);
      |out| <= |rows| && forall k :: 0 <= k < |out| ==> out[k].visits >= 1
  {
    if rows != [] {
      NormalizeBounds(rows[..|rows| - 1], cutoffMs, hostOf, localOf);
    }
  }

  function DomainPairs(vs: seq<NormalizedVisit>): seq<(string, int)>
  {
    seq(|vs|, i requires 0 <= i < |vs| => (vs[i].domain, vs[i].visits))
  }

  function DatePairs(vs: seq<NormalizedVisit>): seq<(string, int)>
  {
    seq(|vs|, i requires 0 <= i < |vs| => (vs[i].date, vs[i].visits))
  }

  /**
   * `aggregateTopDomains(visits)`: the loop fills an insertion-ordered map
   * from domain to running total, then the totals are sorted largest first.
   * Entries are (domain, visits) pairs.
   */
  method AggregateTopDomains(vs: seq<NormalizedVisit>) returns (r: seq<(string, int)>)
    ensures r == Ranked(DomainPairs(vs))
  {
    var totals: map<string, int> := map[];
    var order: seq<string> := [];
    for i := 0 to |vs|
      invariant Accumulates(totals, order, DomainPairs(vs)[..i])
    {
      var v := vs[i];
      assert DomainPairs(vs)[..i + 1] == DomainPairs(vs)[..i] + [(v.domain, v.visits)];
      AccumulateStep(totals, order, DomainPairs(vs)[..i], (v.domain, v.visits));
      if v.domain in totals {
        totals := totals[v.domain := totals[v.domain] + v.visits];
      } else {
        totals := totals[v.domain := v.visits];
        order := order + [v.domain];
      }
    }
    assert DomainPairs(vs)[..|vs|] == DomainPairs(vs);
    AccumulatedValues(totals, order, DomainPairs(vs));
    var values := seq(|order|, j requires 0 <= j < |order| => (order[j], totals[order[j]]));
    r := SortBy(values, Amount, AtLeast);
  }

  function Date(e: (string, int)): string
  {
    e.0
  }

  /**
   * `aggregateDailyTotals(visits)`: per-date totals in an insertion-ordered
   * map, then sorted by date. Entries are (date, visits) pairs.
   */
  method AggregateDailyTotals(vs: seq<NormalizedVisit>) returns (r: seq<(string, int)>)
    ensures r == SortBy(Grouped(DatePairs(vs)), Date, TextLe)
  {
    var totals: map<string, int> := map[];
    var order: seq<string> := [];
    for i := 0 to |vs|
      invariant Accumulates(totals, order, DatePairs(vs)[..i])
    {
      var v := vs[i];
      assert DatePairs(vs)[..i + 1] == DatePairs(vs)[..i] + [(v.date, v.visits)];
      AccumulateStep(totals, order, DatePairs(vs)[..i], (v.date, v.visits));
      if v.date !in totals {
        order := order + [v.date];
      }
      totals := totals[v.date := (if v.date in totals then totals[v.date] else 0) + v.visits];
    }
    assert DatePairs(vs)[..|vs|] == DatePairs(vs);
    AccumulatedValues(totals, order, DatePairs(vs));
    var values := seq(|order|, j requires 0 <= j < |order| => (order[j], totals[order[j]]));
    r := SortBy(values, Date, TextLe);
  }

  /**
   * The daily totals hold one entry per distinct date and no other, each
   * with that date's summed visits, in strictly ascending date order, and
   * the grand total is preserved.
   */
  lemma {:induction false} DailyTotalsFacts(vs: seq<NormalizedVisit>)
    ensures var r := SortBy(Grouped(DatePairs(vs)), Date, TextLe);
      && |r| == |Keys(DatePairs(vs))|
      && (forall i :: 0 < i < |r| ==> TextLe(r[i - 1].0, r[i].0) && r[i - 1].0 != r[i].0)
      && (forall i :: 0 <= i < |r| ==> KeyCount(DatePairs(vs), r[i].0) > 0 && r[i].1 == KeySum(DatePairs(vs), r[i].0))
      && (forall i :: 0 <= i < |vs| ==> exists j :: 0 <= j < |r| && r[j].0 == vs[i].date)
      && Total(r) == Total(DatePairs(vs))
  {
    var s := DatePairs(vs);
    var r := SortBy(Grouped(s), Date, TextLe);
    TextLeTotal();
    SortedGroupFacts(s, Date, TextLe);
    forall i | 0 < i < |r| ensures TextLe(r[i - 1].0, r[i].0) && r[i - 1].0 != r[i].0 {
      assert TextLe(Date(r[i - 1]), Date(r[i]));
    }
    forall i | 0 <= i < |vs| ensures exists j :: 0 <= j < |r| && r[j].0 == vs[i].date {
      assert s[i].0 == vs[i].date;
    }
  }

  /**
   * The top-domain list holds one entry per distinct domain and no other,
   * each with that domain's summed visits, sorted by visits largest first,
   * equal totals in order of first appearance; the grand total is kept.
   */
  lemma {:induction false} TopDomainsFacts(vs: seq<NormalizedVisit>)
    ensures var r := Ranked(DomainPairs(vs));
      && |r| == |Keys(DomainPairs(vs))|
      && (forall i :: 0 < i < |r| ==> r[i - 1].1 >= r[i].1)
      && (forall i :: 0 <= i < |r| ==> KeyCount(DomainPairs(vs), r[i].0) > 0 && r[i].1 == KeySum(DomainPairs(vs), r[i].0))
      && (forall i, j :: 0 <= i < |r| && 0 <= j < |r| && r[i].0 == r[j].0 ==> i == j)
      && (forall i :: 0 <= i < |vs| ==> exists j :: 0 <= j < |r| && r[j].0 == vs[i].domain)
      && (forall v :: WithKey(r, Amount, v) == WithKey(Grouped(DomainPairs(vs)), Amount, v))
      && Total(r) == Total(DomainPairs(vs))
  {
    var s := DomainPairs(vs);
    RankedFacts(s);
    forall i | 0 <= i < |vs| ensures exists j :: 0 <= j < |Ranked(s)| && Ranked(s)[j].0 == vs[i].domain {
      assert s[i].0 == vs[i].domain;
    }
  }
}
