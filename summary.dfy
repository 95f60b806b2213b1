/**
 * The summary endpoint `GET /api/sync/summary`: the caller's per-day,
 * per-domain rows of `domain_daily` within the last `days` days, ordered
 * by day, with the latest `updated_at` as `lastSync`. The endpoint only
 * reads the table.
 *
 * The table is the map of the ingest model. `scan` is the order in which
 * the database hands the table's rows to the sort; `ORDER BY day` leaves
 * the order of rows of one day to the database, so it is an input here.
 * `userIdOf` is `userIdFromSyncKey`, `toNumber` is JavaScript's `Number`
 * on a string, `dayText` is the `day::text` rendering of a date, `isoOf`
 * is `new Date(updated_at).toISOString()`, `today` is `current_date` and
 * `dbUp` says whether the pool can be had and the query runs.
 */
module Summary {
  import opened Common
  import Sorting
  import Auth
  import Ingest

  /** A JavaScript number, as far as the clamp can tell them apart. */
  datatype JsNumber = NaN | Finite(x: real) | PosInfinity | NegInfinity

  /** One element of `domainDaily`. */
  datatype DayRow = DayRow(day: string, domain: string, visits: int)

  datatype Reply = Failure(error: string) | Summary(days: int, lastSync: Option<string>, domainDaily: seq<DayRow>)

  datatype Response = Response(status: int, reply: Reply)

  /** A selected row: its key and its stored columns. */
  type Row = (Ingest.Key, Ingest.Stored)

  /** `url.searchParams.get("days") || 30`, then `Number(...)`. */
  function RequestedDays(param: Option<string>, toNumber: string -> JsNumber): (n: JsNumber)
    ensures param.None? || param.value == "" ==> n == Finite(30.0)
    ensures param.Some? && param.value != "" ==> n == toNumber(param.value)
  {
    if param.None? || param.value == "" then Finite(30.0) else toNumber(param.value)
  }

  /** `Math.min(365, n)` */
  function Min365(n: JsNumber): JsNumber
  {
    match n
    case NaN => NaN
    case NegInfinity => NegInfinity
    case PosInfinity => Finite(365.0)
    case Finite(x) => if x < 365.0 then n else Finite(365.0)
  }

  /** `Math.max(1, n)` */
  function Max1(n: JsNumber): JsNumber
  {
    match n
    case NaN => NaN
    case PosInfinity => PosInfinity
    case NegInfinity => Finite(1.0)
    case Finite(x) => if x > 1.0 then n else Finite(1.0)
  }

  /** `Math.max(1, Math.min(365, n))` */
  function Clamp(n: JsNumber): JsNumber
  {
    Max1(Min365(n))
  }

  /**
   * The `$2::int` parameter: JavaScript renders the number as text and the
   * `integer` input function accepts it only when it is a whole number
   * within 32 bits. Every number that `String` renders with an exponent is
   * a fraction or lies outside that range. None is a failed query.
   */
  function DaysParam(n: JsNumber): (d: Option<int>)
    ensures d.Some? <==> n.Finite? && n.x == n.x.Floor as real && Ingest.Int32Min <= n.x.Floor <= Ingest.Int32Max
    ensures d.Some? ==> d.value as real == n.x
  {
    if n.Finite? && n.x == n.x.Floor as real && Ingest.Int32Min <= n.x.Floor <= Ingest.Int32Max then Some(n.x.Floor)
    else None
  }

  predicate IntLe(a: int, b: int)
  {
    a <= b
  }

  function DayOf(r: Row): int
  {
    r.0.day
  }

  /** `WHERE user_id = $1 AND day >= (current_date - $2::int)` over the rows in scan order. */
  function Selection(table: map<Ingest.Key, Ingest.Stored>, scan: seq<Ingest.Key>, userId: string, cutoff: int): (r: seq<Row>)
    ensures |r| <= |scan|
    ensures forall i :: 0 <= i < |r| ==>
      r[i].0 in table && table[r[i].0] == r[i].1 && r[i].0.userId == userId && r[i].0.day >= cutoff
  {
    if scan == [] then []
    else
      var k := scan[|scan| - 1];
      Selection(table, scan[..|scan| - 1], userId, cutoff)
        + (if k in table && k.userId == userId && k.day >= cutoff then [(k, table[k])] else [])
  }

  /** `ORDER BY day ASC`: a stable sort of the scan by day. */
  function Ordered(table: map<Ingest.Key, Ingest.Stored>, scan: seq<Ingest.Key>, userId: string, cutoff: int): seq<Row>
  {
    Sorting.SortBy(Selection(table, scan, userId, cutoff), DayOf, IntLe)
  }

  /** One step of the `reduce`: an empty stamp is skipped, a later one replaces the accumulator. */
  function Later(acc: Option<string>, ts: string): Option<string>
  {
    if ts == "" then acc
    else if acc.None? || acc.value == "" then Some(ts)
    else if Sorting.TextLe(ts, acc.value) then acc
    else Some(ts)
  }

  /** `rows.reduce(..., null)` over the ISO stamps of `updated_at`. */
  function LastSync(stamps: seq<string>): (r: Option<string>)
    ensures r.Some? ==> r.value != "" && r.value in stamps
  {
    if stamps == [] then None else Later(LastSync(stamps[..|stamps| - 1]), stamps[|stamps| - 1])
  }

  function Stamps(rows: seq<Row>, isoOf: int -> string): (s: seq<string>)
    ensures |s| == |rows| && forall i :: 0 <= i < |rows| ==> s[i] == isoOf(rows[i].1.updatedAt)
  {
    seq(|rows|, i requires 0 <= i < |rows| => isoOf(rows[i].1.updatedAt))
  }

  /** `rows.map(r => ({day: r.day, domain: r.domain, visits: Number(r.visits)}))` */
  function Project(rows: seq<Row>, dayText: int -> string): (out: seq<DayRow>)
    ensures |out| == |rows|
    ensures forall i :: 0 <= i < |rows| ==>
      out[i] == DayRow(dayText(rows[i].0.day), rows[i].0.domain, rows[i].1.visits)
  {
    seq(|rows|, i requires 0 <= i < |rows| => DayRow(dayText(rows[i].0.day), rows[i].0.domain, rows[i].1.visits))
  }

  /** The handler; the table is only read. */
  function Get(header: Option<string>, daysParam: Option<string>, table: map<Ingest.Key, Ingest.Stored>,
               scan: seq<Ingest.Key>, dbUp: bool, today: int, userIdOf: string -> string,
               toNumber: string -> JsNumber, dayText: int -> string, isoOf: int -> string): (r: Response)
    ensures r.status == 401 <==> Auth.BearerToken(header).None?
    ensures r.status == 200 || r.status == 401 || r.status == 500
  {
    var token := Auth.BearerToken(header);
    if token.None? then Response(401, Failure("Missing Bearer token"))
    else
      var userId := userIdOf(token.value);
      var days := DaysParam(Clamp(RequestedDays(daysParam, toNumber)));
      if !dbUp || days.None? then Response(500, Failure("Internal error"))
      else
        var rows := Ordered(table, scan, userId, today - days.value);
        Response(200, Summary(days.value, LastSync(Stamps(rows, isoOf)), Project(rows, dayText)))
  }

  /** The scan hands over every row of the table exactly once. */
  predicate ScanOf(table: map<Ingest.Key, Ingest.Stored>, scan: seq<Ingest.Key>)
  {
    Distinct(scan) && (forall i :: 0 <= i < |scan| ==> scan[i] in table) && (forall k :: k in table ==> k in scan)
  }

  /** The clamp lands in [1, 365] for every number but NaN, and leaves a number in that range alone. */
  lemma {:induction false} ClampRange(n: JsNumber)
    ensures Clamp(n).NaN? <==> n.NaN?
    ensures !n.NaN? ==> Clamp(n).Finite? && 1.0 <= Clamp(n).x <= 365.0
    ensures n.Finite? && 1.0 <= n.x <= 365.0 ==> Clamp(n) == n
    ensures (n.Finite? && n.x >= 365.0) || n.PosInfinity? ==> Clamp(n) == Finite(365.0)
    ensures (n.Finite? && n.x <= 1.0) || n.NegInfinity? ==> Clamp(n) == Finite(1.0)
  {
  }

  /** Clamping twice is clamping once. */
  lemma {:induction false} ClampIdempotent(n: JsNumber)
    ensures Clamp(Clamp(n)) == Clamp(n)
  {
    ClampRange(n);
    ClampRange(Clamp(n));
  }

  /**
   * The days the query uses: 30 without a parameter, the clamp of a whole
   * number, and no query at all (500) for NaN or a fraction in range.
   */
  lemma {:induction false} DaysOutcome(param: Option<string>, toNumber: string -> JsNumber)
    ensures param.None? || param.value == "" ==> DaysParam(Clamp(RequestedDays(param, toNumber))) == Some(30)
    ensures var d := DaysParam(Clamp(RequestedDays(param, toNumber)));
      d.Some? ==> 1 <= d.value <= 365
    ensures param.Some? && param.value != "" && toNumber(param.value).NaN? ==>
      DaysParam(Clamp(RequestedDays(param, toNumber))).None?
    ensures param.Some? && param.value != "" && toNumber(param.value) == Finite(7.5) ==>
      DaysParam(Clamp(RequestedDays(param, toNumber))).None?
    ensures param.Some? && param.value != "" && toNumber(param.value).Finite? ==>
      var x := toNumber(param.value).x;
      x == x.Floor as real ==>
        DaysParam(Clamp(RequestedDays(param, toNumber))) == Some(if x < 1.0 then 1 else if x > 365.0 then 365 else x.Floor)
  {
    var n := RequestedDays(param, toNumber);
    ClampRange(n);
    assert (30.0).Floor == 30;
    assert (7.5).Floor == 7;
  }

  /**
   * The answer: 401 without a token, before anything else; 200 exactly when
   * the database is up and the days are a whole number; 500 otherwise.
   */
  lemma {:induction false} StatusLadder(header: Option<string>, daysParam: Option<string>, table: map<Ingest.Key, Ingest.Stored>,
                     scan: seq<Ingest.Key>, dbUp: bool, today: int, userIdOf: string -> string,
                     toNumber: string -> JsNumber, dayText: int -> string, isoOf: int -> string)
    ensures var r := Get(header, daysParam, table, scan, dbUp, today, userIdOf, toNumber, dayText, isoOf);
      && (r.status == 401 <==> Auth.BearerToken(header).None?)
      && (r.status == 200 <==> Auth.BearerToken(header).Some? && dbUp
                               && DaysParam(Clamp(RequestedDays(daysParam, toNumber))).Some?)
      && (r.status == 200 || r.status == 401 || r.status == 500)
      && (r.status == 200 <==> r.reply.Summary?)
  {
  }

  /** The selection is complete: every row of the caller within the window is in it, once. */
  lemma {:induction false} SelectionComplete(table: map<Ingest.Key, Ingest.Stored>, scan: seq<Ingest.Key>,
                                             userId: string, cutoff: int)
    requires Distinct(scan)
    ensures var r := Selection(table, scan, userId, cutoff);
      && (forall i, j :: 0 <= i < j < |r| ==> r[i].0 != r[j].0)
      && (forall k :: k in scan && k in table && k.userId == userId && k.day >= cutoff ==>
            exists i :: 0 <= i < |r| && r[i].0 == k)
      && (forall i :: 0 <= i < |r| ==> r[i].0 in scan)
  {
    SelectionInScan(table, scan, userId, cutoff);
    SelectionDistinct(table, scan, userId, cutoff);
    forall k | k in scan && k in table && k.userId == userId && k.day >= cutoff {
      SelectionCoversKey(table, scan, userId, cutoff, k);
    }
  }

  /** Every selected row comes from the scan. */
  lemma {:induction false} SelectionInScan(table: map<Ingest.Key, Ingest.Stored>, scan: seq<Ingest.Key>,
                                           userId: string, cutoff: int)
    ensures forall i :: 0 <= i < |Selection(table, scan, userId, cutoff)| ==>
      Selection(table, scan, userId, cutoff)[i].0 in scan
  {
    if scan != [] {
      var s', k := scan[..|scan| - 1], scan[|scan| - 1];
      SelectionInScan(table, s', userId, cutoff);
      var r' := Selection(table, s', userId, cutoff);
      var r := Selection(table, scan, userId, cutoff);
      forall i | 0 <= i < |r| ensures r[i].0 in scan {
        if i < |r'| {
          assert r[i] == r'[i];
          assert r'[i].0 in s';
        }
      }
    }
  }

  /** A scan that lists each key once selects each row once. */
  lemma {:induction false} SelectionDistinct(table: map<Ingest.Key, Ingest.Stored>, scan: seq<Ingest.Key>,
                                             userId: string, cutoff: int)
    requires Distinct(scan)
    ensures forall i, j :: 0 <= i < j < |Selection(table, scan, userId, cutoff)| ==>
      Selection(table, scan, userId, cutoff)[i].0 != Selection(table, scan, userId, cutoff)[j].0
  {
    if scan != [] {
      var s', k := scan[..|scan| - 1], scan[|scan| - 1];
      assert Distinct(s');
      assert k !in s';
      SelectionDistinct(table, s', userId, cutoff);
      SelectionInScan(table, s', userId, cutoff);
      var r' := Selection(table, s', userId, cutoff);
      var r := Selection(table, scan, userId, cutoff);
      forall i, j | 0 <= i < j < |r| ensures r[i].0 != r[j].0 {
        assert r[i] == r'[i];
        if j < |r'| {
          assert r[j] == r'[j];
        } else {
          assert r[j].0 == k && r'[i].0 in s';
        }
      }
    }
  }

  /** Every row of the caller within the window that the scan lists is selected. */
  lemma {:induction false} SelectionCoversKey(table: map<Ingest.Key, Ingest.Stored>, scan: seq<Ingest.Key>,
                                              userId: string, cutoff: int, k: Ingest.Key)
    requires k in scan && k in table && k.userId == userId && k.day >= cutoff
    ensures exists i :: 0 <= i < |Selection(table, scan, userId, cutoff)| && Selection(table, scan, userId, cutoff)[i].0 == k
  {
    var s', last := scan[..|scan| - 1], scan[|scan| - 1];
    var r := Selection(table, scan, userId, cutoff);
    if k == last {
      assert r[|r| - 1].0 == k;
    } else {
      var n :| 0 <= n < |scan| && scan[n] == k;
      assert s'[n] == k;
      SelectionCoversKey(table, s', userId, cutoff, k);
      var r' := Selection(table, s', userId, cutoff);
      var i :| 0 <= i < |r'| && r'[i].0 == k;
      assert r[i] == r'[i];
    }
  }

  /**
   * The rows returned: exactly the caller's rows from the cutoff day on,
   * each once and with its stored columns, ordered by day.
   */
  lemma {:induction false} OrderedFacts(table: map<Ingest.Key, Ingest.Stored>, scan: seq<Ingest.Key>, userId: string, cutoff: int)
    requires ScanOf(table, scan)
    ensures var r := Ordered(table, scan, userId, cutoff);
      && (forall i :: 0 <= i < |r| ==>
            r[i].0 in table && r[i].1 == table[r[i].0] && r[i].0.userId == userId && r[i].0.day >= cutoff)
      && (forall k :: k in table && k.userId == userId && k.day >= cutoff ==> exists i :: 0 <= i < |r| && r[i].0 == k)
      && (forall i, j :: 0 <= i < j < |r| ==> r[i].0 != r[j].0)
      && (forall i :: 0 < i < |r| ==> r[i - 1].0.day <= r[i].0.day)
  {
    OrderedRows(table, scan, userId, cutoff);
    OrderedDistinctSorted(table, scan, userId, cutoff);
  }

  /** The ordered rows are the caller's rows from the cutoff day on, with their stored columns, and all of them. */
  lemma {:induction false} OrderedRows(table: map<Ingest.Key, Ingest.Stored>, scan: seq<Ingest.Key>, userId: string, cutoff: int)
    requires ScanOf(table, scan)
    ensures var r := Ordered(table, scan, userId, cutoff);
      && (forall i :: 0 <= i < |r| ==>
            r[i].0 in table && r[i].1 == table[r[i].0] && r[i].0.userId == userId && r[i].0.day >= cutoff)
      && (forall k :: k in table && k.userId == userId && k.day >= cutoff ==> exists i :: 0 <= i < |r| && r[i].0 == k)
  {
    var s := Selection(table, scan, userId, cutoff);
    var r := Ordered(table, scan, userId, cutoff);
    SelectionComplete(table, scan, userId, cutoff);
    assert Sorting.IsTotal(IntLe);
    Sorting.SortByCorrect(s, DayOf, IntLe);
    forall i | 0 <= i < |r|
      ensures r[i].0 in table && r[i].1 == table[r[i].0] && r[i].0.userId == userId && r[i].0.day >= cutoff
    {
      assert r[i] in multiset(s);
    }
    forall k | k in table && k.userId == userId && k.day >= cutoff
      ensures exists i :: 0 <= i < |r| && r[i].0 == k
    {
      var j :| 0 <= j < |s| && s[j].0 == k;
      assert s[j] in multiset(r);
    }
  }

  /** The ordered rows name each key once and are sorted by day. */
  lemma {:induction false} OrderedDistinctSorted(table: map<Ingest.Key, Ingest.Stored>, scan: seq<Ingest.Key>,
                                                 userId: string, cutoff: int)
    requires ScanOf(table, scan)
    ensures var r := Ordered(table, scan, userId, cutoff);
      && (forall i, j :: 0 <= i < j < |r| ==> r[i].0 != r[j].0)
      && (forall i :: 0 < i < |r| ==> r[i - 1].0.day <= r[i].0.day)
  {
    var s := Selection(table, scan, userId, cutoff);
    var r := Ordered(table, scan, userId, cutoff);
    SelectionComplete(table, scan, userId, cutoff);
    assert Sorting.IsTotal(IntLe);
    Sorting.SortByCorrect(s, DayOf, IntLe);
    assert Distinct(s) by {
      forall i, j | 0 <= i < j < |s| ensures s[i] != s[j] {
        assert s[i].0 != s[j].0;
      }
    }
    Sorting.SortByDistinct(s, DayOf, IntLe);
    forall i, j | 0 <= i < j < |r| ensures r[i].0 != r[j].0 {
      assert r[i] != r[j];
      assert r[i] in multiset(s) && r[j] in multiset(s);
    }
    forall i | 0 < i < |r| ensures r[i - 1].0.day <= r[i].0.day {
      assert IntLe(DayOf(r[i - 1]), DayOf(r[i]));
    }
  }

  /**
   * `lastSync` is the latest of the stamps in string order, and null only
   * when every stamp is empty (for ISO stamps: when there are no rows).
   */
  lemma {:induction false} LastSyncIsMax(stamps: seq<string>)
    ensures var m := LastSync(stamps);
      && (m.None? <==> forall i :: 0 <= i < |stamps| ==> stamps[i] == "")
      && (m.Some? ==> m.value != "" && m.value in stamps
                      && forall i :: 0 <= i < |stamps| ==> Sorting.TextLe(stamps[i], m.value))
  {
    Sorting.TextLeTotal();
    if stamps != [] {
      var s', ts := stamps[..|stamps| - 1], stamps[|stamps| - 1];
      LastSyncIsMax(s');
      var acc := LastSync(s');
      assert forall i :: 0 <= i < |s'| ==> stamps[i] == s'[i];
      if ts != "" && acc.Some? && !Sorting.TextLe(ts, acc.value) {
        forall i | 0 <= i < |stamps| ensures Sorting.TextLe(stamps[i], ts) {
          if i < |s'| {
            Sorting.TextLeTransitive(stamps[i], acc.value, ts);
          }
        }
      }
    }
  }

  /**
   * With stamps that are never empty and whose string order is the order of
   * time (ISO 8601 in a fixed width), `lastSync` is the stamp of a row with
   * the largest `updated_at`, and null exactly when no row is returned.
   */
  lemma {:induction false} LastSyncIsLatest(rows: seq<Row>, isoOf: int -> string)
    requires forall t :: isoOf(t) != ""
    requires forall a, b :: a <= b <==> Sorting.TextLe(isoOf(a), isoOf(b))
    ensures var m := LastSync(Stamps(rows, isoOf));
      && (m.None? <==> rows == [])
      && (m.Some? ==> exists i :: 0 <= i < |rows| && m.value == isoOf(rows[i].1.updatedAt)
                        && forall j :: 0 <= j < |rows| ==> rows[j].1.updatedAt <= rows[i].1.updatedAt)
  {
    var s := Stamps(rows, isoOf);
    LastSyncIsMax(s);
    var m := LastSync(s);
    if rows != [] {
      assert s[0] != "";
      var i :| 0 <= i < |s| && s[i] == m.value;
      forall j | 0 <= j < |rows| ensures rows[j].1.updatedAt <= rows[i].1.updatedAt {
        assert Sorting.TextLe(isoOf(rows[j].1.updatedAt), isoOf(rows[i].1.updatedAt));
      }
    }
  }

  /**
   * A successful answer carries the clamped days, the selected rows in
   * order as `{day, domain, visits}`, and `lastSync` from the same rows.
   * The table is an input only, so it is unchanged.
   */
  lemma {:induction false} SuccessfulSummary(header: Option<string>, daysParam: Option<string>, table: map<Ingest.Key, Ingest.Stored>,
                          scan: seq<Ingest.Key>, today: int, userIdOf: string -> string,
                          toNumber: string -> JsNumber, dayText: int -> string, isoOf: int -> string)
    requires Auth.BearerToken(header).Some?
    requires DaysParam(Clamp(RequestedDays(daysParam, toNumber))).Some?
    ensures var r := Get(header, daysParam, table, scan, true, today, userIdOf, toNumber, dayText, isoOf);
      var days := DaysParam(Clamp(RequestedDays(daysParam, toNumber))).value;
      var rows := Ordered(table, scan, userIdOf(Auth.BearerToken(header).value), today - days);
      && 1 <= days <= 365
      && r == Response(200, Summary(days, LastSync(Stamps(rows, isoOf)), Project(rows, dayText)))
  {
    DaysOutcome(daysParam, toNumber);
  }

  /** Each of the caller's rows within the window appears in `domainDaily` as `{day, domain, visits}`. */
  lemma {:induction false} ProjectedRows(table: map<Ingest.Key, Ingest.Stored>, scan: seq<Ingest.Key>, userId: string, cutoff: int,
                      dayText: int -> string)
    requires ScanOf(table, scan)
    ensures var rows := Ordered(table, scan, userId, cutoff);
      var out := Project(rows, dayText);
      forall k :: k in table && k.userId == userId && k.day >= cutoff ==>
        exists i :: 0 <= i < |out| && rows[i].0 == k && out[i] == DayRow(dayText(k.day), k.domain, table[k].visits)
  {
    var rows := Ordered(table, scan, userId, cutoff);
    var out := Project(rows, dayText);
    OrderedFacts(table, scan, userId, cutoff);
    forall k | k in table && k.userId == userId && k.day >= cutoff
      ensures exists i :: 0 <= i < |out| && rows[i].0 == k && out[i] == DayRow(dayText(k.day), k.domain, table[k].visits)
    {
      var i :| 0 <= i < |rows| && rows[i].0 == k;
      assert out[i] == DayRow(dayText(k.day), k.domain, table[k].visits);
    }
  }

  /** With a rendering of days that keeps their order, the `day` strings come out ascending. */
  lemma {:induction false} DayTextAscending(rows: seq<Row>, table: map<Ingest.Key, Ingest.Stored>, scan: seq<Ingest.Key>,
                         userId: string, cutoff: int, dayText: int -> string)
    requires ScanOf(table, scan)
    requires rows == Ordered(table, scan, userId, cutoff)
    requires forall a, b :: a <= b ==> Sorting.TextLe(dayText(a), dayText(b))
    ensures var out := Project(rows, dayText);
      forall i :: 0 < i < |out| ==> Sorting.TextLe(out[i - 1].day, out[i].day)
  {
    OrderedFacts(table, scan, userId, cutoff);
  }
}
