/**
 * The ingest endpoint `POST /api/sync/ingest`: a device posts per-day,
 * per-domain visit counts and the server merges them into the table
 * `domain_daily`, keyed by (user_id, day, domain).
 *
 * The request is given as its `authorization` header and its parsed body.
 * `userIdOf` is `userIdFromSyncKey` (a SHA-256 digest, left uninterpreted),
 * `parseDate` and `parseTimestamp` are the database's `::date` and
 * `::timestamptz` casts (None when a value does not parse), `dbUp` says
 * whether the database can be reached, and `now` is the database's `now()`.
 */
module Ingest {
  import opened Common
  import Decimal
  import Auth

  /** One posted row; absent fields are None. `visits` is a JSON number. */
  datatype IngestRow = IngestRow(day: Option<string>, domain: Option<string>, visits: Option<real>, lastSeen: Option<string>)

  /**
   * An element of the `rows` array. Reading a field of JSON `null` throws;
   * any other element is read field by field, and a number, string,
   * boolean or array has none of the four fields.
   */
  datatype Element = NullElement | Row(row: IngestRow)

  /** The request body: not JSON at all, or JSON whose `rows` is an array (Some) or anything else (None). */
  datatype Body = Unparseable | Parsed(rows: Option<seq<Element>>)

  /** A bound query parameter. */
  datatype Param = Text(s: string) | Int(n: int) | Null

  datatype Key = Key(userId: string, day: int, domain: string)

  /** The non-key columns of a stored row; timestamps are integers. */
  datatype Stored = Stored(visits: int, lastSeen: Option<int>, updatedAt: int)

  /** A row of the VALUES list after the casts. */
  datatype Incoming = Incoming(key: Key, visits: int, lastSeen: Option<int>)

  datatype Reply = Failure(error: string) | Upserted(upserted: nat, userIdPrefix: Option<string>)

  datatype Response = Response(status: int, reply: Reply)

  /** The statements the handler sends to the database, in order. */
  datatype DbCall = EnsureSchema | InsertValues(values: seq<Param>)

  const MaxRows: nat := 20000
  /**
   * The Bind message of the PostgreSQL frontend/backend protocol carries its
   * parameter count as a 16-bit integer, so a statement binds at most this
   * many parameters; a longer `values` array makes the query fail.
   */
  const MaxBindParams: nat := 65535
  const Int32Min: int := -0x8000_0000
  const Int32Max: int := 0x7FFF_FFFF

  /** `Math.max(0, Math.floor(r.visits || 0))` */
  function StoredVisits(v: Option<real>): (n: int)
    ensures n >= 0
    ensures v.None? ==> n == 0
    ensures v.Some? && v.value >= 0.0 ==> n as real <= v.value < n as real + 1.0
    ensures v.Some? && v.value < 0.0 ==> n == 0
  {
    if v.None? || v.value.Floor < 0 then 0 else v.value.Floor
  }

  /** An optional string field as a parameter: undefined is bound as NULL. */
  function OptText(s: Option<string>): Param
  {
    if s.None? then Null else Text(s.value)
  }

  /** `r.lastSeen || null`: an absent or empty timestamp is NULL. */
  function LastSeenParam(s: Option<string>): (p: Param)
    ensures p.Null? <==> s.None? || s.value == ""
    ensures p.Text? ==> s == Some(p.s)
  {
    if s.None? || s.value == "" then Null else Text(s.value)
  }

  /** The five values the loop pushes for one row. */
  function RowParams(userId: string, r: IngestRow): seq<Param>
  {
    [Text(userId), OptText(r.day), OptText(r.domain), Int(StoredVisits(r.visits)), LastSeenParam(r.lastSeen)]
  }

  /** The flat `values` array for all rows. */
  function Params(userId: string, rows: seq<IngestRow>): (values: seq<Param>)
    ensures |values| == 5 * |rows|
  {
    if rows == [] then [] else Params(userId, rows[..|rows| - 1]) + RowParams(userId, rows[|rows| - 1])
  }

  function Ref(n: nat): string
  {
    "$" + Decimal.NatToString(n)
  }

  /** The placeholder group of row `i`: parameters 5i+1 to 5i+5 with their casts. */
  function Placeholder(i: nat): string
  {
    "(" + Ref(5 * i + 1) + ", " + Ref(5 * i + 2) + "::date, " + Ref(5 * i + 3) + ", "
      + Ref(5 * i + 4) + "::int, " + Ref(5 * i + 5) + "::timestamptz)"
  }

  predicate HasNull(elems: seq<Element>)
  {
    exists i :: 0 <= i < |elems| && elems[i].NullElement?
  }

  /** The posted rows of an array without a `null` element. */
  function Rows(elems: seq<Element>): (rows: seq<IngestRow>)
    requires !HasNull(elems)
    ensures |rows| == |elems| && forall i :: 0 <= i < |elems| ==> rows[i] == elems[i].row
  {
    seq(|elems|, i requires 0 <= i < |elems| && !HasNull(elems) => elems[i].row)
  }

  /**
   * The `forEach` that fills `values` and `placeholders`; it throws at the
   * first `null` element, and otherwise builds both lists for all rows.
   */
  method BuildValues(userId: string, elems: seq<Element>) returns (threw: bool, values: seq<Param>, placeholders: seq<string>)
    ensures threw <==> HasNull(elems)
    ensures !threw ==> values == Params(userId, Rows(elems))
    ensures !threw ==> placeholders == Placeholders(|elems|) && |placeholders| == |elems|
  {
    values, placeholders := [], [];
    ghost var rows: seq<IngestRow> := [];
    for i := 0 to |elems|
      invariant |rows| == i && forall j :: 0 <= j < i ==> elems[j].Row? && rows[j] == elems[j].row
      invariant values == Params(userId, rows)
      invariant placeholders == Placeholders(i)
    {
      if elems[i].NullElement? {
        return true, values, placeholders;
      }
      var r := elems[i].row;
      placeholders := placeholders + [Placeholder(i)];
      assert (rows + [r])[..i] == rows;
      rows := rows + [r];
      values := values + [Text(userId), OptText(r.day), OptText(r.domain), Int(StoredVisits(r.visits)),
                          LastSeenParam(r.lastSeen)];
    }
    threw := false;
    assert rows == Rows(elems);
    PlaceholdersLength(|elems|);
  }

  /** One more row appends its five values. */
  lemma {:induction false} ParamsSnoc(userId: string, rows: seq<IngestRow>, i: nat)
    requires i < |rows|
    ensures Params(userId, rows[..i + 1]) == Params(userId, rows[..i]) + RowParams(userId, rows[i])
  {
    assert rows[..i + 1][..i] == rows[..i];
  }

  /** The placeholder groups of the first `n` rows. */
  function Placeholders(n: nat): seq<string>
  {
    if n == 0 then [] else Placeholders(n - 1) + [Placeholder(n - 1)]
  }

  lemma {:induction false} PlaceholdersLength(n: nat)
    ensures |Placeholders(n)| == n
  {
    if n > 0 {
      PlaceholdersLength(n - 1);
    }
  }

  /** Group `i` of the list is row `i`'s group. */
  lemma {:induction false} PlaceholderAt(n: nat, i: nat)
    requires i < n
    ensures |Placeholders(n)| == n && Placeholders(n)[i] == Placeholder(i)
  {
    PlaceholdersLength(n);
    if i < n - 1 {
      PlaceholderAt(n - 1, i);
    }
  }

  /** Row `i`'s five values sit at positions 5i to 5i+4, which the placeholders call $5i+1 to $5i+5. */
  lemma {:induction false} ParamsLayout(userId: string, rows: seq<IngestRow>)
    ensures |Params(userId, rows)| == 5 * |rows|
    ensures forall i, j :: 0 <= i < |rows| && 0 <= j < 5 ==>
      Params(userId, rows)[5 * i + j] == RowParams(userId, rows[i])[j]
  {
    if rows != [] {
      var rows' := rows[..|rows| - 1];
      ParamsLayout(userId, rows');
      forall i, j | 0 <= i < |rows| && 0 <= j < 5
        ensures Params(userId, rows)[5 * i + j] == RowParams(userId, rows[i])[j]
      {
        if i < |rows'| {
          assert rows[i] == rows'[i];
        }
      }
    }
  }

  /**
   * The database's reading of one placeholder group: the casts, the
   * NOT NULL columns and the `integer` range. None is a failed statement.
   */
  function CastRow(p: seq<Param>, parseDate: string -> Option<int>, parseTimestamp: string -> Option<int>): Option<Incoming>
    requires |p| == 5
  {
    if !p[0].Text? || !p[1].Text? || !p[2].Text? || !p[3].Int? then None
    else if parseDate(p[1].s).None? || !(Int32Min <= p[3].n <= Int32Max) then None
    else if p[4].Int? || (p[4].Text? && parseTimestamp(p[4].s).None?) then None
    else
      var lastSeen := if p[4].Null? then None else parseTimestamp(p[4].s);
      Some(Incoming(Key(p[0].s, parseDate(p[1].s).value, p[2].s), p[3].n, lastSeen))
  }

  /** The first `n` rows of the VALUES list, cast; None when any of them fails. */
  function CastRows(values: seq<Param>, n: nat, parseDate: string -> Option<int>, parseTimestamp: string -> Option<int>): Option<seq<Incoming>>
    requires 5 * n <= |values|
  {
    if n == 0 then Some([])
    else
      match CastRows(values, n - 1, parseDate, parseTimestamp)
      case None => None
      case Some(b) =>
        match CastRow(values[5 * (n - 1)..5 * n], parseDate, parseTimestamp)
        case None => None
        case Some(x) => Some(b + [x])
  }

  /** The rows of a VALUES list of five-column groups. */
  function Cast(values: seq<Param>, parseDate: string -> Option<int>, parseTimestamp: string -> Option<int>): Option<seq<Incoming>>
  {
    if |values| % 5 != 0 then None else CastRows(values, |values| / 5, parseDate, parseTimestamp)
  }

  /** `ON CONFLICT DO UPDATE` may not affect a row twice: the keys of the batch are distinct. */
  predicate DistinctKeys(batch: seq<Incoming>)
  {
    forall i, j :: 0 <= i < j < |batch| ==> batch[i].key != batch[j].key
  }

  /** The CASE on `last_seen`: a null-aware maximum. */
  function MergeLastSeen(stored: Option<int>, incoming: Option<int>): Option<int>
  {
    if stored.None? then incoming
    else if incoming.None? then stored
    else Some(if stored.value >= incoming.value then stored.value else incoming.value)
  }

  /** The row after the statement: inserted, or updated with the incoming visits. */
  function Merge(existing: Option<Stored>, x: Incoming, now: int): (s: Stored)
    ensures s.visits == x.visits && s.updatedAt == now
    ensures existing.None? ==> s.lastSeen == x.lastSeen
    ensures existing.Some? ==> s.lastSeen == MergeLastSeen(existing.value.lastSeen, x.lastSeen)
  {
    if existing.None? then Stored(x.visits, x.lastSeen, now)
    else Stored(x.visits, MergeLastSeen(existing.value.lastSeen, x.lastSeen), now)
  }

  function Lookup(table: map<Key, Stored>, k: Key): Option<Stored>
  {
    if k in table then Some(table[k]) else None
  }

  /** The table after upserting the rows of `batch` one by one. */
  function UpsertAll(table: map<Key, Stored>, batch: seq<Incoming>, now: int): (r: map<Key, Stored>)
    ensures r.Keys == table.Keys + set i | 0 <= i < |batch| :: batch[i].key
  {
    if batch == [] then table
    else
      var t := UpsertAll(table, batch[..|batch| - 1], now);
      var x := batch[|batch| - 1];
      t[x.key := Merge(Lookup(t, x.key), x, now)]
  }

  /** The table `domain_daily`. */
  class DomainDailyTable {
    var rows: map<Key, Stored>

    constructor ()
      ensures rows == map[]
    {
      rows := map[];
    }

    /**
     * The `INSERT ... ON CONFLICT ... DO UPDATE` statement with the bound
     * values: all rows or none. It fails when more parameters are bound
     * than a Bind message can count.
     */
    method InsertOnConflict(values: seq<Param>, now: int, parseDate: string -> Option<int>,
                            parseTimestamp: string -> Option<int>) returns (ok: bool)
      modifies this
      ensures var b := Cast(values, parseDate, parseTimestamp);
        ok <==> |values| <= MaxBindParams && b.Some? && DistinctKeys(b.value)
      ensures ok ==> rows == UpsertAll(old(rows), Cast(values, parseDate, parseTimestamp).value, now)
      ensures !ok ==> rows == old(rows)
    {
      if |values| > MaxBindParams {
        return false;
      }
      var b := Cast(values, parseDate, parseTimestamp);
      if b.None? || !DistinctKeys(b.value) {
        return false;
      }
      var batch := b.value;
      for i := 0 to |batch|
        invariant rows == UpsertAll(old(rows), batch[..i], now)
      {
        var x := batch[i];
        var previous := if x.key in rows then Some(rows[x.key]) else None;
        rows := rows[x.key := Merge(previous, x, now)];
        assert batch[..i + 1][..i] == batch[..i];
      }
      assert batch[..|batch|] == batch;
      return true;
    }
  }

  /** `userId.slice(0, 8)` */
  function Prefix8(s: string): string
  {
    s[..if |s| < 8 then |s| else 8]
  }

  /** What one request leads to: the response, the statements sent, and the table afterwards. */
  datatype Outcome = Outcome(resp: Response, calls: seq<DbCall>, table: map<Key, Stored>)

  /**
   * The handler's outcome on table `t` once `getBearerToken` has returned
   * `token`, step by step as the handler goes.
   */
  function Handle(token: Option<string>, body: Body, t: map<Key, Stored>, dbUp: bool, now: int,
                  userIdOf: string -> string, parseDate: string -> Option<int>,
                  parseTimestamp: string -> Option<int>): (o: Outcome)
    ensures o.resp.status == 401 <==> token.None?
    ensures o.resp.status in {200, 400, 401, 413, 500}
    ensures o.calls != [] ==> o.calls[0] == EnsureSchema
    ensures o.resp.status != 200 ==> o.table == t
  {
    if token.None? then Outcome(Response(401, Failure("Missing Bearer token")), [], t)
    else if body.Unparseable? then Outcome(Response(500, Failure("Internal error")), [], t)
    else if body.rows.None? then Outcome(Response(400, Failure("Invalid payload")), [], t)
    else if |body.rows.value| > MaxRows then Outcome(Response(413, Failure("Too many rows")), [], t)
    else if !dbUp then Outcome(Response(500, Failure("Internal error")), [EnsureSchema], t)
    else
      var o := Batch(userIdOf(token.value), body.rows.value, t, now, parseDate, parseTimestamp);
      Outcome(o.resp, [EnsureSchema] + o.calls, o.table)
  }

  /**
   * The part of the handler after `ensureSchema`, with the database up: a
   * `null` element throws in the `forEach` before any statement; an empty
   * batch is answered with 200 and no statement; otherwise the INSERT is
   * sent, and either every row is upserted and the reply is 200, or the
   * statement fails as a whole and the table is as it was.
   */
  function Batch(userId: string, elems: seq<Element>, t: map<Key, Stored>, now: int,
                 parseDate: string -> Option<int>, parseTimestamp: string -> Option<int>): Outcome
  {
    if HasNull(elems) then Outcome(Response(500, Failure("Internal error")), [], t)
    else if elems == [] then Outcome(Response(200, Upserted(0, None)), [], t)
    else
      var rows := Rows(elems);
      var values := Params(userId, rows);
      var b := Cast(values, parseDate, parseTimestamp);
      if |values| <= MaxBindParams && b.Some? && DistinctKeys(b.value) then
        Outcome(Response(200, Upserted(|rows|, Some(Prefix8(userId)))), [InsertValues(values)], UpsertAll(t, b.value, now))
      else Outcome(Response(500, Failure("Internal error")), [InsertValues(values)], t)
  }

  /** The batch step: build the parameter list, then send the upsert unless there are no rows. */
  method UpsertBatch(userId: string, elems: seq<Element>, db: DomainDailyTable, now: int,
                     parseDate: string -> Option<int>, parseTimestamp: string -> Option<int>)
    returns (resp: Response, calls: seq<DbCall>)
    modifies db
    ensures Outcome(resp, calls, db.rows) == Batch(userId, elems, old(db.rows), now, parseDate, parseTimestamp)
  {
    var threw, values, placeholders := BuildValues(userId, elems);
    if threw {
      return Response(500, Failure("Internal error")), [];
    }
    ghost var rows := Rows(elems);
    if |placeholders| == 0 {
      assert elems == [];
      return Response(200, Upserted(0, None)), [];
    }
    calls := [InsertValues(values)];
    var ok := db.InsertOnConflict(values, now, parseDate, parseTimestamp);
    if !ok {
      return Response(500, Failure("Internal error")), calls;
    }
    resp := Response(200, Upserted(|elems|, Some(Prefix8(userId))));
  }

  /**
   * The last rung of the ladder: with the database up, a non-empty batch
   * within the limit runs `ensureSchema`, then throws on a `null` element or
   * sends the INSERT.
   */
  lemma {:induction false} HandleInsert(token: Option<string>, body: Body, t: map<Key, Stored>, now: int,
                     userIdOf: string -> string, parseDate: string -> Option<int>, parseTimestamp: string -> Option<int>)
    requires token.Some? && body.Parsed? && body.rows.Some?
    requires 0 < |body.rows.value| <= MaxRows
    ensures HasNull(body.rows.value) ==>
      Handle(token, body, t, true, now, userIdOf, parseDate, parseTimestamp)
        == Outcome(Response(500, Failure("Internal error")), [EnsureSchema], t)
    ensures !HasNull(body.rows.value) ==>
      var userId := userIdOf(token.value);
      var values := Params(userId, Rows(body.rows.value));
      var b := Cast(values, parseDate, parseTimestamp);
      Handle(token, body, t, true, now, userIdOf, parseDate, parseTimestamp)
        == if |values| <= MaxBindParams && b.Some? && DistinctKeys(b.value)
           then Outcome(Response(200, Upserted(|body.rows.value|, Some(Prefix8(userId)))),
                        [EnsureSchema, InsertValues(values)], UpsertAll(t, b.value, now))
           else Outcome(Response(500, Failure("Internal error")), [EnsureSchema, InsertValues(values)], t)
  {
  }

  /** The handler. */
  method Post(header: Option<string>, body: Body, db: DomainDailyTable, dbUp: bool, now: int,
              userIdOf: string -> string, parseDate: string -> Option<int>, parseTimestamp: string -> Option<int>)
    returns (resp: Response, calls: seq<DbCall>)
    modifies db
    ensures Outcome(resp, calls, db.rows)
      == Handle(Auth.BearerToken(header), body, old(db.rows), dbUp, now, userIdOf, parseDate, parseTimestamp)
  {
    calls := [];
    var token := Auth.BearerToken(header);
    if token.None? {
      return Response(401, Failure("Missing Bearer token")), calls;
    }
    var userId := userIdOf(token.value);
    if body.Unparseable? {
      return Response(500, Failure("Internal error")), calls;
    }
    if body.rows.None? {
      return Response(400, Failure("Invalid payload")), calls;
    }
    var rows := body.rows.value;
    if |rows| > 20000 {
      return Response(413, Failure("Too many rows")), calls;
    }
    calls := [EnsureSchema];
    if !dbUp {
      return Response(500, Failure("Internal error")), calls;
    }
    ghost var o := Batch(userId, rows, db.rows, now, parseDate, parseTimestamp);
    assert Handle(Auth.BearerToken(header), body, db.rows, dbUp, now, userIdOf, parseDate, parseTimestamp)
      == Outcome(o.resp, [EnsureSchema] + o.calls, o.table);
    var rest;
    resp, rest := UpsertBatch(userId, rows, db, now, parseDate, parseTimestamp);
    calls := calls + rest;
  }

  /**
   * The validation ladder: a statement reaches the database only with a
   * token and an array of at most 20000 rows, `ensureSchema` comes first,
   * and the table changes only on a 200 after the INSERT.
   */
  lemma {:induction false} LadderOrder(token: Option<string>, body: Body, t: map<Key, Stored>, dbUp: bool, now: int,
                    userIdOf: string -> string, parseDate: string -> Option<int>, parseTimestamp: string -> Option<int>)
    ensures var o := Handle(token, body, t, dbUp, now, userIdOf, parseDate, parseTimestamp);
      && (token.None? ==> o == Outcome(Response(401, Failure("Missing Bearer token")), [], t))
      && (o.calls != [] <==> token.Some? && body.Parsed? && body.rows.Some? && |body.rows.value| <= MaxRows)
      && (o.calls != [] ==> o.calls[0] == EnsureSchema)
      && (o.resp.status == 400 || o.resp.status == 401 || o.resp.status == 413 ==> o.calls == [] && o.table == t)
      && (o.table != t ==> o.resp.status == 200 && |o.calls| == 2 && o.calls[1].InsertValues?)
  {
    if token.Some? && body.Parsed? && body.rows.Some? && |body.rows.value| <= MaxRows && dbUp {
      var o := Batch(userIdOf(token.value), body.rows.value, t, now, parseDate, parseTimestamp);
      BatchFacts(userIdOf(token.value), body.rows.value, t, now, parseDate, parseTimestamp);
      assert Handle(token, body, t, dbUp, now, userIdOf, parseDate, parseTimestamp)
        == Outcome(o.resp, [EnsureSchema] + o.calls, o.table);
    }
  }

  /**
   * After `ensureSchema`, at most the INSERT is sent, it is sent iff the
   * array is non-empty and has no `null` element, and the table changes
   * only on a 200 after it.
   */
  lemma {:induction false} BatchFacts(userId: string, rows: seq<Element>, t: map<Key, Stored>, now: int,
                   parseDate: string -> Option<int>, parseTimestamp: string -> Option<int>)
    ensures var o := Batch(userId, rows, t, now, parseDate, parseTimestamp);
      && (o.calls == [] <==> rows == [] || HasNull(rows))
      && (o.calls != [] ==> !HasNull(rows) && o.calls == [InsertValues(Params(userId, Rows(rows)))])
      && (o.table != t ==> o.resp.status == 200 && o.calls != [])
      && (o.resp.status == 200 || o.resp.status == 500)
  {
  }

  /** A batch of exactly 20000 rows is let through; one more row is refused with 413. */
  lemma {:induction false} RowLimit(token: Option<string>, rows: seq<Element>, t: map<Key, Stored>, dbUp: bool, now: int,
                 userIdOf: string -> string, parseDate: string -> Option<int>, parseTimestamp: string -> Option<int>)
    requires token.Some?
    ensures |rows| == 20000 ==>
      Handle(token, Parsed(Some(rows)), t, dbUp, now, userIdOf, parseDate, parseTimestamp).calls[0] == EnsureSchema
    ensures |rows| == 20001 ==>
      Handle(token, Parsed(Some(rows)), t, dbUp, now, userIdOf, parseDate, parseTimestamp).resp.status == 413
  {
  }

  /** An empty batch answers `{ok: true, upserted: 0}` after `ensureSchema` and sends no INSERT. */
  lemma {:induction false} EmptyBatch(token: Option<string>, t: map<Key, Stored>, now: int,
                   userIdOf: string -> string, parseDate: string -> Option<int>, parseTimestamp: string -> Option<int>)
    requires token.Some?
    ensures Handle(token, Parsed(Some([])), t, true, now, userIdOf, parseDate, parseTimestamp)
      == Outcome(Response(200, Upserted(0, None)), [EnsureSchema], t)
  {
  }

  /** A posted row the database accepts: day and domain present, casts that succeed, visits within `integer`. */
  predicate RowAccepted(r: IngestRow, parseDate: string -> Option<int>, parseTimestamp: string -> Option<int>)
  {
    && r.day.Some? && parseDate(r.day.value).Some?
    && r.domain.Some?
    && StoredVisits(r.visits) <= Int32Max
    && (LastSeenParam(r.lastSeen).Text? ==> parseTimestamp(r.lastSeen.value).Some?)
  }

  /** The row the database sees for an accepted posted row. */
  function IncomingOf(userId: string, r: IngestRow, parseDate: string -> Option<int>, parseTimestamp: string -> Option<int>): Incoming
    requires RowAccepted(r, parseDate, parseTimestamp)
  {
    Incoming(Key(userId, parseDate(r.day.value).value, r.domain.value), StoredVisits(r.visits),
             if LastSeenParam(r.lastSeen).Null? then None else parseTimestamp(r.lastSeen.value))
  }

  lemma {:induction false} CastRowParams(userId: string, r: IngestRow, parseDate: string -> Option<int>, parseTimestamp: string -> Option<int>)
    ensures CastRow(RowParams(userId, r), parseDate, parseTimestamp).Some? <==> RowAccepted(r, parseDate, parseTimestamp)
    ensures RowAccepted(r, parseDate, parseTimestamp) ==>
      CastRow(RowParams(userId, r), parseDate, parseTimestamp) == Some(IncomingOf(userId, r, parseDate, parseTimestamp))
  {
  }

  /** The casts of the first `n` groups look only at those groups. */
  lemma {:induction false} CastRowsPrefix(values: seq<Param>, extra: seq<Param>, n: nat,
                                          parseDate: string -> Option<int>, parseTimestamp: string -> Option<int>)
    requires 5 * n <= |values|
    ensures CastRows(values + extra, n, parseDate, parseTimestamp) == CastRows(values, n, parseDate, parseTimestamp)
  {
    if n > 0 {
      CastRowsPrefix(values, extra, n - 1, parseDate, parseTimestamp);
      assert (values + extra)[5 * (n - 1)..5 * n] == values[5 * (n - 1)..5 * n];
    }
  }

  /** A list of `n` whole groups is cast group by group. */
  lemma {:induction false} CastGroups(values: seq<Param>, n: nat, parseDate: string -> Option<int>, parseTimestamp: string -> Option<int>)
    requires |values| == 5 * n
    ensures Cast(values, parseDate, parseTimestamp) == CastRows(values, n, parseDate, parseTimestamp)
  {
    assert |values| / 5 == n && |values| % 5 == 0;
  }

  /** Casting the values of one more row casts that row's group after the others. */
  lemma {:induction false} CastParamsSnoc(userId: string, rows: seq<IngestRow>, parseDate: string -> Option<int>,
                       parseTimestamp: string -> Option<int>)
    requires rows != []
    ensures var rows', r := rows[..|rows| - 1], rows[|rows| - 1];
      var c := CastRows(Params(userId, rows'), |rows'|, parseDate, parseTimestamp);
      var x := CastRow(RowParams(userId, r), parseDate, parseTimestamp);
      CastRows(Params(userId, rows), |rows|, parseDate, parseTimestamp)
        == if c.Some? && x.Some? then Some(c.value + [x.value]) else None
  {
    var rows', r := rows[..|rows| - 1], rows[|rows| - 1];
    var n := |rows'|;
    var v', rp := Params(userId, rows'), RowParams(userId, r);
    assert Params(userId, rows) == v' + rp;
    CastRowsPrefix(v', rp, n, parseDate, parseTimestamp);
    assert (v' + rp)[5 * n..5 * (n + 1)] == rp;
  }

  /**
   * Decoding the bound values gives back the posted rows: the statement
   * succeeds exactly when every row is accepted, and then row `i` of the
   * VALUES list is the cast of posted row `i` under the caller's user id.
   */
  lemma {:induction false} CastParams(userId: string, rows: seq<IngestRow>,
                                      parseDate: string -> Option<int>, parseTimestamp: string -> Option<int>)
    ensures Cast(Params(userId, rows), parseDate, parseTimestamp).Some?
      <==> forall i :: 0 <= i < |rows| ==> RowAccepted(rows[i], parseDate, parseTimestamp)
    ensures Cast(Params(userId, rows), parseDate, parseTimestamp).Some? ==>
      var b := Cast(Params(userId, rows), parseDate, parseTimestamp).value;
      |b| == |rows| && forall i :: 0 <= i < |rows| ==> b[i] == IncomingOf(userId, rows[i], parseDate, parseTimestamp)
  {
    var v := Params(userId, rows);
    CastGroups(v, |rows|, parseDate, parseTimestamp);
    if rows != [] {
      var rows', r := rows[..|rows| - 1], rows[|rows| - 1];
      CastParams(userId, rows', parseDate, parseTimestamp);
      var v' := Params(userId, rows');
      CastGroups(v', |rows'|, parseDate, parseTimestamp);
      var c := CastRows(v', |rows'|, parseDate, parseTimestamp);
      var x := CastRow(RowParams(userId, r), parseDate, parseTimestamp);
      CastParamsSnoc(userId, rows, parseDate, parseTimestamp);
      CastRowParams(userId, r, parseDate, parseTimestamp);
      if c.Some? && x.Some? {
        var b := c.value + [x.value];
        assert |c.value| == |rows'|;
        assert CastRows(v, |rows|, parseDate, parseTimestamp) == Some(b);
        forall i | 0 <= i < |rows|
          ensures RowAccepted(rows[i], parseDate, parseTimestamp)
          ensures b[i] == IncomingOf(userId, rows[i], parseDate, parseTimestamp)
        {
          if i < |rows'| {
            assert rows[i] == rows'[i] && b[i] == c.value[i];
          } else {
            assert i == |c.value|;
            assert b[i] == x.value;
          }
        }
      } else if c.None? {
        var i :| 0 <= i < |rows'| && !RowAccepted(rows'[i], parseDate, parseTimestamp);
        assert rows[i] == rows'[i];
      } else {
        assert !RowAccepted(rows[|rows| - 1], parseDate, parseTimestamp);
      }
    }
  }

  /** The CASE on `last_seen` is the maximum of the present values, and NULL only when both are. */
  lemma {:induction false} MergeLastSeenIsMax(stored: Option<int>, incoming: Option<int>)
    ensures var m := MergeLastSeen(stored, incoming);
      && (m == stored || m == incoming)
      && (m.None? <==> stored.None? && incoming.None?)
      && (stored.Some? ==> m.Some? && m.value >= stored.value)
      && (incoming.Some? ==> m.Some? && m.value >= incoming.value)
  {
  }

  lemma {:induction false} UpsertAllOthers(t: map<Key, Stored>, batch: seq<Incoming>, now: int, k: Key)
    requires forall i :: 0 <= i < |batch| ==> batch[i].key != k
    ensures Lookup(UpsertAll(t, batch, now), k) == Lookup(t, k)
  {
    if batch != [] {
      UpsertAllOthers(t, batch[..|batch| - 1], now, k);
    }
  }

  lemma {:induction false} UpsertAllHit(t: map<Key, Stored>, batch: seq<Incoming>, now: int, i: nat)
    requires DistinctKeys(batch) && i < |batch|
    ensures Lookup(UpsertAll(t, batch, now), batch[i].key) == Some(Merge(Lookup(t, batch[i].key), batch[i], now))
  {
    var b', x := batch[..|batch| - 1], batch[|batch| - 1];
    if i < |b'| {
      assert DistinctKeys(b');
      UpsertAllHit(t, b', now, i);
    } else {
      UpsertAllOthers(t, b', now, x.key);
    }
  }

  /**
   * Upserting a batch with distinct keys: each batch key holds the merge of
   * its old row (if any) with the incoming one, stamped `now`, with the
   * incoming visits; every other key is as before.
   */
  lemma {:induction false} UpsertAllFacts(t: map<Key, Stored>, batch: seq<Incoming>, now: int)
    requires DistinctKeys(batch)
    ensures var r := UpsertAll(t, batch, now);
      forall i :: 0 <= i < |batch| ==>
        && Lookup(r, batch[i].key) == Some(Merge(Lookup(t, batch[i].key), batch[i], now))
        && r[batch[i].key].visits == batch[i].visits && r[batch[i].key].updatedAt == now
    ensures forall k :: (forall i :: 0 <= i < |batch| ==> batch[i].key != k) ==>
      Lookup(UpsertAll(t, batch, now), k) == Lookup(t, k)
  {
    forall i | 0 <= i < |batch| {
      UpsertAllHit(t, batch, now, i);
    }
    forall k | forall i :: 0 <= i < |batch| ==> batch[i].key != k {
      UpsertAllOthers(t, batch, now, k);
    }
  }

  /** Visits are replaced, not summed: upserting 5 and then 3 for one key leaves 3. */
  lemma {:induction false} ReplaceNotSum(t: map<Key, Stored>, k: Key, now1: int, now2: int)
    ensures var t1 := UpsertAll(t, [Incoming(k, 5, None)], now1);
      UpsertAll(t1, [Incoming(k, 3, None)], now2)[k].visits == 3
  {
    var t1 := UpsertAll(t, [Incoming(k, 5, None)], now1);
    assert [Incoming(k, 3, None)][..0] == [];
  }

  /**
   * What a non-empty batch must satisfy to be upserted: at most 13107 rows
   * (65535 bound parameters), no `null` element, every row accepted, and no
   * two rows with one key.
   */
  predicate Upsertable(userId: string, rows: seq<Element>, parseDate: string -> Option<int>, parseTimestamp: string -> Option<int>)
  {
    && 5 * |rows| <= MaxBindParams
    && (forall i :: 0 <= i < |rows| ==> rows[i].Row? && RowAccepted(rows[i].row, parseDate, parseTimestamp))
    && (forall i, j :: 0 <= i < j < |rows| ==>
          IncomingOf(userId, rows[i].row, parseDate, parseTimestamp).key
            != IncomingOf(userId, rows[j].row, parseDate, parseTimestamp).key)
  }

  /** `CastParams` for an array without `null`: the cast rows are the elements' rows in order. */
  lemma {:induction false} CastElements(userId: string, rows: seq<Element>,
                                        parseDate: string -> Option<int>, parseTimestamp: string -> Option<int>)
    requires !HasNull(rows)
    ensures var c := Cast(Params(userId, Rows(rows)), parseDate, parseTimestamp);
      && (c.Some? <==> forall i :: 0 <= i < |rows| ==> RowAccepted(rows[i].row, parseDate, parseTimestamp))
      && (c.Some? ==>
            && |c.value| == |rows|
            && forall i :: 0 <= i < |rows| ==> c.value[i] == IncomingOf(userId, rows[i].row, parseDate, parseTimestamp))
  {
    var posted := Rows(rows);
    CastParams(userId, posted, parseDate, parseTimestamp);
    assert forall i :: 0 <= i < |rows| ==> posted[i] == rows[i].row;
  }

  /** The statement succeeds on a non-empty batch exactly when the batch is upsertable. */
  lemma {:induction false} BatchOutcome(userId: string, rows: seq<Element>, t: map<Key, Stored>, now: int,
                                        parseDate: string -> Option<int>, parseTimestamp: string -> Option<int>)
    requires rows != []
    ensures Batch(userId, rows, t, now, parseDate, parseTimestamp).resp.status == 200
      <==> Upsertable(userId, rows, parseDate, parseTimestamp)
    ensures Upsertable(userId, rows, parseDate, parseTimestamp) ==>
      var o := Batch(userId, rows, t, now, parseDate, parseTimestamp);
      && o.resp == Response(200, Upserted(|rows|, Some(Prefix8(userId))))
      && o.calls == [InsertValues(Params(userId, Rows(rows)))]
      && o.table == UpsertAll(t, Cast(Params(userId, Rows(rows)), parseDate, parseTimestamp).value, now)
      && var b := Cast(Params(userId, Rows(rows)), parseDate, parseTimestamp).value;
         |b| == |rows| && DistinctKeys(b)
         && forall i :: 0 <= i < |rows| ==> b[i] == IncomingOf(userId, rows[i].row, parseDate, parseTimestamp)
  {
    if !HasNull(rows) {
      CastElements(userId, rows, parseDate, parseTimestamp);
    } else {
      var i :| 0 <= i < |rows| && rows[i].NullElement?;
    }
  }

  /** Upserting the batch leaves every key it does not name as it was, and merges the posted ones. */
  lemma {:induction false} BatchTable(userId: string, rows: seq<Element>, t: map<Key, Stored>, now: int,
                                      parseDate: string -> Option<int>, parseTimestamp: string -> Option<int>)
    requires rows != [] && Upsertable(userId, rows, parseDate, parseTimestamp)
    ensures var o := Batch(userId, rows, t, now, parseDate, parseTimestamp);
      && (forall k: Key :: (forall i :: 0 <= i < |rows| ==> IncomingOf(userId, rows[i].row, parseDate, parseTimestamp).key != k) ==>
            Lookup(o.table, k) == Lookup(t, k))
      && (forall i :: 0 <= i < |rows| ==>
            var x := IncomingOf(userId, rows[i].row, parseDate, parseTimestamp);
            x.key in o.table && o.table[x.key] == Merge(Lookup(t, x.key), x, now))
  {
    BatchOutcome(userId, rows, t, now, parseDate, parseTimestamp);
    var b := Cast(Params(userId, Rows(rows)), parseDate, parseTimestamp).value;
    forall k: Key | forall i :: 0 <= i < |rows| ==> IncomingOf(userId, rows[i].row, parseDate, parseTimestamp).key != k
      ensures Lookup(UpsertAll(t, b, now), k) == Lookup(t, k)
    {
      UpsertAllOthers(t, b, now, k);
    }
    forall i | 0 <= i < |rows|
      ensures var x := IncomingOf(userId, rows[i].row, parseDate, parseTimestamp);
        x.key in UpsertAll(t, b, now) && UpsertAll(t, b, now)[x.key] == Merge(Lookup(t, x.key), x, now)
    {
      UpsertAllHit(t, b, now, i);
    }
  }

  /**
   * A successful non-empty request had a token and an upsertable batch; its
   * reply counts the rows and carries `Prefix8` of the user id. Every key
   * the batch does not name, of this user or another, is as it was; the
   * posted keys carry the posted visits and `updated_at = now`.
   */
  lemma {:induction false} SuccessfulIngest(token: Option<string>, rows: seq<Element>, t: map<Key, Stored>, now: int,
                         userIdOf: string -> string, parseDate: string -> Option<int>, parseTimestamp: string -> Option<int>)
    ensures var o := Handle(token, Parsed(Some(rows)), t, true, now, userIdOf, parseDate, parseTimestamp);
      o.resp.status == 200 && rows != [] ==>
        var userId := userIdOf(token.value);
        && token.Some? && Upsertable(userId, rows, parseDate, parseTimestamp)
        && o.resp.reply == Upserted(|rows|, Some(Prefix8(userId)))
        && (forall k: Key :: k.userId != userId ==> Lookup(o.table, k) == Lookup(t, k))
        && (forall k: Key :: (forall i :: 0 <= i < |rows| ==> IncomingOf(userId, rows[i].row, parseDate, parseTimestamp).key != k) ==>
              Lookup(o.table, k) == Lookup(t, k))
        && (forall i :: 0 <= i < |rows| ==>
              var x := IncomingOf(userId, rows[i].row, parseDate, parseTimestamp);
              x.key in o.table && o.table[x.key] == Merge(Lookup(t, x.key), x, now))
  {
    if token.Some? && 0 < |rows| <= MaxRows {
      var userId := userIdOf(token.value);
      var o := Batch(userId, rows, t, now, parseDate, parseTimestamp);
      assert Handle(token, Parsed(Some(rows)), t, true, now, userIdOf, parseDate, parseTimestamp)
        == Outcome(o.resp, [EnsureSchema] + o.calls, o.table);
      BatchOutcome(userId, rows, t, now, parseDate, parseTimestamp);
      if o.resp.status == 200 {
        BatchTable(userId, rows, t, now, parseDate, parseTimestamp);
      }
    }
  }

  /**
   * The converse: with a token and the database up, a non-empty upsertable
   * batch is answered with a 200 after `ensureSchema` and the INSERT.
   */
  lemma {:induction false} IngestSucceeds(token: Option<string>, rows: seq<Element>, t: map<Key, Stored>, now: int,
                       userIdOf: string -> string, parseDate: string -> Option<int>, parseTimestamp: string -> Option<int>)
    requires token.Some? && rows != [] && Upsertable(userIdOf(token.value), rows, parseDate, parseTimestamp)
    ensures var o := Handle(token, Parsed(Some(rows)), t, true, now, userIdOf, parseDate, parseTimestamp);
      && o.resp == Response(200, Upserted(|rows|, Some(Prefix8(userIdOf(token.value)))))
      && |o.calls| == 2 && o.calls[0] == EnsureSchema && o.calls[1].InsertValues?
  {
    var userId := userIdOf(token.value);
    var o := Batch(userId, rows, t, now, parseDate, parseTimestamp);
    assert Handle(token, Parsed(Some(rows)), t, true, now, userIdOf, parseDate, parseTimestamp)
      == Outcome(o.resp, [EnsureSchema] + o.calls, o.table);
    BatchOutcome(userId, rows, t, now, parseDate, parseTimestamp);
  }

  /**
   * The row limit lets through batches a single statement cannot carry:
   * with a token and the database up, 13108 to 20000 rows pass the 413
   * check and then always fail with 500, the table unchanged.
   */
  lemma {:induction false} OversizedBatch(token: Option<string>, rows: seq<Element>, t: map<Key, Stored>, now: int,
                       userIdOf: string -> string, parseDate: string -> Option<int>, parseTimestamp: string -> Option<int>)
    requires token.Some? && 13107 < |rows| <= MaxRows
    ensures var o := Handle(token, Parsed(Some(rows)), t, true, now, userIdOf, parseDate, parseTimestamp);
      && o.resp == Response(500, Failure("Internal error")) && o.calls[0] == EnsureSchema && o.table == t
  {
    var userId := userIdOf(token.value);
    var o := Batch(userId, rows, t, now, parseDate, parseTimestamp);
    assert Handle(token, Parsed(Some(rows)), t, true, now, userIdOf, parseDate, parseTimestamp)
      == Outcome(o.resp, [EnsureSchema] + o.calls, o.table);
  }
}
