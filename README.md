# browse-dashboard core, modelled in Dafny

This project models the logic at the heart of browse-dashboard. The dashboard reads a browser's visit history, rolls it up by domain and by day, and syncs the roll-ups to a server that stores them per user. It models seven pieces, one Dafny module each:

- **ChromeHistory** (`chrome_history.dfy`) covers rows read from Chrome's `History` file:
  - the conversion of Chrome timestamps;
  - the `www.` strip of a hostname;
  - the local `Y-MM-DD` date text;
  - the window filter of `normalizeRowsToVisits`;
  - the two roll-ups `aggregateTopDomains` and `aggregateDailyTotals`. These are methods with the source's accumulating loop, proved against a grouped-and-sorted specification.
- **ExtensionCollect** (`extension_collect.dfy`) covers the extension's `collectHistory`. Its loop turns history items into one entry per `domain|date` key:
  - it skips unusable URLs;
  - it sums `visitCount || 1`;
  - it keeps the first longest title.

  The module also covers what is stored and the replies to the extension's messages.
- **Ingest** (`ingest.dfy`) covers `POST /api/sync/ingest`:
  - the validation ladder: 401, 400, 413, the empty batch, then 500 when an element is `null` or the statement fails;
  - the loop that builds the bound parameter list and placeholder groups;
  - the `INSERT … ON CONFLICT DO UPDATE` merge into the table `domain_daily`.

  The table is a class holding a map from `(user_id, day, domain)` to the stored columns.
- **Summary** (`summary.dfy`) covers `GET /api/sync/summary`:
  - the `days` clamp;
  - the selection of the caller's rows within the window, ordered by day;
  - `lastSync` as the latest `updated_at`;
  - the projection to `{day, domain, visits}`.

  It only reads the table.
- **Crc32** (`crc32.dfy`) and **Zip** (`zip.dfy`) cover the store-only ZIP writer of `downloadExtensionZip`:
  - the bitwise CRC-32 of the PKWARE ZIP application note, section 4.4.7;
  - the local file headers of section 4.3.7;
  - the central directory headers of section 4.3.12;
  - the end of central directory record of section 4.3.16.

  Each header is written field by field into a zero-filled `array`, as `DataView` does. The list of blocks is built with the source's running `offset` and `cdSize`. Lemmas read the fields back out of the concatenated archive.
- **Auth** (`auth.dfy`) covers `getBearerToken`: the regular expression `/^Bearer\s+(.+)$/i` with greedy `\s+`, then `trim`.
- **BrowsingHistory** (`category.dfy`) covers `getCategoryBreakdown`: a per-category accumulation loop, then a descending stable sort.

Four shared modules support these:

- **Common** holds `Option`, prefixes, multisets and flattening of blocks.
- **Decimal** holds `String(n)` and `padStart`.
- **Grouping** groups (key, amount) pairs in first-appearance order, the iteration order of a JavaScript `Map` and of non-numeric object keys. It also holds the loop invariant `Accumulates` shared by the accumulating loops.
- **Sorting** holds a stable insertion sort. It models `Array.prototype.sort` with a comparator and is proved ordered, a permutation and stable.

Operations outside the program become parameters of the model:

- the hostname from `new URL`;
- local and UTC calendar conversions;
- `toISOString`;
- `Date.now()`;
- `chrome.history.search`;
- SHA-256 in `userIdFromSyncKey`;
- Postgres's `::date`/`::timestamptz` casts and `now()`;
- `Number(string)`;
- `day::text`;
- whether the database is reachable.

Integers are unbounded except where the source fixes a width:

- the CRC register is a `bv32`;
- header fields are `bv16`/`bv32`, stored modulo 2^16/2^32 as `setUint16`/`setUint32` store them;
- posted visits must fit Postgres's `integer`;
- a statement binds at most 65535 parameters, since the Bind message of the PostgreSQL frontend/backend protocol counts them in 16 bits;
- a Date's time value lies within ±8.64e15 ms (ECMAScript TimeClip); beyond it the Date is Invalid.

## Model

| member | source | states |
|---|---|---|
| ChromeHistory.TruncMs | src/lib/chromeHistory.ts:21-22 | the whole milliseconds of a microsecond count, truncated toward zero as `new Date` truncates a fractional time value |
| ChromeHistory.ChromeTimeToMs | src/lib/chromeHistory.ts:19-23 | the time value of `chromeTimeToDate(t)` is the microseconds since 1970 (`t` plus the 1601 epoch) truncated toward zero to whole milliseconds; `ChromeTimeMonotone` states its order |
| ChromeHistory.ChromeTimeMonotone | src/lib/chromeHistory.ts:19-23 | Chrome time 0 is `Date.UTC(1601,0,1)`; the conversion never decreases; it moves forward with every whole millisecond from 1970 on and every 2 ms before; on whole milliseconds it is exactly epoch + t/1000 |
| ChromeHistory.StripWww | src/lib/chromeHistory.ts:28 | the result is the host with one leading `www.` removed, or the host itself when it does not start with `www.` |
| ChromeHistory.StripWwwOnce | src/lib/chromeHistory.ts:28 | only one `www.` is removed and only at the start: `www.www.x` becomes `www.x`, a host without the prefix is unchanged |
| ChromeHistory.DomainFromUrl | src/lib/chromeHistory.ts:25-32 | on a parse failure the URL itself is returned; a hostname starting with `www.` is `www.` followed by the domain, and any other hostname is the domain unchanged |
| ChromeHistory.ToLocalYmd | src/lib/chromeHistory.ts:34-39 | the text starts with the year and `-`, followed by at least five more characters (two padded fields and a `-`); `ToLocalYmdFields` reads month and day back |
| ChromeHistory.ToLocalYmdFields | src/lib/chromeHistory.ts:34-39 | the text is the year, `-`, two digits reading back as month+1, `-`, and two digits reading back as the day |
| ChromeHistory.RowVisits | src/lib/chromeHistory.ts:53 | every record has at least one visit; it is `visitCount` when that is >= 1 and 1 otherwise |
| ChromeHistory.NormalizeRowsToVisits | src/lib/chromeHistory.ts:42-58 | no more records than rows, and each record is the normalisation of a row inside the window; `NormalizeAppend` and `NormalizeSingle` give the order and the exact filter |
| ChromeHistory.NormalizeAppend | src/lib/chromeHistory.ts:45-58 | normalisation distributes over concatenation: order is kept and rows are never merged |
| ChromeHistory.NormalizeSingle | src/lib/chromeHistory.ts:42-58 | a row yields a record iff its converted time makes a valid Date (a time value within ±8.64e15 ms) and is >= the cutoff; the record copies `url` and `title` and has `visitCount` visits when positive, else 1 |
| ChromeHistory.NormalizeBounds | src/lib/chromeHistory.ts:45-58 | at most one record per row, each with visits >= 1 |
| ChromeHistory.AggregateTopDomains | src/lib/chromeHistory.ts:61-69 | the loop over a `Map` followed by the sort returns the grouped (domain, visits) pairs ranked by visits |
| ChromeHistory.TopDomainsFacts | src/lib/chromeHistory.ts:61-69 | the result has one entry per distinct domain and no other; each entry is that domain's sum; it is non-increasing by visits; equal totals keep first-appearance order; the grand total is preserved |
| ChromeHistory.AggregateDailyTotals | src/lib/chromeHistory.ts:71-77 | the per-date loop and the `localeCompare` sort return the grouped (date, visits) pairs sorted by date |
| ChromeHistory.DailyTotalsFacts | src/lib/chromeHistory.ts:71-77 | the result has one entry per distinct date and no other; each entry is that date's summed visits; dates are strictly ascending; the grand total is preserved |
| ExtensionCollect.Query | extension/background.js:3-9 | the search asks for all text, at most 100000 results, from `now - days*86400000` ms |
| ExtensionCollect.ItemDomain | extension/background.js:14-23 | an item counts iff it has a URL, the URL parses, the host minus `www.` is non-empty and the URL starts with neither `chrome://` nor `chrome-extension://`; the domain is the host without its leading `www.` when it has one, and the host itself otherwise |
| ExtensionCollect.DateOf | extension/background.js:25 | the date is the first 10 characters of the UTC ISO text of `lastVisitTime` |
| ExtensionCollect.ItemVisits | extension/background.js:31 | an item adds `visitCount`, or 1 when it is 0 or absent |
| ExtensionCollect.ContributionOf | extension/background.js:14-31 | the checks at the top of the loop body give exactly the item's contribution, or skip it |
| ExtensionCollect.AbsorbStep | extension/background.js:28-35 | one loop pass keeps the invariant: every key's object entry is the fold of its contributions, and the key order is the order of first appearance |
| ExtensionCollect.CollectHistory | extension/background.js:2-49 | the stored record holds `Object.values(entries)` of the fold, `lastSync` and `totalUrls = results.length`; the stats give the entry count, the URL count and the sync time |
| ExtensionCollect.TracksCollected | extension/background.js:38 | reading the object's values in key-creation order gives the collected entries |
| ExtensionCollect.EntryFacts | extension/background.js:28-35 | an entry exists iff some item has its key; it has the first item's domain and date and the sum of the items' visits; its title is the initial title (title, else domain) or the first strictly longer item title, and no title of the key is longer |
| ExtensionCollect.CollectedFacts | extension/background.js:26-38 | one entry per distinct key, in first-appearance order, no more entries than items; every key is `domain\|date` of its entry; visits >= the number of contributing items >= 1; every contribution's key has an entry |
| ExtensionCollect.EntryKeyInjective | extension/background.js:26 | the key `domain\|date` tells domain-days apart when domains contain no `\|` |
| ExtensionCollect.VisitsIgnoreOrder | extension/background.js:31 | a domain-day's visits do not depend on the order of the search results |
| ExtensionCollect.ContributionsBound | extension/background.js:13-36 | no more contributions than items |
| ExtensionCollect.ReplyOf | extension/background.js:69-74 | the `GET_HISTORY` reply is the stored entries, or `[]`; `lastSync`, or null when it is absent or 0; `totalUrls`, or 0 |
| ExtensionCollect.RequestedDays | extension/background.js:80 | `request.days \|\| 30`: a missing or zero day count means 30 |
| Ingest.StoredVisits | src/app/api/sync/ingest/route.ts:72 | stored visits are a non-negative integer: the floor of the posted number, 0 when it is missing or negative |
| Ingest.LastSeenParam | src/app/api/sync/ingest/route.ts:72 | `lastSeen` is bound as NULL iff it is absent or empty, and otherwise as the posted text |
| Ingest.Params | src/app/api/sync/ingest/route.ts:72 | five values per row |
| Ingest.BuildValues | src/app/api/sync/ingest/route.ts:66-73 | the `forEach` throws iff some element is `null`; otherwise it builds the flat parameter list of all rows and one placeholder group per row |
| Ingest.ParamsSnoc | src/app/api/sync/ingest/route.ts:72 | one more row appends exactly its five values |
| Ingest.PlaceholdersLength | src/app/api/sync/ingest/route.ts:71 | one placeholder group per row |
| Ingest.PlaceholderAt | src/app/api/sync/ingest/route.ts:70-71 | group i of the list is row i's group, naming parameters 5i+1 to 5i+5 |
| Ingest.ParamsLayout | src/app/api/sync/ingest/route.ts:70-72 | row i's values sit at positions 5i to 5i+4 of the list, the parameters its placeholder group names |
| Ingest.CastRowParams | src/app/api/sync/ingest/route.ts:71-72 | the database accepts a row's group iff day is present and parses, domain is present, visits fit `integer` and a non-empty `lastSeen` parses; it then reads back that row |
| Ingest.CastParams | src/app/api/sync/ingest/route.ts:79-93 | decoding the bound values gives back the posted rows: the statement's VALUES list is well formed iff every row is accepted, and then row i is the cast of posted row i under the caller's user id |
| Ingest.Merge | src/app/api/sync/ingest/route.ts:79-90 | the row after the statement carries the incoming visits and `updated_at = now`; `last_seen` is the incoming one on insert and the CASE of the old and incoming values on conflict |
| Ingest.MergeLastSeenIsMax | src/app/api/sync/ingest/route.ts:85-89 | the `last_seen` CASE is a null-aware maximum: never non-null to null, never below either value |
| Ingest.DomainDailyTable.InsertOnConflict | src/app/api/sync/ingest/route.ts:79-93 | the statement is all or nothing: on success each row is upserted in turn, on failure the table is unchanged; it fails iff more than 65535 parameters are bound, a group does not cast or two rows share a key |
| Ingest.UpsertAll | src/app/api/sync/ingest/route.ts:79-90 | after upserting a batch the table's keys are its old keys plus the batch's keys; `UpsertAllFacts` gives the values |
| Ingest.UpsertAllFacts | src/app/api/sync/ingest/route.ts:82-90 | after an upsert with distinct keys, each batch key holds the merge of its old row with the incoming one: visits replaced, `last_seen` merged, `updated_at = now`; every other key is unchanged |
| Ingest.UpsertAllOthers | src/app/api/sync/ingest/route.ts:82 | a key the batch does not name is unchanged |
| Ingest.UpsertAllHit | src/app/api/sync/ingest/route.ts:82-90 | a batch key holds the merge of its previous row with the incoming one |
| Ingest.ReplaceNotSum | src/app/api/sync/ingest/route.ts:84 | visits are replaced, not summed: upserting 5 then 3 leaves 3 |
| Ingest.UpsertBatch | src/app/api/sync/ingest/route.ts:62-98 | building the values and sending the INSERT yields the response, statements and table of the batch step |
| Ingest.BatchFacts | src/app/api/sync/ingest/route.ts:69-98 | after `ensureSchema` an INSERT is sent iff the array is non-empty and has no `null` element; the INSERT carries the rows' parameter list; the table changes only on a 200; the status is 200 or 500 |
| Ingest.Handle | src/app/api/sync/ingest/route.ts:41-105 | 401 iff there is no token; the status is 200, 400, 401, 413 or 500; any statements sent begin with `ensureSchema`; the table changes only on a 200. `LadderOrder`, `SuccessfulIngest` and `IngestSucceeds` state the rest |
| Ingest.Post | src/app/api/sync/ingest/route.ts:41-105 | the handler's response, statement sequence and new table are those of the ladder applied to `getBearerToken` of the header |
| Ingest.LadderOrder | src/app/api/sync/ingest/route.ts:44-60 | no token gives 401 before any statement; statements are sent iff there is a token and an array of at most 20000 rows; `ensureSchema` comes first; 400/401/413 send nothing and change nothing; the table changes only on a 200 after the INSERT |
| Ingest.HandleInsert | src/app/api/sync/ingest/route.ts:60-104 | a non-empty batch within the limit, with the database up, runs `ensureSchema`; a `null` element then gives 500 with no further statement; otherwise the INSERT is sent, giving 200 and the upsert when at most 65535 parameters are bound, every group casts and the keys are distinct, and 500 with the table unchanged otherwise |
| Ingest.RowLimit | src/app/api/sync/ingest/route.ts:56-58 | exactly 20000 rows pass the check; 20001 rows give 413 with no statement |
| Ingest.EmptyBatch | src/app/api/sync/ingest/route.ts:75-77 | an empty array gives 200 `upserted: 0` after `ensureSchema`, with no INSERT and the table unchanged |
| Ingest.SuccessfulIngest | src/app/api/sync/ingest/route.ts:41-98 | a 200 on a non-empty array means there was a token and the batch was upsertable (at most 13107 rows, no `null`, every row accepted, distinct keys); the reply is `upserted = rows.length` with `Prefix8` of the user id; every key the batch does not name, of this user or of another, is unchanged; posted keys hold the merge of their old row with the posted one, with the posted visits and `updated_at = now` |
| Ingest.IngestSucceeds | src/app/api/sync/ingest/route.ts:41-98 | the converse: a token, the database up and a non-empty upsertable batch give 200 with `upserted = rows.length` and `Prefix8` of the user id, after `ensureSchema` and the INSERT |
| Ingest.OversizedBatch | src/app/api/sync/ingest/route.ts:56-104 | 13108 to 20000 rows pass the 413 check, but the INSERT binds more than 65535 parameters, so with a token and the database up the reply is 500 and the table is unchanged |
| Ingest.BatchOutcome | src/app/api/sync/ingest/route.ts:69-98 | after `ensureSchema`, a non-empty batch gets 200 iff it is upsertable, and then the INSERT carries its parameters and the table is the upsert of its rows, whose cast keys are distinct and are those of the posted rows |
| Ingest.BatchTable | src/app/api/sync/ingest/route.ts:79-93 | an upsertable batch leaves every key it does not name unchanged and gives each posted key the merge of its old row with the posted one |
| Ingest.CastElements | src/app/api/sync/ingest/route.ts:69-93 | for an array without `null`, the VALUES list casts iff every row is accepted, and then row i is the cast of element i |
| Summary.RequestedDays | src/app/api/sync/summary/route.ts:20 | a missing or empty `days` parameter is 30; otherwise it is `Number` of it |
| Summary.DaysParam | src/app/api/sync/summary/route.ts:29-32 | `$2::int` accepts exactly the whole finite numbers within the 32-bit `integer` range and binds their value; the handler only passes it clamped values in [1, 365] |
| Summary.ClampRange | src/app/api/sync/summary/route.ts:20 | the clamp lands in [1, 365] for every number but NaN; a number in range is unchanged; larger numbers become 365 and smaller ones 1 |
| Summary.ClampIdempotent | src/app/api/sync/summary/route.ts:20 | clamping twice is clamping once |
| Summary.DaysOutcome | src/app/api/sync/summary/route.ts:20-32 | the query uses 30 without a parameter and the clamp of a whole number otherwise; NaN or a fraction in range leaves no valid `$2::int` |
| Summary.StatusLadder | src/app/api/sync/summary/route.ts:10-57 | 401 iff there is no token; 200 iff there is a token, the database is up and the days are whole, with a summary reply exactly then; otherwise 500 |
| Summary.Selection | src/app/api/sync/summary/route.ts:29 | every selected row is a table row of the caller from the cutoff day on, with its stored columns, taken from the scan |
| Summary.SelectionComplete | src/app/api/sync/summary/route.ts:29 | over a scan without repeats, the selection names each key once, holds every caller row of the window the scan lists, and only scanned keys |
| Summary.SelectionInScan | src/app/api/sync/summary/route.ts:29 | every selected key comes from the scan |
| Summary.SelectionDistinct | src/app/api/sync/summary/route.ts:29 | a scan that lists each key once selects each row once |
| Summary.SelectionCoversKey | src/app/api/sync/summary/route.ts:29 | a scanned caller row within the window is selected |
| Summary.OrderedFacts | src/app/api/sync/summary/route.ts:25-33 | the returned rows are exactly the caller's rows from the cutoff day on, each once and with its stored columns, ordered by day ascending |
| Summary.OrderedRows | src/app/api/sync/summary/route.ts:29 | the ordered rows are the caller's rows in the window, and all of them |
| Summary.OrderedDistinctSorted | src/app/api/sync/summary/route.ts:30 | the ordered rows name each key once and are non-decreasing in day |
| Summary.Stamps | src/app/api/sync/summary/route.ts:36 | one ISO stamp per row, of its `updated_at` |
| Summary.LastSync | src/app/api/sync/summary/route.ts:35-40 | a non-null `lastSync` is a non-empty stamp of one of the rows; `LastSyncIsMax` shows it is the greatest |
| Summary.LastSyncIsMax | src/app/api/sync/summary/route.ts:35-40 | the `reduce` gives the greatest stamp in string order, one of the stamps, and null iff every stamp is empty |
| Summary.LastSyncIsLatest | src/app/api/sync/summary/route.ts:35-40 | with order-preserving non-empty ISO stamps, `lastSync` is the stamp of a row with the largest `updated_at`, and null iff no row is returned |
| Summary.Project | src/app/api/sync/summary/route.ts:47 | one `{day, domain, visits}` per row, in order, with the row's day text, domain and visits |
| Summary.Get | src/app/api/sync/summary/route.ts:10-57 | 401 iff `getBearerToken` gives no token; the status is 200, 401 or 500. `StatusLadder` and `SuccessfulSummary` state the rest |
| Summary.SuccessfulSummary | src/app/api/sync/summary/route.ts:42-50 | a 200 carries the clamped days in [1, 365], `lastSync` of the selected rows and their projection in order; the table is only read |
| Summary.ProjectedRows | src/app/api/sync/summary/route.ts:47 | each caller row in the window appears in `domainDaily` as its day, domain and visits |
| Summary.DayTextAscending | src/app/api/sync/summary/route.ts:27-30 | with an order-preserving day rendering, the `day` strings of `domainDaily` come out ascending |
| Auth.BearerToken | src/lib/server/auth.ts:3-8 | no header, or an empty one, gives null; a returned token is non-empty and starts and ends with a non-space |
| Auth.TrimStart | src/lib/server/auth.ts:7 | `trimStart` removes exactly the leading white space |
| Auth.TrimEnd | src/lib/server/auth.ts:7 | `trimEnd` removes exactly the trailing white space |
| Auth.BearerCapture | src/lib/server/auth.ts:6 | the capture of `/^Bearer\s+(.+)$/i`, stated by `Auth.BearerCaptureIsGreedyMatch`: a match iff some split into scheme, white space and a rest without line terminators exists, capturing the rest after the longest white-space run |
| Auth.BearerCaptureIsGreedyMatch | src/lib/server/auth.ts:6 | the capture exists iff the regular expression matches; the group starts after the longest white-space run any match allows |
| Auth.TokenShape | src/lib/server/auth.ts:6-7 | a token is returned only if the header is `Bearer` in any case, one or more white-space characters, the token, then only white space |
| Auth.TokenAfterRunValue | src/lib/server/auth.ts:6-7 | when text follows the white-space run, the token is that text with its trailing white space cut |
| Auth.TokenAccepted | src/lib/server/auth.ts:6-7 | scheme, white space, a token without surrounding white space or line breaks, then trailing blanks: exactly that token is returned |
| Auth.BlankTokenRejected | src/lib/server/auth.ts:6-7 | `Bearer` followed only by white space gives null |
| Auth.TrailingNewlineRejected | src/lib/server/auth.ts:6 | `.` does not match a line terminator, so `Bearer abc\n` gives null |
| Auth.LeadingSpacesExact | src/lib/server/auth.ts:6 | the greedy `\s+` run ends where the first non-space character is |
| Crc32.Crc32 | src/lib/extensionZip.ts:78-85 | the two nested loops compute the CRC-32 of the buffer as a 32-bit value, so in [0, 2^32) |
| Crc32.StepIsShift | src/lib/extensionZip.ts:82 | proof step for `Crc32.Crc32`: the loop's conditional shift/xor with 0xEDB88320 is the `Shift` step of the definition |
| Crc32.FinalXor | src/lib/extensionZip.ts:84 | proof step for `Crc32.Crc32`: complementing the register after all bytes is the definition's final xor |
| Crc32.RegisterSnoc | src/lib/extensionZip.ts:80-83 | one outer pass, `crc ^= byte` and eight steps, feeds one more byte |
| Crc32.EmptyIsZero | src/lib/extensionZip.ts:78-85 | proof step, unfolding the definition: the CRC of no bytes is 0 |
| Crc32.CheckValue | src/lib/extensionZip.ts:78-85 | the standard check value: the CRC of "123456789" is 0xCBF43926 |
| Crc32.RegisterAppend | src/lib/extensionZip.ts:80-83 | the register can be fed in pieces |
| Crc32.FeedUnrolled | src/lib/extensionZip.ts:81-82 | one byte is eight single-bit steps after the xor |
| Crc32.ShiftInjective | src/lib/extensionZip.ts:82 | distinct registers step to distinct registers |
| Crc32.RegisterInjective | src/lib/extensionZip.ts:80-83 | distinct registers stay distinct whatever bytes follow |
| Crc32.SingleByteErrorDetected | src/lib/extensionZip.ts:78-85 | changing any single byte changes the CRC |
| Zip.Le16Bytes | src/lib/extensionZip.ts:105 | `setUint16(_, v, true)` stores the low byte, then the high byte |
| Zip.Le32Bytes | src/lib/extensionZip.ts:104 | `setUint32(_, v, true)` stores the four bytes least significant first |
| Zip.Read16Le16 | src/lib/extensionZip.ts:105 | a 16-bit little-endian field reads back as the value written |
| Zip.Read32Le32 | src/lib/extensionZip.ts:104 | a 32-bit little-endian field reads back as the value written |
| Zip.SetUint16 | src/lib/extensionZip.ts:105 | the two bytes at the offset become the value's little-endian bytes; the rest of the buffer is unchanged |
| Zip.SetUint32 | src/lib/extensionZip.ts:104 | the four bytes at the offset become the value's little-endian bytes; the rest of the buffer is unchanged |
| Zip.SetBytes | src/lib/extensionZip.ts:111 | `set(bytes, at)` copies the bytes to the offset; the rest of the buffer is unchanged |
| Zip.Complete | src/lib/extensionZip.ts:102-111 | a buffer with every field written at its position holds the record |
| Zip.LocalHeaderBytes | src/lib/extensionZip.ts:102-111 | the fresh zero-filled buffer, written field by field, holds the local file header |
| Zip.LocalHeaderFields | src/lib/extensionZip.ts:102-111 | a local header is 30+n bytes: signature 0x04034b50, version 20, method 0 and other unset fields 0, the CRC, both sizes the data length, the name length, the name at 30 |
| Zip.CentralHeaderBytes | src/lib/extensionZip.ts:116-127 | the fresh zero-filled buffer, written field by field, holds the central directory header |
| Zip.CentralHeaderLead | src/lib/extensionZip.ts:116-124 | a central header is 46+n bytes: signature 0x02014b50, both versions 20, flags, method, time and date 0, the CRC, both sizes the data length, the name length |
| Zip.CentralHeaderTail | src/lib/extensionZip.ts:125-126 | extra and comment lengths, disk and attributes are 0; the local header offset is at 42; the name is at 46 |
| Zip.EndRecordBytes | src/lib/extensionZip.ts:140-147 | the fresh 22-byte buffer, written field by field, holds the end record |
| Zip.EndRecordFields | src/lib/extensionZip.ts:140-146 | the end record is 22 bytes: signature 0x06054b50, disk numbers 0, both entry counts, the directory's size and offset, no comment |
| Zip.EntryHeaders | src/lib/extensionZip.ts:99-127 | one loop pass gives the file's local header and its central header, both with its CRC, the central one pointing at `offset` |
| Zip.BuildArchive | src/lib/extensionZip.ts:87-147 | the two loops with their running `offset` and `cdSize` build exactly the archive's blocks: local headers and data, the central directory, then the end record |
| Zip.ArchiveLayout | src/lib/extensionZip.ts:94-147 | the blocks are, per file, its local header and data, then per file its central header with the local header's offset, then the end record |
| Zip.ArchiveSizes | src/lib/extensionZip.ts:102-137 | each local header is 30+name bytes, each central header is 46+name bytes, and the end record is 22 |
| Zip.LocalPosition | src/lib/extensionZip.ts:129 | local header j starts at the sum of 30 + name + data over the files before it, the loop's `offset` |
| Zip.CentralPosition | src/lib/extensionZip.ts:132-137 | central header j starts at `cdOffset` plus the sizes of the headers before it; `cdOffset` is the final `offset` |
| Zip.ArchiveLength | src/lib/extensionZip.ts:132-147 | the archive is `cdOffset + cdSize + 22` bytes, with `cdSize` the sum of 46 + name |
| Zip.LocalFieldsInArchive | src/lib/extensionZip.ts:102-113 | at file j's offset the archive's bytes read the local signature, the file's CRC, both sizes as the data length and the name length |
| Zip.CentralFieldsInArchive | src/lib/extensionZip.ts:116-135 | at its place in the directory, file j's central header reads its signature, CRC, sizes, name length and local header offset |
| Zip.CentralPointsToLocal | src/lib/extensionZip.ts:116-129 | the offset in file j's central header points at a local header signature, and both headers carry the same CRC, sizes and name length |
| Zip.EndRecordDescribesDirectory | src/lib/extensionZip.ts:140-146 | the last 22 bytes are the end record: both entry counts are the file count, the size and offset are `cdSize` and `cdOffset`, and the central directory's blocks begin at that offset |
| Zip.LocalHeaderLength | src/lib/extensionZip.ts:102 | a local header is 30 + name length bytes |
| Zip.CentralHeaderLength | src/lib/extensionZip.ts:116 | a central directory header is 46 + name length bytes |
| BrowsingHistory.CategoryPairs | src/data/browsing-history.ts:76-77 | one (category, visits) pair per site, in site order |
| BrowsingHistory.CategoryBreakdown | src/data/browsing-history.ts:74-82 | the accumulating loop, `Object.entries` and the sort give the per-category totals ranked by value |
| BrowsingHistory.CategoryBreakdownFacts | src/data/browsing-history.ts:74-82 | one entry per distinct category and no other; each value is the sum of its sites' visits; the values add up to all visits; sorted non-increasing by value |
| BrowsingHistory.CategoryEntries | src/data/browsing-history.ts:76-80 | each entry names a category some site has and holds its sites' visits |
| BrowsingHistory.CategoryCovered | src/data/browsing-history.ts:76-80 | every site's category has an entry |
| BrowsingHistory.CategoryValuesIgnoreOrder | src/data/browsing-history.ts:77 | a category's value does not depend on the order of the sites |
| Grouping.AccumulateStep | src/lib/chromeHistory.ts:73 | one `map.set(k, (map.get(k) \|\| 0) + v)` keeps the accumulator equal to the grouped pairs so far, with keys in insertion order |
| Grouping.AccumulatedValues | src/lib/chromeHistory.ts:74-75 | reading the accumulator's entries in insertion order gives the grouped view |
| Grouping.GroupedFacts | src/lib/chromeHistory.ts:72-75 | one pair per distinct key in first-appearance order, each with its key's sum; the total is preserved |
| Grouping.RankedFacts | src/lib/chromeHistory.ts:68 | ranking by sum is non-increasing, stable, one entry per key with its sum, total preserved |
| Grouping.KeySumPermutation | src/lib/chromeHistory.ts:65 | a key's sum does not depend on the order of the pairs |
| Sorting.SortByCorrect | src/lib/chromeHistory.ts:68 | the comparator sort is ordered, a permutation and stable, as `Array.prototype.sort` is |
| Sorting.TextLeTotal | src/lib/chromeHistory.ts:76 | the string order used for `localeCompare` on dates is total and antisymmetric |
| Sorting.TextLeTransitive | src/app/api/sync/summary/route.ts:39 | the code-unit string order behind `ts > acc` is transitive |
| Decimal.NatToStringRoundTrip | src/lib/chromeHistory.ts:36-37 | `String(n)` reads back as n and has no leading zero |
| Decimal.PadTwoDigits | src/lib/chromeHistory.ts:36-37 | `padStart(2, "0")` of a number below 100 is two digits with the same value |

## Left out

- Copy of the collector embedded in `src/lib/extensionZip.ts` at lines 22-50: its loop (lines 27-37) is the loop of `extension/background.js`, modelled once as `ExtensionCollect`. Its surroundings differ and are not modelled: it returns `{entries, urls}` without `syncTime`, and its external `SYNC_NOW` reply carries no `stats`.
- The `FILES` contents, `TextEncoder` and the `Blob`/`createObjectURL`/anchor download of the ZIP writer. Files arrive as already-encoded byte sequences, and the archive is the list of blocks handed to the `Blob`.
- File names and data longer than the 16/32-bit header fields: lengths and offsets are written modulo 2^16/2^32 as `DataView` writes them. The read-back lemmas state the truncated values.
- I/O and time:
  - `chrome.history.search`, `chrome.storage.local` and `Date.now()` are parameters or results of `ExtensionCollect.CollectHistory`;
  - the `onInstalled` listener, the six-hourly alarm and the `GET_STATUS` reply are left out. They only re-run the collector or echo storage;
  - console logging is left out.
- Asynchrony and message-passing order between the popup, the dashboard and the extension.
- Floating point:
  - visit counts and values are integers, and posted `visits` is a real number;
  - `Number(string)` is an uninterpreted parameter, with only NaN, the infinities and finite values distinguished;
  - the `b.visits - a.visits` comparator is modelled as comparing integers.
- `localeCompare`: modelled as code-unit lexicographic order. That is the order of fixed-width `YYYY-MM-DD` dates, but not a locale collation of arbitrary strings.
- String lengths and regular expressions are counted in UTF-16 code units, modelled as Dafny `char`s. There is no Unicode normalisation.
- Auth.BearerToken: the header lookup `get("authorization") || get("Authorization")` is one optional value, since Fetch header names are case-insensitive anyway.
- ChromeHistory.ChromeTimeMonotone: strict increase is stated across whole milliseconds, not per microsecond, because `new Date` drops the fraction of a millisecond. The conversion is constant within a millisecond.
- `toLocalYmd` calendar arithmetic, `getFullYear/getMonth/getDate`, `toISOString`, `new URL().hostname` and `setDate(getDate() - days)`: these are foreign parameters. `toISOString`'s RangeError for out-of-range times is not modelled.
- `userIdFromSyncKey` (SHA-256) is an uninterpreted function of the token. `src/lib/syncKey.ts` is not part of this model.
- The database:
  - the `ensureSchema` DDL, the connection pool and the SQL text are left out. The model records the statement sequence (`EnsureSchema`, then `InsertValues` with the bound values) and the table as a map;
  - the joined placeholder string is modelled only as its list of groups;
  - more than 65535 bound parameters, a duplicate key within one batch, a failed cast, a missing NOT NULL column or an out-of-range `integer` makes the whole statement fail (500). Whether the driver or the server refuses an oversized Bind message is not distinguished;
  - the `detail` text of 500 replies (`e.message`) is not modelled.
- Ingest.Handle: the ladder is stated on the token `getBearerToken` returned. `Ingest.Post` applies `Auth.BearerToken` to the header and is proved equal to the ladder on that token.
- Summary: the row order the database scans is an input (`scan`), because `ORDER BY day` leaves rows of one day in an unspecified order. The handler is a pure function, since it only reads.
- Ingest.IngestRow: the fields are taken to be strings and `visits` a number, each possibly absent, and a non-`null` element that is not an object reads as a row with no fields. A field of another JSON type, bound as the driver converts it, is not modelled.
- BrowsingHistory.CategoryBreakdown: category names are taken not to be names of `Object.prototype` properties. In the `{}` accumulator, `constructor`, `toString` and the like start from an inherited function and concatenate to a string, and the assignment to `__proto__` is ignored so that category gets no entry.
- `Object.entries` order: category names are taken to be non-numeric object keys, which come out in insertion order. Integer-like keys, which JavaScript lists first in numeric order, are not modelled.
- `generateBrowsingData` and `seededRandom` in `src/data/browsing-history.ts` and `src/data/browsingData.ts`: they are built on `Math.sin` floating point.
- The UI, IndexedDB, the extension bridge, the popup, the fetch client, CORS headers and the type declarations are not part of this model.
