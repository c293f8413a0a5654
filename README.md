# Smart Waste Robot Monitoring — a verified Dafny model

A robot carries an ultrasonic sensor over a waste bin and publishes the
measured distance over MQTT. The backend (`backend/server.js`) turns each
distance into a fill capacity and a status (`AVAILABLE`, `HALF_FULL`,
`NEARLY_FULL`, `FULL`), keeps the latest reading in memory, stores every
reading in the MySQL table `sensor_data` (`backend/database.js`) and pushes it
to dashboards over Socket.io. The dashboard (`frontend/src/App.jsx`) shows the
live reading, keeps a 50-entry live history, raises alerts, and marks the
device offline after 10 s without data. The history page
(`frontend/src/components/History.jsx`) filters, pages and exports the stored
readings.

The model, one module per file:

| file | module | models |
|---|---|---|
| `wrappers.dfy` | `Wrappers` | `Option` and `Result` |
| `transform.dfy` | `Transform` | `processSensorData`: distance fallback, capacity line, clamp, status bands, rounding |
| `decimal.dfy` | `Decimal` | `String(n)` and `parseInt(s)`, the text form of `limit` and `offset` in the query string |
| `store.dfy` | `Store` | the `sensor_data` table as a class over a sequence of rows; history, statistics and latest-row queries as functions over that sequence |
| `server.dfy` | `Server` | the server's cache, client count and emitted events as a class; the MQTT, test, connect, `requestData`, disconnect and start-up handlers |
| `client.dfy` | `Client` | the dashboard state as a class; the socket handlers, the live window, alerts and the watchdog |
| `history_page.dfy` | `HistoryPage` | the filter updaters, query parameters, pager, status labels and CSV export of the history page |

Each handler is one atomic step. The clock is an abstract integer (ms).
A database failure is a boolean input of each store operation. Events the
server emits are appended to an `outbox` sequence.

Two clocks appear. A handler's `now` is the backend's clock, which stamps
the broadcast reading. A handler's `dbNow` is the database server's clock,
which `CURRENT_TIMESTAMP` writes into `created_at`.

Notes on what the code does:

- The server subscribes to one MQTT topic. Every well-formed, non-null message
  updates the cache and is broadcast. Saving it is attempted, and a failure
  (storage down, or a distance outside DECIMAL(5,2)) is only logged. A message
  that is not JSON, or is JSON `null`, makes `JSON.parse` or
  `processSensorData` throw and changes nothing.
- Over an empty window MySQL's `SUM` gives NULL. So the four per-status
  counts, the average, the maximum and the minimum are all `None` there, and
  only `total_records` is 0.
- "Latest" is a row with the greatest `created_at`.
- The status filter `status = ?` compares under the table's collation,
  utf8mb4_unicode_ci. `full` and `FULL ` both select the FULL rows.
- The dashboard watchdog sets `isConnected` to false as well as
  `robotOnline`, so it mixes up losing the transport and a silent device.
- A status filter of `""` is falsy in `getHistoryData`, so it applies no
  filter, just like `'ALL'` or a missing status.

## Model

| member | source | states |
|---|---|---|
| `Transform.Round` | backend/server.js:146 | `Math.round`: the result is within half of the input, and halves round up |
| `Transform.RoundMonotone` | backend/server.js:146 | rounding is monotone |
| `Transform.RawDistance` | backend/server.js:130 | a non-zero numeric `distance` wins; otherwise a non-zero numeric `value`; otherwise 0 |
| `Transform.LinearCapacity` | backend/server.js:140-147 | 100 at or below 5 cm, 0 at or beyond 30 cm, and in between the integer nearest to 4 % per centimetre below 30 cm |
| `Transform.Clamp` | backend/server.js:161 | `Math.max(0, Math.min(100, c))`: the result lies in [0,100]; it is the input when that is in range, 100 above the range and 0 below it |
| `Transform.StatusOf` | backend/server.js:150-157 | each status holds exactly on its band: FULL at >= 100, NEARLY_FULL on [80,100), HALF_FULL on [50,80), AVAILABLE below 50 |
| `Transform.StatusNameInjective` | backend/server.js:150-157 | distinct statuses have distinct names |
| `Transform.RoundTenth` | backend/server.js:160 | the rounded distance is a whole number of tenths within 0.05 of the raw one (d - 0.05 < r <= d + 0.05) |
| `Transform.ProcessSensorData` | backend/server.js:128-166 | the distance is the raw distance rounded to tenths; the capacity is the linear capacity, which already lies in [0,100]; the status is never UNKNOWN and is the band of the capacity; the timestamp is `now`; `robotOnline` is true |
| `Transform.ClampIsIdentity` | backend/server.js:140-147 | the piecewise-linear capacity already lies in [0,100] |
| `Transform.CapacityMonotone` | backend/server.js:141-147 | a larger distance never gives a larger capacity |
| `Transform.ProcessedCapacityMonotone` | backend/server.js:128-166 | the same, for the capacity of two processed payloads |
| `Transform.ProcessedDeterministic` | backend/server.js:128-166 | equal raw distances give equal distance, capacity and status, whatever the time |
| `Transform.StatusBands` | backend/server.js:141-157 | status as a function of distance: FULL iff d <= 5.125, NEARLY_FULL iff 5.125 < d <= 10.125, HALF_FULL iff 10.125 < d <= 17.625, AVAILABLE iff d > 17.625 |
| `Transform.CapacityExtremes` | backend/server.js:141-147 | capacity is 100 iff d <= 5.125, and 0 iff d > 29.875 |
| `Transform.Examples` | backend/server.js:141-160 | 2 cm gives 100 and FULL; 30 cm gives 0 and AVAILABLE; 17.5 cm gives 50 and HALF_FULL |
| `Transform.MissingDistanceIsFull` | backend/server.js:130-165 | when neither field is truthy, the reading is 0 cm, 100 %, FULL, online |
| `Decimal.NatText` | frontend/src/components/History.jsx:41-42 | the decimal text is non-empty, all digits, with no leading zero |
| `Decimal.IntText` | frontend/src/components/History.jsx:41-42 | `String(n)` is non-empty and starts with '-' exactly when n is negative |
| `Decimal.NatTextValue` | frontend/src/components/History.jsx:41-42 | the digits of `NatText(n)` have the value n |
| `Decimal.ParseInt` | backend/server.js:332-333 | `parseInt` is NaN exactly when no digit follows the leading white space and optional sign |
| `Decimal.ParseIntText` | backend/server.js:332-333 | `parseInt(String(n)) == n` for every integer n |
| `Store.ConditionsMeaning` | backend/database.js:105-120 | the appended conditions keep a row exactly when it matches the filter: status (when present and not ''/'ALL') equal under the table's collation, both date bounds inclusive |
| `Store.FilterClauses` | backend/database.js:102-120 | the WHERE clause built step by step holds for a row exactly when the row matches the filter, with the collation's status comparison |
| `Store.Where` | backend/database.js:102-120 | a row is selected exactly when it is a table row satisfying every clause; each selected row occurs as often as in the table, and any other row not at all |
| `Store.Matching` | backend/database.js:106-120 | a row is kept exactly when it is a table row matching the filter; each kept row occurs as often as in the table, and any other row not at all, so the COUNT counts a repeated row each time |
| `Store.TrimEnd` | backend/database.js:55 | PAD SPACE: the text without its trailing spaces, a prefix of it that does not end in a space |
| `Store.StatusFilterMeaning` | backend/database.js:106-108 | `status = ?` keeps a stored status exactly when the filter text, upper-cased and without trailing spaces, is the status name |
| `Store.StatusFilterIgnoresCaseAndPadding` | backend/database.js:106-108 | the filters `full` and `Full ` select the FULL rows and no others |
| `Store.WhereIsMatching` | backend/database.js:135-154 | any clause list with the filter's meaning selects exactly the matching rows, so the COUNT counts the rows the SELECT pages through |
| `Store.SortFieldOf` | backend/database.js:123-124 | `capacity` and `status` select their columns; anything else, or nothing, selects `created_at` |
| `Store.Upper` | backend/database.js:125 | upper-casing keeps the length and maps each character |
| `Store.UpperIsAsc` | backend/database.js:125 | `toUpperCase()` gives "ASC" exactly for "asc" in any letter case, the s possibly a long s |
| `Store.SortOrderOf` | backend/database.js:125 | the order is ASC exactly for a three-letter value reading "asc" in any letter case (the s possibly a long s); everything else, and a missing value, is DESC |
| `Store.StatusRank` | backend/database.js:49 | the rank of a status is the position of its name's first letter among A, F, H, N, U |
| `Store.StatusRankIsNameOrder` | backend/database.js:123-126 | the rank orders statuses as their names' first letters do |
| `Store.Insert` | backend/database.js:126 | inserting adds exactly one occurrence of the row |
| `Store.InsertSorted` | backend/database.js:126 | inserting into a sorted sequence keeps it sorted |
| `Store.SortRows` | backend/database.js:126 | `ORDER BY`: the result is sorted on the field and order and is a permutation of the input |
| `Store.Page` | backend/database.js:129-130 | `LIMIT`/`OFFSET`: at most `limit` rows, the k-th being input row offset + k; empty past the end |
| `Store.HasMore` | backend/database.js:162 | `hasMore` holds exactly when offset + limit < total |
| `Store.HasMoreMeansRowsRemain` | backend/database.js:156-163 | `hasMore` holds exactly when rows remain after the returned page |
| `Store.LatestRow` | backend/database.js:214-219 | none exactly when the table is empty; otherwise a table row whose `created_at` is maximal |
| `Store.LatestIsLastAppended` | backend/database.js:217 | with a clock that never goes back, the latest row is the one appended last |
| `Store.LatestAfterAppend` | backend/database.js:217 | a row appended no earlier than all others becomes the latest |
| `Store.CountStatus` | backend/database.js:181-184 | `SUM(CASE WHEN status = s ...)`: the number of rows whose status is s (its multiplicity among the rows' statuses) |
| `Store.MaxCapacity` | backend/database.js:186 | `MAX(capacity)` bounds every row and is attained |
| `Store.MinCapacity` | backend/database.js:187 | `MIN(capacity)` is below every row and is attained |
| `Store.SumCapacityAppend` | backend/database.js:185 | the capacity sum grows by exactly the capacity of each row added |
| `Store.SumBetween` | backend/database.js:185 | the capacity sum lies between n·min and n·max |
| `Store.StatusCountsAddUp` | backend/database.js:180-184 | the four status counts plus the UNKNOWN rows equal the row count |
| `Store.MeanBetween` | backend/database.js:185-187 | a sum between n·lo and n·hi has its mean between lo and hi |
| `Store.Summarize` | backend/database.js:178-190 | `total_records` is the row count; on an empty window every other column is NULL; otherwise the four counts are the per-status counts, the maximum and minimum are `MAX(capacity)` and `MIN(capacity)`, and the average is `SUM(capacity)` over the row count |
| `Store.InWindow` | backend/database.js:193-201 | a row is in the window exactly when it is a table row with `created_at` inside both given bounds, inclusive |
| `Store.SummarizeSound` | backend/database.js:178-204 | `total_records` is the row count; each of the four counts, the average, the maximum and the minimum is NULL exactly on an empty window; otherwise the counts add up to the total less the UNKNOWN rows, and min <= avg <= max |
| `Store.ToCents` | backend/database.js:47 | a DECIMAL(5,2) value is within half a cent of the input |
| `Store.ToCentsOnGrid` | backend/database.js:47 | a stored DECIMAL(5,2) value is a whole number of cents |
| `Store.TenthsStoreExactly` | backend/database.js:47 | a distance already rounded to tenths is stored unchanged |
| `Store.Table.constructor` | backend/database.js:45-55 | an empty table whose AUTO_INCREMENT starts at 1 |
| `Store.Table.Save` | backend/database.js:71-85 | succeeds exactly when storage works and the distance fits DECIMAL(5,2); then appends one row with a fresh id larger than all others and the database clock as `created_at`, and leaves existing rows unchanged; otherwise changes nothing |
| `Store.Table.GetHistoryData` | backend/database.js:90-169 | fails exactly on a storage failure or a negative limit or offset; otherwise returns the page of the sorted matching rows, with `total` the number of matching rows and `hasMore` as computed; every returned row is a table row that matches |
| `Store.Table.GetStatistics` | backend/database.js:174-209 | the aggregates of the rows inside the inclusive date window |
| `Store.Table.GetLatestData` | backend/database.js:214-224 | the latest row, none for an empty table, or the failure |
| `Server.FromRow` | backend/server.js:178-184 | a row in dashboard shape: the same distance, capacity, status, `created_at` as timestamp and `robot_online` |
| `Server.Reconcile` | backend/server.js:174-199 | the database row wins when there is one; for an empty table or a failed query, the cache is sent only if it has a timestamp |
| `Server.Replies` | backend/server.js:185-198 | at most one `sensorData` reply, carrying the reconciled reading |
| `Server.PayloadOf` | backend/server.js:78-82 | an object message is its own payload; any other JSON value has neither field and reads as 0 cm |
| `Server.StoredRow` | backend/database.js:71-80 | the inserted row carries the reading's capacity, status and online flag, its distance as DECIMAL(5,2) stores it, the assigned id, and the database clock as `created_at` |
| `Server.SavesExactlyInRange` | backend/database.js:47 | the insert of a processed reading succeeds exactly when storage works and the raw distance lies in [-999.95, 999.95) |
| `Server.SavedReadingIsReplayed` | backend/server.js:85-97 | after a reading is saved, whatever the cache holds, the next client to connect is sent the stored row, stamped with the database's `created_at`. That row has the reading's distance, capacity, status and online flag, with the `created_at` as its timestamp |
| `Server.Server.constructor` | backend/server.js:53-61 | the cache starts with no distance and no timestamp, UNKNOWN and offline; no clients; nothing emitted |
| `Server.Server.Startup` | backend/server.js:393-436 | start-up fails exactly when database initialisation fails; the latest row seeds the cache when the read succeeds and finds one, else the cache is kept |
| `Server.Server.OnMqttMessage` | backend/server.js:75-102 | an unparsable or `null` message changes nothing; otherwise the cache becomes the processed reading, the row is appended when the save succeeds, and the reading is broadcast either way |
| `Server.Server.TestSensor` | backend/server.js:289-312 | without `distance`: 400 and no change; otherwise the same effect as a message with that distance, and the reading is returned |
| `Server.Server.SendLatest` | backend/server.js:213-235 | appends the reconciled reply, if any, and nothing else |
| `Server.Server.OnConnect` | backend/server.js:169-205 | the client count goes up by one; the reconciled reply (if any) then the MQTT status are emitted |
| `Server.Server.OnRequestData` | backend/server.js:213-235 | emits the reconciled reply, if any; nothing else changes |
| `Server.Server.OnDisconnect` | backend/server.js:207-210 | the client count goes down by one; nothing else changes |
| `Server.MessageThenConnect` | backend/server.js:75-205 | for a distance the insert accepts: the reading is broadcast, then a new client is sent the same reading stamped with the database's `created_at`, then the MQTT status |
| `Client.AlertFor` | frontend/src/App.jsx:78-82 | danger exactly at capacity >= 100, warning exactly on [80,100), no alert below 80 |
| `Client.LastN` | frontend/src/App.jsx:74 | `slice(-n)`: the last min(n, length) elements, in order |
| `Client.Window` | frontend/src/App.jsx:72-75 | `[...prev, data].slice(-50)`: one more entry than before until there are 50, then 50; the new reading last |
| `Client.PushAll` | frontend/src/App.jsx:72-75 | after a run of readings the history is non-empty, at most 50 long, and ends with the last reading |
| `Client.WindowIsQueue` | frontend/src/App.jsx:72-75 | below 50 entries the reading is appended; at 50 the oldest drops out; at most 50 entries, the newest last |
| `Client.PushAllKeepsLast` | frontend/src/App.jsx:72-75 | after any run of readings the history is the last 50 of all readings |
| `Client.Dashboard.constructor` | frontend/src/App.jsx:17-34 | the initial state: distance 0, UNKNOWN, offline, disconnected, empty history, no alert, the timer started now |
| `Client.Dashboard.OnConnect` | frontend/src/App.jsx:48-55 | connected, the timer restarts, one `requestData` is sent, nothing else changes |
| `Client.Dashboard.OnDisconnect` | frontend/src/App.jsx:58-61 | only `isConnected` drops |
| `Client.Dashboard.TriggerAlert` | frontend/src/App.jsx:116-120 | the banner shows with that message and type; nothing else changes |
| `Client.Dashboard.HideAlert` | frontend/src/App.jsx:122-124 | only the banner is hidden |
| `Client.Dashboard.OnSensorData` | frontend/src/App.jsx:64-83 | the timer restarts, the reading replaces the shown one, connected, the history is the window, and the alert for its capacity is raised |
| `Client.Dashboard.WatchdogTick` | frontend/src/App.jsx:99-110 | after strictly more than 10 000 ms of silence: disconnected and `robotOnline` false, other fields kept; otherwise nothing changes |
| `Client.ReadingThenTick` | frontend/src/App.jsx:64-110 | a tick within 10 000 ms of a reading leaves the device connected with that reading |
| `Client.SilenceThenReading` | frontend/src/App.jsx:99-110 | silence marks the device offline, and the next reading brings it back online |
| `HistoryPage.HandleFilterChange` | frontend/src/components/History.jsx:83-89 | the chosen field takes the new value, the offset becomes 0, every other field is unchanged |
| `HistoryPage.HandlePagination` | frontend/src/components/History.jsx:92-98 | next adds the page size; previous subtracts it but not below 0; the filters are unchanged |
| `HistoryPage.InitialReachable` | frontend/src/components/History.jsx:10-16 | the initial filters: a listed page size and offset 0 |
| `HistoryPage.FilterChangeStaysReachable` | frontend/src/components/History.jsx:83-89 | a filter change, with a page size from the selector, keeps a listed page size and an offset that is a non-negative multiple of it |
| `HistoryPage.PaginationStaysReachable` | frontend/src/components/History.jsx:92-98 | paging keeps the offset a non-negative multiple of the page size |
| `HistoryPage.PrevThenNext` | frontend/src/components/History.jsx:92-98 | from any page but the first, previous then next returns to the same filters |
| `HistoryPage.NextThenPrev` | frontend/src/components/History.jsx:92-98 | next then previous returns to the same filters |
| `HistoryPage.KeyNamesDistinct` | frontend/src/components/History.jsx:38-42 | the query keys `status`, `startDate`, `endDate`, `limit` and `offset` are sent under pairwise different names, so keys that are distinct stay distinct on the wire |
| `HistoryPage.HistoryParams` | frontend/src/components/History.jsx:37-42 | `status` only when not 'ALL', each date only when non-empty, `limit` and `offset` always, no key twice, and the server's `parseInt` reads them back unchanged |
| `HistoryPage.StatisticsParams` | frontend/src/components/History.jsx:61-63 | only the non-empty dates are sent, no key twice |
| `HistoryPage.LookupIsFirst` | backend/server.js:318-326 | the value read under a key is the one pair with that key, and none when the key is absent; the page's query strings never repeat a key, so this is the value `req.query` holds |
| `HistoryPage.RowNumberIsPosition` | frontend/src/components/History.jsx:351 | the row shown at an index is the matching row at position `offset + index + 1`, counted from 1 |
| `HistoryPage.RangeEnd` | frontend/src/components/History.jsx:406 | `Math.min(offset + limit, total)`: no larger than either, and equal to one of them |
| `HistoryPage.PrevDisabledIsNoOp` | frontend/src/components/History.jsx:411 | the back button is disabled exactly when pressing it would change nothing |
| `HistoryPage.PagerAgreesWithPage` | frontend/src/components/History.jsx:403-418 | on a non-empty page, the last row's number is the range end min(offset + limit, total), and next is enabled exactly when the next page has rows |
| `HistoryPage.FindOption` | frontend/src/components/History.jsx:154 | `find`: none exactly when no option has the status; otherwise the first option with that value |
| `HistoryPage.StatusLabel` | frontend/src/components/History.jsx:153-156 | a known status shows its icon and label; an unknown one shows the raw text |
| `HistoryPage.StatusLabelsCover` | frontend/src/components/History.jsx:25-31 | every stored status has an option; only UNKNOWN falls through to the raw name |
| `HistoryPage.CsvCells` | frontend/src/components/History.jsx:104-111 | six cells in header order: the locale date and time of `created_at`, the distance, the capacity as `String` prints it, the status, and 'Ya' or 'Tidak' from `robot_online` |
| `HistoryPage.CsvRows` | frontend/src/components/History.jsx:104-111 | one row of cells per history item, in order |
| `HistoryPage.JoinRows` | frontend/src/components/History.jsx:115 | one comma-joined line per row, in order |
| `HistoryPage.Join` | frontend/src/components/History.jsx:113-116 | `join`: the first piece starts the text, a single piece is the text, no pieces give the empty text |
| `HistoryPage.Split` | frontend/src/components/History.jsx:113-116 | a reader's split: at least one piece, none holding the separator, and the whole text when it holds no separator |
| `HistoryPage.ExportCsv` | frontend/src/components/History.jsx:113-116 | the exported text starts with the header line, and is just that line when there are no rows |
| `HistoryPage.SplitJoin` | frontend/src/components/History.jsx:113-116 | splitting a joined text gives the pieces back when no piece holds the separator |
| `HistoryPage.TableReadsBack` | frontend/src/components/History.jsx:113-116 | a header and rows written as lines read back as the same header and rows |
| `HistoryPage.CsvShape` | frontend/src/components/History.jsx:102-116 | the export has the header line then exactly one line per row, each of six comma-separated cells, when no cell holds a comma or line break |

## Left out

- MQTT client set-up, subscription and reconnection (backend/server.js:46-50, 64-73, 104-120): broker I/O. `mqttClient.connected` is an input of `OnConnect`.
- Express, CORS, dotenv and Socket.io wiring, `/` and `/api/status`, and the JSON shapes of HTTP answers. Only the decisions are modelled: 400 for a test without `distance`, and failure for a failed query.
- The `/api/history`, `/api/history/stats` and `/api/history/latest` wrappers (backend/server.js:316-390) only forward to the store. Their `parseInt` of the query text is `Decimal.ParseInt`, and `HistoryParams` proves it reads back the page's values.
- The MySQL pool, `CREATE DATABASE`/`CREATE TABLE`, `closeDatabase` and SIGINT shutdown: foreign I/O. Initialisation failure is an input of `Startup`.
- Concurrency: each async handler is one atomic step, so interleavings and pages shifting under concurrent inserts are not modelled.
- Wall-clock time, ISO strings and locale formatting (`toLocaleDateString`, `toLocaleTimeString`): time is an integer, and the CSV date and time cells come from caller-supplied functions. Date filters are integer instants. Comparing a date string with a TIMESTAMP is not modelled.
- IEEE doubles, NaN and non-numeric payload fields: distances are exact reals. A non-numeric JSON field counts as absent.
- `parseInt` with a hex prefix, and white space beyond space, tab and line breaks.
- `Store.LatestRow`: among rows with the same `created_at` (a TIMESTAMP, so readings saved within one second tie), the model returns the last one inserted. MySQL's `ORDER BY created_at DESC LIMIT 1` may return any of them. `LatestIsLastAppended` shows the model's answer is the last append whenever the database clock never goes back.
- `Server.SavedReadingIsReplayed`: as a consequence, when an earlier row has the same `created_at` as the new one, the source may replay the earlier row. The lemma relies on the model's tie-break.
- `Server.FromRow`: `robot_online` comes back from the BOOLEAN column as the number 1 or 0. The model keeps it a boolean, since every consumer only tests its truth.
- `ConditionsMeaning`, `FilterClauses`, `Matching`, `Where`, `StatusFilterMeaning`: the collation's status comparison is modelled for letter case (ASCII letters and U+017F) and trailing spaces. Accented letters and the other characters utf8mb4_unicode_ci ranks equal to a name's letters are not modelled.
- `Store.SortRows`: rows that tie on the sort key come out in a fixed stable order. MySQL leaves their order unspecified.
- `Store.Summarize`: `AVG` is an exact rational. MySQL returns a DECIMAL rounded to four places.
- `Store.Table.Save`: ids consumed by failed inserts are not modelled (MySQL may skip them). The model reuses the id.
- `Store.Upper` covers ASCII letters and U+017F (long s). Those are the only characters whose upper case can take part in "ASC".
- Rows reaching the dashboard keep the DECIMAL distance as a number, while MySQL returns it as text.
- The alert's 5-second timeout is `HideAlert`, an event of its own. The timer that fires it is not modelled.
- The watchdog's 2-second period: `WatchdogTick` is one firing at any time.
- Blob/URL download and `fetch`: browser I/O.
- frontend/src/components/Dashboard.jsx and StatusCard.jsx, colours, the capacity bar and all JSX: presentation only.
