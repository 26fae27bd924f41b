# nisa-api delta sync and licensing, modelled in Dafny

This project models the server side of the nisa-api device synchronisation
and license routes (an Express/MySQL service for dealers whose point-of-sale
devices share stock transactions through the cloud):

- `routes/sync.js`: the `requireLicense` gate; the transaction push (an
  idempotent check-then-insert loop that tallies inserted and skipped
  transactions); the transaction pull (rows of the dealer's other devices
  past a `synced_at` cursor, ordered by `transaction_time`, at most 1000);
  the device heartbeat; the `sync_devices` and `sync_state` upserts; the
  online/idle/offline classification of the device list; the backup upload
  that keeps only the dealer's latest backup.
- `routes/license.js`: key generation, `/extend`, the ordered `/validate`
  checks, the one-way `/activate` binding to a MAC address, and the status
  the license list shows.
- `routes/dashboard.js`: `determineType` and the activity description.

The database is one object, `Store.Db`, whose fields are the tables:
`licenses`, `sync_transactions`, `cloud_backups` and `remote_activity_log`
are sequences of rows, `sync_devices` and `sync_state` are maps keyed by
(dealer, device identifier). Its constructor is the empty schema with both
`AUTO_INCREMENT` counters at 1, and establishes `Db.Valid()` (unique
transaction ids and license ids). Every handler is a module-level method
that takes the database as a parameter with `modifies db`; each states the
rows it writes and that nothing else changes, and keeps `Db.Valid()`. What the
handlers compute is specified by pure functions (`TxnLog.ApplyBatch`,
`TxnLog.PullPage`, `Presence.TouchOnHeartbeat`, `Licensing.Validate`, ...)
and the properties are lemmas about those functions. The push loop and
the key-generation loops are loops with invariants, as in the source.

Request fields are `Option` values and the JavaScript tests on them are
written out: `Common.Truthy` (`!x`), `Common.Either` (`a || b`),
`Common.OrNull` (`x || null`). Instants are integers counting seconds;
`now` is a parameter wherever the code calls `NOW()` or `new Date()`.

Behaviour of the code worth knowing:

- The heartbeat keeps the stored device name only for a NULL name; an empty
  string overwrites it (`COALESCE` treats only NULL as missing):
  `Presence.EmptyNameOverwrites`.
- The pull parses stored metadata with `JSON.parse` and has no per-row
  recovery; a parse failure fails the whole request. Metadata is opaque
  text in the model.
- The gate compares `is_active` with 1; `/validate` and the license list
  test its truthiness. The model keeps the stored integer so both readings
  are visible.
- The pull orders by `transaction_time` but its cursor is `synced_at`. When
  a page is full, the rows it leaves out are never earlier than the ones it
  returns (`TxnLog.FullPageKeepsEarliest`); a visible row with 1000
  earlier-dated visible rows is left out however old its `synced_at`
  (`TxnLog.CrowdedOut`); and a device that resumes from the `synced_at` of
  a row on that page that is not older than the left-out row's never
  receives it, whatever the table holds by then
  (`TxnLog.ResumedPullSkipsOlderStamps`).
- The push existence check is by `id` alone, not scoped by dealer: an id
  stored by another dealer is skipped (`TxnLog.ApplyBatchNewRows`).

## Model

| member | source | states |
|---|---|---|
| Common.Either | routes/sync.js:11-12 | `a \|\| b` on request fields: the body value when it is truthy, else the header value; the result is truthy iff one of them is |
| Common.OrNull | routes/sync.js:310-314 | `x \|\| null`: a falsy optional field is stored as NULL, a truthy one as given |
| SyncRoutes.FirstAuthorizing | routes/sync.js:20-29 | finds a license row iff some row has the key, the dealer and `is_active = 1`, and the row it returns satisfies all three |
| SyncRoutes.RequireLicense | routes/sync.js:9-38 | 401 exactly when the key or dealer id (body, then headers) is falsy; passes exactly when an active row matches both; the granted dealer is the requested one and the granted row matches |
| SyncRoutes.GateLicenseIsListedActive | routes/sync.js:21 | a license the gate accepts is listed as 'active' by the license list |
| SyncRoutes.InsertBatch | routes/sync.js:285-320 | the push loop leaves the table equal to `ApplyBatch` of the batch, keeps ids unique, and counts inserted = number of new distinct ids, inserted + skipped = batch length |
| SyncRoutes.PushSummary | routes/sync.js:338 | the SYNC_PUSH description starts with "Device: " and the device identifier and ends with the skipped count |
| SyncRoutes.PushAccepted | routes/sync.js:285-345 | after the gate and the request checks: the table is `ApplyBatch` of the batch with ids kept unique, the counts are the new distinct ids and the batch length, and sync_state, device row and log get the push bookkeeping |
| SyncRoutes.RecordPush | routes/sync.js:322-338 | after the loop: `last_sent_at` of (dealer, device) is now, the device row is the push upsert, one SYNC_PUSH entry with the counts is logged; nothing else changes |
| SyncRoutes.Push | routes/sync.js:276-351 | a refused gate or a missing device id / transactions array changes nothing; otherwise the table, counts, sync_state, device row and log are as above and licenses and backups are unchanged |
| SyncRoutes.Pull | routes/sync.js:355-410 | answers the view of `PullPage` with `count` equal to its length; writes `last_received_at` only for a non-empty page; never writes transactions, devices, licenses, backups or the log |
| SyncRoutes.Heartbeat | routes/sync.js:413-440 | after the gate and the device-id check, only the (dealer, device) row changes, to the heartbeat upsert |
| SyncRoutes.BackupsOf | routes/sync.js:83 | the rows it keeps are exactly the dealer's backups |
| SyncRoutes.DeleteBackupsOf | routes/sync.js:83 | the rows left are exactly the other dealers' backups |
| SyncRoutes.DeleteBackupsOfEffect | routes/sync.js:83 | after the delete the dealer has no backups and every other dealer's backups are unchanged, in order |
| SyncRoutes.ReplaceKeepsLatestOnly | routes/sync.js:81-89 | delete-then-insert leaves the dealer exactly the new backup and every other dealer's backups as they were |
| SyncRoutes.UploadBackup | routes/sync.js:69-98 | a falsy backup_data changes nothing; otherwise the dealer's backups are replaced by one new row with the next id, which is answered, and a BACKUP_UPLOAD entry is logged |
| TxnLog.RowOf | routes/sync.js:301-317 | the inserted row carries the authorised dealer and the requesting device; falsy optional fields are NULL, a missing quantity is 0, a falsy transaction_time becomes the push time; synced_at is the push time |
| TxnLog.ApplyBatch | routes/sync.js:288-320 | the push loop over the batch in order: the old table is a prefix of the new one, and at most one row is appended per candidate |
| TxnLog.ApplyBatchIds | routes/sync.js:288-319 | afterwards the table holds exactly the old ids plus the batch ids |
| TxnLog.ApplyBatchNewRows | routes/sync.js:288-319 | each appended row has an id the table lacked, carried by the batch, and is the row of the first candidate with that id |
| TxnLog.ApplyBatchCount | routes/sync.js:285-319 | the number of appended rows is the number of distinct batch ids not yet stored |
| TxnLog.ApplyBatchDistinct | routes/sync.js:290-298 | a push keeps transaction ids unique, duplicates inside one batch included |
| TxnLog.StoredBatchIsNoop | routes/sync.js:295-298 | a batch whose ids are all stored leaves the table unchanged and inserts nothing |
| TxnLog.RepushIsNoop | routes/sync.js:288-298 | pushing a batch again, from any device or dealer at any time, changes nothing and inserts nothing |
| TxnLog.PushScopedToRequester | routes/sync.js:305-308 | every appended row has the authorised dealer, the requesting device and the push time |
| TxnLog.Visible | routes/sync.js:369-377 | the WHERE clause: the dealer's rows from other devices, and past `since` only when `since` is truthy |
| TxnLog.Select | routes/sync.js:365-377 | a row is selected iff it is in the table, has the dealer, another device, and synced_at > since when since is truthy; no row is selected more often than the table holds it |
| TxnLog.InsertByTime | routes/sync.js:379 | inserting adds exactly one occurrence of the row |
| TxnLog.InsertByTimeSorted | routes/sync.js:379 | inserting into a sequence sorted by transaction_time keeps it sorted |
| TxnLog.SortByTime | routes/sync.js:379 | the ordered rows are a permutation of the selected rows |
| TxnLog.SortByTimeSorted | routes/sync.js:379 | the result is sorted ascending by transaction_time |
| TxnLog.PullPage | routes/sync.js:365-381 | the page has min(selected, 1000) rows, is sorted by transaction_time, every row is a visible row of the table, and no row appears more often than the table holds it |
| TxnLog.PageIdsDistinct | routes/sync.js:365-381 | a pull returns each stored transaction at most once: the ids on a page are distinct |
| TxnLog.SubMultisetDistinct | routes/sync.js:365-381 | rows taken from a table with unique ids, none more often than the table holds it, have unique ids |
| TxnLog.ShortPageIsComplete | routes/sync.js:379-381 | a page shorter than 1000 holds every visible row |
| TxnLog.FullPageKeepsEarliest | routes/sync.js:379-381 | a visible row left out of the page is not earlier than any row on it |
| TxnLog.CrowdedOut | routes/sync.js:374-381 | a row with at least 1000 visible rows dated earlier is not on the page, whatever its synced_at |
| TxnLog.ResumedPullSkipsOlderStamps | routes/sync.js:374-381 | such a crowded-out row is missing from a full page, and a pull resumed from the synced_at of any row on that page that is not older than it never returns it, from any later table |
| TxnLog.Views | routes/sync.js:384-387 | one pulled record per row, in page order, with every selected column |
| TxnLog.PushThenPullRoundTrip | routes/sync.js:288-387 | pushing a transaction with a new id into any table appends its row; another device of the dealer pulling with a cursor before the push receives that row whenever its page is not full; the pushing device never receives it, nor does a pull with a cursor at or past the push time |
| Presence.Classify | routes/sync.js:467-473 | NULL minutes gives offline; under 10 online; under 60 idle; otherwise offline (each iff) |
| Presence.ClassifyMonotonic | routes/sync.js:469-473 | as minutes grow the status never moves back toward online |
| Presence.MinutesBetween | routes/sync.js:450 | whole minutes between two instants, truncated toward zero |
| Presence.StatusOverTime | routes/sync.js:450-473 | a device last seen at t is online before t+10 min, idle before t+60 min, offline after |
| Presence.TouchOnPush | routes/sync.js:331-336 | the push upsert sets last sync, ip and 'online'; a new row gets the license and no name; an existing row keeps license, name and pending count |
| Presence.TouchOnHeartbeat | routes/sync.js:422-431 | the heartbeat upsert overwrites pending with `pending_count \|\| 0`, keeps the stored name only for a NULL name, keeps an existing row's license |
| Presence.HeartbeatIsIdempotent | routes/sync.js:422-431 | repeating a heartbeat at the same instant changes nothing more |
| Presence.NullNameKeepsName | routes/sync.js:426 | any number of pushes and NULL-name heartbeats keep the stored name and license |
| Presence.EmptyNameOverwrites | routes/sync.js:426 | an empty name replaces a known name |
| Presence.ContactMakesOnline | routes/sync.js:333 | a push or heartbeat leaves the device online for the next ten minutes |
| Presence.MarkSent | routes/sync.js:323-328 | last_sent_at becomes now, last_received_at is kept (NULL for a new row) |
| Presence.MarkReceived | routes/sync.js:390-397 | last_received_at becomes now, last_sent_at is kept (NULL for a new row) |
| Licensing.KeyShape | routes/license.js:54-60 | a generated key is four 4-character alphabet segments joined by '-', 19 characters, segment i holding draws 4i..4i+3 |
| Licensing.GenerateKey | routes/license.js:54-60 | the nested loops build exactly the key of the draws, which has the license-key shape |
| Licensing.Generate | routes/license.js:47-65 | a falsy dealer id changes nothing; otherwise one row is appended with the next id, the key, the dealer, `is_active` 1, no binding and the given expiry |
| Licensing.DurationOf | routes/license.js:101-110 | '6months' and '1month' select their durations; every other value, '1year' included, selects one year |
| Licensing.Length | routes/license.js:100-110 | every duration adds at least a month |
| Licensing.NewExpiry | routes/license.js:93-110 | the new expiry is the duration after max(stored expiry, now), a NULL expiry reading as the epoch; so it is after now and after the stored expiry |
| Licensing.FindById | routes/license.js:89-92 | finds a row iff one has the id, and it has that id |
| Licensing.SetExpiry | routes/license.js:112-115 | rows with the id get the new expiry, all other rows and columns stay |
| Licensing.Extend | routes/license.js:82-118 | a falsy id is refused, an unknown id is not found, both changing nothing; otherwise the answer is the selected duration after max(stored expiry, now), so after now and after the old expiry, and is stored on the license |
| Licensing.KeyIndex | routes/license.js:135-147 | the position of the first row with the key, or the table length |
| Licensing.FindByKey | routes/license.js:135-147 | finds a row iff one has the key, and it has that key |
| Licensing.Validate | routes/license.js:130-172 | the checks in order (missing key or MAC, unknown key, inactive, MAC mismatch, expired), each verdict iff its check fails and all earlier pass; valid iff all pass |
| Licensing.UnboundValidatesAnyMac | routes/license.js:154-172 | an active, unexpired license with no MAC validates for every MAC |
| Licensing.ViolationNote | routes/license.js:157 | the LICENSE_VIOLATION description carries the registered MAC after its label and ends with the MAC the request sent |
| Licensing.ValidateRequest | routes/license.js:126-172 | answers `Validate`; logs one LICENSE_VIOLATION entry exactly on a MAC mismatch; writes nothing else |
| Licensing.ActivationOf | routes/license.js:185-218 | missing fields, unknown key, already bound here (success), bound elsewhere (failure), or bind; each iff its condition |
| Licensing.ActivationIgnoresStatus | routes/license.js:203-226 | whether a license binds does not depend on `is_active` or the expiry |
| Licensing.BoundName | routes/license.js:225 | the stored device name is the given one when truthy, else 'Bilinmeyen Cihaz' |
| Licensing.Bind | routes/license.js:221-226 | rows with the id get the MAC, name and activation time; other rows stay |
| Licensing.ActivationNote | routes/license.js:228 | the LICENSE_ACTIVATED description is "Cihaz: " followed by the given device name, or `undefined` when it is absent |
| Licensing.Activate | routes/license.js:181-236 | answers `ActivationOf`; only the bind outcome writes: the binding and one LICENSE_ACTIVATED entry |
| Licensing.BindingLocksLicense | routes/license.js:206-226 | after binding, activation from the same MAC succeeds without a write, from another MAC fails, and validation from another MAC is refused |
| Licensing.NoRouteUnbinds | routes/license.js:62-226 | generation, extension and activation keep every existing binding |
| Licensing.ListStatus | routes/license.js:32 | 'active' exactly when `is_active` is truthy, otherwise 'revoked' |
| Dashboard.DetermineType | routes/dashboard.js:66-71 | error iff ERROR or VIOLATION occurs; warning iff WARNING and no error marker; success iff SUCCESS or ACTIVATED and no earlier marker; info otherwise |
| Dashboard.ActivityType.Label | routes/dashboard.js:66-71 | the type is one of exactly 'error', 'warning', 'success', 'info' |
| Dashboard.LabelsDistinct | routes/dashboard.js:66-71 | different types have different labels |
| Dashboard.ViolationIsError | routes/dashboard.js:67 | LICENSE_VIOLATION is an error |
| Dashboard.ActivationIsSuccess | routes/dashboard.js:69 | LICENSE_ACTIVATED is a success |
| Dashboard.PushIsInfo | routes/dashboard.js:66-71 | SYNC_PUSH is info |
| Dashboard.BackupIsInfo | routes/dashboard.js:66-71 | BACKUP_UPLOAD is info |
| Dashboard.ErrorMarkerWins | routes/dashboard.js:67 | any name containing VIOLATION or ERROR is an error, whatever else it contains |
| Dashboard.Describe | routes/dashboard.js:53 | "name: description" when the dealer name is truthy, otherwise the raw description |
| Dashboard.DescriptionIsSuffix | routes/dashboard.js:53 | the raw description always ends the shown one, after at most the name and ": " |
| Dashboard.FormatActivities | routes/dashboard.js:50-56 | one feed entry per row, in order, with its id, action, timestamp, described text and type |

## Left out

- Express plumbing: status codes and JSON framing are result variants; the 500 answers of every `catch` (driver errors) are not modelled.
- SQL is read as operations on the tables; string comparison is exact, while MySQL's default collation compares case-insensitively.
- Concurrency: the push check-then-insert is not atomic in the source; the model runs requests one at a time.
- The clock: `NOW()` and `new Date()` are the `now` parameter, one value per request.
- `TxnLog.Candidate`: a transaction id is a truthy string; a missing or falsy id (the `uuidv4()` fallback, and the driver's refusal of an undefined bind value before it) is not modelled. A missing `action_type` is not modelled: `Candidate.actionType` is always a string, while in the source the driver refuses the undefined value and the push answers 500 partway through the batch, after the earlier candidates were inserted.
- `SyncRoutes.Heartbeat`: an absent `device_name` is modelled as NULL (the stored name is kept); in the source the driver refuses the undefined bind value, the heartbeat answers 500 and writes nothing.
- `TxnLog.SortByTime`: rows with equal `transaction_time` keep table order, which is one of the orders the query may return; which of several equally-timed rows fill the last places of a full page is therefore the model's choice, not something the source fixes.
- `Licensing.GenerateKey`: `Math.random` is replaced by a sequence of sixteen draws below 36 supplied by the caller.
- `Licensing.NewExpiry`: `setFullYear`/`setMonth` calendar arithmetic (month lengths, overflow) is abstracted to 365, 180 and 30 days.
- `Licensing.Generate`: `price` and `max_devices` are not modelled; a falsy `expiry_date` is passed as `None`; `is_active` is taken at its column default 1.
- `Licensing.ActivationNote`: an absent `device_name` prints as `undefined`; a NULL one, which would print `null`, is not distinguished.
- JSON: metadata is opaque text; `JSON.stringify` and `JSON.parse` are taken as inverse, and a parse failure (500) is not modelled.
- `SyncRoutes.UploadBackup`: `Buffer.byteLength` and the `toFixed(2)` kilobyte text are parameters.
- Dealer names come from a join with the `dealers` table, which is not part of this model; `Dashboard.ActivityRow` carries the joined name.
- The activity query's `ORDER BY created_at DESC LIMIT 10`, the device list's ordering and joins, and the SQL `COUNT`/`SUM` statistics are not modelled.
- Not modelled, having no logic beyond CRUD and formatting: backup list, backup restore and status, the admin device list beyond its status rule, `routes/auth.js` (bcrypt, JWT), `routes/dealers.js`, `routes/inventory.js`, `index.js`, `seed.js`, `update_db.js`.
- `logActivity` swallows its own errors; the model's log append cannot fail.
