# GitlabRSSSync in Dafny

GitlabRSSSync polls RSS/Atom feeds and opens one GitLab issue per new feed
item. It remembers which items it has handled in a dedup store. This project
models the parts of it that decide what happens to each item, and the store
behind that decision:

- **`Sync`** — `checkFeed`, the per-feed sync pass. It appears twice in the
  repository: in cmd/sqlite/main.go against the SQLite-backed store and in
  main.go against a Redis server. It is modelled once, against the SQLite
  adapter, because both stores give `SISMEMBER`/`SADD` the same set meaning
  and the pass only looks at the error `SADD` returns.
  - The pass checks every item against the store before it records any, then
    handles the new items in feed order: it skips an undated item, records an
    item older than `AddedSince`, records an item GitLab already has an issue
    for, and otherwise creates an issue, records the item and moves the
    counters.
  - `CheckFeed` is proved against `Pass`, a value describing one pass. `Pass`
    gives each item an `Outcome`. The method's results are the indices `Pass`
    selects for each `Kind`: new, old, searched, submitted for creation,
    recorded and counted.
  - Lemmas about `Pass` then state the per-item rules, that the counters
    balance, and that nothing recorded is created again on the next pass.
- **`Sync`, continued** — `hasExistingGitlabIssue`, the issue body and date,
  and the sleep between poll cycles, including its 64-bit wrap-around.
- **`SqliteStore`** — storage/sqlite_store.go.
  - The `feed_items` table is a `set` of `(feed_id, guid)` keys held by a
    `SQLiteStore` object, and whether its handle is open is a second field.
  - Backups are copies of that set; a restore replaces it.
- **`RedisAdapter`** — storage/redis_adapter.go.
  - The Redis-like commands over the store. `SAdd` is the loop that adds each
    member, counts the `Add` calls that succeed and keeps the last error.
  - `RedisStore`, which ties the store to an optional backup manager.
- **`S3Backup`** — storage/s3_backup.go.
  - The bucket is a map from key to stored snapshot.
  - Backup keys look like `<prefix>/<stamp>.db`.
  - `Restore` runs the arg-max loop that picks the newest listed object.
- **`SqliteMain`, `RedisMain`** — the two `readEnv` functions, as functions of
  the environment map: required variables, defaults and panics.

Every answer from the outside world is an input of the model: the feed
contents, SQL driver errors, file-step errors, S3 replies, GitLab search
counts and create errors, the time now, and `time.ParseDuration`. A Go
`error` is `Nil` or `Err(message)`, and the messages are the program's own
`fmt.Errorf` texts. Instants and durations are integers (nanoseconds).

Behaviour of the code worth knowing:
- The issue body is the item's Description, or its Content when the
  Description is empty (`Sync.IssueDescription`).
- With backup disabled, `S3BackupManager.Backup` returns nil.
  `S3BackupManager.Restore` fails with "S3 backup not enabled or client not
  initialized". `RedisStore.ForceBackup` and `RedisStore.RestoreFromBackup`
  fail with "backup not configured", because no manager is built
  (`RedisAdapter.DisabledBackupNotConfigured`).
- A pass classifies every item before it records any. So two items of one
  feed with the same GUID are both new, and both get an issue when the search
  finds nothing (`Sync.DuplicateGuidCreatedTwice`).
- The `SAdd` count includes members that were already present
  (`RedisAdapter.SAddCountsPresentMember`); a Redis server would not count
  them.
- The poll interval is multiplied by one second in 64-bit arithmetic, which
  wraps. A huge positive interval can come out as a sleep of under a second,
  and a huge negative one as a sleep of about 292 years
  (`Sync.OverflowingIntervals`).

## Model

| member | source | states |
|---|---|---|
| Base.Error.Wrap | storage/sqlite_store.go:96-98 | `fmt.Errorf(context + ": %w")` on a non-nil error; `Wrap(Nil) == Nil` stands for the `if err != nil` guard around each call site; otherwise the message is as long as the context, ": " and the wrapped message together |
| Base.WrapMessage | storage/sqlite_store.go:96-98 | a wrapped error's message starts with the context and ": " and ends with the wrapped message |
| Base.WrapInt64 | cmd/sqlite/main.go:302 | the result is in the int64 range, congruent to the input modulo 2^64, and equal to it when it fits |
| SqliteStore.AddError | storage/sqlite_store.go:91-101 | `Add` fails exactly when the handle is closed or the driver fails |
| SqliteStore.SQLiteStore.NewSQLiteStore | storage/sqlite_store.go:31-57 | fails, with the wrapped error of the first failing step (mkdir, open, create tables), exactly when a step fails; otherwise an open store over the file's existing rows |
| SqliteStore.SQLiteStore.Initialize | storage/sqlite_store.go:60-74 | `IF NOT EXISTS` schema creation leaves the rows alone; its error is the driver's, wrapped |
| SqliteStore.SQLiteStore.IsMember | storage/sqlite_store.go:77-88 | true exactly when the pair is present and the query succeeds; `(false, err)` on failure; never changes the set |
| SqliteStore.SQLiteStore.Add | storage/sqlite_store.go:91-101 | idempotent insert of one pair: on success the set gains exactly that pair, no other pair changes, adding a present pair succeeds; on failure nothing changes |
| SqliteStore.SQLiteStore.Ping | storage/sqlite_store.go:104-106 | fails exactly when the handle is closed or the driver fails |
| SqliteStore.SQLiteStore.Close | storage/sqlite_store.go:109-111 | the handle is closed whatever the driver reports |
| SqliteStore.SQLiteStore.BackupToFile | storage/sqlite_store.go:114-143 | a successful backup is a copy of the whole set; it fails exactly when a file step fails, and a failed checkpoint does not make it fail |
| SqliteStore.SQLiteStore.RestoreFromFile | storage/sqlite_store.go:146-177 | success replaces the set by the backup's and reopens; each failing step leaves the set as before, truncated, or replaced, according to how far it got, with the handle closed |
| SqliteStore.AddThenIsMember | storage/sqlite_store_test.go:63-85 | a new store reports a pair absent, and present after `Add` |
| SqliteStore.BackupThenRestoreFile | storage/sqlite_store_test.go:109-149 | restoring one store's backup into another leaves the second holding exactly the first's set, whatever it held before |
| S3Backup.BackupKey | storage/s3_backup.go:171-172 | every backup key lies under `KeyPrefix + "/"`, the prefix `Restore` lists, and ends in `.db` |
| S3Backup.BackupKeyInjective | storage/s3_backup.go:171-172 | different timestamps give different keys |
| S3Backup.SelectedUnique | storage/s3_backup.go:209-216 | at most one listing entry meets the selection rule |
| S3Backup.StrictlyLatestIsSelected | storage/s3_backup.go:209-216 | an entry strictly newer than all others is the one selected |
| S3Backup.LatestBackup | storage/s3_backup.go:209-216 | the loop returns the entry that is at least as new as every entry and strictly newer than every earlier one (ties go to the first), or nothing when no entry is newer than the zero time |
| S3Backup.S3BackupManager.NewS3BackupManager | storage/s3_backup.go:41-100 | a disabled manager has neither client nor cancel function; an enabled one has both unless loading the AWS configuration fails |
| S3Backup.S3BackupManager.Start | storage/s3_backup.go:103-110 | a backup loop is launched only when enabled with a positive frequency |
| S3Backup.S3BackupManager.Stop | storage/s3_backup.go:256-260 | cancels only when there is a cancel function |
| S3Backup.S3BackupManager.UploadToS3 | storage/s3_backup.go:158-186 | without a client it fails with "S3 client not initialized" and uploads nothing; otherwise success stores the file under the backup key and changes no other object |
| S3Backup.S3BackupManager.Backup | storage/s3_backup.go:136-155 | disabled: nil and nothing uploaded; enabled: succeeds exactly when every step does, and then the bucket gains the store's current set under the backup key; the store is not changed |
| S3Backup.ListPrefix | storage/s3_backup.go:195 | the listed prefix is the key prefix followed by one slash |
| S3Backup.S3BackupManager.Restore | storage/s3_backup.go:189-253 | disabled, no client, a list fault, an empty listing, a download fault or an absent selected key each fail before the store is touched (the first four with their own texts); for a listing under `ListPrefix(KeyPrefix)`, the store is touched exactly when all download steps succeed and the selected object exists, whose key then lies under that prefix; from then on `RestoreFromFile`'s step-by-step outcome holds for that object: success replaces the set and reopens, any failure is wrapped as "failed to restore database" and leaves the handle closed with the set old, empty or replaced according to the failing step |
| S3Backup.BackupRestoreRoundTrip | storage/s3_backup.go:136-253 | add, back up, lose the local file, restore: the new backup key lies under the listed prefix, the pair is a member again, and the restored set is exactly the one backed up |
| RedisAdapter.AddedPairsMembers | storage/redis_adapter.go:116-136 | `SAdd` adds exactly the members whose own `Add` succeeds; a failure does not stop the members after it |
| RedisAdapter.SAddAllSucceeded | storage/redis_adapter.go:116-136 | the reported error is nil exactly when every `Add` succeeded, which is exactly when the count equals the number of members |
| RedisAdapter.LastAddErrorIsSomeAddError | storage/redis_adapter.go:126-131 | a reported error is the error of one of the failed `Add` calls |
| RedisAdapter.ClosedStoreAddsNothing | storage/redis_adapter.go:116-136 | on a closed store `SAdd` adds nothing, counts 0 and reports "database is closed" |
| RedisAdapter.SAddOne | storage/redis_adapter.go:116-136 | a one-member `SAdd` adds the member exactly when its `Add` succeeds and reports that error |
| RedisAdapter.RedisAdapter.constructor | storage/redis_adapter.go:87-92 | the adapter works on the given store |
| RedisAdapter.RedisAdapter.SIsMember | storage/redis_adapter.go:100-113 | `(false, err)` when the store errors, else whether the pair is present, with no error |
| RedisAdapter.RedisAdapter.SAdd | storage/redis_adapter.go:116-136 | the set gains exactly the pairs of `AddedPairs`; the count is `SucceededCount` and the error `LastAddError` |
| RedisAdapter.RedisAdapter.Ping | storage/redis_adapter.go:139-145 | "PONG" with no error when the store answers, "" with the store's own error otherwise |
| RedisAdapter.RedisAdapter.Close | storage/redis_adapter.go:148-150 | closes the store |
| RedisAdapter.RedisStore.NewRedisStore | storage/redis_adapter.go:161-186 | the store sits at the given path with its backup at path + ".bak"; a manager exists exactly when backup is enabled, over this store, with its loop started; each failure carries its wrapping text |
| RedisAdapter.RedisStore.GetClient | storage/redis_adapter.go:189-191 | the client works on this store |
| RedisAdapter.RedisStore.Close | storage/redis_adapter.go:194-199 | stops the backup manager, if any, and closes the store; the manager's loop count is unchanged |
| RedisAdapter.RedisStore.ForceBackup | storage/redis_adapter.go:202-207 | "backup not configured" without a manager; otherwise the manager's backup: it succeeds exactly when every step does, on success the bucket gains the store's set under the backup key, and on failure the bucket is unchanged |
| RedisAdapter.RedisStore.RestoreFromBackup | storage/redis_adapter.go:210-215 | "backup not configured" without a manager, with the store untouched; otherwise, for a listing under the manager's prefix, everything the manager's `Restore` states: the failures that leave the store untouched, when the store is touched, and `RestoreFromFile`'s step-by-step outcome |
| RedisAdapter.SAddCountsPresentMember | storage/redis_adapter.go:116-136 | adding a member twice counts 1 both times |
| RedisAdapter.DisabledBackupNotConfigured | storage/sqlite_store_test.go:278-282 | with backup disabled, both backup operations fail with "backup not configured" and the table is unchanged |
| Sync.SearchFor | cmd/sqlite/main.go:57-64 | the search asks for the item's GUID in the feed's project, page 1 with 10 per page |
| Sync.HasExistingIssue | cmd/sqlite/main.go:57-83 | a match exactly when the search returned at least one issue; one and several are the same, and a failed search with no issues is no match (main.go:51-83 is the same code) |
| Sync.EffectiveTime | cmd/sqlite/main.go:114-120 | the updated date when present, else the published date; none exactly when neither is present |
| Sync.IssueDescription | cmd/sqlite/main.go:151-169 | the body starts with the description, or with the content when the description is empty, and ends with `<br>` link `<br>` GUID, so the GUID is a suffix |
| Sync.CreatedAt | cmd/sqlite/main.go:159-163 | the item's date for a retroactive feed, the current time otherwise |
| Sync.NewOutcome | cmd/sqlite/main.go:113-187 | the outcome of a new item follows the second loop's branches in order: undated, too old (recorded if its add succeeds), a match on GitLab (recorded if its add succeeds), a failed create, or created; a dated item's create call carries the feed's project and labels, its title, the description-or-content body with link and GUID, and its date for a retroactive feed, the current time otherwise |
| Sync.Classify | cmd/sqlite/main.go:94-109 | `newArticle` and `oldArticle` are the items, in feed order, whose check succeeded and which the store did not / did hold before the pass |
| Sync.CheckFeed | cmd/sqlite/main.go:85-193 | a failed fetch does nothing; otherwise the searches, the create calls (with their options), the rows added and both counters are exactly those `Pass` prescribes for the items, in order; main.go:85-191 makes the same decisions against Redis |
| Sync.HandleNewArticles | cmd/sqlite/main.go:113-192 | the second loop does, item by item and in order, what `HandleNewItem` does |
| Sync.HandleNewItem | cmd/sqlite/main.go:113-192 | for one new item, the search, the create call, the row added and the counter moves follow from its outcome |
| Sync.Classification | cmd/sqlite/main.go:94-109 | every item whose check succeeds is exactly one of new or old; a failed check drops it |
| Sync.AlreadySeenUntouched | main.go:96-108 | an item the store held is never searched, created or recorded |
| Sync.UndatedSkipped | cmd/sqlite/main.go:114-126 | a new item with no date is neither recorded, searched nor created |
| Sync.TooOldRecordedOnly | cmd/sqlite/main.go:128-138 | a new item dated strictly before `AddedSince` is recorded exactly when its add succeeds, and is never searched or created, even when the add fails |
| Sync.RemoteRepliesIrrelevant | cmd/sqlite/main.go:113-138 | GitLab's and the clock's answers do not affect an item that is dropped, old, undated or too old |
| Sync.RemoteMatchMarksSeen | cmd/sqlite/main.go:140-149 | a search hit records the item exactly when its add succeeds, and no issue is created |
| Sync.SearchErrorCreates | cmd/sqlite/main.go:64-67 | a failed search with no issues leads to the create call |
| Sync.CreateOutcomes | cmd/sqlite/main.go:174-187 | a failed create moves the error counter and records nothing; a successful one records the item and moves the created counter exactly when the add succeeds |
| Sync.CountersBalance | cmd/sqlite/main.go:174-187 | every create call is counted exactly once: as an error, as a created issue, or as created but not recorded |
| Sync.RequestsOnePerIndex | cmd/sqlite/main.go:165-175 | one create call per submitted item, in order, each with that item's options |
| Sync.RequestShape | cmd/sqlite/main.go:151-172 | a create call carries the feed's project and labels, the item's title, a body ending in link and GUID, and the retroactive-or-now date |
| Sync.RecordedIsOldNextPass | cmd/sqlite/main.go:94-109 | an item one pass records is old to the next pass over a store that kept it, so it is never created again |
| Sync.DuplicateGuidCreatedTwice | cmd/sqlite/main.go:94-113 | two new items of one feed with the same GUID both get an issue when the search finds none |
| Sync.SleepDuration | cmd/sqlite/main.go:302-306 | the sleep is always positive; when the product fits in 64 bits it is the interval in seconds, or ten minutes for an interval that is not positive (main.go:276-280 is the same code) |
| Sync.OverflowingIntervals | main.go:276-280 | intervals whose product overflows wrap: 18446744074 s sleeps 0.29 s, 9223372037 s sleeps ten minutes, -9223372037 s sleeps about 292 years |
| SqliteMain.PathJoin | cmd/sqlite/main.go:343-349 | the default database path starts with the configuration directory and ends in `/gitlabrsssync.db`, with one slash between them |
| SqliteMain.OrDefault | cmd/sqlite/main.go:359-383 | the variable's value when it is set and non-empty, the default otherwise |
| SqliteMain.BackupInterval | cmd/sqlite/main.go:388-401 | six hours when the variable is unset or empty, or does not parse; otherwise the parsed duration |
| SqliteMain.ReadEnv | cmd/sqlite/main.go:317-418 | starts exactly when the base URL, token and configuration directory are set and, when `S3_ENABLED` is "true", so is the bucket; S3 is on exactly when `S3_ENABLED` is "true" |
| SqliteMain.ReadEnvPanics | cmd/sqlite/main.go:317-371 | panics, in order, for a missing base URL, token or configuration directory, and otherwise only for the missing bucket |
| SqliteMain.ReadEnvValues | cmd/sqlite/main.go:341-418 | the settings are the variables' values; `DB_PATH` defaults to `PathJoin(CONFIG_DIR, "gitlabrsssync.db")`; with S3 off every S3 field is empty or zero; with S3 on, endpoint, bucket and keys are the variables' values, region and prefix are `OrDefault` with us-east-1 and gitlabrsssync, and the interval is `BackupInterval` |
| SqliteMain.S3VariablesIgnoredWhenDisabled | cmd/sqlite/main.go:351-402 | with S3 off, no other `S3_*` variable changes the result, so a missing bucket is not fatal |
| SqliteMain.EmptyIsUnset | cmd/sqlite/main.go:317-402 | a variable set to "" reads as if it were unset |
| SqliteMain.S3Defaults | cmd/sqlite/main.go:351-402 | with S3 on, the required variables and the bucket set and every optional variable unset or empty, the settings are exactly the defaults |
| RedisMain.ReadEnv | main.go:291-337 | panics, in order, for a missing base URL, token, configuration directory or Redis URL, and for an unset password; an empty password is accepted; sentinel mode is on exactly when `USE_SENTINEL` is present |
| RedisMain.PasswordMayBeEmpty | main.go:310-321 | an empty `REDIS_PASSWORD` is accepted and an unset one panics, while an empty `REDIS_URL` panics like an unset one |
| RedisMain.SentinelIsPresence | main.go:323-327 | sentinel mode follows the presence of `USE_SENTINEL`, whatever its value |

## Left out

- Logging: every `log.Printf` is left out; no logged text is modelled.
- HTTP, the health check and Prometheus (`/healthz`, `/metrics`, `ListenAndServe`, gauge and counter registration): network I/O. The two counters are the `nat` fields of `Sync.Metrics`.
- `main`, `initialise` and `readConfig`: process start-up wiring of foreign clients. YAML parsing is a foreign library, so the configuration is given as `Feed` values and an interval.
- The goroutines and timers: `backupLoop`'s immediate backup, ticker and cancellation select, and `time.Sleep` in the poll loop. Only the sleep's duration (`Sync.SleepDuration`), `Start`'s guard and `Stop`'s cancel are modelled. Concurrency between the poll loop, the backup loop and the health check is not modelled.
- Feed fetching and parsing (`gofeed`): the items are given. A fetch or parse error is the `fetchErr` input of `Sync.CheckFeed`.
- The GitLab client: a search is a given match count and error, and a create is a given error. The issue the server creates is not modelled.
- The AWS SDK: endpoint resolution, credentials and transport are not modelled. `ListObjectsV2` is a given listing whose keys lie under the listed prefix (`S3Backup.ListedUnder`); its modification times are not tied to the stored objects, and pagination beyond its first page is not modelled. `PutObject` and `GetObject` are map updates and lookups with given faults.
- SQL text, `database/sql` handles, temporary directories, byte-for-byte file copies and `PRAGMA wal_checkpoint`: file contents are the abstract set of pairs, and each file step is a given fault.
- The `created_at` column: it is written but never read.
- `time.Now`, time formatting of backup stamps (`2006-01-02T15-04-05Z`) and `time.ParseDuration` are inputs. `fmt.Sprintf("%v")` of `SAdd` members is not modelled: members are strings.
- Sync.CheckFeed: it is modelled against the SQLite-backed `RedisAdapter`. The Redis build talks to a Redis server whose `SISMEMBER`/`SADD` have the same set meaning; the server itself is not part of this model.
- RedisAdapter.RedisAdapter.SAdd: the count is an unbounded `nat`, not an `int64`.
- SqliteMain.PathJoin: `path.Join`'s lexical cleaning (`.`, `..`, repeated and trailing slashes) is not modelled; only the single separating slash is.
- SqliteStore.SQLiteStore.RestoreFromFile: a copy that fails midway is taken to leave an empty table (as if nothing after the truncation had been written).
- S3Backup.S3BackupManager.Restore: when the selected key is absent from the bucket, the error text after "failed to download backup from S3: " is a stand-in; the AWS SDK's own NoSuchKey wording is not modelled.
- The `Result()`/`Err()` accessors of the `*Cmd` types are the fields of the result datatypes.
