/** storage/redis_adapter.go: the Redis-like set commands the sync loop uses,
    answered from the SQLite dedup store, and `RedisStore`, which ties the
    store, the adapter and the optional S3 backup manager together. A Redis
    set `key` holding `member` is the row `(key, member)`. */
module RedisAdapter {
  import opened Base
  import opened SqliteStore
  import opened S3Backup

  /** The result of `SIsMember`. */
  datatype BoolCmd = BoolCmd(val: bool, err: Error)
  /** The result of `SAdd`: how many `Add` calls succeeded, and the last error. */
  datatype IntCmd = IntCmd(val: nat, err: Error)
  /** The result of `Ping`. */
  datatype StatusCmd = StatusCmd(val: string, err: Error)

  const ErrBackupNotConfigured := "backup not configured"

  /** The pairs the first `n` members of an `SAdd` add: those whose `Add`
      (driver outcome `errs[i]`) succeeds. */
  function AddedPairs(key: string, members: seq<string>, open: bool, errs: seq<Error>, n: nat): set<Pair>
    requires n <= |members| == |errs|
  {
    if n == 0 then {}
    else AddedPairs(key, members, open, errs, n - 1)
         + (if AddError(open, errs[n - 1]).Nil? then {(key, members[n - 1])} else {})
  }

  /** How many of the first `n` `Add` calls succeed. */
  function SucceededCount(open: bool, errs: seq<Error>, n: nat): nat
    requires n <= |errs|
  {
    if n == 0 then 0
    else SucceededCount(open, errs, n - 1) + (if AddError(open, errs[n - 1]).Nil? then 1 else 0)
  }

  /** The error of the last of the first `n` `Add` calls that failed, or nil. */
  function LastAddError(open: bool, errs: seq<Error>, n: nat): Error
    requires n <= |errs|
  {
    if n == 0 then Nil
    else if !AddError(open, errs[n - 1]).Nil? then AddError(open, errs[n - 1])
    else LastAddError(open, errs, n - 1)
  }

  /** `SAdd` adds exactly the members whose own `Add` succeeds: a failure
      does not stop the members after it. */
  lemma {:induction false} AddedPairsMembers(key: string, members: seq<string>, open: bool,
                                             errs: seq<Error>, n: nat, p: Pair)
    requires n <= |members| == |errs|
    ensures p in AddedPairs(key, members, open, errs, n) <==>
              exists i :: 0 <= i < n && p == (key, members[i]) && AddError(open, errs[i]).Nil?
  {
    if n > 0 {
      AddedPairsMembers(key, members, open, errs, n - 1, p);
      if p == (key, members[n - 1]) && AddError(open, errs[n - 1]).Nil? {
        assert p in AddedPairs(key, members, open, errs, n);
      }
    }
  }

  /** `SAdd` reports no error exactly when every `Add` succeeded, and then
      its count is the number of members. */
  lemma {:induction false} SAddAllSucceeded(open: bool, errs: seq<Error>, n: nat)
    requires n <= |errs|
    ensures LastAddError(open, errs, n).Nil? <==> forall i :: 0 <= i < n ==> AddError(open, errs[i]).Nil?
    ensures SucceededCount(open, errs, n) <= n
    ensures SucceededCount(open, errs, n) == n <==> LastAddError(open, errs, n).Nil?
  {
    if n > 0 {
      SAddAllSucceeded(open, errs, n - 1);
    }
  }

  /** The error `SAdd` reports is the error of some failed `Add`. */
  lemma {:induction false} LastAddErrorIsSomeAddError(open: bool, errs: seq<Error>, n: nat)
    requires n <= |errs|
    requires !LastAddError(open, errs, n).Nil?
    ensures exists i :: 0 <= i < n && LastAddError(open, errs, n) == AddError(open, errs[i])
  {
    if !AddError(open, errs[n - 1]).Nil? {
      assert LastAddError(open, errs, n) == AddError(open, errs[n - 1]);
    } else {
      LastAddErrorIsSomeAddError(open, errs, n - 1);
    }
  }

  /** On a closed store every `Add` fails: nothing is added and the count is 0. */
  lemma {:induction false} ClosedStoreAddsNothing(key: string, members: seq<string>, errs: seq<Error>, n: nat)
    requires n <= |members| == |errs|
    ensures AddedPairs(key, members, false, errs, n) == {}
    ensures SucceededCount(false, errs, n) == 0
    ensures n > 0 ==> LastAddError(false, errs, n) == Err("failed to add guid: " + ErrDatabaseClosed)
  {
    if n > 0 {
      ClosedStoreAddsNothing(key, members, errs, n - 1);
    }
  }

  /** An `SAdd` of one member adds it exactly when its `Add` succeeds, and
      reports that `Add`'s error. */
  lemma SAddOne(key: string, member: string, open: bool, err: Error)
    ensures AddedPairs(key, [member], open, [err], 1)
              == if AddError(open, err).Nil? then {(key, member)} else {}
    ensures LastAddError(open, [err], 1) == AddError(open, err)
  {
  }

  class RedisAdapter {
    const store: SQLiteStore

    /** `NewRedisAdapter`. */
    constructor (store: SQLiteStore)
      ensures this.store == store
    {
      this.store := store;
    }

    /** `SIsMember`: true only for a present pair, and `false` with the
        store's error when the query fails. */
    method SIsMember(key: string, member: string, queryErr: Error) returns (cmd: BoolCmd)
      ensures cmd.err.Nil? <==> store.open && queryErr.Nil?
      ensures cmd.val <==> cmd.err.Nil? && (key, member) in store.rows
      ensures !cmd.err.Nil? ==> cmd.err == DriverError(store.open, queryErr).Wrap("failed to check if guid exists")
    {
      var found, err := store.IsMember(key, member, queryErr);
      if !err.Nil? {
        return BoolCmd(false, err);
      }
      cmd := BoolCmd(found, Nil);
    }

    /** `SAdd`: one `Add` per member, `errs[i]` being the driver's outcome
        for `members[i]`; a failing member is skipped and the loop goes on. */
    method SAdd(key: string, members: seq<string>, errs: seq<Error>) returns (cmd: IntCmd)
      requires |errs| == |members|
      modifies store`rows
      ensures store.rows == old(store.rows) + AddedPairs(key, members, store.open, errs, |members|)
      ensures cmd.val == SucceededCount(store.open, errs, |members|)
      ensures cmd.err == LastAddError(store.open, errs, |members|)
    {
      var count: nat := 0;
      var lastErr := Nil;
      for i := 0 to |members|
        invariant store.rows == old(store.rows) + AddedPairs(key, members, store.open, errs, i)
        invariant count == SucceededCount(store.open, errs, i)
        invariant lastErr == LastAddError(store.open, errs, i)
      {
        var err := store.Add(key, members[i], errs[i]);
        if !err.Nil? {
          lastErr := err;
          continue;
        }
        count := count + 1;
      }
      cmd := IntCmd(count, lastErr);
    }

    /** `Ping`: "PONG" when the store answers, "" with its error otherwise. */
    method Ping(pingErr: Error) returns (cmd: StatusCmd)
      ensures cmd.err.Nil? <==> store.open && pingErr.Nil?
      ensures cmd.val == if cmd.err.Nil? then "PONG" else ""
      ensures !cmd.err.Nil? ==> cmd.err == DriverError(store.open, pingErr)
    {
      var err := store.Ping(pingErr);
      if !err.Nil? {
        return StatusCmd("", err);
      }
      cmd := StatusCmd("PONG", Nil);
    }

    /** `Close`: closes the store. */
    method Close(closeErr: Error) returns (err: Error)
      modifies store`open
      ensures !store.open && err == closeErr
    {
      err := store.Close(closeErr);
    }
  }

  class RedisStore {
    const adapter: RedisAdapter
    const store: SQLiteStore
    /** null when S3 backup is disabled. */
    const backup: S3BackupManager?

    /** The adapter and the backup manager work on this store, and a manager
        exists only when backup is enabled, and then has a client. */
    ghost predicate Valid()
      reads this, adapter, backup, if backup == null then null else backup.s3Client
    {
      && adapter.store == store
      && (backup != null ==>
            && backup.store == store
            && backup.config.enabled
            && backup.s3Client != null
            && backup.s3Client.Valid())
    }

    constructor (adapter: RedisAdapter, store: SQLiteStore, backup: S3BackupManager?)
      ensures this.adapter == adapter && this.store == store && this.backup == backup
    {
      this.adapter := adapter;
      this.store := store;
      this.backup := backup;
    }

    /** `NewRedisStore`: a store at `dbPath` backed up next to it at
        `dbPath + ".bak"`; when backup is enabled, a manager over `client`
        whose loop is started. */
    static method NewRedisStore(dbPath: string, backupConfig: S3BackupConfig, file: set<Pair>,
                                mkdirErr: Error, openErr: Error, initErr: Error,
                                client: S3Client, loadErr: Error)
      returns (rs: RedisStore?, err: Error)
      requires client.Valid()
      ensures err.Nil? <==> rs != null
      ensures err.Nil? <==> mkdirErr.Nil? && openErr.Nil? && initErr.Nil?
                            && (backupConfig.enabled ==> loadErr.Nil?)
      ensures !(mkdirErr.Nil? && openErr.Nil? && initErr.Nil?) ==>
                HasPrefix(err.msg, "failed to create SQLite store: ")
      ensures (mkdirErr.Nil? && openErr.Nil? && initErr.Nil? && backupConfig.enabled && !loadErr.Nil?) ==>
                err == loadErr.Wrap("failed to configure AWS SDK").Wrap("failed to create S3 backup manager")
      ensures rs != null ==> fresh(rs) && fresh(rs.store) && rs.Valid()
      ensures rs != null ==> rs.store.rows == file && rs.store.open
      ensures rs != null ==> rs.store.dbPath == dbPath && rs.store.backupPath == dbPath + ".bak"
      ensures rs != null ==> (rs.backup != null <==> backupConfig.enabled)
      ensures rs != null && rs.backup != null ==>
                && rs.backup.s3Client == client && rs.backup.config == backupConfig
                && rs.backup.loopsStarted == (if backupConfig.frequency > 0 then 1 else 0)
    {
      var store, storeErr := SQLiteStore.NewSQLiteStore(dbPath, dbPath + ".bak", file, mkdirErr, openErr, initErr);
      if !storeErr.Nil? {
        return null, storeErr.Wrap("failed to create SQLite store");
      }
      var adapter := new RedisAdapter(store);
      var backup: S3BackupManager? := null;
      if backupConfig.enabled {
        var managerErr;
        backup, managerErr := S3BackupManager.NewS3BackupManager(store, backupConfig, client, loadErr);
        if !managerErr.Nil? {
          return null, managerErr.Wrap("failed to create S3 backup manager");
        }
        backup.Start();
      }
      rs := new RedisStore(adapter, store, backup);
      err := Nil;
    }

    /** `GetClient`: the adapter, which works on this store. */
    function GetClient(): (client: RedisAdapter)
      requires Valid()
      reads this, adapter, backup, if backup == null then null else backup.s3Client
      ensures client.store == store
    {
      adapter
    }

    /** `Close`: stops the backup manager, if any, then closes the store. */
    method Close(closeErr: Error) returns (err: Error)
      modifies store`open, backup
      ensures !store.open && err == closeErr
      ensures backup != null ==> backup.cancelled == (old(backup.cancelled) || backup.hasCancel)
      ensures backup != null ==> backup.loopsStarted == old(backup.loopsStarted)
    {
      if backup != null {
        backup.Stop();
      }
      err := store.Close(closeErr);
    }

    /** `ForceBackup`: "backup not configured" without a manager, otherwise
        the manager's `Backup`. */
    method ForceBackup(tempErr: Error, fileFaults: BackupFaults, stamp: string,
                       upload: UploadFaults, uploadedAt: Time)
      returns (err: Error)
      requires Valid()
      modifies if backup == null then null else backup.s3Client
      ensures Valid()
      ensures backup == null ==> err == Err(ErrBackupNotConfigured)
      ensures err.Nil? <==> backup != null && tempErr.Nil? && fileFaults.mkdir.Nil?
                            && fileFaults.openSource.Nil? && fileFaults.createBackup.Nil?
                            && fileFaults.copy.Nil? && upload.openFile.Nil? && upload.put.Nil?
      ensures err.Nil? ==>
                backup != null && backup.s3Client != null &&
                backup.s3Client.objects
                  == old(backup.s3Client.objects)[BackupKey(backup.config.keyPrefix, stamp) := StoredObject(store.rows, uploadedAt)]
      ensures backup != null && backup.s3Client != null && !err.Nil? ==>
                backup.s3Client.objects == old(backup.s3Client.objects)
    {
      if backup == null {
        return Err(ErrBackupNotConfigured);
      }
      err := backup.Backup(tempErr, fileFaults, stamp, upload, uploadedAt);
    }

    /** `RestoreFromBackup`: "backup not configured" without a manager,
        otherwise the manager's `Restore`, whose `restoredFrom` it passes on. */
    method RestoreFromBackup(listing: seq<ObjectInfo>, faults: DownloadFaults, fileFaults: RestoreFaults)
      returns (err: Error, ghost restoredFrom: Option<set<Pair>>)
      requires Valid()
      requires backup != null ==> ListedUnder(listing, ListPrefix(backup.config.keyPrefix))
      modifies store
      ensures Valid()
      ensures backup == null ==> err == Err(ErrBackupNotConfigured) && restoredFrom.None?
      // the failures before the store is touched
      ensures restoredFrom.None? ==> !err.Nil? && store.rows == old(store.rows) && store.open == old(store.open)
      ensures backup != null && !faults.list.Nil? ==> err == faults.list.Wrap("failed to list S3 objects")
      ensures backup != null && faults.list.Nil? && |listing| == 0 ==> err == Err(ErrNoBackups)
      // the store is touched exactly when every download step succeeds and the selected key is held
      ensures restoredFrom.Some? <==>
                && backup != null && backup.s3Client != null && faults == NoDownloadFaults
                && exists k :: Selected(listing, k) && listing[k].key in backup.s3Client.objects
      ensures restoredFrom.Some? ==>
                backup != null && backup.s3Client != null &&
                exists k :: Selected(listing, k) && listing[k].key in backup.s3Client.objects
                            && HasPrefix(listing[k].key, ListPrefix(backup.config.keyPrefix))
                            && backup.s3Client.objects[listing[k].key].content == restoredFrom.value
      ensures restoredFrom.Some? ==>
                RestoredFromFile(old(store.rows), store.rows, store.open, restoredFrom.value, fileFaults, err)
      ensures err.Nil? ==> restoredFrom.Some? && store.rows == restoredFrom.value && store.open
    {
      if backup == null {
        return Err(ErrBackupNotConfigured), None;
      }
      err, restoredFrom := backup.Restore(listing, faults, fileFaults);
    }
  }

  /** `SAdd` counts successful inserts, not new members: adding a member the
      set already holds counts 1 again, where Redis would count 0. */
  method SAddCountsPresentMember(key: string, member: string) returns (first: IntCmd, second: IntCmd)
    ensures first == IntCmd(1, Nil) && second == IntCmd(1, Nil)
  {
    var store := new SQLiteStore.Open("test.db", "test.db.bak", {});
    var adapter := new RedisAdapter(store);
    first := adapter.SAdd(key, [member], [Nil]);
    second := adapter.SAdd(key, [member], [Nil]);
  }

  /** A store built with backup disabled answers both backup operations
      with "backup not configured", leaving the table as it was. */
  method DisabledBackupNotConfigured(file: set<Pair>, listing: seq<ObjectInfo>)
    returns (forced: Error, restored: Error, rows: set<Pair>)
    ensures forced == Err(ErrBackupNotConfigured) && restored == Err(ErrBackupNotConfigured)
    ensures rows == file
  {
    var config := S3BackupConfig(false, "", "", "", "", "", "", 0);
    var client := new S3Client(map[]);
    var rs, err := RedisStore.NewRedisStore("gitlabrsssync.db", config, file, Nil, Nil, Nil, client, Nil);
    forced := rs.ForceBackup(Nil, NoBackupFaults, "20250101-000000", NoUploadFaults, 1);
    ghost var restoredFrom;
    restored, restoredFrom := rs.RestoreFromBackup(listing, NoDownloadFaults, NoRestoreFaults);
    rows := rs.store.rows;
  }
}
