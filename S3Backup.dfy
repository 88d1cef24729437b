/** The backup manager of storage/s3_backup.go: snapshots of the store's file
    uploaded to a bucket under `<KeyPrefix>/<timestamp>.db`, and restore of the
    most recently modified one. */
module S3Backup {
  import opened Base
  import opened SqliteStore

  datatype S3BackupConfig = S3BackupConfig(
    enabled: bool,
    endpoint: string,
    region: string,
    bucketName: string,
    keyPrefix: string,
    accessKey: string,
    secretKey: string,
    frequency: Duration)

  /** An object of the bucket: a copy of a database file and when it was stored. */
  datatype StoredObject = StoredObject(content: set<Pair>, lastModified: Time)

  /** One entry of a `ListObjectsV2` response. */
  datatype ObjectInfo = ObjectInfo(key: string, lastModified: Time)

  /** Outcomes of the steps of `uploadToS3`. */
  datatype UploadFaults = UploadFaults(openFile: Error, put: Error)

  /** Outcomes of the steps of `Restore` before the store is touched. */
  datatype DownloadFaults = DownloadFaults(
    list: Error,       // ListObjectsV2
    get: Error,        // GetObject
    read: Error,       // io.Copy of the body
    tempDir: Error,    // os.MkdirTemp
    writeFile: Error)  // os.WriteFile of restore.db

  const NoUploadFaults := UploadFaults(Nil, Nil)
  const NoDownloadFaults := DownloadFaults(Nil, Nil, Nil, Nil, Nil)

  const ErrNotEnabled := "S3 backup not enabled or client not initialized"
  const ErrNoBackups := "no backups found in S3 bucket"
  const ErrNoClient := "S3 client not initialized"
  /** How `Restore` wraps a failure of `RestoreFromFile`. */
  const RestoreFailed := "failed to restore database: "
  /** A stand-in for the text `GetObject` reports for a key the bucket does
      not hold; the SDK's own wording is longer. */
  const ErrNoSuchKey := "NoSuchKey: The specified key does not exist."

  /** The bucket, as the S3 client sees it. */
  class S3Client {
    var objects: map<string, StoredObject>

    /** S3 has no object with an empty key. */
    ghost predicate Valid()
      reads this
    {
      "" !in objects
    }

    constructor (objects: map<string, StoredObject>)
      requires "" !in objects
      ensures this.objects == objects && Valid()
    {
      this.objects := objects;
    }
  }

  /** The key `uploadToS3` stores a backup under: `KeyPrefix + "/" + ts + ".db"`.
      It lies under the prefix `Restore` lists. */
  function BackupKey(prefix: string, stamp: string): (key: string)
    ensures HasPrefix(key, ListPrefix(prefix))
    ensures HasSuffix(key, ".db")
    ensures key != ""
  {
    prefix + "/" + stamp + ".db"
  }

  /** The prefix `Restore` lists: `KeyPrefix + "/"`. */
  function ListPrefix(prefix: string): (r: string)
    ensures HasPrefix(r, prefix) && |r| == |prefix| + 1 && r[|prefix|] == '/'
  {
    prefix + "/"
  }

  /** Every entry of `listing` lies under `prefix`, as `ListObjectsV2` with
      `Prefix` set guarantees for the objects it returns. */
  ghost predicate ListedUnder(listing: seq<ObjectInfo>, prefix: string)
  {
    forall j :: 0 <= j < |listing| ==> HasPrefix(listing[j].key, prefix)
  }

  /** Distinct timestamps give distinct keys, so one backup never overwrites
      another taken at a different second. */
  lemma BackupKeyInjective(prefix: string, stamp1: string, stamp2: string)
    requires BackupKey(prefix, stamp1) == BackupKey(prefix, stamp2)
    ensures stamp1 == stamp2
  {
    var key := BackupKey(prefix, stamp1);
    assert |stamp1| == |stamp2|;
    assert stamp1 == key[|prefix| + 1..|key| - 3];
    assert stamp2 == key[|prefix| + 1..|key| - 3];
  }

  /** Entry `k` is the one `Restore` selects: modified after the zero time,
      at least as recently as every entry, and strictly later than every
      entry before it (`After` is strict, so ties go to the first). */
  ghost predicate Selected(listing: seq<ObjectInfo>, k: int)
  {
    && 0 <= k < |listing|
    && listing[k].lastModified > ZeroTime
    && (forall j :: 0 <= j < |listing| ==> listing[j].lastModified <= listing[k].lastModified)
    && (forall j :: 0 <= j < k ==> listing[j].lastModified < listing[k].lastModified)
  }

  /** At most one entry is selected. */
  lemma SelectedUnique(listing: seq<ObjectInfo>, k1: int, k2: int)
    requires Selected(listing, k1) && Selected(listing, k2)
    ensures k1 == k2
  {
  }

  /** An entry modified strictly later than every other is the one selected. */
  lemma StrictlyLatestIsSelected(listing: seq<ObjectInfo>, q: int)
    requires 0 <= q < |listing| && listing[q].lastModified > ZeroTime
    requires forall j :: 0 <= j < |listing| && j != q ==> listing[j].lastModified < listing[q].lastModified
    ensures Selected(listing, q)
  {
  }

  /** The loop of `Restore` that finds the latest backup: the key and time of
      the selected entry, or "" and the zero time when no entry is later than
      the zero time. */
  method LatestBackup(contents: seq<ObjectInfo>) returns (latestKey: string, latestTime: Time)
    ensures (exists k :: Selected(contents, k) && contents[k] == ObjectInfo(latestKey, latestTime))
            || (latestKey == "" && latestTime == ZeroTime
                && forall j :: 0 <= j < |contents| ==> contents[j].lastModified <= ZeroTime)
  {
    latestKey, latestTime := "", ZeroTime;
    ghost var k := -1;
    for i := 0 to |contents|
      invariant -1 <= k < i
      invariant k == -1 ==> latestKey == "" && latestTime == ZeroTime
      invariant k >= 0 ==> contents[k] == ObjectInfo(latestKey, latestTime) && latestTime > ZeroTime
      invariant forall j :: 0 <= j < i ==> contents[j].lastModified <= latestTime
      invariant forall j :: 0 <= j < k ==> contents[j].lastModified < latestTime
    {
      if contents[i].lastModified > latestTime {
        latestTime := contents[i].lastModified;
        latestKey := contents[i].key;
        k := i;
      }
    }
    if k >= 0 {
      assert Selected(contents, k);
    }
  }

  /** What `Restore` leaves once it has handed the downloaded `backup` to
      `RestoreFromFile`: it succeeds exactly when every file step does, and
      then the handle is open on the backup's rows; a failure is wrapped as
      "failed to restore database" and leaves the handle closed, with the
      rows as `before` when the old file was not yet truncated, empty when
      the copy failed, and the backup's once it was copied. */
  ghost predicate RestoredFromFile(before: set<Pair>, after: set<Pair>, open: bool, backup: set<Pair>,
                                   faults: RestoreFaults, err: Error)
  {
    && (err.Nil? <==> faults == NoRestoreFaults)
    && (err.Nil? ==> open && after == backup)
    && (!err.Nil? ==> !open && HasPrefix(err.msg, RestoreFailed))
    && (!faults.close.Nil? || !faults.openBackup.Nil? || !faults.createDatabase.Nil? ==> after == before)
    && (faults.close.Nil? && faults.openBackup.Nil? && faults.createDatabase.Nil? && !faults.copy.Nil?
        ==> after == {})
    && (faults.close.Nil? && faults.openBackup.Nil? && faults.createDatabase.Nil? && faults.copy.Nil?
        ==> after == backup)
  }

  class S3BackupManager {
    /** `s3Client`; null when the manager was built disabled. */
    const s3Client: S3Client?
    const store: SQLiteStore
    const config: S3BackupConfig
    /** Whether `cancelCtx` is set. */
    const hasCancel: bool
    /** Whether `ctx` has been cancelled. */
    var cancelled: bool
    /** How many `backupLoop` goroutines `Start` has launched. */
    var loopsStarted: nat

    constructor (store: SQLiteStore, config: S3BackupConfig, s3Client: S3Client?, hasCancel: bool)
      ensures this.store == store && this.config == config
      ensures this.s3Client == s3Client && this.hasCancel == hasCancel
      ensures !cancelled && loopsStarted == 0
    {
      this.store := store;
      this.config := config;
      this.s3Client := s3Client;
      this.hasCancel := hasCancel;
      cancelled := false;
      loopsStarted := 0;
    }

    /** `NewS3BackupManager`: a disabled manager has neither client nor cancel
        function; an enabled one talks to `client` unless loading the AWS
        configuration (outcome `loadErr`) fails. */
    static method NewS3BackupManager(store: SQLiteStore, config: S3BackupConfig,
                                     client: S3Client, loadErr: Error)
      returns (m: S3BackupManager?, err: Error)
      ensures err.Nil? <==> m != null
      ensures !config.enabled ==> m != null && m.s3Client == null && !m.hasCancel
      ensures config.enabled ==> err == loadErr.Wrap("failed to configure AWS SDK")
      ensures config.enabled && m != null ==> m.s3Client == client && m.hasCancel
      ensures m != null ==> fresh(m) && m.store == store && m.config == config
      ensures m != null ==> !m.cancelled && m.loopsStarted == 0
    {
      if !config.enabled {
        m := new S3BackupManager(store, config, null, false);
        return m, Nil;
      }
      if !loadErr.Nil? {
        return null, loadErr.Wrap("failed to configure AWS SDK");
      }
      m := new S3BackupManager(store, config, client, true);
      err := Nil;
    }

    /** `Start`: launches the backup loop only when enabled with a positive
        frequency. */
    method Start()
      modifies this`loopsStarted
      ensures loopsStarted == old(loopsStarted) + (if config.enabled && config.frequency > 0 then 1 else 0)
    {
      if !config.enabled || config.frequency <= 0 {
        return;
      }
      loopsStarted := loopsStarted + 1;
    }

    /** `Stop`: calls the cancel function when there is one. */
    method Stop()
      modifies this`cancelled
      ensures cancelled == (old(cancelled) || hasCancel)
    {
      if hasCancel {
        cancelled := true;
      }
    }

    /** `uploadToS3` of a backup file holding `file`, at the instant formatted
        as `stamp`; the bucket records the object as modified at `uploadedAt`.
        Nothing is uploaded without a client. */
    method UploadToS3(file: set<Pair>, stamp: string, faults: UploadFaults, uploadedAt: Time)
      returns (err: Error)
      requires s3Client != null ==> s3Client.Valid()
      modifies s3Client
      ensures s3Client == null ==> err == Err(ErrNoClient)
      ensures s3Client != null ==> s3Client.Valid()
      ensures s3Client != null ==> err.Nil? == (faults.openFile.Nil? && faults.put.Nil?)
      ensures s3Client != null && err.Nil? ==>
                s3Client.objects == old(s3Client.objects)[BackupKey(config.keyPrefix, stamp) := StoredObject(file, uploadedAt)]
      ensures s3Client != null && !err.Nil? ==> s3Client.objects == old(s3Client.objects)
    {
      if s3Client == null {
        return Err(ErrNoClient);
      }
      if !faults.openFile.Nil? {
        return faults.openFile.Wrap("failed to open backup file");
      }
      var key := BackupKey(config.keyPrefix, stamp);
      if !faults.put.Nil? {
        return faults.put.Wrap("failed to upload to S3");
      }
      s3Client.objects := s3Client.objects[key := StoredObject(file, uploadedAt)];
      err := Nil;
    }

    /** `Backup`: nothing at all when disabled; otherwise a copy of the store's
        file (`BackupToFile` into a temporary directory) uploaded as in
        `UploadToS3`. The store is never changed. */
    method Backup(tempErr: Error, fileFaults: BackupFaults, stamp: string,
                  upload: UploadFaults, uploadedAt: Time)
      returns (err: Error)
      requires s3Client != null ==> s3Client.Valid()
      modifies s3Client
      ensures !config.enabled ==> err.Nil? && (s3Client != null ==> s3Client.objects == old(s3Client.objects))
      ensures s3Client != null ==> s3Client.Valid()
      ensures config.enabled ==>
                (err.Nil? <==> s3Client != null && tempErr.Nil? && fileFaults.mkdir.Nil?
                               && fileFaults.openSource.Nil? && fileFaults.createBackup.Nil?
                               && fileFaults.copy.Nil? && upload.openFile.Nil? && upload.put.Nil?)
      ensures config.enabled && s3Client == null && tempErr.Nil? && fileFaults.mkdir.Nil?
              && fileFaults.openSource.Nil? && fileFaults.createBackup.Nil? && fileFaults.copy.Nil?
              ==> err == Err(ErrNoClient)
      ensures s3Client != null && !err.Nil? ==> s3Client.objects == old(s3Client.objects)
      ensures config.enabled && err.Nil? ==>
                s3Client != null &&
                s3Client.objects == old(s3Client.objects)[BackupKey(config.keyPrefix, stamp) := StoredObject(store.rows, uploadedAt)]
    {
      if !config.enabled {
        return Nil;
      }
      if !tempErr.Nil? {
        return tempErr.Wrap("failed to create temp directory");
      }
      var file, fileErr := store.BackupToFile(fileFaults);
      if !fileErr.Nil? {
        return fileErr.Wrap("failed to create backup file");
      }
      err := UploadToS3(file, stamp, upload, uploadedAt);
    }

    /** `Restore`: without touching the store it fails when disabled or
        without a client, when listing fails, when nothing is listed, and when
        downloading fails; otherwise the store's table is restored by
        `RestoreFromFile` from the object of the selected entry (`Selected`).
        `restoredFrom` is that object's content when `RestoreFromFile` ran,
        and `None` when the store was not touched. */
    method Restore(listing: seq<ObjectInfo>, faults: DownloadFaults, fileFaults: RestoreFaults)
      returns (err: Error, ghost restoredFrom: Option<set<Pair>>)
      requires s3Client != null ==> s3Client.Valid()
      requires ListedUnder(listing, ListPrefix(config.keyPrefix))
      modifies store
      // the failures before the store is touched
      ensures restoredFrom.None? ==> !err.Nil? && store.rows == old(store.rows) && store.open == old(store.open)
      ensures !config.enabled || s3Client == null ==> err == Err(ErrNotEnabled)
      ensures config.enabled && s3Client != null && !faults.list.Nil? ==>
                err == faults.list.Wrap("failed to list S3 objects")
      ensures config.enabled && s3Client != null && faults.list.Nil? && |listing| == 0 ==> err == Err(ErrNoBackups)
      // the store is touched exactly when every download step succeeds and the selected key is held
      ensures restoredFrom.Some? <==>
                && config.enabled && s3Client != null && faults == NoDownloadFaults
                && exists k :: Selected(listing, k) && listing[k].key in s3Client.objects
      ensures restoredFrom.Some? ==>
                s3Client != null &&
                exists k :: Selected(listing, k) && listing[k].key in s3Client.objects
                            && HasPrefix(listing[k].key, ListPrefix(config.keyPrefix))
                            && s3Client.objects[listing[k].key].content == restoredFrom.value
      ensures restoredFrom.Some? ==>
                RestoredFromFile(old(store.rows), store.rows, store.open, restoredFrom.value, fileFaults, err)
      ensures err.Nil? ==> restoredFrom.Some? && store.rows == restoredFrom.value && store.open
      // the same facts, read off the error alone
      ensures !err.Nil? && HasPrefix(err.msg, RestoreFailed) ==> !store.open
      ensures (!err.Nil? && !HasPrefix(err.msg, RestoreFailed)) ==>
                store.rows == old(store.rows) && store.open == old(store.open)
    {
      restoredFrom := None;
      if !config.enabled || s3Client == null {
        PrefixesDiffer(ErrNotEnabled, ErrNotEnabled, RestoreFailed, 27);
        return Err(ErrNotEnabled), None;
      }
      if !faults.list.Nil? {
        WrapDiffers(faults.list, "failed to list S3 objects", RestoreFailed, 10);
        return faults.list.Wrap("failed to list S3 objects"), None;
      }
      if |listing| == 0 {
        PrefixesDiffer(ErrNoBackups, ErrNoBackups, RestoreFailed, 0);
        return Err(ErrNoBackups), None;
      }
      var latestKey, latestTime := LatestBackup(listing);
      if !faults.get.Nil? {
        WrapDiffers(faults.get, "failed to download backup from S3", RestoreFailed, 10);
        return faults.get.Wrap("failed to download backup from S3"), None;
      }
      if latestKey !in s3Client.objects {
        forall k | Selected(listing, k)
          ensures listing[k].key !in s3Client.objects
        {
          if latestKey != "" {
            ghost var q :| Selected(listing, q) && listing[q] == ObjectInfo(latestKey, latestTime);
            SelectedUnique(listing, k, q);
          }
        }
        err := Err("failed to download backup from S3: " + ErrNoSuchKey);
        assert err.msg[..10] == "failed to " && err.msg[10] == 'd';
        return err, None;
      }
      var content := s3Client.objects[latestKey].content;
      if !faults.read.Nil? {
        WrapDiffers(faults.read, "failed to read S3 object", RestoreFailed, 12);
        return faults.read.Wrap("failed to read S3 object"), None;
      }
      if !faults.tempDir.Nil? {
        WrapDiffers(faults.tempDir, "failed to create temp directory", RestoreFailed, 10);
        return faults.tempDir.Wrap("failed to create temp directory"), None;
      }
      if !faults.writeFile.Nil? {
        WrapDiffers(faults.writeFile, "failed to write restore file", RestoreFailed, 10);
        return faults.writeFile.Wrap("failed to write restore file"), None;
      }
      restoredFrom := Some(content);
      var restoreErr := store.RestoreFromFile(content, fileFaults);
      if !restoreErr.Nil? {
        WrapMessage(restoreErr, "failed to restore database");
        return restoreErr.Wrap("failed to restore database"), restoredFrom;
      }
      err := Nil;
    }
  }

  /** Listings under one prefix concatenate to one. */
  lemma ListedUnderAppend(a: seq<ObjectInfo>, b: seq<ObjectInfo>, prefix: string)
    requires ListedUnder(a, prefix) && ListedUnder(b, prefix)
    ensures ListedUnder(a + b, prefix)
  {
    forall j | 0 <= j < |a + b|
      ensures HasPrefix((a + b)[j].key, prefix)
    {
      if j >= |a| {
        assert (a + b)[j] == b[j - |a|];
      }
    }
  }

  /** Add, back up, lose the local file, restore: the pair is a member again,
      and the restored table is exactly the one backed up, whatever the other
      entries of the listing are as long as the new backup is the latest. */
  method BackupRestoreRoundTrip(feedID: string, guid: string, file: set<Pair>, lost: set<Pair>,
                                prefix: string, stamp: string, uploadedAt: Time,
                                before: seq<ObjectInfo>, after: seq<ObjectInfo>)
    returns (found: bool, restored: set<Pair>)
    requires uploadedAt > ZeroTime
    requires forall j :: 0 <= j < |before| ==> before[j].lastModified < uploadedAt
    requires forall j :: 0 <= j < |after| ==> after[j].lastModified < uploadedAt
    requires ListedUnder(before, ListPrefix(prefix)) && ListedUnder(after, ListPrefix(prefix))
    ensures found
    ensures restored == file + {(feedID, guid)}
  {
    var config := S3BackupConfig(true, "", "us-east-1", "bucket", prefix, "", "", 6 * Hour);
    var client := new S3Client(map[]);
    var store := new SQLiteStore.Open("gitlabrsssync.db", "gitlabrsssync.db.bak", file);
    var err := store.Add(feedID, guid, Nil);
    var manager := new S3BackupManager(store, config, client, true);
    err := manager.Backup(Nil, NoBackupFaults, stamp, NoUploadFaults, uploadedAt);

    var replacement := new SQLiteStore.Open("gitlabrsssync.db", "gitlabrsssync.db.bak", lost);
    var restorer := new S3BackupManager(replacement, config, client, true);
    var listing := before + [ObjectInfo(BackupKey(prefix, stamp), uploadedAt)] + after;
    StrictlyLatestIsSelected(listing, |before|);
    ListedUnderAppend(before, [ObjectInfo(BackupKey(prefix, stamp), uploadedAt)], ListPrefix(prefix));
    ListedUnderAppend(before + [ObjectInfo(BackupKey(prefix, stamp), uploadedAt)], after, ListPrefix(prefix));
    ghost var restoredFrom;
    err, restoredFrom := restorer.Restore(listing, NoDownloadFaults, NoRestoreFaults);
    assert listing[|before|].key in client.objects;
    assert err.Nil?;
    if err.Nil? {
      ghost var k :| Selected(listing, k) && listing[k].key in client.objects
               && replacement.rows == client.objects[listing[k].key].content;
      SelectedUnique(listing, k, |before|);
    }
    found, err := replacement.IsMember(feedID, guid, Nil);
    restored := replacement.rows;
  }
}
