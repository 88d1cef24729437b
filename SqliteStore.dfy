/** The dedup store of storage/sqlite_store.go: the `feed_items` table of an
    SQLite file, seen as the set of its `(feed_id, guid)` primary keys. */
module SqliteStore {
  import opened Base

  /** The composite primary key `(feed_id, guid)` of a `feed_items` row. */
  type Pair = (string, string)

  /** What `database/sql` reports for any statement on a closed handle. */
  const ErrDatabaseClosed := "sql: database is closed"

  /** The outcome of a statement: a closed handle fails it, otherwise the
      driver's own outcome `err` (given) stands. */
  function DriverError(open: bool, err: Error): Error
  {
    if !open then Err(ErrDatabaseClosed) else err
  }

  /** The error `Add` returns when the driver reports `execErr`. */
  function AddError(open: bool, execErr: Error): (r: Error)
    ensures r.Nil? <==> open && execErr.Nil?
  {
    DriverError(open, execErr).Wrap("failed to add guid")
  }

  /** Outcomes of the file steps of `BackupToFile`, in the order they run. */
  datatype BackupFaults = BackupFaults(
    mkdir: Error,         // os.MkdirAll of the backup directory
    checkpoint: Error,    // PRAGMA wal_checkpoint(FULL)
    openSource: Error,    // os.Open of the database file
    createBackup: Error,  // os.Create of the backup file
    copy: Error)          // dstFile.ReadFrom(srcFile)

  /** Outcomes of the steps of `RestoreFromFile`, in the order they run. */
  datatype RestoreFaults = RestoreFaults(
    close: Error,           // s.db.Close()
    openBackup: Error,      // os.Open of the backup file
    createDatabase: Error,  // os.Create of the database file (truncates it)
    copy: Error,            // dstFile.ReadFrom(srcFile)
    reopen: Error)          // sql.Open of the database file

  const NoBackupFaults := BackupFaults(Nil, Nil, Nil, Nil, Nil)
  const NoRestoreFaults := RestoreFaults(Nil, Nil, Nil, Nil, Nil)

  class SQLiteStore {
    /** The `(feed_id, guid)` keys of `feed_items`; the journal mode is never
        switched to write-ahead logging, so this is also what the file holds. */
    var rows: set<Pair>
    /** Whether `s.db` is an open handle. */
    var open: bool
    const dbPath: string
    const backupPath: string

    /** An open handle over a database file whose table holds `file`. */
    constructor Open(dbPath: string, backupPath: string, file: set<Pair>)
      ensures this.dbPath == dbPath && this.backupPath == backupPath
      ensures rows == file && open
    {
      this.dbPath := dbPath;
      this.backupPath := backupPath;
      rows := file;
      open := true;
    }

    /** `NewSQLiteStore` over a file at `dbPath` whose table holds `file`
        (empty for a new file). `initialize` only creates what does not exist,
        so reopening an existing file keeps its rows. */
    static method NewSQLiteStore(dbPath: string, backupPath: string, file: set<Pair>,
                                 mkdirErr: Error, openErr: Error, initErr: Error)
      returns (s: SQLiteStore?, err: Error)
      ensures err.Nil? <==> mkdirErr.Nil? && openErr.Nil? && initErr.Nil?
      ensures err.Nil? <==> s != null
      ensures !mkdirErr.Nil? ==> err == mkdirErr.Wrap("failed to create database directory")
      ensures mkdirErr.Nil? && !openErr.Nil? ==> err == openErr.Wrap("failed to open database")
      ensures mkdirErr.Nil? && openErr.Nil? ==> err == initErr.Wrap("failed to create tables")
      ensures s != null ==> fresh(s) && s.rows == file && s.open
      ensures s != null ==> s.dbPath == dbPath && s.backupPath == backupPath
    {
      if !mkdirErr.Nil? {
        return null, mkdirErr.Wrap("failed to create database directory");
      }
      if !openErr.Nil? {
        return null, openErr.Wrap("failed to open database");
      }
      var store := new SQLiteStore.Open(dbPath, backupPath, file);
      err := store.Initialize(initErr);
      if !err.Nil? {
        store.open := false;
        return null, err;
      }
      s := store;
    }

    /** `initialize`: `CREATE TABLE IF NOT EXISTS` and `CREATE INDEX IF NOT
        EXISTS` leave an existing table and its rows alone. */
    method Initialize(execErr: Error) returns (err: Error)
      ensures err == DriverError(open, execErr).Wrap("failed to create tables")
    {
      err := DriverError(open, execErr).Wrap("failed to create tables");
    }

    /** `IsMember`: reports the pair present only when it is, and `(false, err)`
        when the query fails. */
    method IsMember(feedID: string, guid: string, queryErr: Error) returns (found: bool, err: Error)
      ensures err.Nil? <==> open && queryErr.Nil?
      ensures !err.Nil? ==> err == DriverError(open, queryErr).Wrap("failed to check if guid exists")
      ensures found <==> err.Nil? && (feedID, guid) in rows
    {
      var dbErr := DriverError(open, queryErr);
      if !dbErr.Nil? {
        return false, dbErr.Wrap("failed to check if guid exists");
      }
      found, err := (feedID, guid) in rows, Nil;
    }

    /** `Add`: `INSERT OR IGNORE`, so adding a present pair succeeds and
        changes nothing, and no other pair is affected. */
    method Add(feedID: string, guid: string, execErr: Error) returns (err: Error)
      modifies this`rows
      ensures err == AddError(open, execErr)
      ensures rows == if err.Nil? then old(rows) + {(feedID, guid)} else old(rows)
      ensures err.Nil? ==> (feedID, guid) in rows
      ensures forall p :: p != (feedID, guid) ==> (p in rows <==> p in old(rows))
    {
      err := AddError(open, execErr);
      if err.Nil? {
        rows := rows + {(feedID, guid)};
      }
    }

    /** `Ping`: fails on a closed handle or when the driver reports `pingErr`. */
    method Ping(pingErr: Error) returns (err: Error)
      ensures err.Nil? <==> open && pingErr.Nil?
      ensures err == DriverError(open, pingErr)
    {
      err := DriverError(open, pingErr);
    }

    /** `Close`: the handle is closed afterwards whatever the driver reports. */
    method Close(closeErr: Error) returns (err: Error)
      modifies this`open
      ensures !open && err == closeErr
    {
      open := false;
      err := closeErr;
    }

    /** `BackupToFile`: a copy of the database file, that is, of the table.
        A failed checkpoint is only logged. The copy reads the file, so it
        works on a closed handle too. */
    method BackupToFile(faults: BackupFaults) returns (file: set<Pair>, err: Error)
      ensures err.Nil? <==> faults.mkdir.Nil? && faults.openSource.Nil?
                            && faults.createBackup.Nil? && faults.copy.Nil?
      ensures err.Nil? ==> file == rows
    {
      if !faults.mkdir.Nil? {
        return {}, faults.mkdir.Wrap("failed to create backup directory");
      }
      // a checkpoint failure is logged and the backup goes on
      if !faults.openSource.Nil? {
        return {}, faults.openSource.Wrap("failed to open source database");
      }
      if !faults.createBackup.Nil? {
        return {}, faults.createBackup.Wrap("failed to create backup file");
      }
      if !faults.copy.Nil? {
        return {}, faults.copy.Wrap("failed to copy database");
      }
      file, err := rows, Nil;
    }

    /** `RestoreFromFile` from a backup file holding `backup`: the table is
        replaced, not merged. The handle is closed first and is reopened only
        when every step succeeds. */
    method RestoreFromFile(backup: set<Pair>, faults: RestoreFaults) returns (err: Error)
      modifies this
      ensures err.Nil? <==> faults.close.Nil? && faults.openBackup.Nil? && faults.createDatabase.Nil?
                            && faults.copy.Nil? && faults.reopen.Nil?
      ensures err.Nil? ==> rows == backup && open
      ensures !err.Nil? ==> !open
      ensures (!faults.close.Nil? || !faults.openBackup.Nil? || !faults.createDatabase.Nil?)
              ==> rows == old(rows)
      ensures (faults.close.Nil? && faults.openBackup.Nil? && faults.createDatabase.Nil?
               && !faults.copy.Nil?) ==> rows == {}
      ensures (faults.close.Nil? && faults.openBackup.Nil? && faults.createDatabase.Nil?
               && faults.copy.Nil?) ==> rows == backup
    {
      open := false;
      if !faults.close.Nil? {
        return faults.close.Wrap("failed to close database connection");
      }
      if !faults.openBackup.Nil? {
        return faults.openBackup.Wrap("failed to open backup file");
      }
      if !faults.createDatabase.Nil? {
        return faults.createDatabase.Wrap("failed to create database file");
      }
      // os.Create truncated the database file; a copy that fails midway is
      // taken to have written nothing
      if !faults.copy.Nil? {
        rows := {};
        return faults.copy.Wrap("failed to copy backup");
      }
      rows := backup;
      if !faults.reopen.Nil? {
        return faults.reopen.Wrap("failed to reopen database");
      }
      open := true;
      err := Nil;
    }
  }

  /** storage/sqlite_store_test.go's IsMember test: a new store reports the
      pair absent, and present after a successful `Add`. */
  method AddThenIsMember(feedID: string, guid: string) returns (before: bool, after: bool)
    ensures !before && after
  {
    var s, err := SQLiteStore.NewSQLiteStore("test.db", "test.db.bak", {}, Nil, Nil, Nil);
    before, err := s.IsMember(feedID, guid, Nil);
    err := s.Add(feedID, guid, Nil);
    after, err := s.IsMember(feedID, guid, Nil);
  }

  /** Backing up one store and restoring the file into another leaves the
      second holding exactly what the first held, whatever it held before. */
  method BackupThenRestoreFile(source: set<Pair>, other: set<Pair>) returns (restored: set<Pair>, err: Error)
    ensures err.Nil? && restored == source
  {
    var s := new SQLiteStore.Open("test.db", "test.db.bak", source);
    var file;
    file, err := s.BackupToFile(NoBackupFaults);
    var closeErr := s.Close(Nil);
    var t := new SQLiteStore.Open("test.db.new", "test.db.bak", other);
    err := t.RestoreFromFile(file, NoRestoreFaults);
    restored := t.rows;
  }
}
