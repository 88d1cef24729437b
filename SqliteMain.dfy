/** The start-up settings of the SQLite build, cmd/sqlite/main.go: which
    environment variables it requires, and the defaults of the optional ones. */
module SqliteMain {
  import opened Base

  /** `EnvValues` of cmd/sqlite/main.go. */
  datatype EnvValues = EnvValues(
    dbPath: string,
    confDir: string,
    gitlabAPIKey: string,
    gitlabAPIBaseUrl: string,
    s3Enabled: bool,
    s3Endpoint: string,
    s3Region: string,
    s3BucketName: string,
    s3KeyPrefix: string,
    s3AccessKey: string,
    s3SecretKey: string,
    s3BackupInterval: Duration)

  const DefaultDBName := "gitlabrsssync.db"
  const DefaultRegion := "us-east-1"
  const DefaultKeyPrefix := "gitlabrsssync"
  const DefaultBackupInterval: Duration := 6 * Hour
  const ErrBucketRequired := "S3_BUCKET_NAME is required when S3_ENABLED=true"

  /** `path.Join(dir, name)` for a non-empty `dir` and a plain file name:
      exactly one slash separates the two. */
  function PathJoin(dir: string, name: string): (r: string)
    requires dir != ""
    ensures HasPrefix(r, dir) && HasSuffix(r, "/" + name)
    ensures |r| == |dir| + |name| + (if dir[|dir| - 1] == '/' then 0 else 1)
  {
    if dir[|dir| - 1] == '/' then dir + name else dir + "/" + name
  }

  /** The value of `name`, or `default` when it is unset or empty. */
  function OrDefault(env: map<string, string>, name: string, default: string): (v: string)
    ensures v == default || v == Getenv(env, name)
    ensures Getenv(env, name) != "" ==> v == Getenv(env, name)
    ensures Getenv(env, name) == "" ==> v == default
  {
    var value := Getenv(env, name);
    if value == "" then default else value
  }

  /** `S3_BACKUP_INTERVAL`, read by `parseDuration` (`time.ParseDuration`):
      six hours when unset, empty or unparsable. */
  function BackupInterval(env: map<string, string>, parseDuration: string -> Option<Duration>): (d: Duration)
    ensures (Getenv(env, "S3_BACKUP_INTERVAL") == "" || parseDuration(env["S3_BACKUP_INTERVAL"]).None?)
            ==> d == DefaultBackupInterval
    ensures Getenv(env, "S3_BACKUP_INTERVAL") != "" && parseDuration(env["S3_BACKUP_INTERVAL"]).Some?
            ==> Some(d) == parseDuration(env["S3_BACKUP_INTERVAL"])
  {
    var value := Getenv(env, "S3_BACKUP_INTERVAL");
    if value == "" then DefaultBackupInterval
    else match parseDuration(value)
      case None => DefaultBackupInterval
      case Some(interval) => interval
  }

  /** `readEnv` over the process environment `env`: it starts exactly when
      the three required variables are set and, with backups on, so is the
      bucket. `ReadEnvPanics` and `ReadEnvValues` state the rest. */
  function ReadEnv(env: map<string, string>, parseDuration: string -> Option<Duration>): (r: Startup<EnvValues>)
    ensures r.Ready? <==> Getenv(env, "GITLAB_API_BASE_URL") != "" && Getenv(env, "GITLAB_API_TOKEN") != ""
                          && Getenv(env, "CONFIG_DIR") != ""
                          && (Getenv(env, "S3_ENABLED") == "true" ==> Getenv(env, "S3_BUCKET_NAME") != "")
    ensures r.Ready? ==> (r.value.s3Enabled <==> Getenv(env, "S3_ENABLED") == "true")
  {
    var baseUrl := Getenv(env, "GITLAB_API_BASE_URL");
    var token := Getenv(env, "GITLAB_API_TOKEN");
    var configDir := Getenv(env, "CONFIG_DIR");
    if baseUrl == "" then Panicked(MissingVariable("GITLAB_API_BASE_URL"))
    else if token == "" then Panicked(MissingVariable("GITLAB_API_TOKEN"))
    else if configDir == "" then Panicked(MissingVariable("CONFIG_DIR"))
    else
      var dbPath := OrDefault(env, "DB_PATH", PathJoin(configDir, DefaultDBName));
      if Getenv(env, "S3_ENABLED") != "true" then
        Ready(EnvValues(dbPath, configDir, token, baseUrl, false, "", "", "", "", "", "", 0))
      else if Getenv(env, "S3_BUCKET_NAME") == "" then
        Panicked(ErrBucketRequired)
      else
        Ready(EnvValues(dbPath, configDir, token, baseUrl, true,
                        Getenv(env, "S3_ENDPOINT"),
                        OrDefault(env, "S3_REGION", DefaultRegion),
                        Getenv(env, "S3_BUCKET_NAME"),
                        OrDefault(env, "S3_KEY_PREFIX", DefaultKeyPrefix),
                        Getenv(env, "S3_ACCESS_KEY"),
                        Getenv(env, "S3_SECRET_KEY"),
                        BackupInterval(env, parseDuration)))
  }

  /** The panics of `readEnv`: the three required variables, checked in this
      order, then the bucket. */
  lemma ReadEnvPanics(env: map<string, string>, parseDuration: string -> Option<Duration>)
    ensures var r := ReadEnv(env, parseDuration);
      && (Getenv(env, "GITLAB_API_BASE_URL") == "" ==> r == Panicked(MissingVariable("GITLAB_API_BASE_URL")))
      && (Getenv(env, "GITLAB_API_BASE_URL") != "" && Getenv(env, "GITLAB_API_TOKEN") == "" ==>
            r == Panicked(MissingVariable("GITLAB_API_TOKEN")))
      && ((Getenv(env, "GITLAB_API_BASE_URL") != "" && Getenv(env, "GITLAB_API_TOKEN") != ""
           && Getenv(env, "CONFIG_DIR") == "") ==> r == Panicked(MissingVariable("CONFIG_DIR")))
      && ((r.Panicked? && Getenv(env, "GITLAB_API_BASE_URL") != "" && Getenv(env, "GITLAB_API_TOKEN") != ""
           && Getenv(env, "CONFIG_DIR") != "") ==> r.msg == ErrBucketRequired)
  {
  }

  /** The settings `readEnv` starts with: the variables as they are, the
      database under the configuration directory unless `DB_PATH` is set,
      zero backup settings with backups off, and with backups on each
      setting's variable or its default. */
  lemma ReadEnvValues(env: map<string, string>, parseDuration: string -> Option<Duration>)
    requires ReadEnv(env, parseDuration).Ready?
    ensures var v := ReadEnv(env, parseDuration).value;
      && v.gitlabAPIBaseUrl == env["GITLAB_API_BASE_URL"] && v.gitlabAPIKey == env["GITLAB_API_TOKEN"]
      && v.confDir == env["CONFIG_DIR"]
      && v.dbPath == (if Getenv(env, "DB_PATH") != "" then env["DB_PATH"] else PathJoin(v.confDir, DefaultDBName))
    ensures var v := ReadEnv(env, parseDuration).value;
      !v.s3Enabled ==>
        && v.s3Endpoint == v.s3Region == v.s3BucketName == v.s3KeyPrefix == v.s3AccessKey == v.s3SecretKey == ""
        && v.s3BackupInterval == 0
    ensures var v := ReadEnv(env, parseDuration).value;
      v.s3Enabled ==>
        && v.s3Endpoint == Getenv(env, "S3_ENDPOINT")
        && v.s3BucketName == env["S3_BUCKET_NAME"] && v.s3BucketName != ""
        && v.s3Region == OrDefault(env, "S3_REGION", DefaultRegion) && v.s3Region != ""
        && v.s3KeyPrefix == OrDefault(env, "S3_KEY_PREFIX", DefaultKeyPrefix) && v.s3KeyPrefix != ""
        && v.s3AccessKey == Getenv(env, "S3_ACCESS_KEY") && v.s3SecretKey == Getenv(env, "S3_SECRET_KEY")
        && v.s3BackupInterval == BackupInterval(env, parseDuration)
  {
  }

  /** The variables `readEnv` consults whatever `S3_ENABLED` says. */
  predicate SameCoreVariables(env: map<string, string>, env': map<string, string>)
  {
    && Getenv(env, "GITLAB_API_BASE_URL") == Getenv(env', "GITLAB_API_BASE_URL")
    && Getenv(env, "GITLAB_API_TOKEN") == Getenv(env', "GITLAB_API_TOKEN")
    && Getenv(env, "CONFIG_DIR") == Getenv(env', "CONFIG_DIR")
    && Getenv(env, "DB_PATH") == Getenv(env', "DB_PATH")
    && Getenv(env, "S3_ENABLED") == Getenv(env', "S3_ENABLED")
  }

  /** Backups are off unless `S3_ENABLED` is exactly "true", and then no
      other `S3_*` variable has any effect, not even a missing bucket. */
  lemma S3VariablesIgnoredWhenDisabled(env: map<string, string>, env': map<string, string>,
                                       parseDuration: string -> Option<Duration>)
    requires SameCoreVariables(env, env') && Getenv(env, "S3_ENABLED") != "true"
    ensures ReadEnv(env, parseDuration) == ReadEnv(env', parseDuration)
    ensures ReadEnv(env, parseDuration).Ready? ==> !ReadEnv(env, parseDuration).value.s3Enabled
  {
  }

  /** An empty variable counts as an unset one, for every variable `readEnv` reads. */
  lemma EmptyIsUnset(env: map<string, string>, name: string, parseDuration: string -> Option<Duration>)
    ensures ReadEnv(env[name := ""], parseDuration) == ReadEnv(env - {name}, parseDuration)
  {
  }

  /** With backups on and no optional variable set (or each set to ""), the
      defaults are the database under the configuration directory, region
      us-east-1, key prefix gitlabrsssync and a six-hour interval. */
  lemma S3Defaults(env: map<string, string>, parseDuration: string -> Option<Duration>)
    requires Getenv(env, "GITLAB_API_BASE_URL") != "" && Getenv(env, "GITLAB_API_TOKEN") != ""
    requires Getenv(env, "CONFIG_DIR") != "" && Getenv(env, "S3_BUCKET_NAME") != ""
    requires Getenv(env, "S3_ENABLED") == "true"
    requires Getenv(env, "DB_PATH") == "" && Getenv(env, "S3_ENDPOINT") == "" && Getenv(env, "S3_REGION") == ""
    requires Getenv(env, "S3_KEY_PREFIX") == "" && Getenv(env, "S3_ACCESS_KEY") == ""
    requires Getenv(env, "S3_SECRET_KEY") == "" && Getenv(env, "S3_BACKUP_INTERVAL") == ""
    ensures ReadEnv(env, parseDuration)
            == Ready(EnvValues(PathJoin(env["CONFIG_DIR"], DefaultDBName), env["CONFIG_DIR"],
                               env["GITLAB_API_TOKEN"], env["GITLAB_API_BASE_URL"], true,
                               "", DefaultRegion, env["S3_BUCKET_NAME"], DefaultKeyPrefix, "", "", 6 * Hour))
  {
  }
}
