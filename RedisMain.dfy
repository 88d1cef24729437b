/** The start-up settings of the Redis build, main.go: the required
    variables, the password that must exist but may be empty, and the
    sentinel switch. */
module RedisMain {
  import opened Base

  /** `EnvValues` of main.go. */
  datatype EnvValues = EnvValues(
    redisURL: string,
    redisPassword: string,
    confDir: string,
    gitlabAPIKey: string,
    gitlabAPIBaseUrl: string,
    useSentinel: bool)

  const ErrPasswordMissing :=
    "Could not find REDIS_PASSWORD specified as an environment variable, it may be empty but it must exist"

  /** `readEnv` over the process environment `env`; `os.LookupEnv` is
      membership in `env`. */
  function ReadEnv(env: map<string, string>): (r: Startup<EnvValues>)
    ensures r.Ready? <==> && Getenv(env, "GITLAB_API_BASE_URL") != "" && Getenv(env, "GITLAB_API_TOKEN") != ""
                          && Getenv(env, "CONFIG_DIR") != "" && Getenv(env, "REDIS_URL") != ""
                          && "REDIS_PASSWORD" in env
    // the required variables, checked in this order
    ensures Getenv(env, "GITLAB_API_BASE_URL") == "" ==> r == Panicked(MissingVariable("GITLAB_API_BASE_URL"))
    ensures Getenv(env, "GITLAB_API_BASE_URL") != "" && Getenv(env, "GITLAB_API_TOKEN") == "" ==>
              r == Panicked(MissingVariable("GITLAB_API_TOKEN"))
    ensures (Getenv(env, "GITLAB_API_BASE_URL") != "" && Getenv(env, "GITLAB_API_TOKEN") != ""
             && Getenv(env, "CONFIG_DIR") == "") ==> r == Panicked(MissingVariable("CONFIG_DIR"))
    ensures (Getenv(env, "GITLAB_API_BASE_URL") != "" && Getenv(env, "GITLAB_API_TOKEN") != ""
             && Getenv(env, "CONFIG_DIR") != "" && Getenv(env, "REDIS_URL") == "") ==>
              r == Panicked(MissingVariable("REDIS_URL"))
    ensures (r.Panicked? && Getenv(env, "REDIS_URL") != "" && Getenv(env, "CONFIG_DIR") != ""
             && Getenv(env, "GITLAB_API_TOKEN") != "" && Getenv(env, "GITLAB_API_BASE_URL") != "") ==>
              r.msg == ErrPasswordMissing
    ensures r.Ready? ==>
              var v := r.value;
              && v.gitlabAPIBaseUrl == env["GITLAB_API_BASE_URL"] && v.gitlabAPIKey == env["GITLAB_API_TOKEN"]
              && v.confDir == env["CONFIG_DIR"] && v.redisURL == env["REDIS_URL"] && v.redisURL != ""
              && v.redisPassword == env["REDIS_PASSWORD"]
              && (v.useSentinel <==> "USE_SENTINEL" in env)
  {
    var baseUrl := Getenv(env, "GITLAB_API_BASE_URL");
    var token := Getenv(env, "GITLAB_API_TOKEN");
    var configDir := Getenv(env, "CONFIG_DIR");
    var redisURL := Getenv(env, "REDIS_URL");
    if baseUrl == "" then Panicked(MissingVariable("GITLAB_API_BASE_URL"))
    else if token == "" then Panicked(MissingVariable("GITLAB_API_TOKEN"))
    else if configDir == "" then Panicked(MissingVariable("CONFIG_DIR"))
    else if redisURL == "" then Panicked(MissingVariable("REDIS_URL"))
    else if "REDIS_PASSWORD" !in env then Panicked(ErrPasswordMissing)
    else Ready(EnvValues(redisURL, env["REDIS_PASSWORD"], configDir, token, baseUrl, "USE_SENTINEL" in env))
  }

  /** An empty `REDIS_PASSWORD` is accepted while an unset one is fatal; an
      empty `REDIS_URL` is as fatal as an unset one. */
  lemma PasswordMayBeEmpty(env: map<string, string>)
    requires Getenv(env, "GITLAB_API_BASE_URL") != "" && Getenv(env, "GITLAB_API_TOKEN") != ""
    requires Getenv(env, "CONFIG_DIR") != "" && Getenv(env, "REDIS_URL") != ""
    ensures ReadEnv(env["REDIS_PASSWORD" := ""]).Ready?
    ensures ReadEnv(env["REDIS_PASSWORD" := ""]).value.redisPassword == ""
    ensures ReadEnv(env - {"REDIS_PASSWORD"}) == Panicked(ErrPasswordMissing)
    ensures ReadEnv(env["REDIS_URL" := ""]) == ReadEnv(env - {"REDIS_URL"}) == Panicked(MissingVariable("REDIS_URL"))
  {
  }

  /** Sentinel mode follows the presence of `USE_SENTINEL`, not its value:
      setting it to "false" or "" still turns it on. */
  lemma SentinelIsPresence(env: map<string, string>, value: string)
    requires ReadEnv(env).Ready?
    ensures ReadEnv(env["USE_SENTINEL" := value]).Ready?
    ensures ReadEnv(env["USE_SENTINEL" := value]).value.useSentinel
    ensures !ReadEnv(env - {"USE_SENTINEL"}).value.useSentinel
  {
  }
}
