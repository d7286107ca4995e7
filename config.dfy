/** The settings the core reads, and the rules `ApiSettings` applies to
    them: the `ENVIRONMENT` validator, the three environment flags and the
    database URL derived from them. */
module Config {
  import opened Wrappers

  const Environments: seq<string> := ["development", "testing", "staging", "production"]

  const DefaultEnvironment: string := "production"
  const DefaultDatabaseUrl: string := "sqlite:///./sql_app.db"
  const DefaultCacheTtl: int := 300

  /** The settings fields this model uses. */
  datatype Settings = Settings(environment: string, databaseUrl: string, cacheTtl: int)

  const Defaults: Settings := Settings(DefaultEnvironment, DefaultDatabaseUrl, DefaultCacheTtl)

  /** The validator on `ENVIRONMENT`: the value itself, or a `ValueError`
      naming the accepted values. */
  function ValidateEnvironment(v: string): (r: Reply<string>)
    ensures r.Ok? <==> v in {"development", "testing", "staging", "production"}
    ensures r.Ok? ==> r.value == v
  {
    if v in Environments then Ok(v)
    else Raised("ValueError: ENVIRONMENT must be one of ['development', 'testing', 'staging', 'production']")
  }

  predicate IsProduction(s: Settings) { s.environment == "production" }
  predicate IsDevelopment(s: Settings) { s.environment == "development" }
  predicate IsTesting(s: Settings) { s.environment == "testing" }

  /** The database URL, with `_test` appended in the testing environment. */
  function DatabaseUrl(s: Settings): (url: string)
    ensures IsTesting(s) <==> url != s.databaseUrl
    ensures IsTesting(s) ==> url == s.databaseUrl + "_test"
    ensures !IsTesting(s) ==> url == s.databaseUrl
  {
    if IsTesting(s) then s.databaseUrl + "_test" else s.databaseUrl
  }

  /** The three environment flags exclude one another. */
  lemma AtMostOneEnvironmentFlag(s: Settings)
    ensures !(IsProduction(s) && IsDevelopment(s))
    ensures !(IsProduction(s) && IsTesting(s))
    ensures !(IsDevelopment(s) && IsTesting(s))
  {
  }

  /** A validated environment sets at most one flag; `staging` sets none. */
  lemma ValidatedEnvironmentFlags(s: Settings)
    requires ValidateEnvironment(s.environment).Ok?
    ensures IsProduction(s) || IsDevelopment(s) || IsTesting(s) || s.environment == "staging"
  {
  }

  /** With the default settings the service runs in production against the
      unsuffixed database, and the default environment passes the validator. */
  lemma DefaultsAreProduction()
    ensures ValidateEnvironment(Defaults.environment) == Ok("production")
    ensures IsProduction(Defaults) && !IsTesting(Defaults) && !IsDevelopment(Defaults)
    ensures DatabaseUrl(Defaults) == "sqlite:///./sql_app.db"
  {
  }
}
