/** The configuration loader of config/config.go: the process environment,
    injected as a map, becomes one `Config` record in which every field is
    either taken from the environment or set to its default. */
module ConfigLoader {
  import opened Wrappers
  import opened GoStrings
  import opened GoStrconv

  /** The process environment after the optional `.env` file was applied. */
  type Env = map<string, string>

  /** A `time.Duration`: a signed 64-bit count of nanoseconds. */
  type Duration = Int64

  const Minute: Duration := 60_000_000_000
  const Hour: Duration := 3_600_000_000_000

  const DefaultRateLimit: Int64 := 100
  const DefaultRateLimitWindow: Duration := 15 * Minute
  const DefaultJwtExpiration: Duration := 24 * Hour
  const DefaultCorsOrigins: string := "http://localhost:3000"

  /** The environment variables the loader consults. */
  const ConfigKeys: set<string> := {
    "PORT", "DB_HOST", "DB_PORT", "DB_USER", "DB_PASSWORD", "DB_NAME", "JWT_SECRET",
    "JWT_EXPIRATION", "CORS_ALLOWED_ORIGINS", "RATE_LIMIT", "RATE_LIMIT_WINDOW",
    "GOOGLE_CLIENT_ID", "GOOGLE_CLIENT_SECRET"
  }

  datatype Config = Config(
    port: string,
    dbHost: string,
    dbPort: string,
    dbUser: string,
    dbPassword: string,
    dbName: string,
    jwtSecret: string,
    jwtExpiration: Duration,
    corsAllowedOrigins: seq<string>,
    rateLimit: Int64,
    rateLimitWindow: Duration,
    googleClientId: string,
    googleClientSecret: string
  )

  /** The record an empty environment produces. */
  const Defaults: Config := Config(
    port := "8080",
    dbHost := "localhost",
    dbPort := "5432",
    dbUser := "your_db_user",
    dbPassword := "your_db_password",
    dbName := "dashboard_db",
    jwtSecret := "your_jwt_secret_key",
    jwtExpiration := DefaultJwtExpiration,
    corsAllowedOrigins := [DefaultCorsOrigins],
    rateLimit := DefaultRateLimit,
    rateLimitWindow := DefaultRateLimitWindow,
    googleClientId := "",
    googleClientSecret := ""
  )

  /** os.LookupEnv: the value and whether the variable is set at all. */
  function LookupEnv(env: Env, key: string): (r: Option<string>)
    ensures r.Some? <==> key in env
    ensures r.Some? ==> r.value == env[key]
  {
    if key in env then Some(env[key]) else None
  }

  /** getEnv: a variable that is set wins, even when its value is empty;
      only an unset variable yields the default. */
  function GetEnv(env: Env, key: string, defaultVal: string): (v: string)
    ensures key in env ==> v == env[key]
    ensures key !in env ==> v == defaultVal
  {
    match LookupEnv(env, key)
    case Some(value) => value
    case None => defaultVal
  }

  // ---------------------------------------------------------------------
  // splitAndTrim

  /** The tokens of a list of parts: each part trimmed, the empty ones
      dropped, the others kept in order. */
  function Tokens(parts: seq<string>): (r: seq<string>)
    ensures |r| <= |parts|
    ensures forall k :: 0 <= k < |r| ==> r[k] != [] && IsTrimmed(r[k])
  {
    if parts == [] then []
    else
      var trimmed := TrimSpace(parts[|parts| - 1]);
      Tokens(parts[..|parts| - 1]) + (if trimmed != [] then [trimmed] else [])
  }

  /** splitAndTrim: splits `s` on `sep`, trims each part and keeps the
      non-empty results in order. */
  method SplitAndTrim(s: string, sep: string) returns (result: seq<string>)
    ensures result == Tokens(Split(s, sep))
    ensures forall k :: 0 <= k < |result| ==> result[k] != [] && IsTrimmed(result[k])
    ensures |result| <= Count(s, sep) + 1
  {
    var parts := Split(s, sep);
    result := [];
    for i := 0 to |parts|
      invariant result == Tokens(parts[..i])
    {
      var trimmed := TrimSpace(parts[i]);
      if trimmed != [] {
        result := result + [trimmed];
      }
      assert parts[..i + 1][..i] == parts[..i];
    }
    assert parts[..|parts|] == parts;
    SplitLength(s, sep);
  }

  /** Tokens distributes over concatenation: the tokens of later parts
      come after those of earlier parts. */
  lemma {:induction false} TokensAppend(p: seq<string>, q: seq<string>)
    ensures Tokens(p + q) == Tokens(p) + Tokens(q)
    decreases |q|
  {
    if q == [] {
      assert p + q == p;
    } else {
      var q' := q[..|q| - 1];
      TokensAppend(p, q');
      assert (p + q)[..|p + q| - 1] == p + q';
      assert (p + q)[|p + q| - 1] == q[|q| - 1];
    }
  }

  /** A token is exactly the non-empty trimmed form of some part. */
  lemma {:induction false} TokensMembership(parts: seq<string>, t: string)
    ensures t in Tokens(parts) <==>
      t != [] && exists j :: 0 <= j < |parts| && TrimSpace(parts[j]) == t
    decreases |parts|
  {
    if parts != [] {
      var init := parts[..|parts| - 1];
      var trimmed := TrimSpace(parts[|parts| - 1]);
      TokensMembership(init, t);
      assert Tokens(parts) == Tokens(init) + (if trimmed != [] then [trimmed] else []);
      if exists j :: 0 <= j < |parts| && TrimSpace(parts[j]) == t {
        var j :| 0 <= j < |parts| && TrimSpace(parts[j]) == t;
        if j < |parts| - 1 {
          assert init[j] == parts[j];
        }
      }
      if exists j :: 0 <= j < |init| && TrimSpace(init[j]) == t {
        var j :| 0 <= j < |init| && TrimSpace(init[j]) == t;
        assert parts[j] == init[j];
      }
    }
  }

  /** There are no tokens exactly when every part is blank. */
  lemma {:induction false} TokensEmptyIffBlank(parts: seq<string>)
    ensures Tokens(parts) == [] <==> forall j :: 0 <= j < |parts| ==> IsBlank(parts[j])
    decreases |parts|
  {
    if parts != [] {
      var init := parts[..|parts| - 1];
      TokensEmptyIffBlank(init);
      TrimSpaceEmptyIffBlank(parts[|parts| - 1]);
      if forall j :: 0 <= j < |init| ==> IsBlank(init[j]) {
        if IsBlank(parts[|parts| - 1]) {
          forall j | 0 <= j < |parts| ensures IsBlank(parts[j]) {
            if j < |init| { assert parts[j] == init[j]; }
          }
        }
      } else {
        var j :| 0 <= j < |init| && !IsBlank(init[j]);
        assert parts[j] == init[j];
      }
    }
  }

  /** Tokens leaves a list of non-empty trimmed strings as it is. */
  lemma {:induction false} TokensOfTokens(ts: seq<string>)
    requires forall k :: 0 <= k < |ts| ==> ts[k] != [] && IsTrimmed(ts[k])
    ensures Tokens(ts) == ts
    decreases |ts|
  {
    if ts != [] {
      TokensOfTokens(ts[..|ts| - 1]);
      TrimSpaceFixpoint(ts[|ts| - 1]);
      assert ts[..|ts| - 1] + [ts[|ts| - 1]] == ts;
    }
  }

  /** Writing a list of origins as a comma-separated string and reading it
      back gives the list, provided each origin is non-empty, trimmed and
      free of commas. */
  lemma OriginsRoundTrip(ts: seq<string>)
    requires forall k :: 0 <= k < |ts| ==> ts[k] != [] && IsTrimmed(ts[k]) && ',' !in ts[k]
    ensures Tokens(Split(Join(ts, ","), ",")) == ts
  {
    TokensOfTokens(ts);
    if ts == [] {
      assert Split([], ",") == [[]];
      assert IsBlank([]);
      TokensEmptyIffBlank([[]]);
    } else {
      SplitJoin(ts, ',');
    }
  }

  /** An empty list value, or one whose parts are all blank, gives no
      origins at all. */
  lemma SplitAndTrimBlankExamples()
    ensures Tokens(Split("", ",")) == []
    ensures Tokens(Split(" , ,", ",")) == []
  {
    SplitWithoutSeparator("", ',');
    TokensEmptyIffBlank([""]);
    assert " , ," == Join([" ", " ", ""], ",");
    SplitJoin([" ", " ", ""], ',');
    assert IsBlank(" ");
    TokensEmptyIffBlank([" ", " ", ""]);
  }

  /** The four comma-separated parts of the example origin list. */
  lemma SplitExample()
    ensures Split(" http://a.com , http://b.com ,,", ",") == [" http://a.com ", " http://b.com ", "", ""]
  {
    var parts := [" http://a.com ", " http://b.com ", "", ""];
    assert Join(parts, ",") == " http://a.com , http://b.com ,," by {
      assert parts[1..][1..][1..] == [""];
      assert Join(parts[1..][1..], ",") == ",";
      assert Join(parts[1..], ",") == " http://b.com " + ",,";
    }
    SplitJoin(parts, ',');
  }

  /** Two padded origins followed by two empty parts give the two origins. */
  lemma TokensOfPaddedPair(a: string, b: string)
    requires a != [] && IsTrimmed(a) && b != [] && IsTrimmed(b)
    ensures Tokens([" " + a + " ", " " + b + " ", "", ""]) == [a, b]
  {
    var parts := [" " + a + " ", " " + b + " ", "", ""];
    TrimSpacePadded(a);
    TrimSpacePadded(b);
    assert IsBlank("");
    TokensEmptyIffBlank(["", ""]);
    assert Tokens([" " + a + " "]) == [a] by { assert [" " + a + " "][..0] == []; }
    assert Tokens(parts[..2]) == [a, b] by {
      assert parts[..2][..1] == [" " + a + " "];
    }
    TokensAppend(parts[..2], parts[2..]);
    assert parts == parts[..2] + parts[2..];
  }

  /** Whitespace around the origins is trimmed and empty parts are dropped. */
  lemma SplitAndTrimExample()
    ensures Tokens(Split(" http://a.com , http://b.com ,,", ",")) == ["http://a.com", "http://b.com"]
  {
    var a, b := "http://a.com", "http://b.com";
    assert " " + a + " " == " http://a.com ";
    assert " " + b + " " == " http://b.com ";
    SplitExample();
    TokensOfPaddedPair(a, b);
  }

  // ---------------------------------------------------------------------
  // LoadConfig

  /** What time.ParseDuration returns for the two default literals. */
  predicate AgreesOnDefaults(parseDuration: string -> Option<Duration>)
  {
    parseDuration("15m") == Some(15 * Minute) && parseDuration("24h") == Some(24 * Hour)
  }

  lemma AtoiDefaultRateLimit()
    ensures Atoi("100") == Some(100)
  {
    assert "100"[..2] == "10" && "10"[..1] == "1" && "1"[..0] == "";
    assert DecimalValue("1") == 1;
    assert DecimalValue("10") == 10;
    assert DecimalValue("100") == 100;
  }

  /** LoadConfig: every string field is its variable or its literal default;
      the rate limit, the rate-limit window and the token lifetime fall back
      to 100, 15 minutes and 24 hours when their value does not parse;
      `parseDuration` stands for time.ParseDuration. */
  function LoadConfig(env: Env, parseDuration: string -> Option<Duration>): (c: Config)
    ensures forall k :: 0 <= k < |c.corsAllowedOrigins| ==>
      c.corsAllowedOrigins[k] != [] && IsTrimmed(c.corsAllowedOrigins[k])
    ensures "RATE_LIMIT" !in env || Atoi(env["RATE_LIMIT"]).None? ==> c.rateLimit == DefaultRateLimit
    ensures "RATE_LIMIT" in env && Atoi(env["RATE_LIMIT"]).Some? ==>
      c.rateLimit == Atoi(env["RATE_LIMIT"]).value
    ensures "RATE_LIMIT_WINDOW" in env && parseDuration(env["RATE_LIMIT_WINDOW"]).None? ==>
      c.rateLimitWindow == DefaultRateLimitWindow
    ensures "RATE_LIMIT_WINDOW" in env && parseDuration(env["RATE_LIMIT_WINDOW"]).Some? ==>
      c.rateLimitWindow == parseDuration(env["RATE_LIMIT_WINDOW"]).value
    ensures "JWT_EXPIRATION" in env && parseDuration(env["JWT_EXPIRATION"]).None? ==>
      c.jwtExpiration == DefaultJwtExpiration
    ensures "JWT_EXPIRATION" in env && parseDuration(env["JWT_EXPIRATION"]).Some? ==>
      c.jwtExpiration == parseDuration(env["JWT_EXPIRATION"]).value
  {
    AtoiDefaultRateLimit();
    var rateLimit := Atoi(GetEnv(env, "RATE_LIMIT", "100")).GetOr(DefaultRateLimit);
    var rateLimitWindow := parseDuration(GetEnv(env, "RATE_LIMIT_WINDOW", "15m")).GetOr(DefaultRateLimitWindow);
    var jwtExpiration := parseDuration(GetEnv(env, "JWT_EXPIRATION", "24h")).GetOr(DefaultJwtExpiration);
    var corsOrigins := GetEnv(env, "CORS_ALLOWED_ORIGINS", DefaultCorsOrigins);
    var allowedOrigins := Tokens(Split(corsOrigins, ","));
    Config(
      port := GetEnv(env, "PORT", "8080"),
      dbHost := GetEnv(env, "DB_HOST", "localhost"),
      dbPort := GetEnv(env, "DB_PORT", "5432"),
      dbUser := GetEnv(env, "DB_USER", "your_db_user"),
      dbPassword := GetEnv(env, "DB_PASSWORD", "your_db_password"),
      dbName := GetEnv(env, "DB_NAME", "dashboard_db"),
      jwtSecret := GetEnv(env, "JWT_SECRET", "your_jwt_secret_key"),
      jwtExpiration := jwtExpiration,
      corsAllowedOrigins := allowedOrigins,
      rateLimit := rateLimit,
      rateLimitWindow := rateLimitWindow,
      googleClientId := GetEnv(env, "GOOGLE_CLIENT_ID", ""),
      googleClientSecret := GetEnv(env, "GOOGLE_CLIENT_SECRET", "")
    )
  }

  /** The default origin list has exactly the one default origin. */
  lemma DefaultOriginsTokens()
    ensures Tokens(Split(DefaultCorsOrigins, ",")) == [DefaultCorsOrigins]
  {
    assert ',' !in DefaultCorsOrigins && DefaultCorsOrigins != [] && IsTrimmed(DefaultCorsOrigins);
    TokensOfSingleOrigin(DefaultCorsOrigins);
  }

  /** A single non-empty, trimmed origin without commas is read as itself. */
  lemma TokensOfSingleOrigin(x: string)
    requires ',' !in x && x != [] && IsTrimmed(x)
    ensures Tokens(Split(x, ",")) == [x]
  {
    SplitWithoutSeparator(x, ',');
    TrimSpaceFixpoint(x);
    assert [x][..0] == [];
  }

  /** An empty environment yields the documented default for every field. */
  lemma LoadConfigEmptyEnv(parseDuration: string -> Option<Duration>)
    requires AgreesOnDefaults(parseDuration)
    ensures LoadConfig(map[], parseDuration) == Defaults
  {
    DefaultOriginsTokens();
  }

  /** A variable that is set, even to the empty string, overrides the
      default of its string field. */
  lemma LoadConfigStringOverrides(env: Env, parseDuration: string -> Option<Duration>)
    ensures var c := LoadConfig(env, parseDuration);
      ("PORT" in env ==> c.port == env["PORT"])
      && ("DB_HOST" in env ==> c.dbHost == env["DB_HOST"])
      && ("DB_PORT" in env ==> c.dbPort == env["DB_PORT"])
      && ("DB_USER" in env ==> c.dbUser == env["DB_USER"])
      && ("DB_PASSWORD" in env ==> c.dbPassword == env["DB_PASSWORD"])
      && ("DB_NAME" in env ==> c.dbName == env["DB_NAME"])
      && ("JWT_SECRET" in env ==> c.jwtSecret == env["JWT_SECRET"])
      && ("GOOGLE_CLIENT_ID" in env ==> c.googleClientId == env["GOOGLE_CLIENT_ID"])
      && ("GOOGLE_CLIENT_SECRET" in env ==> c.googleClientSecret == env["GOOGLE_CLIENT_SECRET"])
  {
  }

  /** A variable that is unset leaves its string field at the default,
      whatever else the environment holds. */
  lemma LoadConfigStringDefaults(env: Env, parseDuration: string -> Option<Duration>)
    ensures var c := LoadConfig(env, parseDuration);
      ("PORT" !in env ==> c.port == Defaults.port)
      && ("DB_HOST" !in env ==> c.dbHost == Defaults.dbHost)
      && ("DB_PORT" !in env ==> c.dbPort == Defaults.dbPort)
      && ("DB_USER" !in env ==> c.dbUser == Defaults.dbUser)
      && ("DB_PASSWORD" !in env ==> c.dbPassword == Defaults.dbPassword)
      && ("DB_NAME" !in env ==> c.dbName == Defaults.dbName)
      && ("JWT_SECRET" !in env ==> c.jwtSecret == Defaults.jwtSecret)
      && ("GOOGLE_CLIENT_ID" !in env ==> c.googleClientId == Defaults.googleClientId)
      && ("GOOGLE_CLIENT_SECRET" !in env ==> c.googleClientSecret == Defaults.googleClientSecret)
  {
  }

  /** Each duration is the parsed value when its variable parses, and the
      default otherwise (given that the default literals themselves parse). */
  lemma LoadConfigDurations(env: Env, parseDuration: string -> Option<Duration>)
    requires AgreesOnDefaults(parseDuration)
    ensures var c := LoadConfig(env, parseDuration);
      c.rateLimitWindow ==
        (if "RATE_LIMIT_WINDOW" in env && parseDuration(env["RATE_LIMIT_WINDOW"]).Some?
         then parseDuration(env["RATE_LIMIT_WINDOW"]).value else DefaultRateLimitWindow)
      && c.jwtExpiration ==
        (if "JWT_EXPIRATION" in env && parseDuration(env["JWT_EXPIRATION"]).Some?
         then parseDuration(env["JWT_EXPIRATION"]).value else DefaultJwtExpiration)
  {
  }

  /** A rate limit written in decimal is read back exactly. */
  lemma LoadConfigRateLimitOverride(env: Env, parseDuration: string -> Option<Duration>, n: Int64)
    requires "RATE_LIMIT" in env && env["RATE_LIMIT"] == FormatInt(n as int)
    ensures LoadConfig(env, parseDuration).rateLimit == n
  {
  }

  /** A value that is not a decimal integer falls back to 100 rather than
      failing the load; a negative one is taken as it is. */
  lemma LoadConfigRateLimitExamples(parseDuration: string -> Option<Duration>)
    ensures LoadConfig(map["RATE_LIMIT" := "not_a_number"], parseDuration).rateLimit == 100
    ensures LoadConfig(map["RATE_LIMIT" := ""], parseDuration).rateLimit == 100
    ensures LoadConfig(map["RATE_LIMIT" := " 50"], parseDuration).rateLimit == 100
    ensures LoadConfig(map["RATE_LIMIT" := "-5"], parseDuration).rateLimit == -5
  {
    AtoiRejects();
    AtoiNegative();
  }

  /** An unset CORS variable gives the default origin; a set one gives the
      tokens of its value, and none at all (not the default) when every part
      is blank. */
  lemma LoadConfigOrigins(env: Env, parseDuration: string -> Option<Duration>)
    ensures var c := LoadConfig(env, parseDuration);
      ("CORS_ALLOWED_ORIGINS" !in env ==> c.corsAllowedOrigins == [DefaultCorsOrigins])
      && ("CORS_ALLOWED_ORIGINS" in env ==>
            c.corsAllowedOrigins == Tokens(Split(env["CORS_ALLOWED_ORIGINS"], ",")))
      && ("CORS_ALLOWED_ORIGINS" in env ==>
            (c.corsAllowedOrigins == [] <==>
             forall j :: 0 <= j < |Split(env["CORS_ALLOWED_ORIGINS"], ",")| ==>
               IsBlank(Split(env["CORS_ALLOWED_ORIGINS"], ",")[j])))
  {
    DefaultOriginsTokens();
    if "CORS_ALLOWED_ORIGINS" in env {
      TokensEmptyIffBlank(Split(env["CORS_ALLOWED_ORIGINS"], ","));
    }
  }

  /** A CORS variable holding a comma-separated list of non-empty, trimmed,
      comma-free origins gives exactly that list. */
  lemma LoadConfigOriginsRoundTrip(env: Env, parseDuration: string -> Option<Duration>, ts: seq<string>)
    requires forall k :: 0 <= k < |ts| ==> ts[k] != [] && IsTrimmed(ts[k]) && ',' !in ts[k]
    requires "CORS_ALLOWED_ORIGINS" in env && env["CORS_ALLOWED_ORIGINS"] == Join(ts, ",")
    ensures LoadConfig(env, parseDuration).corsAllowedOrigins == ts
  {
    OriginsRoundTrip(ts);
  }

  /** Only the thirteen configuration variables matter: two environments
      that agree on them give the same record. */
  lemma LoadConfigLocality(e1: Env, e2: Env, parseDuration: string -> Option<Duration>)
    requires forall k :: k in ConfigKeys ==> (k in e1 <==> k in e2)
    requires forall k :: k in ConfigKeys && k in e1 ==> e1[k] == e2[k]
    ensures LoadConfig(e1, parseDuration) == LoadConfig(e2, parseDuration)
  {
  }
}
