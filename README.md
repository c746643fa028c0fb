# Configuration loader of backend-pbo-full, in Dafny

The service reads its runtime configuration once, at start-up, from
environment variables (`config/config.go`). `LoadConfig` builds one `Config`
record with thirteen fields. Each field holds either the value of its
variable or a fixed default, and loading never fails:

- `getEnv` looks a variable up. A variable that is set wins, even when its
  value is empty. Only an unset variable falls back to the default.
- The rate limit is parsed with `strconv.Atoi`. The rate-limit window and the
  JWT lifetime are parsed with `time.ParseDuration`. A value that does not
  parse is replaced by 100, 15 minutes or 24 hours.
- `splitAndTrim` turns `CORS_ALLOWED_ORIGINS` into a list. It splits on `,`,
  trims white space from each part, and keeps the parts that are not empty,
  in order.

The model has four modules:

- `Wrappers` (`wrappers.dfy`) holds `Option`, which stands for Go's
  `(value, ok)` and `(value, err)` results.
- `GoStrings` (`go_strings.dfy`) holds the two functions of Go's `strings`
  package that the loader calls, `strings.TrimSpace` and `strings.Split`.
  `unicode.IsSpace` is the full Unicode White_Space set, as Go's tables
  define it. `Join` and `Count` are also defined there. The loader never
  calls them; they serve only to state what `Split` computes (`JoinSplit`,
  `SplitJoin`, `SplitLength`). Strings are sequences of Unicode scalar
  values.
- `GoStrconv` (`go_strconv.dfy`) holds `strconv.Atoi` on a 64-bit platform:
  an optional `+` or `-`, one or more decimal digits, and a value that fits in
  64 bits. Everything else fails. `FormatInt` is given as its inverse.
- `ConfigLoader` (`config_loader.dfy`) holds the environment as a
  `map<string, string>`, `GetEnv`, `splitAndTrim` and `LoadConfig`.
  - `SplitAndTrim` is a method. Like the Go loop, it appends to `result` one
    part at a time. It is proved against the function `Tokens(Split(s, sep))`.
  - `LoadConfig` is a pure function of the environment and of a
    `parseDuration` parameter that stands for `time.ParseDuration`. It uses
    `Tokens` where the Go code calls `splitAndTrim`, because a function
    cannot call a method.

Durations are signed 64-bit nanosecond counts (`Int64`), so 15 minutes is
900 000 000 000 and 24 hours is 86 400 000 000 000.

Three behaviours of the code are easy to miss:

- `RATE_LIMIT` is not checked for sign. `RATE_LIMIT=-5` gives a rate limit
  of -5 (`LoadConfigRateLimitExamples`).
- `CORS_ALLOWED_ORIGINS` set to an empty or blank list gives no origins at
  all. It does not give the default origin (`LoadConfigOrigins`,
  `SplitAndTrimBlankExamples`).
- The two duration variables accept every string `time.ParseDuration`
  accepts, including fractions such as `1.5h`, negative values and sums such
  as `1h30m`. The model keeps that grammar abstract.

Running `LoadConfig` twice on the same environment gives the same record,
because it is a function. `LoadConfigLocality` adds that only the thirteen
configuration variables affect the result.

## Model

| member | source | states |
|---|---|---|
| `ConfigLoader.LookupEnv` | config/config.go:72 | The lookup succeeds exactly when the variable is set, and then yields its value. |
| `Wrappers.Option.GetOr` | config/config.go:36-49 | A successful parse gives its value; a failed one gives the fallback, as each `if err != nil` branch does. |
| `ConfigLoader.GetEnv` | config/config.go:71-76 | A variable that is set gives its value, even the empty string. Only an unset variable gives the default. |
| `ConfigLoader.Tokens` | config/config.go:78-87 | The tokens are never empty and never start or end with white space. There are never more tokens than parts. |
| `ConfigLoader.SplitAndTrim` | config/config.go:78-87 | The loop builds exactly `Tokens(Split(s, sep))`. Every token is non-empty and trimmed. There are at most Count(s, sep) + 1 tokens. |
| `ConfigLoader.TokensAppend` | config/config.go:80-85 | Order is kept. The tokens of `p + q` are the tokens of `p` followed by the tokens of `q`. |
| `ConfigLoader.TokensMembership` | config/config.go:80-85 | A string is a token exactly when it is non-empty and is the trimmed form of some part. |
| `ConfigLoader.TokensEmptyIffBlank` | config/config.go:80-86 | The result is empty exactly when every part is blank. |
| `ConfigLoader.TokensOfTokens` | config/config.go:81-83 | Parts that are already non-empty and trimmed come out unchanged, so taking the tokens of a token list changes nothing. |
| `ConfigLoader.OriginsRoundTrip` | config/config.go:51-52 | A list of non-empty, trimmed, comma-free origins, joined with `,` and then split and trimmed, gives back the same list. |
| `ConfigLoader.SplitAndTrimBlankExamples` | config/config.go:51-52 | Both `""` and `" , ,"` give no origins at all. |
| `ConfigLoader.SplitExample` | config/config.go:80 | `" http://a.com , http://b.com ,,"` splits into four parts, the last two empty. |
| `ConfigLoader.TokensOfPaddedPair` | config/config.go:80-85 | Two space-padded origins followed by two empty parts give the two origins. |
| `ConfigLoader.SplitAndTrimExample` | config/config.go:78-87 | `" http://a.com , http://b.com ,,"` gives `["http://a.com", "http://b.com"]`. |
| `ConfigLoader.TokensOfSingleOrigin` | config/config.go:51-52 | A single non-empty, trimmed origin without commas gives a one-element list. |
| `ConfigLoader.DefaultOriginsTokens` | config/config.go:51-52 | The default origin string gives the list `["http://localhost:3000"]`. |
| `ConfigLoader.AtoiDefaultRateLimit` | config/config.go:36 | The default literal `"100"` parses to 100. |
| `ConfigLoader.LoadConfig` | config/config.go:30-69 | Every origin is non-empty and trimmed. The rate limit is the parsed value of `RATE_LIMIT` when that parses, and 100 when it is unset or does not parse. A duration variable that is set gives its parsed value when it parses, and 15 minutes or 24 hours when it does not. |
| `ConfigLoader.LoadConfigEmptyEnv` | config/config.go:36-67 | An empty environment gives every documented default: "8080", the DB defaults, the JWT secret, empty Google fields, `["http://localhost:3000"]`, 100, 15m and 24h. |
| `ConfigLoader.LoadConfigStringOverrides` | config/config.go:55-67 | Each of the nine string fields takes the value of its variable whenever that variable is set. |
| `ConfigLoader.LoadConfigStringDefaults` | config/config.go:55-67 | Each of the nine string fields takes its literal default whenever its variable is unset, whatever else the environment holds. |
| `ConfigLoader.LoadConfigDurations` | config/config.go:41-49 | Each duration is the parsed value when its variable is set and parses. Otherwise it is 15 minutes or 24 hours. |
| `ConfigLoader.LoadConfigRateLimitOverride` | config/config.go:36-39 | A rate limit written as a decimal numeral is read back exactly. |
| `ConfigLoader.LoadConfigRateLimitExamples` | config/config.go:36-39 | `"not_a_number"`, `""` and `" 50"` fall back to 100 rather than failing. `"-5"` is taken as -5. |
| `ConfigLoader.LoadConfigOrigins` | config/config.go:51-52 | An unset variable gives the default origin. A set variable gives the tokens of its value split on `,`, and no origins exactly when every part is blank. |
| `ConfigLoader.LoadConfigOriginsRoundTrip` | config/config.go:51-52 | A variable holding non-empty, trimmed, comma-free origins joined with `,` gives back exactly that list of origins. |
| `ConfigLoader.LoadConfigLocality` | config/config.go:30-69 | Two environments that agree on the thirteen configuration variables give the same record. |
| `GoStrings.IsSpaceLatin1` | config/config.go:81 | Within Latin-1, `IsSpace` holds exactly for tab, newline, vertical tab, form feed, carriage return, space, U+0085 and U+00A0; no white space lies above U+3000. |
| `GoStrings.TrimLeftSpace` | config/config.go:81 | The result is no longer than the input and does not start with white space. |
| `GoStrings.TrimRightSpace` | config/config.go:81 | The result is no longer than the input and does not end with white space. |
| `GoStrings.TrimLeftSpaceSpec` | config/config.go:81 | Trimming the left removes exactly a blank prefix and stops at a character that is not white space. |
| `GoStrings.TrimRightSpaceSpec` | config/config.go:81 | Trimming the right removes exactly a blank suffix and stops at a character that is not white space. |
| `GoStrings.TrimSpace` | config/config.go:81 | The result neither starts nor ends with white space, and it is no longer than the input. |
| `GoStrings.TrimSpaceIsSlice` | config/config.go:81 | The result is the slice `s[i..j]` left after cutting a blank prefix `s[..i]` and a blank suffix `s[j..]`. |
| `GoStrings.TrimSpaceFixpoint` | config/config.go:81 | TrimSpace leaves a string unchanged exactly when it is already trimmed. TrimSpace is idempotent. |
| `GoStrings.TrimSpaceEmptyIffBlank` | config/config.go:81-82 | A trimmed part is empty exactly when the part is all white space. |
| `GoStrings.TrimSpacePadded` | config/config.go:81 | One space on each side of a trimmed, non-empty string is removed. |
| `GoStrings.SplitOn` | config/config.go:80 | Splitting on a non-empty separator always yields at least one part. |
| `GoStrings.Split` | config/config.go:80 | A non-empty separator always yields at least one part. An empty separator yields one single-character part per character, in order. |
| `GoStrings.Explode` | config/config.go:80 | Part i is the one-character string holding character i, one part per character. |
| `GoStrings.Count` | config/config.go:80 | An empty separator counts one more than the characters. For a non-empty separator, the occurrences times its length never exceed the length of the string. |
| `GoStrings.SplitLength` | config/config.go:80 | A split yields Count(s, sep) + 1 parts for a non-empty separator, and one part per character for an empty one. |
| `GoStrings.JoinSplit` | config/config.go:80 | For a non-empty separator, joining the parts of a split with the same separator gives back the original string. |
| `GoStrings.SplitJoin` | config/config.go:80 | For a non-empty list of parts, splitting on a one-character separator undoes Join when no part contains that character. |
| `GoStrings.SplitWithoutSeparator` | config/config.go:80 | For a one-character separator, a string that does not contain it splits into itself alone. |
| `GoStrconv.Atoi` | config/config.go:36 | A successful parse means a non-empty input whose characters after the first are digits. A leading `-` gives a non-positive value and anything else a non-negative one. |
| `GoStrconv.Digits` | config/config.go:36 | The decimal digits of n are non-empty, have no leading zero, and have value n. |
| `GoStrconv.AtoiFormatInt` | config/config.go:36 | Atoi reads back every 64-bit integer that FormatInt writes. |
| `GoStrconv.AtoiPlusSign` | config/config.go:36 | A leading `+` is accepted. |
| `GoStrconv.AtoiRejects` | config/config.go:36-39 | `""`, `"-"`, `"not_a_number"`, `" 50"` and `"1_000"` fail to parse. |
| `GoStrconv.AtoiNegative` | config/config.go:36 | `"-5"` parses to -5. |
| `GoStrconv.AtoiRejectsOverflow` | config/config.go:36-39 | A numeral outside the 64-bit range fails to parse, so the loader falls back to 100. |

## Left out

- The `.env` file (`godotenv.Load`) and the log line printed when it is missing (config/config.go:31-34) are not modelled. They are file I/O and a change to the process environment. The model's input is the environment as it stands after that step.
- `os.LookupEnv` reads global process state. The model replaces it with a lookup in the map passed in.
- `time.ParseDuration` is not modelled. Its grammar has fractional parts computed in floating point and overflow checks. It is the parameter `parseDuration` of `LoadConfig`.
- LoadConfigEmptyEnv: assumes that `parseDuration` maps "15m" to 15 minutes and "24h" to 24 hours, as `time.ParseDuration` does (`AgreesOnDefaults`). Without that assumption, the defaults of the two duration fields depend on an unmodelled library.
- LoadConfigDurations: makes the same assumption about `parseDuration`, for the case where a variable is unset.
- `GoStrconv.Atoi` models a 64-bit `int` only. On a 32-bit platform, Go's range check would be narrower.
- Go strings are byte strings. The model works on Unicode scalar values, so invalid UTF-8 bytes are not modelled. This affects `TrimSpace` and `Split` with an empty separator.
- The `*Config` pointer result is not modelled, and neither is the difference between a nil slice and an empty slice. The result is a value record and a `seq<string>`.
