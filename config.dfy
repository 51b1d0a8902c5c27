/**
  `AppConfig`: the application settings, read from the process environment
  with their defaults, the PYTHONPING_ENABLED flag and the CORS origin list.
  The environment is a parameter (a map from variable name to value).
 */
module Config {
  import opened Wrappers
  import opened Text

  type Env = map<string, string>

  /** `os.getenv(key, default)`. */
  function Getenv(env: Env, key: string, default: string): (v: string)
    ensures key !in env ==> v == default
    ensures key in env ==> v == env[key]
  {
    if key in env then env[key] else default
  }

  /** `os.getenv(key)` with no default: None when the variable is unset. */
  function GetenvOpt(env: Env, key: string): (v: Option<string>)
    ensures v.Some? <==> key in env
  {
    if key in env then Some(env[key]) else None
  }

  datatype AppConfig = AppConfig(
    port: int,
    host: string,
    apiKey: Option<string>,
    rateLimit: Option<string>,
    mongoUri: string,
    dbName: string,
    devicesCollection: string,
    logsCollection: string,
    pingEnabled: bool,
    corsOrigins: seq<string>)

  /** `int()` of FLASK_RUN_PORT raised ValueError while the class body was evaluated. */
  datatype ConfigError = PortNotAnInteger(text: string)

  // ---------------------------------------------------------------- ping flag

  /** `value.lower() in ("1", "true", "yes")`. */
  predicate PingFlag(value: string) {
    var low := Lower(value);
    low == "1" || low == "true" || low == "yes"
  }

  predicate EitherCase(c: char, lower: char, upper: char) {
    c == lower || c == upper
  }

  /** The flag is on exactly for "1" and for "true" or "yes" in any mix of cases. */
  lemma PingFlagIff(v: string)
    ensures PingFlag(v) <==>
      || v == "1"
      || (|v| == 4 && EitherCase(v[0], 't', 'T') && EitherCase(v[1], 'r', 'R') && EitherCase(v[2], 'u', 'U')
          && EitherCase(v[3], 'e', 'E'))
      || (|v| == 3 && EitherCase(v[0], 'y', 'Y') && EitherCase(v[1], 'e', 'E') && EitherCase(v[2], 's', 'S'))
  {
    var low := Lower(v);
    if |v| == 1 {
      assert low == "1" <==> low[0] == '1';
      assert low[0] == '1' <==> v[0] == '1';
      assert v == "1" <==> v[0] == '1';
    }
    if |v| == 4 {
      assert low == "true" <==> low[0] == 't' && low[1] == 'r' && low[2] == 'u' && low[3] == 'e';
    }
    if |v| == 3 {
      assert low == "yes" <==> low[0] == 'y' && low[1] == 'e' && low[2] == 's';
    }
  }

  lemma PingFlagDefaultOff()
    ensures !PingFlag("false")
  {
    assert Lower("false")[0] == 'f';
  }

  // ---------------------------------------------------------------- CORS

  /** An origin as the list holds it: non-empty, with no whitespace at either end. */
  predicate Clean(o: string) {
    o != "" && Unpadded(o)
  }

  predicate AllClean(r: seq<string>) {
    forall i | 0 <= i < |r| :: Clean(r[i])
  }

  /** One step of the comprehension: the trimmed piece, or nothing when it trims to "". */
  function Kept(p: string): (r: seq<string>)
    ensures |r| <= 1 && AllClean(r)
    ensures r == [] <==> Strip(p) == ""
    ensures r != [] ==> r[0] == Strip(p)
  {
    var o := Strip(p);
    if o != "" then [o] else []
  }

  /** `[o.strip() for o in parts if o.strip()]`. */
  function CleanOrigins(parts: seq<string>): (r: seq<string>)
    ensures |r| <= |parts|
  {
    if parts == [] then [] else Kept(parts[0]) + CleanOrigins(parts[1..])
  }

  /** The origin list: the wildcard alone, or the trimmed non-empty comma-separated pieces. */
  function CorsOrigins(value: string): (r: seq<string>)
    ensures Strip(value) == "*" ==> r == ["*"]
    ensures Strip(value) != "*" ==> r == CleanOrigins(Split(value, ','))
  {
    if Strip(value) == "*" then ["*"] else CleanOrigins(Split(value, ','))
  }

  lemma AllCleanAppend(a: seq<string>, b: seq<string>)
    requires AllClean(a) && AllClean(b)
    ensures AllClean(a + b)
  {
    forall i | 0 <= i < |a + b| ensures Clean((a + b)[i]) {
      if i < |a| {
        assert (a + b)[i] == a[i];
      } else {
        assert (a + b)[i] == b[i - |a|];
      }
    }
  }

  /** Every cleaned origin is non-empty and carries no surrounding whitespace. */
  lemma {:induction false} CleanOriginsAreClean(parts: seq<string>)
    ensures AllClean(CleanOrigins(parts))
  {
    if parts != [] {
      CleanOriginsAreClean(parts[1..]);
      AllCleanAppend(Kept(parts[0]), CleanOrigins(parts[1..]));
    }
  }

  /** The same holds of the whole origin list, the wildcard included. */
  lemma CorsOriginsAreClean(value: string)
    ensures AllClean(CorsOrigins(value))
  {
    if Strip(value) == "*" {
      assert Clean("*");
    } else {
      CleanOriginsAreClean(Split(value, ','));
    }
  }

  /** Cleaning keeps the pieces' order: it distributes over concatenation. */
  lemma {:induction false} CleanOriginsAppend(a: seq<string>, b: seq<string>)
    ensures CleanOrigins(a + b) == CleanOrigins(a) + CleanOrigins(b)
  {
    if a != [] {
      assert (a + b)[0] == a[0];
      assert (a + b)[1..] == a[1..] + b;
      CleanOriginsAppend(a[1..], b);
    } else {
      assert a + b == b;
    }
  }

  /** Every piece, trimmed. */
  function StripAll(parts: seq<string>): (r: seq<string>)
    ensures |r| == |parts|
    ensures forall i | 0 <= i < |parts| :: r[i] == Strip(parts[i])
  {
    if parts == [] then [] else [Strip(parts[0])] + StripAll(parts[1..])
  }

  /** A name is in the cleaned list exactly when it is non-empty and some piece trims to it. */
  lemma {:induction false} CleanOriginsMembership(parts: seq<string>, o: string)
    ensures o in CleanOrigins(parts) <==> o != "" && o in StripAll(parts)
  {
    if parts != [] {
      CleanOriginsMembership(parts[1..], o);
      assert StripAll(parts) == [Strip(parts[0])] + StripAll(parts[1..]);
      assert o in Kept(parts[0]) <==> o != "" && Strip(parts[0]) == o;
    }
  }

  /** Pieces already clean pass through unchanged. */
  lemma {:induction false} CleanOriginsOfClean(parts: seq<string>)
    requires AllClean(parts)
    ensures CleanOrigins(parts) == parts
  {
    if parts != [] {
      StripUnpadded(parts[0]);
      CleanOriginsOfClean(parts[1..]);
      assert [parts[0]] + parts[1..] == parts;
    }
  }

  /** Joining clean pieces gives a non-empty unpadded string. */
  lemma {:induction false} JoinUnpadded(parts: seq<string>, sep: char)
    requires |parts| >= 1 && AllClean(parts)
    ensures Clean(Join(parts, sep))
    ensures Join(parts, sep)[0] == parts[0][0]
    ensures Join(parts, sep)[|Join(parts, sep)| - 1] == parts[|parts| - 1][|parts[|parts| - 1]| - 1]
  {
    if |parts| > 1 {
      JoinUnpadded(parts[1..], sep);
      var rest := Join(parts[1..], sep);
      assert Join(parts, sep) == parts[0] + [sep] + rest;
    }
  }

  /**
    Writing a list of clean origins comma-separated and reading it back gives
    the same list; the one-element list ["*"] comes back as the wildcard.
   */
  lemma CorsRoundTrip(origins: seq<string>)
    requires AllClean(origins) && forall i | 0 <= i < |origins| :: ',' !in origins[i]
    ensures CorsOrigins(Join(origins, ',')) == origins
  {
    if origins == [] {
      assert Split("", ',') == [""];
      assert Kept("") == [] by { StripUnpadded(""); }
    } else {
      var j := Join(origins, ',');
      JoinUnpadded(origins, ',');
      StripUnpadded(j);
      SplitOfJoin(origins, ',');
      if j == "*" {
        SplitNoSeparator("*", ',');
      } else {
        CleanOriginsOfClean(origins);
      }
    }
  }

  // ---------------------------------------------------------------- loading

  const DefaultPort := 3001

  /** The settings as `AppConfig()` computes them from the environment. */
  function LoadConfig(env: Env): (r: Result<AppConfig, ConfigError>)
    ensures r.Success? <==> PyInt(Getenv(env, "FLASK_RUN_PORT", "3001")).Some?
    ensures r.Failure? ==> r.error == PortNotAnInteger(Getenv(env, "FLASK_RUN_PORT", "3001"))
    ensures r.Success? ==> r.value.port == PyInt(Getenv(env, "FLASK_RUN_PORT", "3001")).value
    ensures r.Success? ==> r.value.apiKey == GetenvOpt(env, "API_KEY")
    ensures r.Success? ==> r.value.pingEnabled == PingFlag(Getenv(env, "PYTHONPING_ENABLED", "false"))
    ensures r.Success? ==> r.value.corsOrigins == CorsOrigins(Getenv(env, "CORS_ALLOWED_ORIGINS", "*"))
  {
    var portText := Getenv(env, "FLASK_RUN_PORT", "3001");
    match PyInt(portText)
    case None => Failure(PortNotAnInteger(portText))
    case Some(port) =>
      Success(AppConfig(
        port,
        Getenv(env, "FLASK_RUN_HOST", "0.0.0.0"),
        GetenvOpt(env, "API_KEY"),
        GetenvOpt(env, "RATE_LIMIT"),
        Getenv(env, "MONGODB_URI", "mongodb://localhost:27017"),
        Getenv(env, "MONGODB_DB_NAME", "device_inventory"),
        Getenv(env, "MONGODB_COLLECTION_DEVICES", "devices"),
        Getenv(env, "MONGODB_COLLECTION_LOGS", "logs"),
        PingFlag(Getenv(env, "PYTHONPING_ENABLED", "false")),
        CorsOrigins(Getenv(env, "CORS_ALLOWED_ORIGINS", "*"))))
  }

  /** With nothing set, every setting takes its documented default; no API key means dev mode. */
  lemma DefaultConfig()
    ensures LoadConfig(map[]) == Success(AppConfig(
      DefaultPort, "0.0.0.0", None, None, "mongodb://localhost:27017", "device_inventory",
      "devices", "logs", false, ["*"]))
  {
    DefaultPortParses("3001");
    PingFlagDefaultOff();
    StripUnpadded("*");
  }

  // The literal is a parameter fixed by `requires`: stated over the literal itself, the proof is far costlier.
  lemma DefaultPortParses(d: string)
    requires d == "3001"
    ensures PyInt(d) == Some(DefaultPort)
  {
    assert DecimalValue(d) == DefaultPort by {
      assert d[..3] == "300" && "300"[..2] == "30" && "30"[..1] == "3" && "3"[..0] == "";
    }
    PyIntOfDigits(d);
  }

  /** An unset CORS variable means every origin. */
  lemma CorsDefaultWildcard(env: Env)
    requires "CORS_ALLOWED_ORIGINS" !in env && LoadConfig(env).Success?
    ensures LoadConfig(env).value.corsOrigins == ["*"]
  {
    WildcardOrigins(Getenv(env, "CORS_ALLOWED_ORIGINS", "*"));
  }

  // As for DefaultPortParses, the literal is a parameter fixed by `requires` to keep the proof cheap.
  lemma WildcardOrigins(v: string)
    requires v == "*"
    ensures CorsOrigins(v) == ["*"]
  {
    StripUnpadded(v);
  }
}
