/**
 * Reading the configuration from the environment with the fallback reader
 * (used when django-environ is not installed), and the three checks that
 * refuse to start with an inconsistent configuration: TLS and SSL together;
 * the SMTP backend in production without credentials; the placeholder
 * secret key in production.
 */
module Settings {
  import opened Common

  /** The process environment. */
  type Env = map<string, string>

  /** `DummyEnv.__call__` and `DummyEnv.str`: the variable's value when set, else the default. */
  function EnvStr(env: Env, key: string, default: Option<string>): (r: Option<string>)
    ensures key in env ==> r == Some(env[key])
    ensures key !in env ==> r == default
  {
    if key in env then Some(env[key]) else default
  }

  /** ASCII lower-casing of one character. */
  function LowerChar(c: char): (r: char)
    ensures 'A' <= c <= 'Z' ==> 'a' <= r <= 'z' && r as int - c as int == 32
    ensures !('A' <= c <= 'Z') ==> r == c
  {
    if 'A' <= c <= 'Z' then (c as int + 32) as char else c
  }

  /** `str.lower`, on ASCII letters. */
  function Lower(s: string): (r: string)
    ensures |r| == |s| && forall i :: 0 <= i < |s| ==> r[i] == LowerChar(s[i])
  {
    seq(|s|, i requires 0 <= i < |s| => LowerChar(s[i]))
  }

  /** The spellings `DummyEnv.bool` reads as true, after lower-casing. */
  predicate IsTruthy(s: string) {
    Lower(s) == "1" || Lower(s) == "true" || Lower(s) == "yes"
  }

  /** `DummyEnv.bool`: the default when unset; otherwise true exactly for "1", "true" or "yes" in any case. */
  function EnvBool(env: Env, key: string, default: bool): (r: bool)
    ensures key !in env ==> r == default
    ensures key in env ==> (r <==> IsTruthy(env[key]))
  {
    if key !in env then default else IsTruthy(env[key])
  }

  /** Mixed-case spellings are read as true; anything else that is set, "false" and "on" included, as false. */
  lemma EnvBoolSpellings(key: string)
    ensures EnvBool(map[key := "TRUE"], key, false) && EnvBool(map[key := "Yes"], key, false)
    ensures !EnvBool(map[key := "on"], key, true) && !EnvBool(map[key := "False"], key, true)
    ensures !EnvBool(map[key := ""], key, true)
  {
    assert Lower("TRUE") == "true";
    assert Lower("Yes") == "yes";
    assert Lower("on") == "on";
    assert Lower("False") == "false";
  }

  /** `str.split` on a one-character separator: always at least one part, none containing it. */
  function Split(s: string, sep: char): (parts: seq<string>)
    ensures |parts| >= 1
    ensures forall p :: p in parts ==> sep !in p
  {
    if s == [] then [""]
    else
      var rest := Split(s[1..], sep);
      if s[0] == sep then [""] + rest
      else [[s[0]] + rest[0]] + rest[1..]
  }

  /** `sep.join(parts)`. */
  function Join(parts: seq<string>, sep: char): (s: string)
    requires |parts| >= 1
    ensures |s| >= |parts| - 1
  {
    if |parts| == 1 then parts[0] else parts[0] + [sep] + Join(parts[1..], sep)
  }

  /** Joining the parts of a split gives back the string. */
  lemma {:induction false} JoinSplit(s: string, sep: char)
    ensures Join(Split(s, sep), sep) == s
  {
    if s != [] {
      var rest := Split(s[1..], sep);
      JoinSplit(s[1..], sep);
      if s[0] == sep {
        assert Split(s, sep) == [""] + rest;
        assert ([""] + rest)[1..] == rest;
      } else {
        var parts := Split(s, sep);
        assert parts == [[s[0]] + rest[0]] + rest[1..];
        if |rest| == 1 {
          assert parts == [[s[0]] + rest[0]];
        } else {
          assert parts[1..] == rest[1..];
          assert Join(rest, sep) == rest[0] + [sep] + Join(rest[1..], sep);
          assert s == [s[0]] + s[1..];
        }
      }
    }
  }

  /** A string with no separator splits into itself. */
  lemma {:induction false} SplitNoSeparator(s: string, sep: char)
    requires sep !in s
    ensures Split(s, sep) == [s]
  {
    if s != [] {
      SplitNoSeparator(s[1..], sep);
      assert s == [s[0]] + s[1..];
    }
  }

  /** A separator-free head followed by the separator splits off as the first part. */
  lemma {:induction false} SplitAtSeparator(a: string, b: string, sep: char)
    requires sep !in a
    ensures Split(a + [sep] + b, sep) == [a] + Split(b, sep)
  {
    if a == [] {
      assert a + [sep] + b == [sep] + b;
      assert ([sep] + b)[1..] == b;
    } else {
      var s := a + [sep] + b;
      assert s[0] == a[0] && s[1..] == a[1..] + [sep] + b;
      SplitAtSeparator(a[1..], b, sep);
      assert a == [a[0]] + a[1..];
    }
  }

  /** Splitting a join of separator-free parts gives back the parts. */
  lemma {:induction false} SplitJoin(parts: seq<string>, sep: char)
    requires |parts| >= 1 && forall p :: p in parts ==> sep !in p
    ensures Split(Join(parts, sep), sep) == parts
  {
    if |parts| == 1 {
      SplitNoSeparator(parts[0], sep);
    } else {
      assert forall p :: p in parts[1..] ==> p in parts;
      SplitJoin(parts[1..], sep);
      SplitAtSeparator(parts[0], Join(parts[1..], sep), sep);
      assert parts == [parts[0]] + parts[1..];
    }
  }

  /**
   * The ASCII characters `str.strip` removes: those `str.isspace` accepts,
   * which are the space, tab, line feed, vertical tab, form feed, carriage
   * return and the four separators U+001C to U+001F.
   */
  predicate IsSpace(c: char) {
    || c == ' ' || c == '\t' || c == '\n' || c == '\U{B}' || c == '\U{C}' || c == '\r'
    || c == '\U{1C}' || c == '\U{1D}' || c == '\U{1E}' || c == '\U{1F}'
  }

  /** The index of the first character at or after `i` that is not whitespace, or |s|. */
  function SkipSpaces(s: string, i: nat): (k: nat)
    requires i <= |s|
    ensures i <= k <= |s|
    ensures forall j :: i <= j < k ==> IsSpace(s[j])
    ensures k == |s| || !IsSpace(s[k])
    decreases |s| - i
  {
    if i < |s| && IsSpace(s[i]) then SkipSpaces(s, i + 1) else i
  }

  /** The end of `s[lo..hi]` once its trailing whitespace is cut. */
  function CutSpaces(s: string, lo: nat, hi: nat): (e: nat)
    requires lo <= hi <= |s|
    ensures lo <= e <= hi
    ensures forall j :: e <= j < hi ==> IsSpace(s[j])
    ensures e == lo || !IsSpace(s[e - 1])
  {
    if hi > lo && IsSpace(s[hi - 1]) then CutSpaces(s, lo, hi - 1) else hi
  }

  /** True when `s` has no whitespace at either end. */
  predicate Stripped(s: string) {
    s == [] || (!IsSpace(s[0]) && !IsSpace(s[|s| - 1]))
  }

  /**
   * `str.strip`: the string without its leading and trailing whitespace. The
   * result is the slice of `s` starting at its first non-whitespace
   * character, and every character cut off on either side is whitespace.
   */
  function Strip(s: string): (r: string)
    ensures Stripped(r)
    ensures var k := SkipSpaces(s, 0);
      && k + |r| <= |s| && r == s[k..k + |r|]
      && (forall j :: 0 <= j < k ==> IsSpace(s[j]))
      && (forall j :: k + |r| <= j < |s| ==> IsSpace(s[j]))
  {
    var k := SkipSpaces(s, 0);
    s[k..CutSpaces(s, k, |s|)]
  }

  /** Stripping adds no character the string lacks. */
  lemma StripAddsNothing(s: string, c: char)
    requires c !in s
    ensures c !in Strip(s)
  {
  }

  /** Stripping a string with no whitespace at either end leaves it as it is. */
  lemma StripKeepsStripped(s: string)
    requires Stripped(s)
    ensures Strip(s) == s
  {
    if s != [] {
      assert SkipSpaces(s, 0) == 0;
      assert CutSpaces(s, 0, |s|) == |s|;
    }
  }

  /** `[p.strip() for p in parts if p.strip()]`. */
  function Cleaned(parts: seq<string>): (items: seq<string>)
    ensures |items| <= |parts|
    ensures forall p :: p in items ==> p != "" && Stripped(p)
  {
    if parts == [] then []
    else
      var p := Strip(parts[0]);
      (if p != "" then [p] else []) + Cleaned(parts[1..])
  }

  /** A single part cleans to its stripped form, or to nothing when that is empty. */
  lemma CleanedSingle(p: string)
    ensures Cleaned([p]) == if Strip(p) == "" then [] else [Strip(p)]
  {
    assert [p][1..] == [];
  }

  /** Cleaning works part by part: the items of a concatenation are the items of each half, in order. */
  lemma {:induction false} CleanedAppend(a: seq<string>, b: seq<string>)
    ensures Cleaned(a + b) == Cleaned(a) + Cleaned(b)
  {
    if a == [] {
      assert a + b == b;
    } else {
      assert (a + b)[0] == a[0];
      assert (a + b)[1..] == a[1..] + b;
      CleanedAppend(a[1..], b);
    }
  }

  /** Every part already non-empty and stripped survives cleaning unchanged. */
  lemma {:induction false} CleanedKeepsCleanParts(parts: seq<string>)
    requires forall p :: p in parts ==> p != "" && Stripped(p)
    ensures Cleaned(parts) == parts
  {
    if parts != [] {
      var head := parts[0];
      assert head in parts;
      StripKeepsStripped(head);
      assert Cleaned(parts) == [head] + Cleaned(parts[1..]);
      assert forall p :: p in parts[1..] ==> p in parts;
      CleanedKeepsCleanParts(parts[1..]);
      assert parts == [head] + parts[1..];
    }
  }

  /**
   * `DummyEnv.list`: the default (an omitted default is the empty list) when
   * unset; otherwise the comma-separated items, stripped, empty ones dropped.
   */
  function EnvList(env: Env, key: string, default: seq<string>): (r: seq<string>)
    ensures key !in env ==> r == default
    ensures key in env ==> forall p :: p in r ==> p != "" && Stripped(p) && ',' !in p
  {
    if key !in env then default
    else
      var items := Cleaned(Split(env[key], ','));
      assert forall p :: p in items ==> ',' !in p by {
        CleanedFromSplit(Split(env[key], ','));
      }
      items
  }

  /** Cleaning introduces no character a part did not have. */
  lemma {:induction false} CleanedFromSplit(parts: seq<string>)
    requires forall p :: p in parts ==> ',' !in p
    ensures forall p :: p in Cleaned(parts) ==> ',' !in p
  {
    if parts != [] {
      StripAddsNothing(parts[0], ',');
      assert forall p :: p in parts[1..] ==> p in parts;
      CleanedFromSplit(parts[1..]);
    }
  }

  /** The value that `EnvList` reads back as `items`: the items joined by commas. */
  function ListValue(items: seq<string>): string {
    if items == [] then "" else Join(items, ',')
  }

  /** A list of non-empty, stripped, comma-free items written as a variable reads back as itself. */
  lemma EnvListRoundTrip(key: string, items: seq<string>)
    requires forall p :: p in items ==> p != "" && Stripped(p) && ',' !in p
    ensures EnvList(map[key := ListValue(items)], key, []) == items
  {
    if items == [] {
      assert Split("", ',') == [""];
    } else {
      SplitJoin(items, ',');
      CleanedKeepsCleanParts(items);
    }
  }

  /**
   * Items written with a space after the comma read back without it: "a.com,
   * b.com" gives the two hosts.
   */
  lemma EnvListStripsItems(key: string, a: string, b: string)
    requires a != "" && Stripped(a) && ',' !in a
    requires b != "" && Stripped(b) && ',' !in b
    ensures EnvList(map[key := a + ", " + b], key, []) == [a, b]
  {
    var padded := " " + b;
    var parts := [a, padded];
    assert Join(parts, ',') == a + ", " + b by {
      assert parts[1..] == [padded];
    }
    assert forall p :: p in parts ==> ',' !in p;
    SplitJoin(parts, ',');
    assert Cleaned(parts) == [a, b] by {
      assert parts == [a] + [padded];
      CleanedAppend([a], [padded]);
      StripKeepsStripped(a);
      CleanedSingle(a);
      StripLeadingSpace(b);
      CleanedSingle(padded);
    }
  }

  /** One leading space before a stripped string is cut. */
  lemma StripLeadingSpace(b: string)
    requires b != "" && Stripped(b)
    ensures Strip(" " + b) == b
  {
    var s := " " + b;
    assert SkipSpaces(s, 1) == 1;
    assert SkipSpaces(s, 0) == 1;
    assert CutSpaces(s, 1, |s|) == |s|;
    assert s[1..] == b;
  }

  /**
   * `DummyEnv.int`: the default when unset or unparsable. `parse` stands for
   * Python's `int()` on a string: the number it denotes, or None when it raises.
   */
  function EnvInt(env: Env, key: string, default: int, parse: string -> Option<int>): (r: int)
    ensures key !in env || parse(env[key]).None? ==> r == default
    ensures key in env && parse(env[key]).Some? ==> r == parse(env[key]).value
  {
    if key !in env then default
    else
      match parse(env[key])
      case None => default
      case Some(n) => n
  }

  /** The configuration values the checks and the mail set-up read. */
  datatype Config = Config(
    secretKey: string,
    debug: bool,
    allowedHosts: seq<string>,
    emailBackend: string,
    emailHost: string,
    emailPort: int,
    emailHostUser: string,
    emailHostPassword: string,
    useTls: bool,
    useSsl: bool,
    emailTimeout: int,
    defaultFromEmail: string)

  const PLACEHOLDER_SECRET_KEY: string := "change-me"
  const SMTP_BACKEND: string := "django.core.mail.backends.smtp.EmailBackend"
  const SMTP_BACKEND_SUFFIX: string := "smtp.EmailBackend"

  /** A string variable with a string default. */
  function EnvOr(env: Env, key: string, default: string): (r: string)
    ensures key in env ==> r == env[key]
    ensures key !in env ==> r == default
  {
    EnvStr(env, key, Some(default)).value
  }

  /** The settings module's reads, with their defaults. */
  function Read(env: Env, parse: string -> Option<int>): (c: Config)
    ensures c.debug == EnvBool(env, "DEBUG", true)
    ensures "SECRET_KEY" !in env ==> c.secretKey == PLACEHOLDER_SECRET_KEY
    ensures "EMAIL_BACKEND" !in env ==> c.emailBackend == SMTP_BACKEND
    ensures c.defaultFromEmail == EnvOr(env, "DEFAULT_FROM_EMAIL",
                                        if c.emailHostUser != "" then c.emailHostUser else "no-reply@kanban.local")
  {
    var debug := EnvBool(env, "DEBUG", true);
    var user := EnvOr(env, "EMAIL_HOST_USER", "");
    Config(
      secretKey := EnvOr(env, "SECRET_KEY", PLACEHOLDER_SECRET_KEY),
      debug := debug,
      allowedHosts := EnvList(env, "ALLOWED_HOSTS", if debug then ["localhost"] else []),
      emailBackend := EnvOr(env, "EMAIL_BACKEND", SMTP_BACKEND),
      emailHost := EnvOr(env, "EMAIL_HOST", "localhost"),
      emailPort := EnvInt(env, "EMAIL_PORT", 587, parse),
      emailHostUser := user,
      emailHostPassword := EnvOr(env, "EMAIL_HOST_PASSWORD", ""),
      useTls := EnvBool(env, "EMAIL_USE_TLS", true),
      useSsl := EnvBool(env, "EMAIL_USE_SSL", false),
      emailTimeout := EnvInt(env, "EMAIL_TIMEOUT", 10, parse),
      defaultFromEmail := EnvOr(env, "DEFAULT_FROM_EMAIL", if user != "" then user else "no-reply@kanban.local"))
  }

  predicate EndsWith(s: string, suffix: string) {
    |suffix| <= |s| && s[|s| - |suffix|..] == suffix
  }

  datatype ConfigError = TlsAndSsl | MissingSmtpCredentials | PlaceholderSecretKey

  /** True when mail would go through SMTP in production. */
  predicate ProductionSmtp(c: Config) {
    !c.debug && EndsWith(c.emailBackend, SMTP_BACKEND_SUFFIX)
  }

  /** The first check the configuration fails, in the order the settings module runs them. */
  function Check(c: Config): (e: Option<ConfigError>)
    ensures e == Some(TlsAndSsl) <==> c.useTls && c.useSsl
    ensures e == Some(MissingSmtpCredentials) <==>
      !(c.useTls && c.useSsl) && ProductionSmtp(c) && (c.emailHostUser == "" || c.emailHostPassword == "")
    ensures e.None? <==>
      && !(c.useTls && c.useSsl)
      && !(ProductionSmtp(c) && (c.emailHostUser == "" || c.emailHostPassword == ""))
      && !(!c.debug && c.secretKey == PLACEHOLDER_SECRET_KEY)
  {
    if c.useTls && c.useSsl then Some(TlsAndSsl)
    else if ProductionSmtp(c) && (c.emailHostUser == "" || c.emailHostPassword == "") then Some(MissingSmtpCredentials)
    else if !c.debug && c.secretKey == PLACEHOLDER_SECRET_KEY then Some(PlaceholderSecretKey)
    else None
  }

  /** Loading the settings: the configuration read, or the first check it fails. */
  function Load(env: Env, parse: string -> Option<int>): (r: Result<Config, ConfigError>)
    ensures r.Ok? <==> Check(Read(env, parse)).None?
    ensures r.Ok? ==> r.value == Read(env, parse)
    ensures r.Err? ==> Some(r.error) == Check(Read(env, parse))
  {
    var c := Read(env, parse);
    match Check(c)
    case Some(e) => Err(e)
    case None => Ok(c)
  }

  /** An empty environment loads: DEBUG defaults to true, TLS on and SSL off. */
  lemma EmptyEnvironmentLoads(parse: string -> Option<int>)
    ensures Load(map[], parse).Ok?
    ensures var c := Load(map[], parse).value;
      c.debug && c.useTls && !c.useSsl && c.secretKey == PLACEHOLDER_SECRET_KEY && c.allowedHosts == ["localhost"] &&
      c.emailPort == 587 && c.defaultFromEmail == "no-reply@kanban.local"
  {
  }

  /**
   * Turning DEBUG off and nothing else is refused: the default backend is
   * SMTP and the credentials default to empty.
   */
  lemma ProductionNeedsCredentials(parse: string -> Option<int>)
    ensures Load(map["DEBUG" := "false"], parse) == Err(MissingSmtpCredentials)
  {
    var env := map["DEBUG" := "false"];
    assert Lower("false") == "false";
    assert !EnvBool(env, "DEBUG", true);
    assert EndsWith(SMTP_BACKEND, SMTP_BACKEND_SUFFIX) by {
      assert SMTP_BACKEND[|SMTP_BACKEND| - |SMTP_BACKEND_SUFFIX|..] == SMTP_BACKEND_SUFFIX;
    }
  }

  /**
   * In production, a configuration that passes has a secret key other than
   * the placeholder and, when mail goes through SMTP, both credentials; TLS
   * and SSL are never both on.
   */
  lemma LoadedConfigIsSafe(env: Env, parse: string -> Option<int>)
    requires Load(env, parse).Ok?
    ensures var c := Load(env, parse).value;
      && !(c.useTls && c.useSsl)
      && (!c.debug ==> c.secretKey != PLACEHOLDER_SECRET_KEY)
      && (ProductionSmtp(c) ==> c.emailHostUser != "" && c.emailHostPassword != "")
  {
  }
}
