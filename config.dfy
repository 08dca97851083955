/** The configuration loader of the cart service: where the database URL and
    the listening port come from, and how the URL is redacted before it is
    logged. The process environment is a map from variable names to values;
    an unset variable reads as the empty string, as `os.Getenv` does. */
module Config {
  import opened Strings

  type Env = map<string, string>

  /** `os.Getenv(k)`. */
  function Lookup(env: Env, k: string): (v: string)
    ensures k !in env ==> v == ""
    ensures k in env ==> v == env[k]
  {
    if k in env then env[k] else ""
  }

  /** `getenv(k, def)`: the variable's value, or `def` when it is unset or
      empty. */
  function Getenv(env: Env, k: string, def: string): (v: string)
    ensures Lookup(env, k) != "" ==> v == env[k]
    ensures Lookup(env, k) == "" ==> v == def
  {
    var x := Lookup(env, k);
    if x != "" then x else def
  }

  /** Setting a variable to the empty string is the same as leaving it unset. */
  lemma {:induction false} EmptyIsUnset(env: Env, k: string, def: string)
    ensures Getenv(env[k := ""], k, def) == Getenv(env - {k}, k, def) == def
  {
    assert Lookup(env[k := ""], k) == "";
    assert k !in env - {k};
  }

  datatype Config = Config(databaseUrl: string, port: string)

  /** The credentials part of the URL `Load` assembles. */
  function Credentials(user: string, pass: string): string
  {
    "postgres://" + user + ":" + pass
  }

  /** The part after the `@` of the URL `Load` assembles. */
  function Location(host: string, port: string, name: string): string
  {
    host + ":" + port + "/" + name + "?sslmode=disable"
  }

  /** The URL `Load` assembles from its parts. */
  function Dsn(user: string, pass: string, host: string, port: string, name: string): string
  {
    Credentials(user, pass) + "@" + Location(host, port, name)
  }

  function DbHost(env: Env): string { Getenv(env, "POSTGRES_HOST", "localhost") }
  function DbPort(env: Env): string { Getenv(env, "POSTGRES_PORT", "5432") }
  function DbUser(env: Env): string { Getenv(env, "APP_DB_USER", Getenv(env, "POSTGRES_USER", "postgres")) }
  function DbPassword(env: Env): string { Getenv(env, "APP_DB_PASSWORD", Getenv(env, "POSTGRES_PASSWORD", "postgres")) }
  function DbName(env: Env): string { Getenv(env, "POSTGRES_DB", "simple_ecommerce") }

  /** `Load`, without reading `.env` and without the log line: a non-empty
      `DATABASE_URL` is used as it is, otherwise the URL is assembled from
      the individual variables; the port is `PORT` or 8080. Neither field is
      ever empty. */
  function Load(env: Env): (c: Config)
    ensures Lookup(env, "DATABASE_URL") != "" ==> c.databaseUrl == env["DATABASE_URL"]
    ensures Lookup(env, "DATABASE_URL") == "" ==>
              c.databaseUrl == Dsn(DbUser(env), DbPassword(env), DbHost(env), DbPort(env), DbName(env))
    ensures c.databaseUrl != "" && c.port != ""
    ensures Lookup(env, "PORT") != "" ==> c.port == env["PORT"]
    ensures Lookup(env, "PORT") == "" ==> c.port == "8080"
  {
    var url := Lookup(env, "DATABASE_URL");
    var dbUrl := if url == "" then Dsn(DbUser(env), DbPassword(env), DbHost(env), DbPort(env), DbName(env)) else url;
    var port := Lookup(env, "PORT");
    Config(dbUrl, if port == "" then "8080" else port)
  }

  /** With nothing set, the service talks to the local default database on
      port 8080. */
  lemma Defaults()
    ensures Load(map[]) == Config(Dsn("postgres", "postgres", "localhost", "5432", "simple_ecommerce"), "8080")
  {
    assert Lookup(map[], "DATABASE_URL") == "";
  }

  /** The service's own database user and password take precedence over the
      server's superuser ones. */
  lemma {:induction false} AppCredentialsWin(env: Env)
    requires Lookup(env, "DATABASE_URL") == ""
    requires Lookup(env, "APP_DB_USER") != "" && Lookup(env, "APP_DB_PASSWORD") != ""
    ensures Load(env).databaseUrl
            == Dsn(env["APP_DB_USER"], env["APP_DB_PASSWORD"], DbHost(env), DbPort(env), DbName(env))
  {
  }

  /** Without the service's own credentials, the server's are used. */
  lemma {:induction false} ServerCredentialsFallback(env: Env)
    requires Lookup(env, "DATABASE_URL") == ""
    requires Lookup(env, "APP_DB_USER") == "" && Lookup(env, "APP_DB_PASSWORD") == ""
    ensures Load(env).databaseUrl
            == Dsn(Getenv(env, "POSTGRES_USER", "postgres"), Getenv(env, "POSTGRES_PASSWORD", "postgres"),
                   DbHost(env), DbPort(env), DbName(env))
  {
  }

  // ----- Redaction -----

  /** `redacted` as written: everything up to and including the FIRST `@` is
      replaced by `****:@`; a string without `@` is returned unchanged. */
  function Redacted(dsn: string): (r: string)
    ensures '@' !in dsn ==> r == dsn
    ensures '@' in dsn ==>
              var keep := |r| - 6;
              && 0 <= keep < |dsn|
              && r == "****:@" + dsn[|dsn| - keep..]
              && dsn[|dsn| - keep - 1] == '@' && '@' !in dsn[..|dsn| - keep - 1]
  {
    var at := Index(dsn, '@');
    if at == -1 then dsn else "****:@" + dsn[at + 1..]
  }

  /** Redacting twice is redacting once. */
  lemma {:induction false} RedactedIdempotent(dsn: string)
    ensures Redacted(Redacted(dsn)) == Redacted(dsn)
  {
    if '@' in dsn {
      var r := Redacted(dsn);
      var tail := dsn[Index(dsn, '@') + 1..];
      assert r == "****:" + [] + "@" + tail;
      assert '@' !in "****:";
      IndexAfter("****:", '@', tail);
      assert r[6..] == tail;
    }
  }

  /** Redacting a string whose first `@` follows `a` keeps what comes after it. */
  lemma RedactedAfterFirstAt(a: string, b: string)
    requires '@' !in a
    ensures Redacted(a + "@" + b) == "****:@" + b
  {
    IndexAfter(a, '@', b);
    assert (a + "@" + b)[|a| + 1..] == b;
  }

  lemma CredentialsFree(user: string, pass: string)
    requires '@' !in user && '@' !in pass
    ensures '@' !in Credentials(user, pass)
  {
    assert '@' !in "postgres://" && '@' !in ":";
  }

  /** For credentials without `@`, the redacted URL shows only where the
      database is. */
  lemma {:induction false} RedactedHidesPlainCredentials(user: string, pass: string, host: string, port: string, name: string)
    requires '@' !in user && '@' !in pass
    ensures Redacted(Dsn(user, pass, host, port, name)) == "****:@" + Location(host, port, name)
  {
    CredentialsFree(user, pass);
    RedactedAfterFirstAt(Credentials(user, pass), Location(host, port, name));
  }

  /** The discrepancy: a password with an `@` in it leaks everything after
      its first `@`. */
  lemma {:induction false} RedactedLeaksPasswordTail(user: string, p1: string, p2: string, host: string, port: string, name: string)
    requires '@' !in user && '@' !in p1
    ensures Redacted(Dsn(user, p1 + "@" + p2, host, port, name))
            == "****:@" + (p2 + "@" + Location(host, port, name))
  {
    var c := Credentials(user, p1);
    var tail := p2 + "@" + Location(host, port, name);
    CredentialsFree(user, p1);
    CredentialsSplit(user, p1, p2, Location(host, port, name));
    RedactedAfterFirstAt(c, tail);
  }

  lemma CredentialsSplit(user: string, p1: string, p2: string, l: string)
    ensures Credentials(user, p1 + "@" + p2) + "@" + l == Credentials(user, p1) + "@" + (p2 + "@" + l)
  {
  }

  /** A concrete instance: password `p@ss` shows up as `ss` in the log line. */
  lemma LeakExample(host: string, port: string, name: string)
    ensures Redacted(Dsn("postgres", "p@ss", host, port, name)) == "****:@" + ("ss" + "@" + Location(host, port, name))
  {
    assert "p@ss" == "p" + "@" + "ss";
    RedactedLeaksPasswordTail("postgres", "p", "ss", host, port, name);
  }

  /** The evidently intended redaction: everything up to and including the
      LAST `@` goes, since host, port and database name cannot hold one
      while a password can. */
  function RedactedAtLast(dsn: string): (r: string)
    ensures '@' !in dsn ==> r == dsn
    ensures '@' in dsn ==>
              var keep := |r| - 6;
              && 0 <= keep < |dsn|
              && r == "****:@" + dsn[|dsn| - keep..]
              && dsn[|dsn| - keep - 1] == '@' && '@' !in r[6..]
  {
    var at := LastIndex(dsn, '@');
    if at == -1 then dsn else "****:@" + dsn[at + 1..]
  }

  /** The last `c` of `a + [c] + b` is the one after `a` when `b` has none. */
  lemma LastIndexBefore(a: string, c: char, b: string)
    requires c !in b
    ensures LastIndex(a + [c] + b, c) == |a|
  {
    var s := a + [c] + b;
    assert s[|a|] == c;
    assert s[|a| + 1..] == b;
  }

  /** Whatever the user name and password hold, the corrected redaction shows
      only where the database is. */
  lemma {:induction false} RedactedAtLastHidesCredentials(user: string, pass: string, host: string, port: string, name: string)
    requires '@' !in host && '@' !in port && '@' !in name
    ensures RedactedAtLast(Dsn(user, pass, host, port, name)) == "****:@" + Location(host, port, name)
  {
    var c := Credentials(user, pass);
    var l := Location(host, port, name);
    assert '@' !in ":" && '@' !in "/" && '@' !in "?sslmode=disable";
    assert '@' !in l;
    LastIndexBefore(c, '@', l);
    assert Dsn(user, pass, host, port, name)[|c| + 1..] == l;
  }

  /** The corrected redaction agrees with the original wherever the URL
      holds a single `@`. */
  lemma {:induction false} RedactionsAgreeOnOneAt(a: string, b: string)
    requires '@' !in a && '@' !in b
    ensures RedactedAtLast(a + "@" + b) == Redacted(a + "@" + b)
  {
    IndexAfter(a, '@', b);
    LastIndexBefore(a, '@', b);
  }
}
