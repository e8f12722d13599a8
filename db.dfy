/** The data-store adapter: how `get_engine` resolves its six connection
    settings and formats them into a SQLAlchemy URL, the `_get_secret`
    fallback, and the guards of `run_sql`. The engine itself and the
    statement execution are not modelled; execution is an oracle. */
module Db {

  import opened Host
  import opened T2Sql

  // ---------------------------------------------------------------- _get_secret

  /** `_get_secret(key, default)`: `st.secrets.get(key, default)`, and the
      default whenever Streamlit or its secrets cannot be loaded. */
  function GetSecret(store: SecretStore, key: string, default: string): (r: string)
    ensures store.Loaded? && key in store.entries ==> r == store.entries[key]
    ensures !(store.Loaded? && key in store.entries) ==> r == default
  {
    match SecretsGet(store, key)
    case Err(_) => default
    case Ok(v) => v.GetOr(default)
  }

  /** `os.getenv(name, _get_secret(name, default))`. */
  function Setting(env: Environ, store: SecretStore, name: string, default: string): string {
    GetEnvOr(env, name, GetSecret(store, name, default))
  }

  /** A set environment variable wins, even when it holds ""; an unset one
      falls back to the secret, and a missing or unreadable secret to the
      default. */
  lemma SettingResolution(env: Environ, store: SecretStore, name: string, default: string)
    ensures name in env ==> Setting(env, store, name, default) == env[name]
    ensures name !in env && store.Loaded? && name in store.entries ==>
              Setting(env, store, name, default) == store.entries[name]
    ensures name !in env && !(store.Loaded? && name in store.entries) ==>
              Setting(env, store, name, default) == default
  {
  }

  // ---------------------------------------------------------------- get_engine

  const HostVar: string := "DB_HOST"
  const PortVar: string := "DB_PORT"
  const UserVar: string := "DB_USER"
  const PasswordVar: string := "DB_PASSWORD"
  const NameVar: string := "DB_NAME"
  const SslModeVar: string := "DB_SSLMODE"

  const DefaultHost: string := "localhost"
  const DefaultPort: string := "5432"
  const DefaultUser: string := "postgres"
  const DefaultPassword: string := ""
  const DefaultName: string := "postgres"
  const DefaultSslMode: string := "prefer"

  datatype ConnParams = ConnParams(host: string, port: string, user: string, password: string,
                                   dbname: string, sslmode: string)

  /** The six settings `get_engine` resolves. */
  function ResolveParams(env: Environ, store: SecretStore): ConnParams {
    ConnParams(Setting(env, store, HostVar, DefaultHost),
               Setting(env, store, PortVar, DefaultPort),
               Setting(env, store, UserVar, DefaultUser),
               Setting(env, store, PasswordVar, DefaultPassword),
               Setting(env, store, NameVar, DefaultName),
               Setting(env, store, SslModeVar, DefaultSslMode))
  }

  const Scheme: string := "postgresql+psycopg://"
  const SslQuery: string := "?sslmode="

  /** `f"postgresql+psycopg://{user}:{password}@{host}:{port}/{dbname}?sslmode={sslmode}"`;
      no part is escaped. */
  function EngineUrl(p: ConnParams): string {
    Scheme + p.user + ":" + p.password + "@" + p.host + ":" + p.port + "/" + p.dbname + SslQuery + p.sslmode
  }

  /** With nothing in the environment and no readable secrets, every setting
      takes its default. */
  lemma DefaultParams(env: Environ, store: SecretStore)
    requires HostVar !in env && PortVar !in env && UserVar !in env
    requires PasswordVar !in env && NameVar !in env && SslModeVar !in env
    requires store.Unavailable?
    ensures ResolveParams(env, store) ==
            ConnParams(DefaultHost, DefaultPort, DefaultUser, DefaultPassword, DefaultName, DefaultSslMode)
  {
  }

  /** The URL of the defaults. */
  lemma DefaultUrl(p: ConnParams)
    requires p == ConnParams(DefaultHost, DefaultPort, DefaultUser, DefaultPassword, DefaultName, DefaultSslMode)
    ensures EngineUrl(p) == "postgresql+psycopg://postgres:@localhost:5432/postgres?sslmode=prefer"
  {
    assert Scheme + "postgres" + ":" + "" + "@" == "postgresql+psycopg://postgres:@";
    assert "postgresql+psycopg://postgres:@" + "localhost" + ":" + "5432" + "/" == "postgresql+psycopg://postgres:@localhost:5432/";
    assert "postgresql+psycopg://postgres:@localhost:5432/" + "postgres" + SslQuery + "prefer"
        == "postgresql+psycopg://postgres:@localhost:5432/postgres?sslmode=prefer";
  }

  /** Unlike the API key, whose empty environment value falls through to the
      secret store, a connection setting set to "" stays "" even when the
      secret store holds a value. */
  lemma EmptySettingWins(env: Environ, store: SecretStore, name: string, default: string, secret: string)
    requires name in env && env[name] == ""
    requires store.Loaded? && name in store.entries && store.entries[name] == secret && secret != ""
    ensures Setting(env, store, name, default) == ""
    ensures FirstNonEmpty([GetEnv(env, name), Some(GetSecret(store, name, default))]) == Some(secret)
  {
    FirstNonEmptyOfTwo(GetEnv(env, name), Some(GetSecret(store, name, default)));
  }

  // ---------------------------------------------------------------- reading the URL back

  /** The index of the first `c` in `s`, or `|s|`. */
  function FirstIndex(s: string, c: char): (i: nat)
    ensures i <= |s|
    ensures i < |s| ==> s[i] == c
    ensures forall j :: 0 <= j < i ==> s[j] != c
    decreases |s|
  {
    if |s| == 0 || s[0] == c then 0 else 1 + FirstIndex(s[1..], c)
  }

  /** The text before and after the first `c`. */
  function Cut(s: string, c: char): Option<(string, string)> {
    var i := FirstIndex(s, c);
    if i == |s| then None else Some((s[..i], s[i + 1..]))
  }

  /** Reads the six fields back, each up to the first delimiter that follows it. */
  function ParseEngineUrl(url: string): Option<ConnParams> {
    if !(Scheme <= url) then None
    else
      match Cut(url[|Scheme|..], ':')
      case None => None
      case Some((user, r1)) =>
        match Cut(r1, '@')
        case None => None
        case Some((password, r2)) =>
          match Cut(r2, ':')
          case None => None
          case Some((host, r3)) =>
            match Cut(r3, '/')
            case None => None
            case Some((port, r4)) =>
              match Cut(r4, '?')
              case None => None
              case Some((dbname, r5)) =>
                if SslQuery[1..] <= r5 then Some(ConnParams(host, port, user, password, dbname, r5[|SslQuery| - 1..]))
                else None
  }

  lemma CutAt(x: string, c: char, y: string)
    requires c !in x
    ensures Cut(x + [c] + y, c) == Some((x, y))
  {
    var s := x + [c] + y;
    assert forall j :: 0 <= j < |x| ==> s[j] == x[j];
    assert s[|x|] == c;
    assert FirstIndex(s, c) == |x|;
    assert s[..|x|] == x;
    assert s[|x| + 1..] == y;
  }

  /** The URL determines the settings when the user name has no ':', the
      password no '@', the host no ':', the port no '/' and the database name
      no '?'. */
  lemma ParseEngineUrlRoundTrip(p: ConnParams)
    requires ':' !in p.user && '@' !in p.password && ':' !in p.host && '/' !in p.port && '?' !in p.dbname
    ensures ParseEngineUrl(EngineUrl(p)) == Some(p)
  {
    var r5 := "sslmode=" + p.sslmode;
    var r4 := p.dbname + ['?'] + r5;
    var r3 := p.port + ['/'] + r4;
    var r2 := p.host + [':'] + r3;
    var r1 := p.password + ['@'] + r2;
    var r0 := p.user + [':'] + r1;
    assert EngineUrl(p) == Scheme + r0;
    assert EngineUrl(p)[|Scheme|..] == r0;
    CutAt(p.user, ':', r1);
    CutAt(p.password, '@', r2);
    CutAt(p.host, ':', r3);
    CutAt(p.port, '/', r4);
    CutAt(p.dbname, '?', r5);
    assert SslQuery[1..] == "sslmode=";
    assert r5[|SslQuery| - 1..] == p.sslmode;
  }

  /** Settings that are equal after delimiters are excluded give equal URLs
      only when they are equal. */
  lemma EngineUrlInjective(p: ConnParams, p': ConnParams)
    requires ':' !in p.user && '@' !in p.password && ':' !in p.host && '/' !in p.port && '?' !in p.dbname
    requires ':' !in p'.user && '@' !in p'.password && ':' !in p'.host && '/' !in p'.port && '?' !in p'.dbname
    requires EngineUrl(p) == EngineUrl(p')
    ensures p == p'
  {
    ParseEngineUrlRoundTrip(p);
    ParseEngineUrlRoundTrip(p');
  }

  /** Without escaping, a ':' may move between user name and password without
      changing the URL. */
  lemma EngineUrlAmbiguous(p: ConnParams, a: string, b: string, c: string)
    requires p.user == a + ":" + b && p.password == c
    ensures EngineUrl(p) == EngineUrl(p.(user := a, password := b + ":" + c))
    ensures p != p.(user := a, password := b + ":" + c)
  {
    assert |p.user| != |a|;
    assert p.user + ":" + p.password == a + ":" + (b + ":" + c);
  }

  // ---------------------------------------------------------------- run_sql

  /** What executing a statement yields: a result with rows (to be fetched)
      or one that does not return rows, on which `fetchall()` raises. */
  datatype Cursor = RowsCursor(columns: seq<string>, rows: seq<seq<string>>) | NoRowsCursor

  /** The `pd.DataFrame` built from the fetched rows. */
  datatype Frame = Frame(columns: seq<string>, rows: seq<seq<string>>)

  /** `conn.execute(text(sql_text))`, which may raise. */
  type Executor = string -> Result<Cursor>

  /** `run_sql(engine, sql_text)`: None for empty text; an execution error is
      raised; a statement without rows gives None; otherwise its rows. */
  function RunSql(sql: string, execute: Executor): Result<Option<Frame>> {
    if sql == "" then Ok(None)
    else
      match execute(sql)
      case Err(e) => Err(e)
      case Ok(NoRowsCursor) => Ok(None)
      case Ok(RowsCursor(cols, rows)) => Ok(Some(Frame(cols, rows)))
  }

  /** Empty text returns None whatever the data store would have done: it is
      never executed. */
  lemma RunSqlEmpty(execute: Executor, other: Executor)
    ensures RunSql("", execute) == Ok(None)
    ensures RunSql("", execute) == RunSql("", other)
  {
  }

  /** For non-empty text `run_sql` raises exactly when execution does, gives
      None exactly for a statement without rows, and otherwise returns the
      statement's columns and rows unchanged. */
  lemma RunSqlOutcomes(sql: string, execute: Executor)
    requires sql != ""
    ensures RunSql(sql, execute).Err? <==> execute(sql).Err?
    ensures RunSql(sql, execute).Err? ==> RunSql(sql, execute).error == execute(sql).error
    ensures RunSql(sql, execute) == Ok(None) <==> execute(sql) == Ok(NoRowsCursor)
    ensures RunSql(sql, execute).Ok? && RunSql(sql, execute).value.Some? ==>
              execute(sql) == Ok(RowsCursor(RunSql(sql, execute).value.value.columns,
                                            RunSql(sql, execute).value.value.rows))
  {
  }
}
