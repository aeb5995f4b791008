/**
 * db.go: NewDB, which suffixes the database name in test mode, builds the MySQL or PostgreSQL
 * connection string and opens it, trying PostgreSQL once more without a database name.
 */
module Db {
  import opened Wrappers
  import opened Strs
  import opened Values

  /** IDBConfig, shared by pointer between the configuration and whoever filled it in. */
  class DBConfig {
    var user: string
    var pass: string
    var addr: string
    var dbName: string
    var isPostgres: Option<bool>  // *bool

    constructor (user: string, pass: string, addr: string, dbName: string, isPostgres: Option<bool>)
      ensures this.user == user && this.pass == pass && this.addr == addr
      ensures this.dbName == dbName && this.isPostgres == isPostgres
    {
      this.user := user;
      this.pass := pass;
      this.addr := addr;
      this.dbName := dbName;
      this.isPostgres := isPostgres;
    }
  }

  /** A `*bool` option holds only when it is set and true. */
  predicate IsOn(flag: Option<bool>) {
    flag == Some(true)
  }

  /** The suffix test mode adds to a database name, each time it is applied. */
  function WithTestSuffix(name: string, testMode: Option<bool>): (r: string)
    ensures IsOn(testMode) ==> r == name + TestSuffix
    ensures !IsOn(testMode) ==> r == name
  {
    if IsOn(testMode) then name + TestSuffix else name
  }

  const TestSuffix: string := "_test"

  datatype Driver = MySQL | Postgres

  /** One call of gorm.Open: the driver and the connection string handed to it. */
  datatype Attempt = Attempt(driver: Driver, dsn: string)

  function MySqlDsn(user: string, pass: string, addr: string, dbName: string): string {
    user + ":" + pass + "@tcp(" + addr + ")/" + dbName + MySqlParams
  }

  const MySqlParams: string := "?charset=utf8mb4&parseTime=True&loc=Local"

  /** sslmode is "disable" in development mode and "enable" otherwise. */
  function SslMode(devMode: Option<bool>): (r: string)
    ensures r == "disable" <==> IsOn(devMode)
    ensures r == "enable" <==> !IsOn(devMode)
  {
    if IsOn(devMode) then "disable" else "enable"
  }

  /** The PostgreSQL connection string from its leading part, the database name and the rest. */
  function PostgresDsn(user: string, pass: string, dbName: string, host: string, port: string, sslmode: string): string {
    PostgresHead(user, pass) + " dbname=" + dbName + PostgresTail(host, port, sslmode)
  }

  /** The fallback PostgreSQL connection string, with no database named. */
  function PostgresFallbackDsn(user: string, pass: string, host: string, port: string, sslmode: string): string {
    PostgresHead(user, pass) + PostgresTail(host, port, sslmode)
  }

  function PostgresHead(user: string, pass: string): string {
    "user=" + user + " password=" + pass
  }

  function PostgresTail(host: string, port: string, sslmode: string): string {
    " host=" + host + " port=" + port + " sslmode=" + sslmode
  }

  /**
   * The fallback string is the first one with its ` dbname=...` item taken out, and nothing else
   * differs between the two.
   */
  lemma FallbackDropsDbName(user: string, pass: string, dbName: string, host: string, port: string, sslmode: string)
    ensures exists head, tail ::
      PostgresDsn(user, pass, dbName, host, port, sslmode) == head + " dbname=" + dbName + tail
      && PostgresFallbackDsn(user, pass, host, port, sslmode) == head + tail
      && HasPrefix(head, "user=" + user) && HasPrefix(tail, " host=" + host)
  {
    var head := PostgresHead(user, pass);
    var tail := PostgresTail(host, port, sslmode);
    assert head == "user=" + user + (" password=" + pass);
    assert tail == " host=" + host + (" port=" + port + " sslmode=" + sslmode);
    assert head[..|"user=" + user|] == "user=" + user;
    assert tail[..|" host=" + host|] == " host=" + host;
    assert PostgresDsn(user, pass, dbName, host, port, sslmode) == head + " dbname=" + dbName + tail;
    assert PostgresFallbackDsn(user, pass, host, port, sslmode) == head + tail;
    assert PostgresDsn(user, pass, dbName, host, port, sslmode) == head + " dbname=" + dbName + tail
      && PostgresFallbackDsn(user, pass, host, port, sslmode) == head + tail
      && HasPrefix(head, "user=" + user) && HasPrefix(tail, " host=" + host);
  }

  /** The panic of `host[1]` when Addr has no colon and Split gives one part. */
  const PortIndexPanic: string := "runtime error: index out of range [1] with length 1"

  /** `strings.Split(Addr, ":")` read as host[0] and host[1]; without a colon, host[1] panics. */
  function HostPort(addr: string): (r: Result<(string, string), string>)
    ensures r.Ok? <==> ':' in addr
    ensures r.Err? ==> r.error == PortIndexPanic
  {
    var parts := Split(addr, ':');
    if |parts| < 2 then Err(PortIndexPanic)
    else Ok((parts[0], parts[1]))
  }

  /**
   * The host is everything before the first colon, and the port everything after it up to the
   * next colon, if any: `db:5432:x` connects to port 5432.
   */
  lemma HostPortParts(addr: string)
    requires ':' in addr
    ensures HostPort(addr).Ok?
    ensures var (host, port) := HostPort(addr).value;
      ':' !in host && ':' !in port && HasPrefix(addr, host + ":" + port)
      && (|host + ":" + port| < |addr| ==> addr[|host + ":" + port|] == ':')
  {
    var i := IndexOf(addr, ':');
    SplitHeadTail(addr, ':');
    SplitSecond(addr, ':');
    var port := Split(addr, ':')[1];
    SliceAround(addr, i, i + 1 + |port|);
  }

  /** The abstract gorm.Open: none for a connection, or the error it returned. */
  type Opener = Attempt -> Option<string>

  /**
   * The connection attempts NewDB makes with the configuration as it is after the suffix, and
   * what comes of them: the attempt that connected, or the message it panics with.
   */
  function Connect(user: string, pass: string, addr: string, dbName: string, postgres: bool,
                   devMode: Option<bool>, open: Opener): (Result<Attempt, string>, seq<Attempt>)
  {
    if !postgres then
      var a := Attempt(MySQL, MySqlDsn(user, pass, addr, dbName));
      (if open(a).None? then Ok(a) else Err(open(a).value), [a])
    else
      match HostPort(addr)
      case Err(p) => (Err(p), [])
      case Ok((host, port)) =>
        var first := Attempt(Postgres, PostgresDsn(user, pass, dbName, host, port, SslMode(devMode)));
        if open(first).None? then (Ok(first), [first])
        else
          var second := Attempt(Postgres, PostgresFallbackDsn(user, pass, host, port, SslMode(devMode)));
          (if open(second).None? then Ok(second) else Err(open(second).value), [first, second])
  }

  /**
   * Connect opens with one attempt on MySQL; on PostgreSQL it makes a second attempt only when the
   * first one fails, and the second goes without the database name. The result is the last
   * attempt when it connected, and otherwise its error, which NewDB panics with.
   */
  lemma ConnectAttempts(user: string, pass: string, addr: string, dbName: string, postgres: bool,
                        devMode: Option<bool>, open: Opener)
    ensures var (db, tried) := Connect(user, pass, addr, dbName, postgres, devMode, open);
      (!postgres ==> tried == [Attempt(MySQL, MySqlDsn(user, pass, addr, dbName))])
      && (postgres && ':' !in addr ==> db == Err(PortIndexPanic) && tried == [])
      && (|tried| > 0 ==> (db.Ok? <==> open(tried[|tried| - 1]).None?))
      && (|tried| > 0 && db.Ok? ==> db.value == tried[|tried| - 1])
      && (|tried| > 0 && db.Err? ==> Some(db.error) == open(tried[|tried| - 1]))
      && (|tried| == 2 ==> postgres && open(tried[0]).Some?)
      && (forall k :: 0 <= k < |tried| ==> tried[k].driver == (if postgres then Postgres else MySQL))
      && |tried| <= 2
  {
  }

  /** The part of IFiberExConfig that New and NewDB read and write; DBConfig is a pointer. */
  class FiberExConfig {
    const devMode: Option<bool>
    const testMode: Option<bool>
    const useDB: bool
    var dbConfig: DBConfig?

    constructor (devMode: Option<bool>, testMode: Option<bool>, useDB: bool, dbConfig: DBConfig?)
      ensures this.devMode == devMode && this.testMode == testMode && this.useDB == useDB
      ensures this.dbConfig == dbConfig
    {
      this.devMode := devMode;
      this.testMode := testMode;
      this.useDB := useDB;
      this.dbConfig := dbConfig;
    }

    /**
     * IFiberExConfig.NewDB: in test mode the database name gets `_test` appended, every time it
     * is called; then the connection is opened as Connect describes. `tried` lists the calls of
     * gorm.Open. Without a DBConfig the first access to it is a nil dereference.
     */
    method NewDB(open: Opener) returns (db: Result<Attempt, string>, tried: seq<Attempt>)
      modifies dbConfig
      ensures dbConfig == null ==> db == Err(NilDereference) && tried == []
      ensures dbConfig != null ==>
        dbConfig.dbName == WithTestSuffix(old(dbConfig.dbName), testMode)
        && dbConfig.user == old(dbConfig.user) && dbConfig.pass == old(dbConfig.pass)
        && dbConfig.addr == old(dbConfig.addr) && dbConfig.isPostgres == old(dbConfig.isPostgres)
        && (db, tried) == Connect(dbConfig.user, dbConfig.pass, dbConfig.addr, dbConfig.dbName,
                                  IsOn(dbConfig.isPostgres), devMode, open)
    {
      var c := dbConfig;
      if c == null {
        db, tried := Err(NilDereference), [];
        return;
      }
      if IsOn(testMode) {
        c.dbName := c.dbName + TestSuffix;
      }
      if IsOn(c.isPostgres) {
        var sslmode := SslMode(devMode);
        var host := HostPort(c.addr);
        if host.Err? {
          db, tried := Err(host.error), [];
          return;
        }
        var (h, p) := host.value;
        var first := Attempt(Postgres, PostgresDsn(c.user, c.pass, c.dbName, h, p, sslmode));
        var err := open(first);
        db, tried := Ok(first), [first];
        if err.Some? {
          var second := Attempt(Postgres, PostgresFallbackDsn(c.user, c.pass, h, p, sslmode));
          err := open(second);
          db, tried := Ok(second), [first, second];
        }
        if err.Some? {
          db := Err(err.value);
        }
      } else {
        var a := Attempt(MySQL, MySqlDsn(c.user, c.pass, c.addr, c.dbName));
        var err := open(a);
        db, tried := Ok(a), [a];
        if err.Some? {
          db := Err(err.value);
        }
      }
    }
  }
}
