/**
 * The database facade (include/vix/db/Database.hpp, src/Database.cpp): reading a DbConfig from the
 * application configuration, choosing the engine's connection factory and pool settings, and
 * constructing the pool and warming it up. The application configuration is a pair of key/value
 * maps read with defaults; which drivers were compiled in, and what connections a factory makes,
 * are parameters.
 */
module Database {
  import opened Wrappers
  import opened Ints
  import opened Drivers
  import opened Pool

  datatype Engine = MySQL | SQLite

  datatype MySQLConfig = MySQLConfig(host: string, user: string, password: string, database: string, pool: PoolConfig)

  datatype SQLiteConfig = SQLiteConfig(path: string, pool: PoolConfig)

  datatype DbConfig = DbConfig(engine: Engine, mysql: MySQLConfig, sqlite: SQLiteConfig)

  /** DbConfig{}: MySQL, empty strings, and the PoolConfig defaults for both engines. */
  function DefaultDbConfig(): (c: DbConfig)
    ensures c.engine == MySQL
    ensures c.mysql.host == "" && c.mysql.user == "" && c.mysql.password == "" && c.mysql.database == ""
    ensures c.sqlite.path == ""
    ensures c.mysql.pool.min == 1 && c.mysql.pool.max == 8 && c.sqlite.pool == c.mysql.pool
  {
    DbConfig(MySQL, MySQLConfig("", "", "", "", DefaultPoolConfig()), SQLiteConfig("", DefaultPoolConfig()))
  }

  /** The application configuration as far as it is read here: string and int settings by key. */
  datatype AppConfig = AppConfig(strings: map<string, string>, ints: map<string, int32>)

  /** Config::getString(key, fallback). */
  function GetString(cfg: AppConfig, key: string, fallback: string): (r: string)
    ensures key in cfg.strings ==> r == cfg.strings[key]
    ensures key !in cfg.strings ==> r == fallback
  {
    if key in cfg.strings then cfg.strings[key] else fallback
  }

  /** Config::getInt(key, fallback). */
  function GetInt(cfg: AppConfig, key: string, fallback: int32): (r: int32)
    ensures key in cfg.ints ==> r == cfg.ints[key]
    ensures key !in cfg.ints ==> r == fallback
  {
    if key in cfg.ints then cfg.ints[key] else fallback
  }

  const EngineKey := "db.engine"
  const PoolMinKey := "db.pool.min"
  const PoolMaxKey := "db.pool.max"

  /**
   * make_db_config_from_vix_config: "sqlite" selects SQLite and any other engine name MySQL; the
   * pool bounds are static_cast<size_t> of the configured ints; the SQLite pool is a copy of the
   * MySQL pool.
   */
  function MakeDbConfig(cfg: AppConfig): DbConfig {
    var engine := if GetString(cfg, EngineKey, "mysql") == "sqlite" then SQLite else MySQL;
    var pool := PoolConfig(IntToSize(GetInt(cfg, PoolMinKey, 1)), IntToSize(GetInt(cfg, PoolMaxKey, 8)));
    var mysql := MySQLConfig(GetString(cfg, "db.host", "tcp://127.0.0.1:3306"),
                             GetString(cfg, "db.user", "root"),
                             GetString(cfg, "db.password", ""),
                             GetString(cfg, "db.database", "vixdb"),
                             pool);
    DbConfig(engine, mysql, SQLiteConfig(GetString(cfg, "db.sqlite", "vix_db.sqlite"), pool))
  }

  /** SQLite is chosen exactly when the engine setting is the exact string "sqlite". */
  lemma EngineSelection(cfg: AppConfig)
    ensures MakeDbConfig(cfg).engine == SQLite <==> EngineKey in cfg.strings && cfg.strings[EngineKey] == "sqlite"
    ensures EngineKey !in cfg.strings ==> MakeDbConfig(cfg).engine == MySQL
  {
    assert "mysql" != "sqlite" by { assert "mysql"[0] != "sqlite"[0]; }
  }

  /** An empty configuration gives the documented defaults, which differ from DbConfig{}. */
  lemma EmptyConfigDefaults()
    ensures var c := MakeDbConfig(AppConfig(map[], map[]));
      && c.engine == MySQL
      && c.mysql.host == "tcp://127.0.0.1:3306" && c.mysql.user == "root"
      && c.mysql.password == "" && c.mysql.database == "vixdb"
      && c.mysql.pool == PoolConfig(1, 8) && c.sqlite == SQLiteConfig("vix_db.sqlite", PoolConfig(1, 8))
      && c != DefaultDbConfig()
  {
    assert "mysql" != "sqlite" by { assert "mysql"[0] != "sqlite"[0]; }
    assert MakeDbConfig(AppConfig(map[], map[])).mysql.host != "" by {
      assert |MakeDbConfig(AppConfig(map[], map[])).mysql.host| > 0;
    }
  }

  /** Configured pool bounds are taken as they are when non-negative and wrap to huge sizes when negative. */
  lemma PoolBounds(cfg: AppConfig)
    ensures var p := MakeDbConfig(cfg).mysql.pool;
      && (PoolMinKey in cfg.ints && cfg.ints[PoolMinKey] >= 0 ==> p.min as int == cfg.ints[PoolMinKey] as int)
      && (PoolMinKey in cfg.ints && cfg.ints[PoolMinKey] < 0 ==> p.min as int == cfg.ints[PoolMinKey] as int + TWO_64)
      && (PoolMaxKey in cfg.ints && cfg.ints[PoolMaxKey] >= 0 ==> p.max as int == cfg.ints[PoolMaxKey] as int)
      && (PoolMaxKey in cfg.ints && cfg.ints[PoolMaxKey] < 0 ==> p.max as int == cfg.ints[PoolMaxKey] as int + TWO_64)
      && (PoolMinKey !in cfg.ints ==> p.min == 1)
      && (PoolMaxKey !in cfg.ints ==> p.max == 8)
  {
  }

  /** pool_for: the selected engine's pool settings. */
  function PoolFor(cfg: DbConfig): (p: PoolConfig)
    ensures cfg.engine.MySQL? ==> p == cfg.mysql.pool
    ensures cfg.engine.SQLite? ==> p == cfg.sqlite.pool
  {
    match cfg.engine
    case MySQL => cfg.mysql.pool
    case SQLite => cfg.sqlite.pool
  }

  /** Since the SQLite pool is copied from the MySQL pool, a configuration read from the application has one pool setting whatever the engine. */
  lemma PoolIndependentOfEngine(cfg: AppConfig)
    ensures PoolFor(MakeDbConfig(cfg)) == MakeDbConfig(cfg).mysql.pool == MakeDbConfig(cfg).sqlite.pool
  {
  }

  /** The connection factory make_factory_for picks: the driver and the settings it connects with. */
  datatype Factory = MySqlFactory(host: string, user: string, password: string, database: string) | SqliteFactory(path: string)

  const NoMySql := "MySQL requested but VIX_DB_HAS_MYSQL=0"
  const NoSqlite := "SQLite requested but VIX_DB_HAS_SQLITE=0"

  /** The drivers built into the library: VIX_DB_HAS_MYSQL and VIX_DB_HAS_SQLITE. */
  datatype Build = Build(hasMysql: bool, hasSqlite: bool)

  /** make_factory_for: the selected engine's driver, or the error naming the missing build flag. */
  function MakeFactoryFor(cfg: DbConfig, build: Build): Result<Factory, string> {
    match cfg.engine
    case MySQL =>
      if build.hasMysql then Success(MySqlFactory(cfg.mysql.host, cfg.mysql.user, cfg.mysql.password, cfg.mysql.database))
      else Failure(NoMySql)
    case SQLite =>
      if build.hasSqlite then Success(SqliteFactory(cfg.sqlite.path)) else Failure(NoSqlite)
  }

  /**
   * A factory exists exactly when the selected engine's driver is built in; it uses that engine's
   * driver with that engine's settings, and otherwise the error names that engine's flag.
   */
  lemma FactoryMatchesEngine(cfg: DbConfig, build: Build)
    ensures MakeFactoryFor(cfg, build).Success? <==> (if cfg.engine.MySQL? then build.hasMysql else build.hasSqlite)
    ensures MakeFactoryFor(cfg, build).Success? && cfg.engine.MySQL? ==>
      MakeFactoryFor(cfg, build).value == MySqlFactory(cfg.mysql.host, cfg.mysql.user, cfg.mysql.password, cfg.mysql.database)
    ensures MakeFactoryFor(cfg, build).Success? && cfg.engine.SQLite? ==>
      MakeFactoryFor(cfg, build).value == SqliteFactory(cfg.sqlite.path)
    ensures MakeFactoryFor(cfg, build).Failure? ==> MakeFactoryFor(cfg, build).error == (if cfg.engine.MySQL? then NoMySql else NoSqlite)
  {
  }

  /** The other engine's driver and settings play no part. */
  lemma FactoryIgnoresOtherEngine(cfg: DbConfig, build: Build, other: DbConfig, otherBuild: Build)
    requires other.engine == cfg.engine
    requires cfg.engine.MySQL? ==> other.mysql == cfg.mysql && otherBuild.hasMysql == build.hasMysql
    requires cfg.engine.SQLite? ==> other.sqlite == cfg.sqlite && otherBuild.hasSqlite == build.hasSqlite
    ensures MakeFactoryFor(other, otherBuild) == MakeFactoryFor(cfg, build)
    ensures PoolFor(other) == PoolFor(cfg)
  {
  }

  /** Database: the configuration it was built from and the pool it owns. */
  class Database {
    const cfg: DbConfig
    const pool: ConnectionPool

    constructor Built(cfg: DbConfig, pool: ConnectionPool)
      ensures this.cfg == cfg && this.pool == pool
    {
      this.cfg := cfg;
      this.pool := pool;
    }

    /**
     * Database(cfg): the factory is chosen first (its error propagates and nothing is built),
     * then the pool is built with pool_for(cfg) and warmed up; a warmup error propagates too.
     * `connect` is what a factory's calls do, call by call: the connection each returns, or
     * the DBError each throws.
     */
    static method Open(cfg: DbConfig, build: Build, connect: Factory -> nat -> Made, ping: Conn -> bool)
      returns (r: Result<Database, string>)
      ensures MakeFactoryFor(cfg, build).Failure? ==> r == Failure(MakeFactoryFor(cfg, build).error)
      ensures MakeFactoryFor(cfg, build).Success? ==>
        var w := Warmup(PoolState([], 0), PoolFor(cfg).min as nat, connect(MakeFactoryFor(cfg, build).value), ping);
        && (w.1.Failure? ==> r == Failure(w.1.error))
        && (w.1.Success? ==>
              r.Success? && fresh(r.value) && fresh(r.value.pool) &&
              r.value.cfg == cfg && r.value.pool.cfg == PoolFor(cfg) && r.value.pool.State() == w.0)
    {
      var f := MakeFactoryFor(cfg, build);
      if f.Failure? {
        return Failure(f.error);
      }
      var pool := new ConnectionPool(PoolFor(cfg));
      var warm := pool.WarmupPool(connect(f.value), ping);
      if warm.Failure? {
        return Failure(warm.error);
      }
      var db := new Database.Built(cfg, pool);
      r := Success(db);
    }
  }

  /** With the defaults and a working driver, a fresh database holds exactly one idle connection. */
  lemma DefaultWarmupHoldsOne(f: nat -> Made, ping: Conn -> bool)
    requires Pool.Usable(f(0), ping)
    ensures var cfg := MakeDbConfig(AppConfig(map[], map[]));
      Warmup(PoolState([], 0), PoolFor(cfg).min as nat, f, ping) == (PoolState([f(0).conn.value], 1), Success(()))
  {
    EmptyConfigDefaults();
    assert PoolFor(MakeDbConfig(AppConfig(map[], map[]))).min as nat == 1;
    assert Warmup(PoolState([], 0), 0, f, ping) == (PoolState([], 0), Success(()));
    assert [] + [f(0).conn.value] == [f(0).conn.value];
  }

  /**
   * With the defaults, a driver whose connect throws makes the database's construction fail
   * with the driver's own message, and nothing is counted.
   */
  lemma DefaultWarmupPassesDriverError(f: nat -> Made, ping: Conn -> bool)
    requires f(0).Threw?
    ensures var cfg := MakeDbConfig(AppConfig(map[], map[]));
      Warmup(PoolState([], 0), PoolFor(cfg).min as nat, f, ping) == (PoolState([], 0), Failure(f(0).msg))
  {
    EmptyConfigDefaults();
    assert PoolFor(MakeDbConfig(AppConfig(map[], map[]))).min as nat == 1;
    assert Warmup(PoolState([], 0), 0, f, ping) == (PoolState([], 0), Success(()));
  }
}
