/**
 * fiberextend.go: the typed getters of the free-form option map, the choice of a `run` command
 * from the command-line arguments, and the database step of New.
 */
module FiberExtend {
  import opened Wrappers
  import opened Values
  import opened Db

  // ---------------------------------------------------------------------------------------------
  // IFiberExConfigOption.

  /** IFiberExConfigOption: a map from option names to values of any type. */
  datatype ConfigOption = ConfigOption(src: map<string, Value>)

  /** GetString: the option when it holds a string, otherwise "" (an absent option included). */
  function GetString(p: ConfigOption, key: string): (r: string)
    ensures key in p.src && p.src[key].Str? ==> r == p.src[key].s
    ensures key !in p.src || !p.src[key].Str? ==> r == ""
  {
    if key in p.src && p.src[key].Str? then p.src[key].s else ""
  }

  /** GetInt: the option when it holds an int, otherwise 0. */
  function GetInt(p: ConfigOption, key: string): (r: int)
    ensures key in p.src && p.src[key].Int? ==> r == p.src[key].i
    ensures key !in p.src || !p.src[key].Int? ==> r == 0
  {
    if key in p.src && p.src[key].Int? then p.src[key].i else 0
  }

  /** GetInt64: the option when it holds an int64, otherwise 0; an `int` does not count. */
  function GetInt64(p: ConfigOption, key: string): (r: int)
    ensures key in p.src && p.src[key].Int64? ==> r == p.src[key].n
    ensures key !in p.src || !p.src[key].Int64? ==> r == 0
  {
    if key in p.src && p.src[key].Int64? then p.src[key].n else 0
  }

  /** A value stored under a key is read back by the getter of its own type. */
  lemma OptionRoundTrip(m: map<string, Value>, key: string, s: string, n: int)
    ensures GetString(ConfigOption(m[key := Str(s)]), key) == s
    ensures GetInt(ConfigOption(m[key := Int(n)]), key) == n
    ensures GetInt64(ConfigOption(m[key := Int64(n)]), key) == n
  {
  }

  /**
   * The getters never convert: an int is invisible to GetInt64 and an int64 to GetInt, a number
   * to GetString, and an absent key reads as the zero value.
   */
  lemma OptionNoConversion(m: map<string, Value>, key: string, n: int)
    ensures GetInt64(ConfigOption(m[key := Int(n)]), key) == 0
    ensures GetInt(ConfigOption(m[key := Int64(n)]), key) == 0
    ensures GetString(ConfigOption(m[key := Int(n)]), key) == ""
    ensures key !in m ==>
      GetString(ConfigOption(m), key) == "" && GetInt(ConfigOption(m), key) == 0 && GetInt64(ConfigOption(m), key) == 0
  {
  }

  /** Storing under one key does not change what the getters read under another. */
  lemma OptionOtherKey(m: map<string, Value>, key: string, other: string, v: Value)
    requires other != key
    ensures GetString(ConfigOption(m[other := v]), key) == GetString(ConfigOption(m), key)
    ensures GetInt(ConfigOption(m[other := v]), key) == GetInt(ConfigOption(m), key)
    ensures GetInt64(ConfigOption(m[other := v]), key) == GetInt64(ConfigOption(m), key)
  {
  }

  // ---------------------------------------------------------------------------------------------
  // RunCommand.

  /**
   * RunCommand on the arguments left after flag.Parse: `run <name> <args...>` gives the name, the
   * arguments after it and true; anything else gives "", all the arguments and false.
   */
  function RunCommand(args: seq<string>): (r: (string, seq<string>, bool))
    ensures r.2 <==> |args| > 1 && args[0] == "run"
    ensures r.2 ==> ["run", r.0] + r.1 == args
    ensures !r.2 ==> r.0 == "" && r.1 == args
  {
    if |args| > 1 && args[0] == "run" then (args[1], args[2..], true)
    else ("", args, false)
  }

  /** A lone `run`, or no arguments at all, is no command. */
  lemma RunCommandNeedsName()
    ensures RunCommand(["run"]) == ("", ["run"], false)
    ensures RunCommand([]) == ("", [], false)
  {
  }

  // ---------------------------------------------------------------------------------------------
  // The database step of New.

  const DefaultAddr: string := "db:3306"

  /**
   * The database step of New, run when no connection exists yet and UseDB is set: a missing
   * DBConfig is allocated, an empty Addr defaults to db:3306 (the only default that is not the
   * zero value), test mode appends `_test`, and NewDB, which appends it once more, connects.
   */
  method NewDatabase(config: FiberExConfig, connected: bool, open: Opener)
    returns (db: Option<Result<Attempt, string>>, tried: seq<Attempt>)
    modifies config, config.dbConfig
    ensures db.Some? <==> !connected && config.useDB
    ensures db.None? ==>
      tried == [] && config.dbConfig == old(config.dbConfig)
      && (config.dbConfig != null ==> unchanged(config.dbConfig))
    ensures db.Some? ==>
      config.dbConfig != null
      && (old(config.dbConfig) != null ==> config.dbConfig == old(config.dbConfig))
      && (old(config.dbConfig) == null ==> fresh(config.dbConfig))
    ensures db.Some? && old(config.dbConfig) != null ==>
      config.dbConfig.dbName == WithTestSuffix(WithTestSuffix(old(config.dbConfig.dbName), config.testMode), config.testMode)
      && config.dbConfig.addr == (if old(config.dbConfig.addr) == "" then DefaultAddr else old(config.dbConfig.addr))
      && config.dbConfig.user == old(config.dbConfig.user) && config.dbConfig.pass == old(config.dbConfig.pass)
      && config.dbConfig.isPostgres == old(config.dbConfig.isPostgres)
    ensures db.Some? && old(config.dbConfig) == null ==>
      config.dbConfig.dbName == WithTestSuffix(WithTestSuffix("", config.testMode), config.testMode)
      && config.dbConfig.addr == DefaultAddr && config.dbConfig.user == "" && config.dbConfig.pass == ""
      && config.dbConfig.isPostgres.None?
    ensures db.Some? ==>
      (db.value, tried) == Connect(config.dbConfig.user, config.dbConfig.pass, config.dbConfig.addr,
                                   config.dbConfig.dbName, IsOn(config.dbConfig.isPostgres), config.devMode, open)
  {
    if connected || !config.useDB {
      return None, [];
    }
    if config.dbConfig == null {
      config.dbConfig := new DBConfig("", "", "", "", None);
    }
    var c := config.dbConfig;
    if c.addr == "" {
      c.addr := DefaultAddr;
    }
    if IsOn(config.testMode) {
      c.dbName := c.dbName + TestSuffix;
    }
    var r;
    r, tried := config.NewDB(open);
    db := Some(r);
  }

  /** In test mode New and NewDB each append the suffix, so the database is `<name>_test_test`. */
  lemma TestModeSuffixTwice(name: string, testMode: Option<bool>)
    ensures IsOn(testMode) ==> WithTestSuffix(WithTestSuffix(name, testMode), testMode) == name + "_test_test"
    ensures !IsOn(testMode) ==> WithTestSuffix(WithTestSuffix(name, testMode), testMode) == name
  {
    if IsOn(testMode) {
      assert name + TestSuffix + TestSuffix == name + (TestSuffix + TestSuffix);
    }
  }
}
