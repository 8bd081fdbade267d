/**
 * Argument handling of the migrator tool (tools/migrator/MigratorCLI.cpp and MigratorCLI.hpp):
 * flag lookup, the Options record with its defaults, the --steps parse and the validation rules.
 * Every `throw std::runtime_error(m)` is a Failure(m) carrying the same message.
 */
module MigratorCli {
  import opened Wrappers
  import opened Chars

  // ---------------------------------------------------------------------------------------------
  // Flag lookup.

  /** has_flag: some argument equals `key`. */
  function HasFlag(args: seq<string>, key: string): (b: bool)
    ensures b <==> key in args
  {
    if |args| == 0 then false
    else
      assert args == [args[0]] + args[1..];
      args[0] == key || HasFlag(args[1..], key)
  }

  /** get_flag_value: the argument after the first `key` that is not the last argument, else "". */
  function GetFlagValue(args: seq<string>, key: string): (v: string)
    ensures (forall i :: 0 <= i < |args| - 1 ==> args[i] != key) ==> v == ""
  {
    if |args| < 2 then ""
    else if args[0] == key then args[1]
    else
      assert forall i :: 0 <= i < |args| - 2 ==> args[1..][i] == args[i + 1];
      GetFlagValue(args[1..], key)
  }

  lemma {:induction false} GetFlagValueFirst(args: seq<string>, key: string, i: nat)
    requires i < |args| - 1 && args[i] == key
    requires forall j :: 0 <= j < i ==> args[j] != key
    ensures GetFlagValue(args, key) == args[i + 1]
  {
    if i > 0 {
      GetFlagValueFirst(args[1..], key, i - 1);
    }
  }

  /** get_flag_value_eq: what follows `prefix` in the first argument that starts with it, else "". */
  function GetFlagValueEq(args: seq<string>, prefix: string): (v: string)
    ensures (forall i :: 0 <= i < |args| ==> !(prefix <= args[i])) ==> v == ""
  {
    if |args| == 0 then ""
    else if prefix <= args[0] then args[0][|prefix|..]
    else
      assert forall i :: 0 <= i < |args| - 1 ==> args[1..][i] == args[i + 1];
      GetFlagValueEq(args[1..], prefix)
  }

  lemma {:induction false} GetFlagValueEqFirst(args: seq<string>, prefix: string, i: nat)
    requires i < |args| && prefix <= args[i]
    requires forall j :: 0 <= j < i ==> !(prefix <= args[j])
    ensures GetFlagValueEq(args, prefix) == args[i][|prefix|..]
  {
    if i > 0 {
      GetFlagValueEqFirst(args[1..], prefix, i - 1);
    }
  }

  /** parse_opt: the spaced form `key value`, or `key=value` when the spaced one is empty. */
  function ParseOpt(args: seq<string>, key: string): string {
    var v := GetFlagValue(args, key);
    if v != "" then v else GetFlagValueEq(args, key + "=")
  }

  /** A non-empty spaced value wins over any `key=value`. */
  lemma ParseOptSpaced(args: seq<string>, key: string, i: nat)
    requires i < |args| - 1 && args[i] == key && args[i + 1] != ""
    requires forall j :: 0 <= j < i ==> args[j] != key
    ensures ParseOpt(args, key) == args[i + 1]
  {
    GetFlagValueFirst(args, key, i);
  }

  /** Without a spaced occurrence, the first `key=value` gives the value. */
  lemma ParseOptEquals(args: seq<string>, key: string, i: nat)
    requires forall j :: 0 <= j < |args| - 1 ==> args[j] != key
    requires i < |args| && key + "=" <= args[i]
    requires forall j :: 0 <= j < i ==> !(key + "=" <= args[j])
    ensures ParseOpt(args, key) == args[i][|key| + 1..]
  {
    GetFlagValueEqFirst(args, key + "=", i);
  }

  /** parseDir: the --dir value, "migrations" when there is none; never empty. */
  function ParseDir(args: seq<string>): (d: string)
    ensures d != ""
    ensures ParseOpt(args, "--dir") != "" ==> d == ParseOpt(args, "--dir")
    ensures ParseOpt(args, "--dir") == "" ==> d == "migrations"
  {
    var v := ParseOpt(args, "--dir");
    if v != "" then v else "migrations"
  }

  // ---------------------------------------------------------------------------------------------
  // std::stoi.

  const IntMin: int := -0x8000_0000
  const IntMax: int := 0x7fff_ffff

  /**
   * std::stoi(s): leading whitespace, an optional sign, then at least one digit; what follows the
   * digits is ignored. No digit, or a value outside `int`, makes it throw (None).
   */
  function Stoi(s: string): (r: Option<int>)
    ensures r.Some? ==> IntMin <= r.value <= IntMax
  {
    var i := SkipLeading(s, 0);
    var neg := i < |s| && s[i] == '-';
    var k := if i < |s| && (s[i] == '+' || s[i] == '-') then i + 1 else i;
    var j := SkipDigits(s, k);
    if j == k then None
    else
      assert forall q :: 0 <= q < j - k ==> s[k..j][q] == s[k + q];
      var mag: int := DigitsValue(s[k..j]);
      var v := if neg then -mag else mag;
      if IntMin <= v <= IntMax then Some(v) else None
  }

  /** A plain run of digits that fits in `int` parses to its value. */
  lemma StoiOfDigits(ds: string)
    requires |ds| > 0 && forall k :: 0 <= k < |ds| ==> IsDigit(ds[k])
    requires DigitsValue(ds) <= IntMax
    ensures Stoi(ds) == Some(DigitsValue(ds))
  {
    assert SkipLeading(ds, 0) == 0;
    assert SkipDigits(ds, 0) == |ds|;
    assert ds[0..|ds|] == ds;
  }

  /** Text with no digit at all does not parse. */
  lemma StoiNeedsDigit(s: string)
    requires forall k :: 0 <= k < |s| ==> !IsDigit(s[k])
    ensures Stoi(s).None?
  {
  }

  // ---------------------------------------------------------------------------------------------
  // Options.

  /** MigratorCLI::Options. */
  datatype Options = Options(
    host: string, user: string, pass: string, db: string,
    command: string, migrationsDir: string,
    steps: int, help: bool,
    snapshotPath: string, newSchemaPath: string, name: string, dialect: string)

  /** The member initialisers of Options. */
  function DefaultOptions(): (o: Options)
    ensures o.migrationsDir == "migrations" && o.steps == 0 && !o.help
    ensures o.snapshotPath == "schema.json" && o.newSchemaPath == "" && o.name == "auto" && o.dialect == "mysql"
    ensures o.host == "" && o.user == "" && o.pass == "" && o.db == "" && o.command == ""
  {
    Options("", "", "", "", "", "migrations", 0, false, "schema.json", "", "auto", "mysql")
  }

  const MissingSteps := "rollback requires --steps <n>"
  const InvalidSteps := "invalid --steps value (must be an integer)"
  const StepsTooSmall := "--steps must be >= 1"
  const MissingNew := "makemigrations requires --new <schema.json>"
  const EmptyDir := "migrations dir is empty (use --dir <path>)"
  const BadDialect := "invalid --dialect (use mysql or sqlite)"
  const MissingDbArgs := "missing required args: <host> <user> <pass> <db> <command>"
  const NotEnoughArgs := "not enough arguments"

  /** parseStepsOrThrow: a present, integer, positive --steps. */
  function ParseStepsOrThrow(args: seq<string>): (r: Result<int, string>)
    ensures r.Success? ==> 1 <= r.value <= IntMax
    ensures r == Failure(MissingSteps) <==> ParseOpt(args, "--steps") == ""
    ensures r == Failure(InvalidSteps) <==> ParseOpt(args, "--steps") != "" && Stoi(ParseOpt(args, "--steps")).None?
    ensures r.Success? <==> ParseOpt(args, "--steps") != "" && Stoi(ParseOpt(args, "--steps")).Some? && Stoi(ParseOpt(args, "--steps")).value >= 1
    ensures r.Success? ==> r.value == Stoi(ParseOpt(args, "--steps")).value
  {
    var s := ParseOpt(args, "--steps");
    if s == "" then Failure(MissingSteps)
    else
      match Stoi(s)
      case None => Failure(InvalidSteps)
      case Some(n) => if n <= 0 then Failure(StepsTooSmall) else Success(n)
  }

  predicate IsDbCommand(c: string) {
    c == "migrate" || c == "rollback" || c == "status"
  }

  /** validateOrThrow: help skips every check; otherwise the rules of makemigrations or of the database commands. */
  function ValidateOrThrow(opt: Options): (r: Result<(), string>)
    ensures opt.help ==> r.Success?
    ensures r.Success? <==>
      || opt.help
      || (opt.command == "makemigrations" && opt.newSchemaPath != "" && opt.migrationsDir != "" &&
          (opt.dialect == "mysql" || opt.dialect == "sqlite"))
      || (opt.command != "makemigrations" && opt.host != "" && opt.user != "" && opt.db != "" &&
          IsDbCommand(opt.command) && (opt.command == "rollback" ==> opt.steps > 0) && opt.migrationsDir != "")
    ensures !opt.help && opt.command != "makemigrations" && (opt.host == "" || opt.user == "" || opt.db == "") ==>
      r == Failure(MissingDbArgs)
    ensures (!opt.help && opt.command != "makemigrations" && opt.host != "" && opt.user != "" && opt.db != "" &&
             !IsDbCommand(opt.command)) ==> r == Failure("unknown command: " + opt.command)
  {
    if opt.help then Success(())
    else if opt.command == "makemigrations" then
      if opt.newSchemaPath == "" then Failure(MissingNew)
      else if opt.migrationsDir == "" then Failure(EmptyDir)
      else if opt.dialect != "mysql" && opt.dialect != "sqlite" then Failure(BadDialect)
      else Success(())
    else if opt.host == "" || opt.user == "" || opt.db == "" then Failure(MissingDbArgs)
    else if !IsDbCommand(opt.command) then Failure("unknown command: " + opt.command)
    else if opt.command == "rollback" && opt.steps <= 0 then Failure(MissingSteps)
    else if opt.migrationsDir == "" then Failure(EmptyDir)
    else Success(())
  }

  /** A validated Options, or validateOrThrow's error. */
  function Validated(opt: Options): Result<Options, string> {
    match ValidateOrThrow(opt)
    case Failure(e) => Failure(e)
    case Success(_) => Success(opt)
  }

  function OrDefault(v: string, d: string): string {
    if v == "" then d else v
  }

  /** The makemigrations branch: every option from the arguments after the command word, then the defaults. */
  function MakeMigrationsOptions(extra: seq<string>): Options {
    DefaultOptions().(
      command := "makemigrations",
      newSchemaPath := ParseOpt(extra, "--new"),
      snapshotPath := OrDefault(ParseOpt(extra, "--snapshot"), "schema.json"),
      name := OrDefault(ParseOpt(extra, "--name"), "auto"),
      dialect := OrDefault(ParseOpt(extra, "--dialect"), "mysql"),
      migrationsDir := ParseDir(extra))
  }

  /** The database-command branch, before --steps. */
  function DbOptions(argv: seq<string>): Options
    requires |argv| >= 6
  {
    DefaultOptions().(host := argv[1], user := argv[2], pass := argv[3], db := argv[4], command := argv[5],
                      migrationsDir := ParseDir(argv[6..]))
  }

  /** parseArgsOrThrow over argv (argv[0] is the program name). */
  function ParseArgs(argv: seq<string>): Result<Options, string> {
    if |argv| <= 1 || HasFlag(argv, "-h") || HasFlag(argv, "--help") then Success(DefaultOptions().(help := true))
    else if argv[1] == "makemigrations" then Validated(MakeMigrationsOptions(argv[2..]))
    else if |argv| < 6 then Failure(NotEnoughArgs)
    else
      var base := DbOptions(argv);
      if base.command == "rollback" then
        match ParseStepsOrThrow(argv[6..])
        case Failure(e) => Failure(e)
        case Success(n) => Validated(base.(steps := n))
      else Validated(base)
  }

  /** No arguments, or -h / --help anywhere (the program name included), is a request for help and nothing else. */
  lemma HelpWins(argv: seq<string>)
    requires |argv| <= 1 || "-h" in argv || "--help" in argv
    ensures ParseArgs(argv) == Success(DefaultOptions().(help := true))
  {
  }

  /** Whatever parses is valid, and the command is one the tool knows. */
  lemma ParsedIsValid(argv: seq<string>)
    requires ParseArgs(argv).Success?
    ensures var o := ParseArgs(argv).value;
      && ValidateOrThrow(o).Success?
      && (o.help || o.command == "makemigrations" || IsDbCommand(o.command))
  {
  }

  /** --steps is read only for rollback, and a parsed rollback has at least one step. */
  lemma StepsOnlyForRollback(argv: seq<string>)
    requires ParseArgs(argv).Success?
    ensures var o := ParseArgs(argv).value;
      && (o.command != "rollback" ==> o.steps == 0)
      && (o.command == "rollback" ==> o.steps >= 1)
  {
  }

  /** A database command takes its five positional arguments as they are; the password may be empty. */
  lemma DbPositionals(argv: seq<string>)
    requires ParseArgs(argv).Success? && !ParseArgs(argv).value.help && argv[1] != "makemigrations"
    ensures |argv| >= 6
    ensures var o := ParseArgs(argv).value;
      && o.host == argv[1] && o.user == argv[2] && o.pass == argv[3] && o.db == argv[4] && o.command == argv[5]
      && o.migrationsDir == ParseDir(argv[6..])
  {
  }

  /** Fewer than six arguments for a database command is an error. */
  lemma TooFewArguments(argv: seq<string>)
    requires 2 <= |argv| < 6 && argv[1] != "makemigrations" && "-h" !in argv && "--help" !in argv
    ensures ParseArgs(argv) == Failure(NotEnoughArgs)
  {
  }

  /** makemigrations with only --new: snapshot schema.json, label auto, dialect mysql, directory migrations. */
  lemma MakeMigrationsDefaults(prog: string, path: string)
    requires path != "" && prog != "-h" && prog != "--help" && path != "-h" && path != "--help" && '=' !in path
    ensures ParseArgs([prog, "makemigrations", "--new", path]) ==
      Success(DefaultOptions().(command := "makemigrations", newSchemaPath := path))
  {
    var argv := [prog, "makemigrations", "--new", path];
    assert argv[2..] == ["--new", path];
    assert "-h" !in argv && "--help" !in argv;
    NewOnlyOptions(path);
  }

  /** The options read from `--new path` alone. */
  lemma NewOnlyOptions(path: string)
    requires path != "" && '=' !in path
    ensures MakeMigrationsOptions(["--new", path]) == DefaultOptions().(command := "makemigrations", newSchemaPath := path)
  {
    GetFlagValueFirst(["--new", path], "--new", 0);
    assert "--snapshot"[2] != "--new"[2] && "--name"[3] != "--new"[3] && "--dialect"[2] != "--new"[2] && "--dir"[2] != "--new"[2];
    AbsentOption(path, "--snapshot");
    AbsentOption(path, "--name");
    AbsentOption(path, "--dialect");
    AbsentOption(path, "--dir");
  }

  /** An option other than --new is empty in `--new path` when the path has no '='. */
  lemma AbsentOption(path: string, key: string)
    requires '=' !in path && '=' !in key && key != "--new"
    ensures ParseOpt(["--new", path], key) == ""
  {
    var args := ["--new", path];
    assert args[1..] == [path];
    assert GetFlagValue(args, key) == "";
    var prefix := key + "=";
    assert prefix[|prefix| - 1] == '=';
    NoEqualsNoPrefix("--new", prefix);
    NoEqualsNoPrefix(path, prefix);
    assert args[1..][1..] == [];
  }

  lemma NoEqualsNoPrefix(a: string, prefix: string)
    requires '=' !in a && |prefix| > 0 && prefix[|prefix| - 1] == '='
    ensures !(prefix <= a)
  {
  }

  /** parseArgsOrThrow: copies argv, then the arguments after the command, and parses them. */
  method ParseArgsOrThrow(argv: seq<string>) returns (r: Result<Options, string>)
    ensures r == ParseArgs(argv)
  {
    var all: seq<string> := [];
    for i := 0 to |argv|
      invariant all == argv[..i]
    {
      all := all + [argv[i]];
    }
    assert all == argv;
    if |argv| <= 1 || HasFlag(all, "-h") || HasFlag(all, "--help") {
      return Success(DefaultOptions().(help := true));
    }
    if argv[1] == "makemigrations" {
      var extra := CollectFrom(argv, 2);
      var opt := MakeMigrationsOptions(extra);
      return Validated(opt);
    }
    if |argv| < 6 {
      return Failure(NotEnoughArgs);
    }
    var extra := CollectFrom(argv, 6);
    var opt := DefaultOptions().(host := argv[1], user := argv[2], pass := argv[3], db := argv[4], command := argv[5]);
    opt := opt.(migrationsDir := ParseDir(extra));
    if opt.command == "rollback" {
      var steps := ParseStepsOrThrow(extra);
      if steps.Failure? {
        return Failure(steps.error);
      }
      opt := opt.(steps := steps.value);
    }
    r := Validated(opt);
  }

  /** The `extra` vector: argv[from], argv[from + 1], ... */
  method CollectFrom(argv: seq<string>, from: nat) returns (extra: seq<string>)
    requires from <= |argv|
    ensures extra == argv[from..]
  {
    extra := [];
    var i := from;
    while i < |argv|
      invariant from <= i <= |argv|
      invariant extra == argv[from..i]
    {
      extra := extra + [argv[i]];
      i := i + 1;
    }
  }
}
