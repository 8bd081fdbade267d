/**
 * The makemigrations command (tools/migrator/MakeMigrations.cpp): compare the snapshot with the
 * new schema, always rewrite the snapshot, and write an up/down pair of SQL files when something
 * changed. Files are a map from path to contents; the JSON text parser and printer, the clock and
 * the SQL generators are parameters.
 */
module MakeMigrations {
  import opened Wrappers
  import opened Chars
  import opened Schema
  import opened Ops
  import opened Diff
  import opened SchemaJson
  import opened MigratorCli

  // ---------------------------------------------------------------------------------------------
  // sanitize

  /** The characters a migration tag keeps: [A-Za-z0-9_-]. */
  predicate LabelChar(c: char) {
    IsAlnum(c) || c == '_' || c == '-'
  }

  function SafeChar(c: char): (d: char)
    ensures LabelChar(d)
    ensures LabelChar(c) ==> d == c
  {
    if LabelChar(c) then c else '_'
  }

  /** Every character kept or replaced by '_', position by position. */
  function SafeChars(s: string): (r: string)
    ensures |r| == |s|
    ensures forall k :: 0 <= k < |s| ==> r[k] == SafeChar(s[k])
  {
    if |s| == 0 then [] else SafeChars(s[..|s| - 1]) + [SafeChar(s[|s| - 1])]
  }

  /** sanitize(s): the tag used in file names; "auto" for an empty one. */
  function Label(s: string): string {
    if |s| == 0 then "auto" else SafeChars(s)
  }

  /** sanitize keeps the length of a non-empty tag and leaves only allowed characters. */
  lemma LabelShape(s: string)
    ensures |s| > 0 ==> |Label(s)| == |s|
    ensures |s| == 0 ==> Label(s) == "auto"
    ensures forall k :: 0 <= k < |Label(s)| ==> LabelChar(Label(s)[k])
    ensures |s| > 0 ==> forall k :: 0 <= k < |s| ==> (Label(s)[k] == s[k] <==> LabelChar(s[k]) || s[k] == '_')
  {
    assert "auto"[0] == 'a' && "auto"[1] == 'u' && "auto"[2] == 't' && "auto"[3] == 'o';
  }

  /** sanitize is idempotent. */
  lemma LabelIdempotent(s: string)
    ensures Label(Label(s)) == Label(s)
  {
    LabelShape(s);
    var l := Label(s);
    assert |l| > 0;
    assert SafeChars(l) == l;
  }

  /** sanitize: the per-character rewrite, then "auto" if nothing is left. */
  method Sanitize(s: string) returns (r: string)
    ensures r == Label(s)
  {
    var t := s;
    for i := 0 to |t|
      invariant |t| == |s|
      invariant forall k :: 0 <= k < i ==> t[k] == SafeChar(s[k])
      invariant forall k :: i <= k < |t| ==> t[k] == s[k]
    {
      if !LabelChar(t[i]) {
        t := t[i := '_'];
      }
    }
    assert t == SafeChars(s);
    r := if |t| == 0 then "auto" else t;
  }

  // ---------------------------------------------------------------------------------------------
  // Files

  /** The files the command reads and writes. */
  class FileSystem {
    var files: map<string, string>

    constructor (initial: map<string, string>)
      ensures files == initial
    {
      files := initial;
    }

    /** write_text(p, content). */
    method Write(p: string, content: string)
      modifies this
      ensures files == old(files)[p := content]
    {
      files := files[p := content];
    }
  }

  /** dir / name, for a relative file name. */
  function JoinPath(dir: string, name: string): string {
    if dir == "" then name
    else if dir[|dir| - 1] == '/' then dir + name
    else dir + "/" + name
  }

  function UpPath(dir: string, id: string, tag: string): string {
    JoinPath(dir, id + "_" + tag + ".up.sql")
  }

  function DownPath(dir: string, id: string, tag: string): string {
    JoinPath(dir, id + "_" + tag + ".down.sql")
  }

  /** The two migration files never coincide: their names differ in length. */
  lemma MigrationFilesDistinct(dir: string, id: string, tag: string)
    ensures UpPath(dir, id, tag) != DownPath(dir, id, tag)
  {
    assert |UpPath(dir, id, tag)| + 2 == |DownPath(dir, id, tag)|;
  }

  datatype MakeError = CannotOpen(path: string) | MalformedJson(path: string) | BadSchema(e: JsonError) | OnlyMySql

  /** read_text then from_json_string_or_throw. */
  function ReadSchema(path: string, files: map<string, string>, parse: string -> Option<Json>): (r: Result<Schema, MakeError>)
    ensures path !in files ==> r == Failure(CannotOpen(path))
    ensures path in files && parse(files[path]).Some? ==>
      (r.Success? <==> DecodeSchema(parse(files[path]).value).Success?)
  {
    if path !in files then Failure(CannotOpen(path))
    else
      match parse(files[path])
      case None => Failure(MalformedJson(path))
      case Some(j) =>
        match DecodeSchema(j)
        case Failure(e) => Failure(BadSchema(e))
        case Success(s) => Success(s)
  }

  /** load_snapshot_or_empty: a missing snapshot is the empty schema. */
  function LoadSnapshotOrEmpty(path: string, files: map<string, string>, parse: string -> Option<Json>): (r: Result<Schema, MakeError>)
    ensures path !in files ==> r == Success(EmptySchema())
    ensures path in files ==> r == ReadSchema(path, files, parse)
  {
    if path !in files then Success(EmptySchema()) else ReadSchema(path, files, parse)
  }

  /**
   * run_make_migrations(opt): both schemas are read first; then the snapshot is always rewritten;
   * then no change returns 0 without touching the dialect; otherwise only mysql is accepted, and
   * the up and down files are written under `<stamp>_<tag>`.
   */
  method RunMakeMigrations(opt: Options, fs: FileSystem, parse: string -> Option<Json>, dump: Json -> string,
                           upSql: seq<Op> -> string, downSql: seq<Op> -> string, stamp: string)
    returns (r: Result<int, MakeError>, ghost dropped: seq<string>, ghost visited: seq<string>)
    modifies fs
    ensures var oldS := LoadSnapshotOrEmpty(opt.snapshotPath, old(fs.files), parse);
      var newS := ReadSchema(opt.newSchemaPath, old(fs.files), parse);
      && (oldS.Failure? ==> r == Failure(oldS.error) && fs.files == old(fs.files))
      && (oldS.Success? && newS.Failure? ==> r == Failure(newS.error) && fs.files == old(fs.files))
      && (oldS.Success? && newS.Success? ==>
            && Orders(dropped, visited, oldS.value, newS.value)
            && var ops := Diffed(dropped, visited, oldS.value, newS.value);
               var snap := old(fs.files)[opt.snapshotPath := dump(SchemaJson.SchemaToJson(newS.value))];
               var tag := Label(opt.name);
               && (ops == [] ==> r == Success(0) && fs.files == snap)
               && (ops != [] && opt.dialect != "mysql" ==> r == Failure(OnlyMySql) && fs.files == snap)
               && (ops != [] && opt.dialect == "mysql" ==>
                     r == Success(0) &&
                     fs.files == snap[UpPath(opt.migrationsDir, stamp, tag) := upSql(ops)]
                                     [DownPath(opt.migrationsDir, stamp, tag) := downSql(ops)]))
  {
    dropped, visited := [], [];
    var oldS := LoadSnapshotOrEmpty(opt.snapshotPath, fs.files, parse);
    if oldS.Failure? {
      return Failure(oldS.error), dropped, visited;
    }
    var newS := ReadSchema(opt.newSchemaPath, fs.files, parse);
    if newS.Failure? {
      return Failure(newS.error), dropped, visited;
    }
    var ops;
    ops, dropped, visited := DiffOrThrow(oldS.value, newS.value);
    var snapshotJson := ToJsonString(newS.value);
    fs.Write(opt.snapshotPath, dump(snapshotJson));
    if |ops| == 0 {
      return Success(0), dropped, visited;
    }
    if opt.dialect != "mysql" {
      return Failure(OnlyMySql), dropped, visited;
    }
    var tag := Sanitize(opt.name);
    fs.Write(UpPath(opt.migrationsDir, stamp, tag), upSql(ops));
    fs.Write(DownPath(opt.migrationsDir, stamp, tag), downSql(ops));
    r := Success(0);
  }

  /**
   * A second run right after a successful one: the rewritten snapshot reads back as the new
   * schema (as long as the JSON printer and parser agree), the new schema file still reads the
   * same, and the diff between them is empty whatever the table order, so no migration is written.
   */
  lemma SecondRunIsQuiet(files: map<string, string>, snapPath: string, newPath: string, s: Schema,
                         parse: string -> Option<Json>, dump: Json -> string, dropped: seq<string>, visited: seq<string>)
    requires parse(dump(SchemaJson.SchemaToJson(s))) == Some(SchemaJson.SchemaToJson(s))
    requires ReadSchema(newPath, files, parse) == Success(s)
    requires Orders(dropped, visited, s, s)
    ensures var files' := files[snapPath := dump(SchemaJson.SchemaToJson(s))];
      && LoadSnapshotOrEmpty(snapPath, files', parse) == Success(s)
      && ReadSchema(newPath, files', parse) == Success(s)
      && Diffed(dropped, visited, s, s) == []
  {
    SchemaRoundTrip(s);
    SelfDiffEmpty(dropped, visited, s);
  }
}
