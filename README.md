# vix db core, modelled in Dafny

This project models the core of `vix::db`, a C++ database layer. It covers:

- **Values and drivers.** The `DbValue` sum type and its helper constructors. The convenience
  `bind` overloads of `Statement`, including the `uint64 → int64` cast. The default
  `Connection::ping`. The NULL-defaulting accessors of `ResultRow`. The forward-only cursor of
  `ResultSet`.
- **Schema model.** Type descriptors (`BaseType`, `Type` and its factories, `==`/`!=`), the
  `Column`/`Index`/`Table`/`Schema` records with their member defaults, and the first-match
  lookups `findColumn`, `findIndex` and `findTable`.
- **Migration operations.** The six `Op` alternatives, each carrying enough data to build its
  inverse.
- **Schema diff.** `map_tables` and `diff_or_throw`:
  - drops of tables missing from the target;
  - creates of new tables;
  - per shared table: column drops, column adds, index drops and index adds, in vector order.

  Tables are matched by name through hash maps. Their iteration order is left free, and every
  property is proved for every order.
- **Schema snapshot codec.** The field mapping between the schema records and a JSON tree, with
  optional members and read defaults. The `base_type` tags. The required `tables` key.
- **Connection pool.**
  - `acquire`, `release` and `warmup` over a FIFO idle queue and a `total` counter.
  - A factory that throws inside `acquire` leaves `total` raised, since only a null or dead
    result is rolled back; the model keeps this and proves that max such throws exhaust a pool.
  - The `PooledConn` release-on-destroy guard with its move operations.
- **Transaction guard.** Begin on construction, commit, explicit rollback, one implicit rollback
  on destruction, and the move constructor.
- **Code migrations.** `Migration` (`id`/`up`/`down`) and `MigrationsRunner` (`add`, `runAll`).
- **File migrations.** A `FileMigrationsRunner` as its header documents it:
  - pending pairs are applied in ascending id order;
  - already-applied ids are skipped;
  - `rollback(steps)` reverts the greatest applied ids;
  - the tracking-table ledger and its helpers `trim`, `splitStatements` and `execScript`.
- **The migrator tool.**
  - Flag lookup, option defaults and `parseStepsOrThrow`.
  - `validateOrThrow` and `parseArgsOrThrow`.
  - `sanitize`.
  - The decision sequence of `run_make_migrations`.
- **The `Database` facade.**
  - Reading a `DbConfig` from the application configuration.
  - `pool_for`, `make_factory_for`, and construction with warmup.

The pure parts of the source are datatypes and functions, with lemmas about them. Objects whose
methods update their fields are classes. Their methods are proved against those functions:

- `ConnectionPool`, `PooledConn`, `Transaction`;
- `MigrationsRunner`, `FileMigrationsRunner`, `ResultSet`, `Statement`;
- the file map written by makemigrations.

The loops of the source are `while`/`for` loops carrying their invariants:

- acquire's drain loop and warmup;
- the loops of the diff;
- the codec's `push_back` loops and decode loops;
- `runAll`, `applyAll`, `rollback` and `sanitize`.

Some parts are parameters of the model rather than part of it:

- the connection factory, `ping`;
- whether begin/commit/rollback or a migration script throws;
- the JSON text parser and printer, the SQL generators, the clock stamp;
- which drivers were built in.

## Model

| member | source | states |
|---|---|---|
| Value.MakeNull | include/vix/db/core/Value.hpp:67 | `null()` holds the NULL alternative |
| Value.I64 | include/vix/db/core/Value.hpp:75 | `i64(v)` holds the int64 alternative with value v |
| Value.F64 | include/vix/db/core/Value.hpp:83 | `f64(v)` holds the double alternative with value v |
| Value.B | include/vix/db/core/Value.hpp:91 | `b(v)` holds the bool alternative with value v |
| Value.Str | include/vix/db/core/Value.hpp:101 | `str(v)` holds the text alternative with text v |
| Value.MakeBlob | include/vix/db/core/Value.hpp:109-112 | `blob(bytes)` holds the blob alternative with those bytes |
| Value.HelpersInjective | include/vix/db/core/Value.hpp:54-112 | the helpers are injective and land in distinct alternatives, so a driver recovers the argument |
| Drivers.IntArg | include/vix/db/core/Drivers.hpp:55 | `bind(int)` binds an int64 of the same numeric value |
| Drivers.UnsignedArg | include/vix/db/core/Drivers.hpp:56 | `bind(unsigned)` binds an int64 of the same numeric value |
| Drivers.Int64Arg | include/vix/db/core/Drivers.hpp:57 | `bind(int64)` binds that value |
| Drivers.UInt64Arg | include/vix/db/core/Drivers.hpp:58 | `bind(uint64)`: values below 2^63 are kept, larger ones wrap to the negative value v - 2^64 |
| Drivers.UInt64ArgInjective | include/vix/db/core/Drivers.hpp:58 | distinct uint64 arguments bind distinct values, so the wrap loses nothing |
| Drivers.DoubleArg | include/vix/db/core/Drivers.hpp:59 | `bind(double)` binds the double alternative |
| Drivers.BoolArg | include/vix/db/core/Drivers.hpp:60 | `bind(bool)` binds the bool alternative |
| Drivers.StringArg | include/vix/db/core/Drivers.hpp:61 | `bind(string)` binds the text alternative |
| Drivers.CStringArg | include/vix/db/core/Drivers.hpp:62-65 | `bind(const char*)`: a null pointer binds the empty text, never NULL |
| Drivers.DefaultPing | include/vix/db/core/Drivers.hpp:140 | the default ping reports every connection alive |
| Drivers.Statement.Bind | include/vix/db/core/Drivers.hpp:52 | the abstract bind records one (index, value) call |
| Drivers.Statement.BindInt | include/vix/db/core/Drivers.hpp:55 | forwards exactly one bind of the converted value |
| Drivers.Statement.BindUnsigned | include/vix/db/core/Drivers.hpp:56 | forwards exactly one bind of the converted value |
| Drivers.Statement.BindInt64 | include/vix/db/core/Drivers.hpp:57 | forwards exactly one bind of `i64(v)` |
| Drivers.Statement.BindUInt64 | include/vix/db/core/Drivers.hpp:58 | forwards exactly one bind of the wrapped value |
| Drivers.Statement.BindDouble | include/vix/db/core/Drivers.hpp:59 | forwards exactly one bind of `f64(v)` |
| Drivers.Statement.BindBool | include/vix/db/core/Drivers.hpp:60 | forwards exactly one bind of `b(v)` |
| Drivers.Statement.BindString | include/vix/db/core/Drivers.hpp:61 | forwards exactly one bind of `str(v)` |
| Drivers.Statement.BindCString | include/vix/db/core/Drivers.hpp:62-65 | forwards exactly one bind of the text, empty for a null pointer |
| Drivers.Statement.BindNull | include/vix/db/core/Drivers.hpp:72 | forwards exactly one bind of NULL |
| ResultRows.GetStringOr | include/vix/db/core/Result.hpp:76-79 | NULL gives the default, otherwise the driver's string |
| ResultRows.GetInt64Or | include/vix/db/core/Result.hpp:88-91 | NULL gives the default, otherwise the driver's int64 |
| ResultRows.GetDoubleOr | include/vix/db/core/Result.hpp:100-103 | NULL gives the default, otherwise the driver's double |
| ResultRows.DefaultOnlyOnNull | include/vix/db/core/Result.hpp:88-91 | two defaults give different results only on a NULL column |
| ResultRows.ResultSet.constructor | include/vix/db/core/Result.hpp:115-141 | a fresh cursor stands before the first row |
| ResultRows.ResultSet.Next | include/vix/db/core/Result.hpp:124 | next() is true iff a new row became current; past the end the cursor stays there |
| ResultRows.ResultSet.Cols | include/vix/db/core/Result.hpp:131 | cols() is the column count |
| ResultRows.ResultSet.CurrentRow | include/vix/db/core/Result.hpp:134-140 | row(), allowed only after a successful next(), is the row next() reached |
| ResultRows.ReadAll | include/vix/db/core/Result.hpp:106-141 | looping on next() then row() visits every row exactly once, in order |
| SchemaTypes.Unsized | include/vix/db/schema/Types.hpp:34-39 | the six unsized factories have their base kind and no size |
| SchemaTypes.VarCharType | include/vix/db/schema/Types.hpp:41 | `VarChar(n)` has base VarChar and size exactly n |
| SchemaTypes.TypeEqIsEquality | include/vix/db/schema/Types.hpp:43-44 | `==` holds iff base and size are equal, and `!=` is its negation |
| SchemaTypes.FactoriesDistinct | include/vix/db/schema/Types.hpp:34-44 | the factories are pairwise distinct; `VarChar(n) == VarChar(m)` iff n == m |
| Schema.DefaultColumn | include/vix/db/schema/Schema.hpp:14-25 | a default Column is nullable, not a key, not auto-increment, not unique, with no default |
| Schema.DefaultIndex | include/vix/db/schema/Schema.hpp:27-32 | a default Index is non-unique |
| Schema.EmptySchema | include/vix/db/schema/Schema.hpp:65-67 | `Schema{}` has no tables |
| Schema.FindColumnAt | include/vix/db/schema/Schema.hpp:48-54 | the mutable findColumn points at the first column of that name, or is null iff there is none |
| Schema.FindColumnIn | include/vix/db/schema/Schema.hpp:40-46 | the const findColumn gives a column of that name, or null iff there is none |
| Schema.FindColumnInFirst | include/vix/db/schema/Schema.hpp:40-46 | the column the const findColumn returns is the first one of that name |
| Schema.FindColumn | include/vix/db/schema/Schema.hpp:40-46 | `Table::findColumn` finds a column of the table with that name, or null iff there is none |
| Schema.FindIndexIn | include/vix/db/schema/Schema.hpp:56-62 | findIndex gives an index of that name, or null iff there is none |
| Schema.FindIndexInFirst | include/vix/db/schema/Schema.hpp:56-62 | the index findIndex returns is the first of that name |
| Schema.FindIndex | include/vix/db/schema/Schema.hpp:56-62 | `Table::findIndex` finds an index of the table with that name, or null iff there is none |
| Schema.FindTableAt | include/vix/db/schema/Schema.hpp:77-83 | the mutable findTable points at the first table of that name, or is null iff there is none |
| Schema.FindTableIn | include/vix/db/schema/Schema.hpp:69-75 | the const findTable gives a table of that name, or null iff there is none |
| Schema.FindTableInFirst | include/vix/db/schema/Schema.hpp:69-75 | the table the const findTable returns is the first one of that name |
| Schema.FindTable | include/vix/db/schema/Schema.hpp:69-75 | `Schema::findTable` finds a table with that name, or null iff there is none |
| Schema.TableNames | include/vix/db/schema/Schema.hpp:65-75 | a name is a table name exactly when findTable finds it |
| Schema.ColumnLookupsAgree | include/vix/db/schema/Schema.hpp:40-54 | the const and the mutable findColumn designate the same column |
| Schema.TableLookupsAgree | include/vix/db/schema/Schema.hpp:69-83 | the const and the mutable findTable designate the same table |
| Ops.Inverse | include/vix/db/mig/diff/Op.hpp:16-50 | each of the six alternatives has its inverse kind, built from the operation's own data |
| Ops.InverseInvolutive | include/vix/db/mig/diff/Op.hpp:23-47 | inverting twice gives the operation back, so no drop loses the data its inverse needs |
| Diff.FirstByNameIsFindTable | src/mig/diff/Diff.cpp:11-18 | the map `emplace` builds has exactly the table names as keys, each mapped to the first table of that name |
| Diff.MapTables | src/mig/diff/Diff.cpp:11-18 | map_tables maps every table name to the table findTable returns for it |
| Diff.DropPhase | src/mig/diff/Diff.cpp:27-32 | the first loop emits one DropTable carrying the full table per visited name |
| Diff.AppendColumnOps | src/mig/diff/Diff.cpp:47-59 | a column loop appends the op of each column the other table lacks, in vector order |
| Diff.AppendIndexOps | src/mig/diff/Diff.cpp:61-73 | an index loop appends the op of each index the other table lacks, in vector order |
| Diff.AppendTableDiff | src/mig/diff/Diff.cpp:43-73 | a shared table appends column drops, column adds, index drops, index adds |
| Diff.DropMissing | src/mig/diff/Diff.cpp:27-32 | the drop loop visits each name of `from` missing in `to` once, in some order, and emits its DropTable |
| Diff.CreateOrAlter | src/mig/diff/Diff.cpp:34-74 | the second loop visits each name of `to` once, in some order, emitting a CreateTable or the table's diff |
| Diff.DiffOrThrow | src/mig/diff/Diff.cpp:20-77 | the operations equal the phased diff for the orders visited. DropTable/CreateTable are emitted exactly for tables of one side only. Drops come first. diff(s, s) is empty |
| Diff.ColumnOpsShape | src/mig/diff/Diff.cpp:47-59 | each column op has the loop's kind and table name, for a column of the list the other table lacks |
| Diff.ColumnOpsComplete | src/mig/diff/Diff.cpp:47-59 | every column of the list the other table lacks yields its op |
| Diff.IndexOpsShape | src/mig/diff/Diff.cpp:61-73 | each index op has the loop's kind and table name, for an index of the list the other table lacks |
| Diff.IndexOpsComplete | src/mig/diff/Diff.cpp:61-73 | every index of the list the other table lacks yields its op |
| Diff.ChangePhaseMember | src/mig/diff/Diff.cpp:34-74 | an op is in the second loop's output iff it is in the step of one visited name |
| Diff.TableStepShape | src/mig/diff/Diff.cpp:34-74 | a step never drops a table, creates only a table `from` lacks, and otherwise emits member ops of a shared table of the same name |
| Diff.DropTablesExactly | src/mig/diff/Diff.cpp:27-32 | DropTable(t) is emitted iff t is the first `from` table of its name and `to` has no table of that name |
| Diff.CreateTablesExactly | src/mig/diff/Diff.cpp:34-41 | CreateTable(t) is emitted iff t is the first `to` table of its name and `from` has no table of that name |
| Diff.DropsComeFirst | src/mig/diff/Diff.cpp:27-74 | every DropTable precedes every other operation |
| Diff.ColumnOpsExactly | src/mig/diff/Diff.cpp:47-59 | DropColumn/AddColumn(n, c) is emitted iff table n is on both sides and c is only on the dropping/adding side, matched by name only |
| Diff.IndexOpsExactly | src/mig/diff/Diff.cpp:61-73 | DropIndex/CreateIndex(n, x) is emitted iff table n is on both sides and x is only on the dropping/creating side, matched by name only |
| Diff.MemberOpExactly | src/mig/diff/Diff.cpp:43-73 | the four member-op characterisations for any op of table n |
| Diff.TableDiffPhased | src/mig/diff/Diff.cpp:47-73 | within a shared table the ops come in the four phases, in that order |
| Diff.TableDiffRankAt | src/mig/diff/Diff.cpp:47-73 | the phase of the k-th op of a table is fixed by the lengths of the four loops' outputs |
| Diff.Diffed | src/mig/diff/Diff.cpp:20-77 | diff_or_throw for given hash-map visiting orders; characterised by DiffOrThrow, DropTablesExactly, CreateTablesExactly, DropsComeFirst, MemberOpExactly and SelfDiffEmpty |
| Diff.SelfDiffEmpty | src/mig/diff/Diff.cpp:20-77 | diff(s, s) is empty, whatever order the hash maps are visited in |
| Diff.DiffFromEmpty | src/mig/diff/Diff.cpp:20-77 | from the empty schema the diff is exactly one CreateTable per distinct table name of the target: one per visited name, in visiting order, each creating the first table of that name, no two for the same name |
| SchemaJson.At | src/schema/Json.cpp:83-161 | `at(k)` succeeds iff the object has member k, and then gives its value |
| SchemaJson.GetUInt32 | src/schema/Json.cpp:60-67 | `get<uint32>` accepts integer numbers and booleans; an in-range number reads as itself (floating-point numbers are not modelled, see Left out) |
| SchemaJson.ValueBool | src/schema/Json.cpp:83-95 | `value(k, def)` on an object without k gives def |
| SchemaJson.BaseTypeToString | src/schema/Json.cpp:10-30 | every kind is written as one of the seven tags |
| SchemaJson.BaseTypeFromString | src/schema/Json.cpp:32-49 | exactly the seven tags are accepted, each inverting BaseTypeToString; anything else throws naming the string |
| SchemaJson.BaseTypeRoundTrip | src/schema/Json.cpp:10-49 | every tag reads back as its kind, and distinct kinds get distinct tags |
| SchemaJson.TypeToJson | src/schema/Json.cpp:51-58 | type_to_json; characterised by TypeRoundTrip |
| SchemaJson.TypeFromJson | src/schema/Json.cpp:60-67 | type_from_json; characterised by TypeRoundTrip |
| SchemaJson.TypeRoundTrip | src/schema/Json.cpp:51-67 | "size" is written iff the type has a size, and every type reads back unchanged |
| SchemaJson.ColumnToJson | src/schema/Json.cpp:69-81 | column_to_json; characterised by ColumnRoundTrip |
| SchemaJson.ColumnFromJson | src/schema/Json.cpp:83-95 | column_from_json; characterised by ColumnRoundTrip and ColumnDefaultsOnRead |
| SchemaJson.ColumnRoundTrip | src/schema/Json.cpp:69-95 | "default" is written iff the column has one, and every column reads back unchanged |
| SchemaJson.ColumnDefaultsOnRead | src/schema/Json.cpp:83-95 | missing nullable reads true; missing primary_key/auto_increment/unique read false; a default is read iff "default" is present |
| SchemaJson.IndexToJson | src/schema/Json.cpp:97-104 | index_to_json; characterised by IndexRoundTrip |
| SchemaJson.IndexFromJson | src/schema/Json.cpp:106-113 | index_from_json; characterised by IndexRoundTrip and IndexDefaultsOnRead |
| SchemaJson.IndexRoundTrip | src/schema/Json.cpp:97-113 | every index reads back unchanged, column order included |
| SchemaJson.IndexDefaultsOnRead | src/schema/Json.cpp:106-113 | a missing "unique" reads as non-unique |
| SchemaJson.DecodeAllRoundTrip | src/schema/Json.cpp:115-161 | decoding the element-wise encoding gives the elements back, in order |
| SchemaJson.DecodeAllStops | src/schema/Json.cpp:129-161 | decoding stops at the first element that throws |
| SchemaJson.TableToJson | src/schema/Json.cpp:115-127 | the push_back loops build the table tree, columns and indexes in order |
| SchemaJson.DecodeEach | src/schema/Json.cpp:129-161 | the decode loop is element-wise decoding stopping at the first exception |
| SchemaJson.TableFromJson | src/schema/Json.cpp:129-139 | table_from_json reads name, required columns and optional indexes |
| SchemaJson.ToJsonString | src/schema/Json.cpp:141-149 | to_json_string builds version 1 and the table trees in order |
| SchemaJson.FromJsonStringOrThrow | src/schema/Json.cpp:151-161 | from_json_string_or_throw reads the required tables member, table by table |
| SchemaJson.TableJson | src/schema/Json.cpp:115-127 | table_to_json; characterised by TableRoundTrip, and computed by the loops of TableToJson |
| SchemaJson.DecodeTable | src/schema/Json.cpp:129-139 | table_from_json; characterised by TableRoundTrip and TableMembersOnRead, and computed by TableFromJson |
| SchemaJson.SchemaToJson | src/schema/Json.cpp:141-149 | the tree to_json_string dumps; characterised by SchemaRoundTrip, and built by ToJsonString |
| SchemaJson.DecodeSchema | src/schema/Json.cpp:151-161 | from_json_string_or_throw on a parsed tree; characterised by SchemaRoundTrip and OnlyTablesIsRead |
| SchemaJson.TableRoundTrip | src/schema/Json.cpp:115-139 | every table reads back unchanged, column and index order preserved |
| SchemaJson.SchemaRoundTrip | src/schema/Json.cpp:141-161 | from_json(to_json(s)) == s for every schema, with table order preserved |
| SchemaJson.TableMembersOnRead | src/schema/Json.cpp:129-139 | "columns" is required; a table without "indexes" has none |
| SchemaJson.OnlyTablesIsRead | src/schema/Json.cpp:151-161 | without "tables" decoding throws; "version" and every other member are never read |
| Pool.DefaultPoolConfig | include/vix/db/pool/ConnectionPool.hpp:31-38 | PoolConfig defaults are min 1 and max 8 |
| Pool.Drain | src/pool/ConnectionPool.cpp:22-35 | acquire's drain loop; characterised by DrainIsFifo |
| Pool.Acquire | src/pool/ConnectionPool.cpp:18-59 | acquire for one factory call that returns or throws; characterised by AcquireOutcomes, AcquireKeepsBalance and ThrowsExhaustPool |
| Pool.Warmup | src/pool/ConnectionPool.cpp:71-84 | warmup for its factory calls; characterised by WarmupOutcomes, WarmupStops and WarmupFailureSticks |
| Pool.Release | src/pool/ConnectionPool.cpp:61-69 | a non-null connection goes to the back of idle, null is ignored, total never changes |
| Pool.ConnectionPool.constructor | include/vix/db/pool/ConnectionPool.hpp:68-69 | a new pool has nothing idle and nothing counted |
| Pool.ConnectionPool.AcquireConn | src/pool/ConnectionPool.cpp:18-59 | acquire's loop and branches produce exactly the state and outcome of Acquire |
| Pool.ConnectionPool.ReleaseConn | src/pool/ConnectionPool.cpp:61-69 | release produces exactly the state of Release |
| Pool.ConnectionPool.WarmupPool | src/pool/ConnectionPool.cpp:71-84 | warmup's loop produces exactly the state and outcome of Warmup for min factory calls |
| Pool.WarmupStops | src/pool/ConnectionPool.cpp:71-84 | the first unusable factory call ends warmup, with the driver's own error when it threw and warmup's error for a null or dead result, keeping what came before |
| Pool.WarmupFailureSticks | src/pool/ConnectionPool.cpp:71-84 | once warmup has failed, later iterations do not happen |
| Pool.DeadPrefix | src/pool/ConnectionPool.cpp:22-35 | the dead run at the front of idle ends at the first live connection |
| Pool.DrainIsFifo | src/pool/ConnectionPool.cpp:22-35 | the loop discards exactly the dead prefix of idle, one saturating decrement each, and returns the first live connection with the rest of the queue in order |
| Pool.AcquireOutcomes | src/pool/ConnectionPool.cpp:18-59 | a live idle connection is returned at unchanged total. Below max, total is raised for the factory's connection. It is rolled back with an error if that connection is null or dead, but stays raised when the factory throws, whose error acquire then passes on. At max, acquire blocks. Total never rises once at max |
| Pool.AcquireWithDefaultPing | src/pool/ConnectionPool.cpp:22-35 | with the default ping the front idle connection is taken and nothing is discarded |
| Pool.AcquireKeepsBalance | src/pool/ConnectionPool.cpp:18-59 | total = idle + held stays balanced, with one more held after a Got; a throwing factory leaves total one above the balance |
| Pool.ReleaseKeepsBalance | src/pool/ConnectionPool.cpp:61-69 | releasing a held connection keeps total = idle + held, with one fewer held |
| Pool.ReleaseThenAcquire | src/pool/ConnectionPool.cpp:22-35 | a released live connection is the next one handed out when nothing else is idle |
| Pool.ThrowsRaiseTotal | src/pool/ConnectionPool.cpp:37-51 | with nothing idle, each throwing factory call below max raises total by one for good |
| Pool.ThrowsExhaustPool | src/pool/ConnectionPool.cpp:37-58 | after max throwing factory calls on a fresh pool, total is max with nothing idle or held, and acquire then blocks whatever the factory would do, changing nothing |
| Pool.WarmupOutcomes | src/pool/ConnectionPool.cpp:71-84 | warmup succeeds iff all min factory calls are usable, and then pushes their connections in call order with total + min. A failure comes from the first unusable call i, with that call's error, and keeps the i pushed before |
| Pool.PooledConn.Hold | include/vix/db/pool/ConnectionPool.hpp:118-119 | a guard holds the acquired connection of its pool |
| Pool.PooledConn.Open | include/vix/db/pool/ConnectionPool.hpp:118-119 | constructing a guard performs exactly one acquire; a guard exists iff acquire produced a connection |
| Pool.PooledConn.Destroy | include/vix/db/pool/ConnectionPool.hpp:124-128 | destruction releases the connection iff one is still held, and afterwards none is |
| Pool.PooledConn.MoveFrom | include/vix/db/pool/ConnectionPool.hpp:138-139 | the connection moves over, and the source holds nothing |
| Pool.PooledConn.MoveAssign | include/vix/db/pool/ConnectionPool.hpp:149-162 | a self-move changes nothing; across pools it terminates; otherwise the held connection is released first, then the other's is taken |
| Transactions.CallLog.Record | include/vix/db/Transaction.hpp:44-109 | a call to the driver is appended to the log |
| Transactions.CountsOfAppend | include/vix/db/Transaction.hpp:56-109 | one more call adds one to the count of its kind only |
| Transactions.DestroyRollsBackOnce | include/vix/db/Transaction.hpp:56-67 | destroying an active guard issues exactly one rollback and no commit; an inactive one issues nothing |
| Transactions.CommitStep | include/vix/db/Transaction.hpp:94-98 | commit on the guard's state; characterised by CommittedIsNotRolledBack and FailedCommitIsRolledBack |
| Transactions.CommittedIsNotRolledBack | include/vix/db/Transaction.hpp:94-98 | after a commit that did not throw, destruction issues no call |
| Transactions.FailedCommitIsRolledBack | include/vix/db/Transaction.hpp:94-98 | a commit that threw leaves the guard active, so destruction still rolls back |
| Transactions.Transaction.Begun | include/vix/db/Transaction.hpp:35-36 | a begun guard is active and holds its connection |
| Transactions.Transaction.Open | include/vix/db/Transaction.hpp:44-48 | one acquire, then begin once on Got. A guard exists iff both succeeded. When begin throws, the connection goes back to the pool and no rollback is issued |
| Transactions.Transaction.CommitTx | include/vix/db/Transaction.hpp:94-98 | commit is called, then the guard is inactive unless commit threw |
| Transactions.Transaction.RollbackTx | include/vix/db/Transaction.hpp:105-109 | rollback is called, then the guard is inactive unless rollback threw |
| Transactions.Transaction.Destroy | include/vix/db/Transaction.hpp:56-67 | an active guard calls rollback once, swallowing errors, and an inactive one calls nothing. Then the connection is released |
| Transactions.Transaction.MoveFrom | include/vix/db/Transaction.hpp:80-84 | the new guard takes the connection and the active flag; the source becomes inactive and empty |
| Migrations.RunUps | src/mig/MigrationsRunner.cpp:17-23 | runAll's up sequence; characterised by UpsAttempted, RunUpsSnoc, UpsOfPrefix and DownsUndoUps |
| Migrations.UpsAttempted | src/mig/MigrationsRunner.cpp:17-23 | all ups are attempted on success; fewer only when one threw |
| Migrations.RunUpsSnoc | src/mig/MigrationsRunner.cpp:19-22 | the ups run one after another in registration order |
| Migrations.UpsOfPrefix | src/mig/MigrationsRunner.cpp:19-22 | a successful run succeeded on every prefix |
| Migrations.DownsUndoUps | include/vix/db/mig/Migration.hpp:47-65 | with reversible migrations, all downs in reverse order undo all ups |
| Migrations.MigrationsRunner.constructor | include/vix/db/mig/MigrationsRunner.hpp:45 | the connection is fixed at construction and nothing is registered |
| Migrations.MigrationsRunner.Add | include/vix/db/mig/MigrationsRunner.hpp:55 | add appends at the end, with no sorting and no de-duplication |
| Migrations.MigrationsRunner.RunAll | src/mig/MigrationsRunner.cpp:17-23 | up of each migration, in registration order, through the runner's connection. The first throw stops the run. down is never called |
| FileMigrations.LessIrreflexive | include/vix/db/mig/FileMigrationsRunner.hpp:90-96 | the id order is irreflexive |
| FileMigrations.LessTotal | include/vix/db/mig/FileMigrationsRunner.hpp:90-96 | the id order is total |
| FileMigrations.LessTransitive | include/vix/db/mig/FileMigrationsRunner.hpp:90-96 | the id order is transitive |
| FileMigrations.IsApplied | include/vix/db/mig/FileMigrationsRunner.hpp:120-127 | isApplied is false iff no row has the id, and otherwise reports a stored checksum |
| FileMigrations.Without | include/vix/db/mig/FileMigrationsRunner.hpp:137-142 | after unmarkApplied no row has the id |
| FileMigrations.WithoutKeepsOthers | include/vix/db/mig/FileMigrationsRunner.hpp:137-142 | unmarkApplied keeps exactly the rows of other ids |
| FileMigrations.LastId | include/vix/db/mig/FileMigrationsRunner.hpp:144-151 | lastAppliedId is an applied id no smaller than any other |
| FileMigrations.FindPair | include/vix/db/mig/FileMigrationsRunner.hpp:37-50 | finds a scanned pair with the id, or none iff there is none |
| FileMigrations.SortById | include/vix/db/mig/FileMigrationsRunner.hpp:90-96 | pairs are put in ascending id order: sorted and a permutation |
| FileMigrations.ApplyPending | include/vix/db/mig/FileMigrationsRunner.hpp:90-96 | the pending apply; characterised by ApplyCovers, ApplyExtends, ApplyAllAppliedIsNoop, ApplyIdempotent and ApplyRuns |
| FileMigrations.ApplyCovers | include/vix/db/mig/FileMigrationsRunner.hpp:90-96 | after a successful apply every pair's id is applied |
| FileMigrations.ApplyExtends | include/vix/db/mig/FileMigrationsRunner.hpp:90-96 | apply removes no row, and the run log only grows |
| FileMigrations.ApplyAllAppliedIsNoop | include/vix/db/mig/FileMigrationsRunner.hpp:90-96 | with every id applied, apply executes nothing and changes nothing |
| FileMigrations.ApplyIdempotent | include/vix/db/mig/FileMigrationsRunner.hpp:90-96 | a second apply after a successful one executes no script and leaves the ledger as it was |
| FileMigrations.ApplyRuns | include/vix/db/mig/FileMigrationsRunner.hpp:90-96 | apply runs only up scripts, only of ids pending beforehand, each the id of a given pair. Over sorted pairs they run in strictly ascending id order |
| FileMigrations.RollbackSteps | include/vix/db/mig/FileMigrationsRunner.hpp:98-105 | rollback(steps); characterised by RollbackNeedsRows and RollbackOneStep |
| FileMigrations.RollbackNeedsRows | include/vix/db/mig/FileMigrationsRunner.hpp:98-105 | rolling back more migrations than are applied cannot succeed |
| FileMigrations.LastIdShrinks | include/vix/db/mig/FileMigrationsRunner.hpp:137-151 | unmarking the last applied id removes at least one row |
| FileMigrations.RollbackOneStep | include/vix/db/mig/FileMigrationsRunner.hpp:98-105 | a successful rollback(1) ran the greatest id's down script and unmarked exactly that id |
| FileMigrations.ApplyTwoFromEmpty | include/vix/db/mig/FileMigrationsRunner.hpp:90-96 | applying 002 and 001 on an empty ledger runs 001 then 002 and records both |
| FileMigrations.RollbackLatestOfTwo | include/vix/db/mig/FileMigrationsRunner.hpp:98-105 | rollback(1) after 001 and 002 runs only 002's down and leaves 001 applied |
| FileMigrations.Trim | include/vix/db/mig/FileMigrationsRunner.hpp:161-167 | trim removes leading and trailing whitespace and nothing else |
| FileMigrations.TrimUnchanged | include/vix/db/mig/FileMigrationsRunner.hpp:161-167 | text without outer whitespace is unchanged |
| FileMigrations.TrimIdempotent | include/vix/db/mig/FileMigrationsRunner.hpp:161-167 | trim is idempotent |
| FileMigrations.Pieces | include/vix/db/mig/FileMigrationsRunner.hpp:169-175 | the pieces between terminators contain no ';' |
| FileMigrations.PiecesJoin | include/vix/db/mig/FileMigrationsRunner.hpp:169-175 | joining the pieces with ';' gives the script back |
| FileMigrations.SplitStatements | include/vix/db/mig/FileMigrationsRunner.hpp:169-175 | every statement is non-empty, trimmed and free of ';' |
| FileMigrations.SingleStatement | include/vix/db/mig/FileMigrationsRunner.hpp:169-175 | non-blank text without ';' is one trimmed statement |
| FileMigrations.ExecScript | include/vix/db/mig/FileMigrationsRunner.hpp:177-182 | statements run in order. It succeeds iff all ran and succeeded; otherwise it stops at the first failure |
| FileMigrations.FileMigrationsRunner.constructor | include/vix/db/mig/FileMigrationsRunner.hpp:78-79 | the tracking table defaults to schema_migrations |
| FileMigrations.FileMigrationsRunner.SetTable | include/vix/db/mig/FileMigrationsRunner.hpp:88 | setTable replaces the table name and changes nothing else |
| FileMigrations.FileMigrationsRunner.MarkApplied | include/vix/db/mig/FileMigrationsRunner.hpp:129-135 | markApplied adds the (id, checksum) row, and the id is then applied |
| FileMigrations.FileMigrationsRunner.UnmarkApplied | include/vix/db/mig/FileMigrationsRunner.hpp:137-142 | unmarkApplied removes the id's rows, and the id is then not applied |
| FileMigrations.FileMigrationsRunner.ApplyAll | include/vix/db/mig/FileMigrationsRunner.hpp:90-96 | applyAll is the pending apply over the pairs in ascending id order |
| FileMigrations.FileMigrationsRunner.Rollback | include/vix/db/mig/FileMigrationsRunner.hpp:98-105 | rollback(steps) reverts the greatest applied ids one by one, as RollbackSteps says |
| FileMigrations.FileMigrationsRunner.RevertLast | include/vix/db/mig/FileMigrationsRunner.hpp:98-105 | one iteration: the down script of the greatest applied id, then unmarkApplied |
| MigratorCli.HasFlag | tools/migrator/MigratorCLI.cpp:56-62 | has_flag is true iff some argument equals the key |
| MigratorCli.GetFlagValue | tools/migrator/MigratorCLI.cpp:64-70 | without a non-final occurrence of the key the value is empty |
| MigratorCli.GetFlagValueFirst | tools/migrator/MigratorCLI.cpp:64-70 | the value is the argument after the first non-final occurrence of the key |
| MigratorCli.GetFlagValueEq | tools/migrator/MigratorCLI.cpp:72-78 | without an argument starting with the prefix the value is empty |
| MigratorCli.GetFlagValueEqFirst | tools/migrator/MigratorCLI.cpp:72-78 | the value is the rest of the first argument starting with the prefix |
| MigratorCli.ParseOpt | tools/migrator/MigratorCLI.cpp:80-86 | parse_opt; characterised by ParseOptSpaced and ParseOptEquals |
| MigratorCli.ParseOptSpaced | tools/migrator/MigratorCLI.cpp:80-86 | a non-empty spaced value wins over any `key=value` |
| MigratorCli.ParseOptEquals | tools/migrator/MigratorCLI.cpp:80-86 | without a spaced occurrence the first `key=value` gives the value |
| MigratorCli.ParseDir | tools/migrator/MigratorCLI.cpp:98-104 | the --dir value, or "migrations"; never empty |
| MigratorCli.Stoi | tools/migrator/MigratorCLI.cpp:112-120 | `std::stoi` yields only values in int range |
| MigratorCli.StoiOfDigits | tools/migrator/MigratorCLI.cpp:112-120 | a run of digits within int range parses to its value |
| MigratorCli.StoiNeedsDigit | tools/migrator/MigratorCLI.cpp:112-120 | text without any digit does not parse |
| MigratorCli.DefaultOptions | tools/migrator/MigratorCLI.hpp:24-42 | the member initialisers of Options |
| MigratorCli.ParseStepsOrThrow | tools/migrator/MigratorCLI.cpp:106-126 | missing, non-integer and non-positive --steps are the three errors, each exactly; otherwise the parsed value |
| MigratorCli.ValidateOrThrow | tools/migrator/MigratorCLI.cpp:128-158 | help skips the checks. Otherwise it succeeds iff the makemigrations rules or the database-command rules hold. Missing positional arguments and an unknown command give their own errors |
| MigratorCli.ParseArgs | tools/migrator/MigratorCLI.cpp:160-223 | parseArgsOrThrow; characterised by HelpWins, ParsedIsValid, StepsOnlyForRollback, DbPositionals, TooFewArguments and MakeMigrationsDefaults |
| MigratorCli.HelpWins | tools/migrator/MigratorCLI.cpp:169-173 | no arguments, or -h/--help anywhere, gives the default options with help set |
| MigratorCli.ParsedIsValid | tools/migrator/MigratorCLI.cpp:160-223 | whatever parses passes validateOrThrow and names a known command |
| MigratorCli.StepsOnlyForRollback | tools/migrator/MigratorCLI.cpp:216-219 | --steps is read only for rollback, and a parsed rollback has at least one step |
| MigratorCli.DbPositionals | tools/migrator/MigratorCLI.cpp:203-210 | a database command takes its five positional arguments verbatim |
| MigratorCli.TooFewArguments | tools/migrator/MigratorCLI.cpp:203-204 | fewer than six arguments for a database command is an error |
| MigratorCli.MakeMigrationsDefaults | tools/migrator/MigratorCLI.cpp:176-200 | makemigrations with only --new gets snapshot schema.json, name auto, dialect mysql and directory migrations |
| MigratorCli.NewOnlyOptions | tools/migrator/MigratorCLI.cpp:184-196 | the options read from `--new path` alone are the defaults plus that path |
| MigratorCli.ParseArgsOrThrow | tools/migrator/MigratorCLI.cpp:160-223 | the copying loops and branches of parseArgsOrThrow compute ParseArgs |
| MigratorCli.CollectFrom | tools/migrator/MigratorCLI.cpp:180-182 | the extra vector is argv from the given position |
| MakeMigrations.SafeChar | tools/migrator/MakeMigrations.cpp:66-75 | the result is always allowed, and an allowed character is kept |
| MakeMigrations.SafeChars | tools/migrator/MakeMigrations.cpp:66-75 | same length, each character kept or replaced position by position |
| MakeMigrations.Label | tools/migrator/MakeMigrations.cpp:64-77 | sanitize; characterised by LabelShape and LabelIdempotent |
| MakeMigrations.LabelShape | tools/migrator/MakeMigrations.cpp:64-77 | sanitize keeps the length of a non-empty tag, gives "auto" for an empty one, and leaves only [A-Za-z0-9_-] |
| MakeMigrations.LabelIdempotent | tools/migrator/MakeMigrations.cpp:64-77 | sanitize is idempotent |
| MakeMigrations.Sanitize | tools/migrator/MakeMigrations.cpp:64-77 | the in-place rewrite loop computes the label |
| MakeMigrations.FileSystem.Write | tools/migrator/MakeMigrations.cpp:29-37 | write_text replaces the file's contents |
| MakeMigrations.MigrationFilesDistinct | tools/migrator/MakeMigrations.cpp:105-106 | the up and down file names never coincide |
| MakeMigrations.ReadSchema | tools/migrator/MakeMigrations.cpp:19-27 | a missing file cannot be opened; a parsed file reads iff it decodes |
| MakeMigrations.LoadSnapshotOrEmpty | tools/migrator/MakeMigrations.cpp:39-44 | a missing snapshot is the empty schema, otherwise it is read |
| MakeMigrations.RunMakeMigrations | tools/migrator/MakeMigrations.cpp:79-112 | both schemas are read first, and a read error writes nothing. The snapshot is always rewritten. No change returns 0. A non-mysql dialect is then an error. Otherwise both SQL files are written under the stamp and label |
| MakeMigrations.SecondRunIsQuiet | tools/migrator/MakeMigrations.cpp:85-94 | right after a run, the snapshot reads back as the new schema and the diff is empty |
| Database.DefaultDbConfig | include/vix/db/Database.hpp:79-89 | DbConfig{} is MySQL with empty settings and default pools |
| Database.GetString | src/Database.cpp:34-47 | a configured string, or the fallback when the key is missing |
| Database.GetInt | src/Database.cpp:44-45 | a configured int, or the fallback when the key is missing |
| Database.MakeDbConfig | src/Database.cpp:30-51 | make_db_config; characterised by EngineSelection, EmptyConfigDefaults, PoolBounds and PoolIndependentOfEngine |
| Database.EngineSelection | src/Database.cpp:34-38 | SQLite iff the engine setting is exactly "sqlite"; MySQL otherwise |
| Database.EmptyConfigDefaults | src/Database.cpp:30-51 | an empty configuration gives the documented defaults, which differ from DbConfig{} |
| Database.PoolBounds | src/Database.cpp:44-45 | non-negative pool ints are taken as they are, and negative ones wrap modulo 2^64 |
| Database.PoolFor | src/Database.cpp:82-93 | pool_for gives the selected engine's pool |
| Database.PoolIndependentOfEngine | src/Database.cpp:47-48 | a configured pool is the same for both engines |
| Database.MakeFactoryFor | src/Database.cpp:55-80 | make_factory_for; characterised by FactoryMatchesEngine and FactoryIgnoresOtherEngine |
| Database.FactoryMatchesEngine | src/Database.cpp:55-80 | a factory exists iff the selected engine's driver is built in, and uses that engine's settings. Otherwise the error names the missing flag |
| Database.FactoryIgnoresOtherEngine | src/Database.cpp:55-93 | the other engine's settings and driver flag play no part |
| Database.Database.Built | include/vix/db/Database.hpp:130-151 | the database keeps its configuration and pool |
| Database.Database.Open | src/Database.cpp:96-101 | a factory error propagates with nothing built. Otherwise the pool is built with pool_for and warmed up, a warmup error propagates (a driver's own connect error included), and success holds the warmed pool |
| Database.DefaultWarmupHoldsOne | src/Database.cpp:96-101 | with the defaults and a working driver, a new database holds exactly one idle connection |
| Database.DefaultWarmupPassesDriverError | src/Database.cpp:96-101 | with the defaults, a driver whose connect throws makes construction fail with the driver's message, nothing counted |
| Ints.WrapRoundTrip | include/vix/db/core/Drivers.hpp:58 | the uint64/int64 reinterpretation is a bijection |
| Ints.IntToSize | src/Database.cpp:44-45 | `static_cast<size_t>` of an int: the value if non-negative, value + 2^64 if negative |

## Left out

- The MySQL and SQLite drivers (`src/mysql`, `src/sqlite`) mostly call into C client libraries, so they are not modelled. A connection is an opaque identity. Statement execution, `lastInsertId` and the drivers' own `ping` are not modelled; ping is an oracle parameter. A factory call is an oracle too: it returns a connection pointer (possibly null) or throws a `DBError` with a message, as a driver does when its connect fails.
- Concurrency: the pool's mutex and condition variable are not modelled. The wait in `acquire` is the outcome `Blocked`, and the wakeup of a waiter on `release` is not modelled.
- Floating point: a double is an opaque 64-bit pattern, so `getDoubleOr`'s `0.0` default is the all-zero pattern.
- SHA-256 is not modelled (`Sha256.hpp`); a checksum is an opaque string that the runner stores.
- JSON text: the nlohmann parser and `dump` are parameters of makemigrations, and the codec works on a JSON tree.
- The SQL generators (`to_mysql_up`/`to_mysql_down`, `MySqlGenerator.hpp`) are parameters.
- Files and clock: the file system is a map from path to contents. `create_directories`, a failing write and `timestamp_id` are not modelled; the stamp is a parameter, and path joining is a simplified `dir/name`.
- `printUsage` and `MigratorCLI::run` are not modelled, since they only print and dispatch.
- `vix::config::Config` is not part of this model. It is two key/value maps, and `getInt` is taken to return `int`.
- The `.cpp` of `FileMigrationsRunner` is not part of this model; the runner follows the header's documentation.
  - `ensureTable`, `scanPairs` and `readFileText` are not modelled: the ledger is rows held by the runner, the scanned pairs are an argument, and a script's success is the `upOk`/`downOk` oracle.
  - Whether the checksum of an applied id is compared with the file's is not documented, so no drift check is modelled.
  - Error messages are the tagged `RunError` values.
- FileMigrations.FileMigrationsRunner.Rollback counts its remaining steps down rather than up; the iterations are the same.
- `Migration` ownership and lifetime (raw pointers the runner does not own) are not modelled.
- `ResultSet::row()`'s reference lifetime is not modelled; a row is a value.
- Unreachable branches are not modelled: the `default` cases of `make_factory_for`/`pool_for` with a two-value engine, and the fallback return of `base_type_to_string`.
- Pool.ConnectionPool: `total` is a `nat`, and its decrement is guarded by the `total > 0` test as in the source.
- Trivial accessors (`Database::engine/config/pool`, `Transaction::conn`, `PooledConn::get`) are not modelled.
- MakeMigrations.Sanitize (and Label, LabelShape, SafeChars): characters are Unicode scalars, and `sanitize` allows only ASCII letters and digits, `_` and `-`. The source's loop rewrites the bytes of a `std::string`, so a non-ASCII character of n UTF-8 bytes becomes n underscores there, while the model replaces it by one. "Keeps the length" counts characters, and agrees with the source only on ASCII text.
- SchemaJson.GetUInt32: JSON floating-point numbers (nlohmann's `number_float`) are not modelled; the tree has integer numbers only. nlohmann's `get<std::uint32_t>()` also accepts a float such as `"size": 255.0` and truncates it (out of range the cast is undefined), so a snapshot holding such a float is outside the model.
