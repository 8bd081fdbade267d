/**
 * The schema snapshot codec (src/schema/Json.cpp): the mapping between Schema values and a JSON
 * tree. The tree stands for an nlohmann::json value. Objects are association lists kept in
 * ascending key order, the order nlohmann's std::map-backed objects have; text parsing and
 * dumping are not modelled.
 */
module SchemaJson {
  import opened Ints
  import opened Wrappers
  import opened SchemaTypes
  import opened Schema

  /** A JSON value. Numbers are the integer ones (number_integer / number_unsigned). */
  datatype Json =
    | JNull
    | JBool(b: bool)
    | JNum(n: int)
    | JStr(s: string)
    | JArr(items: seq<Json>)
    | JObj(fields: seq<(string, Json)>)

  /** The exceptions the codec can raise. */
  datatype JsonError =
    | TypeError               // nlohmann::json::type_error: a value of the wrong kind
    | OutOfRange(key: string) // nlohmann::json::out_of_range from at() on a missing key
    | UnknownBaseType(tag: string)
    | MissingTables

  // ---------------------------------------------------------------------------------------
  // The nlohmann accessors the codec uses

  /** The value of the first member with key `k`. */
  function LookupIn(fields: seq<(string, Json)>, k: string): Option<Json> {
    if |fields| == 0 then None
    else if fields[0].0 == k then Some(fields[0].1)
    else LookupIn(fields[1..], k)
  }

  /**
   * An object with member `k` set to `v` in front of `rest`: the shape `j[k] = v` leaves when
   * the keys of `rest` all sort after `k`.
   */
  function Member(k: string, v: Json, rest: seq<(string, Json)>): (r: seq<(string, Json)>)
    ensures forall q :: LookupIn(r, q) == if q == k then Some(v) else LookupIn(rest, q)
  {
    assert ([(k, v)] + rest)[1..] == rest;
    [(k, v)] + rest
  }

  /** The member `k` of an object; nothing for a non-object. */
  function Field(j: Json, k: string): Option<Json> {
    if j.JObj? then LookupIn(j.fields, k) else None
  }

  /** j.contains(k): false for non-objects. */
  predicate Contains(j: Json, k: string) {
    Field(j, k).Some?
  }

  /** j.at(k): type_error on a non-object, out_of_range on a missing key. */
  function At(j: Json, k: string): (r: Result<Json, JsonError>)
    ensures r.Success? <==> Contains(j, k)
    ensures r.Success? ==> Field(j, k) == Some(r.value)
  {
    if !j.JObj? then Failure(TypeError)
    else match LookupIn(j.fields, k)
      case None => Failure(OutOfRange(k))
      case Some(v) => Success(v)
  }

  /** get<std::string>(). */
  function GetString(j: Json): Result<string, JsonError> {
    if j.JStr? then Success(j.s) else Failure(TypeError)
  }

  /** get<bool>(). */
  function GetBool(j: Json): Result<bool, JsonError> {
    if j.JBool? then Success(j.b) else Failure(TypeError)
  }

  /** get<std::uint32_t>(): a static_cast from any number or boolean. */
  function GetUInt32(j: Json): (r: Result<uint32, JsonError>)
    ensures r.Success? <==> j.JNum? || j.JBool?
    ensures j.JNum? && 0 <= j.n < TWO_32 ==> r == Success(j.n as uint32)
  {
    match j
    case JNum(n) => Success((n % TWO_32) as uint32)
    case JBool(b) => Success(if b then 1 else 0)
    case _ => Failure(TypeError)
  }

  /** value(k, def) for a boolean default: type_error on a non-object or a non-boolean member. */
  function ValueBool(j: Json, k: string, def: bool): (r: Result<bool, JsonError>)
    ensures j.JObj? && !Contains(j, k) ==> r == Success(def)
  {
    if !j.JObj? then Failure(TypeError)
    else match LookupIn(j.fields, k)
      case None => Success(def)
      case Some(v) => GetBool(v)
  }

  /** What a range-for over a json value visits: array items, object values, nothing for null, the value itself otherwise. */
  function Elements(j: Json): seq<Json> {
    match j
    case JArr(items) => items
    case JObj(fields) => Values(fields)
    case JNull => []
    case _ => [j]
  }

  function Values(fields: seq<(string, Json)>): (r: seq<Json>)
    ensures |r| == |fields| && forall k :: 0 <= k < |fields| ==> r[k] == fields[k].1
  {
    if |fields| == 0 then [] else Values(fields[..|fields| - 1]) + [fields[|fields| - 1].1]
  }

  /** Apply `f` to each element, in order. */
  function Map<A, B>(f: A -> B, s: seq<A>): (r: seq<B>)
    ensures |r| == |s| && forall k :: 0 <= k < |s| ==> r[k] == f(s[k])
  {
    if |s| == 0 then [] else Map(f, s[..|s| - 1]) + [f(s[|s| - 1])]
  }

  /** Decode each element in order, stopping at the first failure. */
  function DecodeAll<A>(f: Json -> Result<A, JsonError>, js: seq<Json>): Result<seq<A>, JsonError> {
    if |js| == 0 then Success([])
    else
      var init :- DecodeAll(f, js[..|js| - 1]);
      var x :- f(js[|js| - 1]);
      Success(init + [x])
  }

  /** get<std::vector<std::string>>(): an array whose every item is a string. */
  function GetStrings(j: Json): Result<seq<string>, JsonError> {
    if j.JArr? then DecodeAll(GetString, j.items) else Failure(TypeError)
  }

  // ---------------------------------------------------------------------------------------
  // BaseType tags

  const BaseTypeTags: set<string> := {"int", "bigint", "double", "bool", "varchar", "text", "datetime"}

  function BaseTypeToString(t: BaseType): (s: string)
    ensures s in BaseTypeTags
  {
    match t
    case Int => "int"
    case BigInt => "bigint"
    case Double => "double"
    case Bool => "bool"
    case VarChar => "varchar"
    case Text => "text"
    case DateTime => "datetime"
  }

  /** base_type_from_string: accepts exactly the seven tags, inverting BaseTypeToString; throws on anything else. */
  function BaseTypeFromString(s: string): (r: Result<BaseType, JsonError>)
    ensures r.Success? <==> s in BaseTypeTags
    ensures r.Success? ==> BaseTypeToString(r.value) == s
    ensures r.Failure? ==> r.error == UnknownBaseType(s)
  {
    if s == "int" then Success(Int)
    else if s == "bigint" then Success(BigInt)
    else if s == "double" then Success(Double)
    else if s == "bool" then Success(Bool)
    else if s == "varchar" then Success(VarChar)
    else if s == "text" then Success(Text)
    else if s == "datetime" then Success(DateTime)
    else Failure(UnknownBaseType(s))
  }

  /** Every tag reads back as the kind it was written from, and distinct kinds get distinct tags. */
  lemma BaseTypeRoundTrip(t: BaseType, u: BaseType)
    ensures BaseTypeFromString(BaseTypeToString(t)) == Success(t)
    ensures BaseTypeToString(t) == BaseTypeToString(u) ==> t == u
  {
  }

  // ---------------------------------------------------------------------------------------
  // Type, Column, Index

  function TypeToJson(t: Type): Json {
    JObj(Member("base", JStr(BaseTypeToString(t.base)), if t.size.Some? then Member("size", JNum(t.size.value as int), []) else []))
  }

  function TypeFromJson(j: Json): Result<Type, JsonError> {
    var baseJ :- At(j, "base");
    var tag :- GetString(baseJ);
    var base :- BaseTypeFromString(tag);
    if Contains(j, "size") then
      var sizeJ :- At(j, "size");
      var size :- GetUInt32(sizeJ);
      Success(Type(base, Some(size)))
    else Success(Type(base, None))
  }

  /** "size" is written iff the type has one, and every type reads back unchanged. */
  lemma TypeRoundTrip(t: Type)
    ensures Contains(TypeToJson(t), "size") <==> t.size.Some?
    ensures TypeFromJson(TypeToJson(t)) == Success(t)
  {
    BaseTypeRoundTrip(t.base, t.base);
  }

  function ColumnToJson(c: Column): Json {
    var tail :=
      Member("name", JStr(c.name),
      Member("nullable", JBool(c.nullable),
      Member("primary_key", JBool(c.primaryKey),
      Member("type", TypeToJson(c.typ),
      Member("unique", JBool(c.unique), [])))));
    JObj(Member("auto_increment", JBool(c.autoIncrement),
      if c.def.Some? then Member("default", JStr(c.def.value.sqlLiteral), tail) else tail))
  }

  function ColumnFromJson(j: Json): Result<Column, JsonError> {
    var nameJ :- At(j, "name");
    var name :- GetString(nameJ);
    var typeJ :- At(j, "type");
    var typ :- TypeFromJson(typeJ);
    var nullable :- ValueBool(j, "nullable", true);
    var primaryKey :- ValueBool(j, "primary_key", false);
    var autoIncrement :- ValueBool(j, "auto_increment", false);
    var unique :- ValueBool(j, "unique", false);
    if Contains(j, "default") then
      var defJ :- At(j, "default");
      var lit :- GetString(defJ);
      Success(Column(name, typ, nullable, primaryKey, autoIncrement, unique, Some(DefaultValue(lit))))
    else Success(Column(name, typ, nullable, primaryKey, autoIncrement, unique, None))
  }

  /** "default" is written iff the column has one, and every column reads back unchanged. */
  lemma ColumnRoundTrip(c: Column)
    ensures Contains(ColumnToJson(c), "default") <==> c.def.Some?
    ensures ColumnFromJson(ColumnToJson(c)) == Success(c)
  {
    ColumnFields(c);
    TypeRoundTrip(c.typ);
  }

  /** Where each column attribute sits in the written object. */
  lemma ColumnFields(c: Column)
    ensures var j := ColumnToJson(c);
      && Field(j, "name") == Some(JStr(c.name))
      && Field(j, "type") == Some(TypeToJson(c.typ))
      && Field(j, "nullable") == Some(JBool(c.nullable))
      && Field(j, "primary_key") == Some(JBool(c.primaryKey))
      && Field(j, "auto_increment") == Some(JBool(c.autoIncrement))
      && Field(j, "unique") == Some(JBool(c.unique))
      && Field(j, "default") == if c.def.Some? then Some(JStr(c.def.value.sqlLiteral)) else None
  {
    ColumnTailFields(c);
  }

  /** The members written after "auto_increment" and "default". */
  lemma ColumnTailFields(c: Column)
    ensures var tail :=
        Member("name", JStr(c.name),
        Member("nullable", JBool(c.nullable),
        Member("primary_key", JBool(c.primaryKey),
        Member("type", TypeToJson(c.typ),
        Member("unique", JBool(c.unique), [])))));
      && LookupIn(tail, "name") == Some(JStr(c.name))
      && LookupIn(tail, "type") == Some(TypeToJson(c.typ))
      && LookupIn(tail, "nullable") == Some(JBool(c.nullable))
      && LookupIn(tail, "primary_key") == Some(JBool(c.primaryKey))
      && LookupIn(tail, "unique") == Some(JBool(c.unique))
      && LookupIn(tail, "auto_increment") == None
      && LookupIn(tail, "default") == None
  {
  }

  /** Members missing on read take the Column defaults; a default value is read iff "default" is present. */
  lemma ColumnDefaultsOnRead(j: Json)
    requires ColumnFromJson(j).Success?
    ensures var c := ColumnFromJson(j).value;
      && (!Contains(j, "nullable") ==> c.nullable)
      && (!Contains(j, "primary_key") ==> !c.primaryKey)
      && (!Contains(j, "auto_increment") ==> !c.autoIncrement)
      && (!Contains(j, "unique") ==> !c.unique)
      && (c.def.Some? <==> Contains(j, "default"))
  {
  }

  function IndexToJson(i: Index): Json {
    JObj(Member("columns", JArr(Map(s => JStr(s), i.columns)), Member("name", JStr(i.name), Member("unique", JBool(i.unique), []))))
  }

  function IndexFromJson(j: Json): Result<Index, JsonError> {
    var nameJ :- At(j, "name");
    var name :- GetString(nameJ);
    var colsJ :- At(j, "columns");
    var columns :- GetStrings(colsJ);
    var unique :- ValueBool(j, "unique", false);
    Success(Index(name, columns, unique))
  }

  /** Every index reads back unchanged, column list and order included. */
  lemma IndexRoundTrip(i: Index)
    ensures IndexFromJson(IndexToJson(i)) == Success(i)
  {
    DecodeAllRoundTrip(GetString, s => JStr(s), i.columns);
  }

  /** A missing "unique" reads as a non-unique index. */
  lemma IndexDefaultsOnRead(j: Json)
    requires IndexFromJson(j).Success?
    ensures !Contains(j, "unique") ==> !IndexFromJson(j).value.unique
  {
  }

  /** Decoding what was encoded element by element gives the elements back. */
  lemma {:induction false} DecodeAllRoundTrip<A>(f: Json -> Result<A, JsonError>, g: A -> Json, s: seq<A>)
    requires forall k :: 0 <= k < |s| ==> f(g(s[k])) == Success(s[k])
    ensures DecodeAll(f, Map(g, s)) == Success(s)
  {
    if |s| > 0 {
      var p := s[..|s| - 1];
      var last := s[|s| - 1];
      assert forall k :: 0 <= k < |p| ==> p[k] == s[k];
      DecodeAllRoundTrip(f, g, p);
      var m := Map(g, s);
      assert m[..|m| - 1] == Map(g, p);
      assert f(m[|m| - 1]) == Success(last);
      assert s == p + [last];
    }
  }

  /** Once a prefix has failed, decoding the whole sequence fails the same way: decoding stops at the first failure. */
  lemma {:induction false} DecodeAllStops<A>(f: Json -> Result<A, JsonError>, js: seq<Json>, k: nat)
    requires k <= |js| && DecodeAll(f, js[..k]).Failure?
    ensures DecodeAll(f, js) == DecodeAll(f, js[..k])
    decreases |js| - k
  {
    if k < |js| {
      assert js[..k + 1][..k] == js[..k];
      DecodeAllStops(f, js, k + 1);
    } else {
      assert js[..k] == js;
    }
  }

  // ---------------------------------------------------------------------------------------
  // Table and Schema (loops over the column, index and table vectors)

  /** The tree table_to_json builds. */
  function TableJson(t: Table): Json {
    JObj(Member("columns", JArr(Map(ColumnToJson, t.columns)),
         Member("indexes", JArr(Map(IndexToJson, t.indexes)),
         Member("name", JStr(t.name), []))))
  }

  /** What table_from_json reads: "name" and "columns" are required, "indexes" is optional. */
  function DecodeTable(j: Json): Result<Table, JsonError> {
    var nameJ :- At(j, "name");
    var name :- GetString(nameJ);
    var colsJ :- At(j, "columns");
    var columns :- DecodeAll(ColumnFromJson, Elements(colsJ));
    if Contains(j, "indexes") then
      var idxJ :- At(j, "indexes");
      var indexes :- DecodeAll(IndexFromJson, Elements(idxJ));
      Success(Table(name, columns, indexes))
    else Success(Table(name, columns, []))
  }

  /** The tree to_json_string dumps. */
  function SchemaToJson(s: Schema): Json {
    JObj(Member("tables", JArr(Map(TableJson, s.tables)), Member("version", JNum(1), [])))
  }

  /** What from_json_string_or_throw reads from the parsed tree. */
  function DecodeSchema(j: Json): Result<Schema, JsonError> {
    if !Contains(j, "tables") then Failure(MissingTables)
    else
      var tablesJ :- At(j, "tables");
      var tables :- DecodeAll(DecodeTable, Elements(tablesJ));
      Success(Schema(tables))
  }

  /** table_to_json: two push_back loops. */
  method TableToJson(t: Table) returns (j: Json)
    ensures j == TableJson(t)
  {
    var columns: seq<Json> := [];
    var i := 0;
    while i < |t.columns|
      invariant 0 <= i <= |t.columns|
      invariant columns == Map(ColumnToJson, t.columns[..i])
    {
      assert t.columns[..i + 1][..i] == t.columns[..i];
      columns := columns + [ColumnToJson(t.columns[i])];
      i := i + 1;
    }
    assert t.columns[..i] == t.columns;
    var indexes: seq<Json> := [];
    i := 0;
    while i < |t.indexes|
      invariant 0 <= i <= |t.indexes|
      invariant indexes == Map(IndexToJson, t.indexes[..i])
    {
      assert t.indexes[..i + 1][..i] == t.indexes[..i];
      indexes := indexes + [IndexToJson(t.indexes[i])];
      i := i + 1;
    }
    assert t.indexes[..i] == t.indexes;
    j := JObj(Member("columns", JArr(columns), Member("indexes", JArr(indexes), Member("name", JStr(t.name), []))));
  }

  /** The loop shared by table_from_json and from_json_string_or_throw: decode each element, stopping at the first exception. */
  method DecodeEach<A>(f: Json -> Result<A, JsonError>, js: seq<Json>) returns (r: Result<seq<A>, JsonError>)
    ensures r == DecodeAll(f, js)
  {
    var out: seq<A> := [];
    var i := 0;
    while i < |js|
      invariant 0 <= i <= |js|
      invariant DecodeAll(f, js[..i]) == Success(out)
    {
      assert js[..i + 1][..i] == js[..i];
      var x := f(js[i]);
      if x.Failure? {
        DecodeAllStops(f, js, i + 1);
        return Failure(x.error);
      }
      out := out + [x.value];
      i := i + 1;
    }
    assert js[..i] == js;
    r := Success(out);
  }

  /** table_from_json. */
  method TableFromJson(j: Json) returns (r: Result<Table, JsonError>)
    ensures r == DecodeTable(j)
  {
    var nameJ := At(j, "name");
    if nameJ.Failure? { return Failure(nameJ.error); }
    var name := GetString(nameJ.value);
    if name.Failure? { return Failure(name.error); }
    var colsJ := At(j, "columns");
    if colsJ.Failure? { return Failure(colsJ.error); }
    var columns := DecodeEach(ColumnFromJson, Elements(colsJ.value));
    if columns.Failure? { return Failure(columns.error); }
    var indexes: seq<Index> := [];
    if Contains(j, "indexes") {
      var idxJ := At(j, "indexes");
      var decoded := DecodeEach(IndexFromJson, Elements(idxJ.value));
      if decoded.Failure? { return Failure(decoded.error); }
      indexes := decoded.value;
    }
    r := Success(Table(name.value, columns.value, indexes));
  }

  /** to_json_string, up to the textual dump: "version" is 1, then one table tree per table in order. */
  method ToJsonString(s: Schema) returns (j: Json)
    ensures j == SchemaToJson(s)
  {
    var tables: seq<Json> := [];
    var i := 0;
    while i < |s.tables|
      invariant 0 <= i <= |s.tables|
      invariant tables == Map(TableJson, s.tables[..i])
    {
      assert s.tables[..i + 1][..i] == s.tables[..i];
      var tj := TableToJson(s.tables[i]);
      tables := tables + [tj];
      i := i + 1;
    }
    assert s.tables[..i] == s.tables;
    j := JObj(Member("tables", JArr(tables), Member("version", JNum(1), [])));
  }

  /** from_json_string_or_throw, from the parsed tree. */
  method FromJsonStringOrThrow(j: Json) returns (r: Result<Schema, JsonError>)
    ensures r == DecodeSchema(j)
  {
    if !Contains(j, "tables") {
      return Failure(MissingTables);
    }
    var tablesJ := At(j, "tables");
    var elems := Elements(tablesJ.value);
    var tables: seq<Table> := [];
    var i := 0;
    while i < |elems|
      invariant 0 <= i <= |elems|
      invariant DecodeAll(DecodeTable, elems[..i]) == Success(tables)
    {
      assert elems[..i + 1][..i] == elems[..i];
      var t := TableFromJson(elems[i]);
      if t.Failure? {
        DecodeAllStops(DecodeTable, elems, i + 1);
        return Failure(t.error);
      }
      tables := tables + [t.value];
      i := i + 1;
    }
    assert elems[..i] == elems;
    r := Success(Schema(tables));
  }

  // ---------------------------------------------------------------------------------------
  // Properties of the snapshot format

  lemma ColumnsRoundTrip(cs: seq<Column>)
    ensures DecodeAll(ColumnFromJson, Map(ColumnToJson, cs)) == Success(cs)
  {
    forall k | 0 <= k < |cs| ensures ColumnFromJson(ColumnToJson(cs[k])) == Success(cs[k]) {
      ColumnRoundTrip(cs[k]);
    }
    DecodeAllRoundTrip(ColumnFromJson, ColumnToJson, cs);
  }

  lemma IndexesRoundTrip(xs: seq<Index>)
    ensures DecodeAll(IndexFromJson, Map(IndexToJson, xs)) == Success(xs)
  {
    forall k | 0 <= k < |xs| ensures IndexFromJson(IndexToJson(xs[k])) == Success(xs[k]) {
      IndexRoundTrip(xs[k]);
    }
    DecodeAllRoundTrip(IndexFromJson, IndexToJson, xs);
  }

  /** Decoding a table tree of the shape table_to_json builds, whatever its items. */
  lemma DecodeTableShape(name: string, cj: seq<Json>, ij: seq<Json>)
    requires DecodeAll(ColumnFromJson, cj).Success? && DecodeAll(IndexFromJson, ij).Success?
    ensures DecodeTable(JObj(Member("columns", JArr(cj), Member("indexes", JArr(ij), Member("name", JStr(name), [])))))
      == Success(Table(name, DecodeAll(ColumnFromJson, cj).value, DecodeAll(IndexFromJson, ij).value))
  {
  }

  /** Every table reads back unchanged, with column and index order preserved. */
  lemma TableRoundTrip(t: Table)
    ensures DecodeTable(TableJson(t)) == Success(t)
  {
    ColumnsRoundTrip(t.columns);
    IndexesRoundTrip(t.indexes);
    DecodeTableShape(t.name, Map(ColumnToJson, t.columns), Map(IndexToJson, t.indexes));
  }

  /** from_json(to_json(s)) == s for every schema, with table order preserved. */
  lemma SchemaRoundTrip(s: Schema)
    ensures DecodeSchema(SchemaToJson(s)) == Success(s)
  {
    forall k | 0 <= k < |s.tables| ensures DecodeTable(TableJson(s.tables[k])) == Success(s.tables[k]) {
      TableRoundTrip(s.tables[k]);
    }
    DecodeAllRoundTrip(DecodeTable, TableJson, s.tables);
    assert At(SchemaToJson(s), "tables") == Success(JArr(Map(TableJson, s.tables)));
  }

  /** "columns" is required; a table without "indexes" has none; a null "columns" reads as no columns. */
  lemma TableMembersOnRead(j: Json)
    ensures !Contains(j, "columns") ==> DecodeTable(j).Failure?
    ensures DecodeTable(j).Success? && !Contains(j, "indexes") ==> DecodeTable(j).value.indexes == []
    ensures DecodeTable(j).Success? && Field(j, "columns") == Some(JNull) ==> DecodeTable(j).value.columns == []
  {
  }

  /** A snapshot without "tables" is rejected; "version" and every other member are never read. */
  lemma OnlyTablesIsRead(j: Json, k: Json)
    ensures !Contains(j, "tables") ==> DecodeSchema(j) == Failure(MissingTables)
    ensures Field(j, "tables") == Field(k, "tables") ==> DecodeSchema(j) == DecodeSchema(k)
  {
  }
}
