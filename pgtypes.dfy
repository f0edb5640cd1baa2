/**
 * The vendored sqlc code generator's column-type mapping: identifiers and their printed form
 * (pkg/sqlc/codegen/sdk/sdk.go), the PostgreSQL mapping with its lookup of user-defined enums
 * and composite types (pkg/sqlc/codegen/golang/postgresql_type.go) and the MySQL mapping
 * (pkg/sqlc/codegen/golang/mysql_type.go).  The SQL driver is an enumeration and the
 * generator's StructName naming rule a parameter.
 */
module SqlcTypes {
  import opened Wrappers
  import opened Strings

  // ---------------------------------------------------------------- identifiers

  datatype Identifier = Identifier(catalog: string, schema: string, name: string)

  /** sdk.DataType: the schema-qualified name, or the bare name without a schema. */
  function DataType(n: Identifier): (r: string)
    ensures n.schema == "" ==> r == n.name
    ensures n.schema != "" ==> HasPrefix(r, n.schema) && HasSuffix(r, n.name) && |r| == |n.schema| + 1 + |n.name|
  {
    if n.schema != "" then n.schema + "." + n.name else n.name
  }

  /** parseIdentifierString: one, two or three dot-separated parts. */
  function ParseIdentifierString(name: string): (r: Result<Identifier, string>)
    ensures r.Ok? <==> CountChar(name, '.') <= 2
    ensures r.Ok? ==> '.' !in r.value.catalog && '.' !in r.value.schema && '.' !in r.value.name
    ensures r.Ok? && CountChar(name, '.') < 2 ==> r.value.catalog == ""
    ensures r.Ok? && CountChar(name, '.') == 0 ==> r.value.schema == "" && r.value.name == name
  {
    var parts := Split(name, '.');
    if |parts| == 1 then
      NoSepSplitBack(name);
      Ok(Identifier("", "", parts[0]))
    else if |parts| == 2 then Ok(Identifier("", parts[0], parts[1]))
    else if |parts| == 3 then Ok(Identifier(parts[0], parts[1], parts[2]))
    else Err("invalid name: " + name)
  }

  lemma NoSepSplitBack(name: string)
    requires CountChar(name, '.') == 0
    ensures Split(name, '.') == [name]
  {
    SplitJoin(name, '.');
  }

  /** Printing a parsed one-part name, or a two-part name with a schema, gives the name back. */
  lemma DataTypeOfParsed(s: string)
    requires CountChar(s, '.') == 0 || (CountChar(s, '.') == 1 && Split(s, '.')[0] != "")
    ensures ParseIdentifierString(s).Ok? && DataType(ParseIdentifierString(s).value) == s
  {
    SplitJoin(s, '.');
    var parts := Split(s, '.');
    if |parts| == 2 {
      assert parts[1..] == [parts[1]];
    }
  }

  /** Parsing a printed identifier gives back its schema and name; the catalog is not printed. */
  lemma ParsedDataType(n: Identifier)
    requires n.schema != "" && '.' !in n.schema && '.' !in n.name
    ensures ParseIdentifierString(DataType(n)) == Ok(Identifier("", n.schema, n.name))
  {
    JoinSplit([n.schema, n.name], '.');
    assert Join([n.schema, n.name], ".") == n.schema + "." + Join([n.name], ".") by {
      assert [n.schema, n.name][1..] == [n.name];
    }
    CountCharPositive(DataType(n), '.');
  }

  /**
   * sdk.SameTableName: a missing table never matches; an empty schema stands for the default
   * schema; then catalog, schema and name must all agree.
   */
  function SameTableName(tableID: Option<Identifier>, f: Identifier, defaultSchema: string): (r: bool)
    ensures tableID.None? ==> !r
    ensures r <==> tableID.Some? && Qualified(tableID.value, defaultSchema) == f
  {
    if tableID.None? then false
    else
      var t := tableID.value;
      var schema := if t.schema == "" then defaultSchema else t.schema;
      t.catalog == f.catalog && schema == f.schema && t.name == f.name
  }

  /** Leaving the schema empty is the same as naming the default schema. */
  lemma EmptySchemaIsDefault(t: Identifier, f: Identifier, defaultSchema: string)
    requires t.schema == ""
    ensures SameTableName(Some(t), f, defaultSchema)
         == SameTableName(Some(Identifier(t.catalog, defaultSchema, t.name)), f, defaultSchema)
  {
  }

  /** Every identifier with a schema names its own table. */
  lemma SameTableNameReflexive(t: Identifier, defaultSchema: string)
    requires t.schema != ""
    ensures SameTableName(Some(t), t, defaultSchema)
  {
  }

  // ---------------------------------------------------------------- catalog

  datatype Driver = PgxV4 | PgxV5 | LibPQ | OtherDriver {
    predicate IsPGX() { this == PgxV4 || this == PgxV5 }
  }

  /** A catalog schema: its name, and the names of its enums and composite types. */
  datatype Schema = Schema(name: string, enums: seq<string>, compositeTypes: seq<string>)

  datatype Catalog = Catalog(defaultSchema: string, schemas: seq<Schema>)

  datatype Column = Column(typ: Identifier, notNull: bool, isArray: bool, unsigned: bool, length: int)

  /** The generator's struct names are exported Go identifiers. */
  ghost predicate ExportedNames(structName: string -> string) {
    forall s :: |structName(s)| > 0 && IsUpper(structName(s)[0])
  }

  /** The Go type of an enum: prefixed with its schema outside the default one, "Null" when nullable. */
  function EnumTypeName(schemaName: string, enumName: string, notNull: bool, defaultSchema: string,
                        structName: string -> string): string
  {
    var base := if schemaName == defaultSchema then structName(enumName) else structName(schemaName + "_" + enumName);
    if notNull then base else "Null" + base
  }

  lemma EnumTypeNameShape(schemaName: string, enumName: string, notNull: bool, defaultSchema: string,
                          structName: string -> string)
    requires ExportedNames(structName)
    ensures var r := EnumTypeName(schemaName, enumName, notNull, defaultSchema, structName);
      |r| > 0 && IsUpper(r[0]) && (notNull || HasPrefix(r, "Null"))
  {
  }

  // ---------------------------------------------------------------- PostgreSQL

  datatype IntWidth = W16 | W32 | W64

  /** The cases of the PostgreSQL switch, grouped by how they map; the names carried are
      the pgx types without their "pgtype." package prefix. */
  datatype Family =
    | IntFamily(w: IntWidth)
    | Float8 | Float4 | Numeric | Bool
    | Json(jsonName: string)
    | Bytea
    | DateTime(v5Name: string)
    | TimeTz | Text | Uuid | Inet | Cidr | Macaddr | Interval
    | Range(v4Name: Option<string>, v5Name: string)
    | PgxOnly(pgxName: string)
    | Opaque
    | UserDefined

  /** Which case of the switch a printed column type falls in. */
  function PgFamily(columnType: string): Family {
    if columnType in {"serial", "serial4", "pg_catalog.serial4", "integer", "int", "int4", "pg_catalog.int4"}
    then IntFamily(W32)
    else if columnType in {"bigserial", "serial8", "pg_catalog.serial8", "bigint", "int8", "pg_catalog.int8"}
    then IntFamily(W64)
    else if columnType in {"smallserial", "serial2", "pg_catalog.serial2", "smallint", "int2", "pg_catalog.int2"}
    then IntFamily(W16)
    else if columnType in {"float", "double precision", "float8", "pg_catalog.float8"} then Float8
    else if columnType in {"real", "float4", "pg_catalog.float4"} then Float4
    else if columnType in {"numeric", "pg_catalog.numeric", "money"} then Numeric
    else if columnType in {"boolean", "bool", "pg_catalog.bool"} then Bool
    else if columnType == "json" then Json("JSON")
    else if columnType == "jsonb" then Json("JSONB")
    else if columnType in {"bytea", "blob", "pg_catalog.bytea"} then Bytea
    else if columnType == "date" then DateTime("Date")
    else if columnType == "pg_catalog.time" then DateTime("Time")
    else if columnType == "pg_catalog.timetz" then TimeTz
    else if columnType == "pg_catalog.timestamp" then DateTime("Timestamp")
    else if columnType in {"pg_catalog.timestamptz", "timestamptz"} then DateTime("Timestamptz")
    else if columnType in {"text", "pg_catalog.varchar", "pg_catalog.bpchar", "string", "ltree", "lquery", "ltxtquery"}
    then Text
    else if columnType == "uuid" then Uuid
    else if columnType == "inet" then Inet
    else if columnType == "cidr" then Cidr
    else if columnType in {"macaddr", "macaddr8"} then Macaddr
    else if columnType in {"interval", "pg_catalog.interval"} then Interval
    else if columnType == "daterange" then Range(Some("Daterange"), "Range[pgtype.Date]")
    else if columnType == "datemultirange" then Range(None, "Multirange[pgtype.Range[pgtype.Date]]")
    else if columnType == "tsrange" then Range(Some("Tsrange"), "Range[pgtype.Timestamp]")
    else if columnType == "tsmultirange" then Range(None, "Multirange[pgtype.Range[pgtype.Timestamp]]")
    else if columnType == "tstzrange" then Range(Some("Tstzrange"), "Range[pgtype.Timestamptz]")
    else if columnType == "tstzmultirange" then Range(None, "Multirange[pgtype.Range[pgtype.Timestamptz]]")
    else if columnType == "numrange" then Range(Some("Numrange"), "Range[pgtype.Numeric]")
    else if columnType == "nummultirange" then Range(None, "Multirange[pgtype.Range[pgtype.Numeric]]")
    else if columnType == "int4range" then Range(Some("Int4range"), "Range[pgtype.Int4]")
    else if columnType == "int4multirange" then Range(None, "Multirange[pgtype.Range[pgtype.Int4]]")
    else if columnType == "int8range" then Range(Some("Int8range"), "Range[pgtype.Int8]")
    else if columnType == "int8multirange" then Range(None, "Multirange[pgtype.Range[pgtype.Int8]]")
    else if columnType == "hstore" then PgxOnly("Hstore")
    else if columnType in {"bit", "varbit", "pg_catalog.bit", "pg_catalog.varbit"} then PgxOnly("Bits")
    else if columnType == "box" then PgxOnly("Box")
    else if columnType in {"cid", "oid"} then PgxOnly("Uint32")
    else if columnType == "tid" then PgxOnly("TID")
    else if columnType == "circle" then PgxOnly("Circle")
    else if columnType == "line" then PgxOnly("Line")
    else if columnType == "lseg" then PgxOnly("Lseg")
    else if columnType == "path" then PgxOnly("Path")
    else if columnType == "point" then PgxOnly("Point")
    else if columnType == "polygon" then PgxOnly("Polygon")
    else if columnType in {"void", "any"} then Opaque
    else UserDefined
  }

  /** The pattern most scalar cases share: value, pointer, pgx v5 wrapper, database/sql wrapper. */
  function Nullable(base: string, v5Name: string, nullName: string, notNull: bool, emit: bool, driver: Driver): string {
    if notNull then base
    else if emit then "*" + base
    else if driver == PgxV5 then v5Name
    else nullName
  }

  /** The date, time and uuid cases, which ask for pgx v5 before nullability. */
  function V5First(base: string, v5Name: string, nullName: string, notNull: bool, emit: bool, driver: Driver): string {
    if driver == PgxV5 then v5Name else Nullable(base, v5Name, nullName, notNull, emit, driver)
  }

  function IntName(w: IntWidth): string {
    match w
    case W16 => "int16"
    case W32 => "int32"
    case W64 => "int64"
  }

  function PgtypeIntName(w: IntWidth): string {
    match w
    case W16 => "pgtype.Int2"
    case W32 => "pgtype.Int4"
    case W64 => "pgtype.Int8"
  }

  function SqlNullIntName(w: IntWidth): string {
    match w
    case W16 => "sql.NullInt16"
    case W32 => "sql.NullInt32"
    case W64 => "sql.NullInt64"
  }

  predicate SystemSchema(name: string) {
    name == "pg_catalog" || name == "information_schema"
  }

  /** The Go type of a composite type: a string. */
  function CompositeName(notNull: bool, emit: bool): string {
    if notNull then "string" else if emit then "*string" else "sql.NullString"
  }

  /** A schema outside the system ones that holds the user type `rel` as an enum or a composite type. */
  predicate UserTypeIn(s: Schema, rel: Identifier) {
    !SystemSchema(s.name) && s.name == rel.schema && (rel.name in s.enums || rel.name in s.compositeTypes)
  }

  /** The search of the schemas for an enum, then a composite type, with the user type's name. */
  function PgUserType(rel: Identifier, schemas: seq<Schema>, notNull: bool, emit: bool, defaultSchema: string,
                      structName: string -> string): (r: Option<string>)
    ensures r.Some? <==> exists j :: 0 <= j < |schemas| && UserTypeIn(schemas[j], rel)
    ensures r.Some? ==> r.value == EnumTypeName(rel.schema, rel.name, notNull, defaultSchema, structName)
                        || r.value == CompositeName(notNull, emit)
    ensures (forall j :: 0 <= j < |schemas| ==> rel.name !in schemas[j].compositeTypes) && r.Some?
            ==> r.value == EnumTypeName(rel.schema, rel.name, notNull, defaultSchema, structName)
    ensures (forall j :: 0 <= j < |schemas| ==> rel.name !in schemas[j].enums) && r.Some?
            ==> r.value == CompositeName(notNull, emit)
    decreases |schemas|
  {
    if |schemas| == 0 then None
    else
      var s := schemas[0];
      var rest := PgUserType(rel, schemas[1..], notNull, emit, defaultSchema, structName);
      assert forall j :: 1 <= j < |schemas| ==> schemas[j] == schemas[1..][j - 1];
      if SystemSchema(s.name) then rest
      else if rel.name in s.enums && rel.schema == s.name then
        Some(EnumTypeName(s.name, rel.name, notNull, defaultSchema, structName))
      else if rel.name in s.compositeTypes && rel.schema == s.name then Some(CompositeName(notNull, emit))
      else rest
  }

  /** The printed column type, and whether the column can hold no NULL (arrays never do). */
  function PgColumnType(col: Column): string { DataType(col.typ) }

  /** The nullability both type mappers work with: arrays count as not null. */
  predicate ColumnNotNull(col: Column) { col.notNull || col.isArray }

  /** A parsed name without a schema is looked up in the default schema. */
  function Qualified(parsed: Identifier, defaultSchema: string): (r: Identifier)
    ensures r.name == parsed.name && r.catalog == parsed.catalog
    ensures r.schema == (if parsed.schema == "" then defaultSchema else parsed.schema)
  {
    if parsed.schema == "" then parsed.(schema := defaultSchema) else parsed
  }

  /** The default case: parse the name, put it in the default schema if it has none, and search. */
  function PgUserDefined(columnType: string, notNull: bool, emit: bool, catalog: Catalog,
                         structName: string -> string): string
  {
    match ParseIdentifierString(columnType)
    case Err(_) => "interface{}"
    case Ok(parsed) =>
      match PgUserType(Qualified(parsed, catalog.defaultSchema), catalog.schemas, notNull, emit, catalog.defaultSchema, structName)
      case Some(t) => t
      case None => "interface{}"
  }

  /**
   * postgresType: the case of the column type, then the driver and the nullability.  With struct
   * names that are exported, the Go type is never empty.
   */
  function PostgresType(driver: Driver, emitPointersSetting: bool, col: Column, catalog: Catalog,
                        structName: string -> string): (r: string)
    ensures ExportedNames(structName) ==> |r| > 0
  {
    var columnType := PgColumnType(col);
    var notNull := ColumnNotNull(col);
    var emit := driver == PgxV4 && emitPointersSetting;
    var user := PgUserDefined(columnType, notNull, emit, catalog, structName);
    assert ExportedNames(structName) ==> |FamilyType(PgFamily(columnType), driver, notNull, emit, user)| > 0 by {
      if ExportedNames(structName) {
        UserDefinedShape(columnType, notNull, emit, catalog, structName);
        FamilyNonEmpty(PgFamily(columnType), driver, notNull, emit, user);
      }
    }
    FamilyType(PgFamily(columnType), driver, notNull, emit, user)
  }

  /** The switch of postgresType once the case is known; `user` is the default case's answer. */
  function FamilyType(family: Family, driver: Driver, notNull: bool, emit: bool, user: string): string {
    match family
    case IntFamily(w) => Nullable(IntName(w), PgtypeIntName(w), SqlNullIntName(w), notNull, emit, driver)
    case Float8 => Nullable("float64", "pgtype.Float8", "sql.NullFloat64", notNull, emit, driver)
    case Float4 => Nullable("float32", "pgtype.Float4", "sql.NullFloat64", notNull, emit, driver)
    case Numeric =>
      if driver.IsPGX() then "pgtype.Numeric"
      else if notNull then "string" else if emit then "*string" else "sql.NullString"
    case Bool => Nullable("bool", "pgtype.Bool", "sql.NullBool", notNull, emit, driver)
    case Json(jsonName) =>
      if driver == PgxV5 then "[]byte"
      else if driver == PgxV4 then "pgtype." + jsonName
      else if driver == LibPQ then (if notNull then "json.RawMessage" else "pqtype.NullRawMessage")
      else "interface{}"
    case Bytea => "[]byte"
    case DateTime(v5Name) => V5First("time.Time", "pgtype." + v5Name, "sql.NullTime", notNull, emit, driver)
    case TimeTz => if notNull then "time.Time" else if emit then "*time.Time" else "sql.NullTime"
    case Text => Nullable("string", "pgtype.Text", "sql.NullString", notNull, emit, driver)
    case Uuid => V5First("uuid.UUID", "pgtype.UUID", "uuid.NullUUID", notNull, emit, driver)
    case Inet =>
      if driver == PgxV5 then (if notNull then "netip.Addr" else "*netip.Addr")
      else if driver == PgxV4 then "pgtype.Inet"
      else if driver == LibPQ then "pqtype.Inet"
      else "interface{}"
    case Cidr =>
      if driver == PgxV5 then (if notNull then "netip.Prefix" else "*netip.Prefix")
      else if driver == PgxV4 then "pgtype.CIDR"
      else if driver == LibPQ then "pqtype.CIDR"
      else "interface{}"
    case Macaddr =>
      if driver == PgxV5 then "net.HardwareAddr"
      else if driver == PgxV4 then "pgtype.Macaddr"
      else if driver == LibPQ then "pqtype.Macaddr"
      else "interface{}"
    case Interval => V5First("int64", "pgtype.Interval", "sql.NullInt64", notNull, emit, driver)
    case Range(v4Name, v5Name) =>
      if driver == PgxV4 && v4Name.Some? then "pgtype." + v4Name.value
      else if driver == PgxV5 then "pgtype." + v5Name
      else "interface{}"
    case PgxOnly(pgxName) => if driver.IsPGX() then "pgtype." + pgxName else "interface{}"
    case Opaque => "interface{}"
    case UserDefined => user
  }

  /** What the default case can answer. */
  predicate UserShaped(user: string, notNull: bool, emit: bool) {
    user == "interface{}" || user == CompositeName(notNull, emit)
    || (|user| > 0 && IsUpper(user[0]) && (notNull || HasPrefix(user, "Null")))
  }

  lemma UserDefinedShape(columnType: string, notNull: bool, emit: bool, catalog: Catalog, structName: string -> string)
    requires ExportedNames(structName)
    ensures UserShaped(PgUserDefined(columnType, notNull, emit, catalog, structName), notNull, emit)
  {
    match ParseIdentifierString(columnType)
    case Err(_) =>
    case Ok(parsed) =>
      var rel := Qualified(parsed, catalog.defaultSchema);
      EnumTypeNameShape(rel.schema, rel.name, notNull, catalog.defaultSchema, structName);
  }

  /** A string with a prefix agrees with it at each of the prefix's positions. */
  lemma PrefixAt(s: string, p: string, i: nat)
    ensures HasPrefix(s, p) && i < |p| ==> s[i] == p[i]
  {
    if HasPrefix(s, p) && i < |p| {
      assert s[..|p|][i] == p[i];
    }
  }

  /** A string with a prefix starts with the prefix's first two characters. */
  lemma PrefixHead(s: string, p: string)
    ensures HasPrefix(s, p) && |p| > 0 ==> s[0] == p[0]
    ensures HasPrefix(s, p) && |p| > 1 ==> s[1] == p[1]
  {
    PrefixAt(s, p, 0);
    PrefixAt(s, p, 1);
  }

  /** A pointer type is only chosen for a nullable column, with pointers asked for or for pgx v5 addresses. */
  lemma FamilyPointerOnly(family: Family, driver: Driver, notNull: bool, emit: bool, user: string)
    requires UserShaped(user, notNull, emit)
    ensures var r := FamilyType(family, driver, notNull, emit, user);
            HasPrefix(r, "*") ==> !notNull && (emit || (driver == PgxV5 && family in {Inet, Cidr}))
  {
    PrefixHead(FamilyType(family, driver, notNull, emit, user), "*");
  }

  /** A pgtype name is only chosen for the pgx drivers. */
  lemma FamilyPgtypeOnlyPgx(family: Family, driver: Driver, notNull: bool, emit: bool, user: string)
    requires UserShaped(user, notNull, emit)
    ensures HasPrefix(FamilyType(family, driver, notNull, emit, user), "pgtype.") ==> driver.IsPGX()
  {
    PrefixHead(FamilyType(family, driver, notNull, emit, user), "pgtype.");
  }

  /** The database/sql and pqtype wrappers of NULL are only chosen for a nullable column. */
  lemma FamilySqlNullOnlyNullable(family: Family, driver: Driver, notNull: bool, emit: bool, user: string)
    requires UserShaped(user, notNull, emit)
    ensures var r := FamilyType(family, driver, notNull, emit, user);
            HasPrefix(r, "sql.Null") || HasPrefix(r, "pqtype.Null") ==> !notNull
  {
    var r := FamilyType(family, driver, notNull, emit, user);
    PrefixHead(r, "sql.Null");
    PrefixHead(r, "pqtype.Null");
    PrefixAt(r, "pqtype.Null", 7);
  }

  lemma FamilyNonEmpty(family: Family, driver: Driver, notNull: bool, emit: bool, user: string)
    requires UserShaped(user, notNull, emit)
    ensures |FamilyType(family, driver, notNull, emit, user)| > 0
  {
  }

  // ---------------------------------------------------------------- postgresType, end to end

  lemma PgPointerOnly(driver: Driver, emitPointersSetting: bool, col: Column, catalog: Catalog,
                      structName: string -> string)
    requires ExportedNames(structName)
    ensures HasPrefix(PostgresType(driver, emitPointersSetting, col, catalog, structName), "*")
            ==> !ColumnNotNull(col) && ((driver == PgxV4 && emitPointersSetting)
                                    || (driver == PgxV5 && PgFamily(PgColumnType(col)) in {Inet, Cidr}))
  {
    var notNull, emit := ColumnNotNull(col), driver == PgxV4 && emitPointersSetting;
    UserDefinedShape(PgColumnType(col), notNull, emit, catalog, structName);
    FamilyPointerOnly(PgFamily(PgColumnType(col)), driver, notNull, emit,
                      PgUserDefined(PgColumnType(col), notNull, emit, catalog, structName));
  }

  lemma PgtypeOnlyPgx(driver: Driver, emitPointersSetting: bool, col: Column, catalog: Catalog,
                      structName: string -> string)
    requires ExportedNames(structName)
    ensures HasPrefix(PostgresType(driver, emitPointersSetting, col, catalog, structName), "pgtype.") ==> driver.IsPGX()
  {
    var notNull, emit := ColumnNotNull(col), driver == PgxV4 && emitPointersSetting;
    UserDefinedShape(PgColumnType(col), notNull, emit, catalog, structName);
    FamilyPgtypeOnlyPgx(PgFamily(PgColumnType(col)), driver, notNull, emit,
                        PgUserDefined(PgColumnType(col), notNull, emit, catalog, structName));
  }

  /** Arrays and NOT NULL columns never get a NULL wrapper. */
  lemma SqlNullOnlyNullable(driver: Driver, emitPointersSetting: bool, col: Column, catalog: Catalog,
                            structName: string -> string)
    requires ExportedNames(structName)
    ensures var r := PostgresType(driver, emitPointersSetting, col, catalog, structName);
            HasPrefix(r, "sql.Null") || HasPrefix(r, "pqtype.Null") ==> !col.notNull && !col.isArray
  {
    var notNull, emit := ColumnNotNull(col), driver == PgxV4 && emitPointersSetting;
    UserDefinedShape(PgColumnType(col), notNull, emit, catalog, structName);
    FamilySqlNullOnlyNullable(PgFamily(PgColumnType(col)), driver, notNull, emit,
                              PgUserDefined(PgColumnType(col), notNull, emit, catalog, structName));
  }

  /** A schema of the catalog holds the user type a column names. */
  predicate KnownUserType(columnType: string, catalog: Catalog) {
    ParseIdentifierString(columnType).Ok?
    && var rel := Qualified(ParseIdentifierString(columnType).value, catalog.defaultSchema);
       exists j :: 0 <= j < |catalog.schemas| && UserTypeIn(catalog.schemas[j], rel)
  }

  /** Outside the built-in cases the answer is interface{} exactly when no schema holds the type. */
  lemma PgUnknownIsInterface(driver: Driver, emitPointersSetting: bool, col: Column, catalog: Catalog,
                             structName: string -> string)
    requires ExportedNames(structName)
    requires PgFamily(PgColumnType(col)) == UserDefined
    ensures PostgresType(driver, emitPointersSetting, col, catalog, structName) == "interface{}"
            <==> !KnownUserType(PgColumnType(col), catalog)
  {
    var columnType, notNull, emit := PgColumnType(col), ColumnNotNull(col), driver == PgxV4 && emitPointersSetting;
    match ParseIdentifierString(columnType)
    case Err(_) =>
    case Ok(parsed) =>
      var rel := Qualified(parsed, catalog.defaultSchema);
      EnumTypeNameShape(rel.schema, rel.name, notNull, catalog.defaultSchema, structName);
      var e := EnumTypeName(rel.schema, rel.name, notNull, catalog.defaultSchema, structName);
      assert e != "interface{}" by { assert e[0] != 'i'; }
  }

  /** An enum no schema also declares as a composite type gets its Go enum type. */
  lemma PgEnumType(driver: Driver, emitPointersSetting: bool, col: Column, catalog: Catalog,
                   structName: string -> string)
    requires PgFamily(PgColumnType(col)) == UserDefined && KnownUserType(PgColumnType(col), catalog)
    requires forall j :: 0 <= j < |catalog.schemas| ==> ParseIdentifierString(PgColumnType(col)).value.name !in catalog.schemas[j].compositeTypes
    ensures var rel := Qualified(ParseIdentifierString(PgColumnType(col)).value, catalog.defaultSchema);
            PostgresType(driver, emitPointersSetting, col, catalog, structName)
            == EnumTypeName(rel.schema, rel.name, ColumnNotNull(col), catalog.defaultSchema, structName)
  {
  }

  // ---------------------------------------------------------------- MySQL

  /** The cases of the MySQL switch. */
  datatype MyFamily =
    | MyText | MyTinyInt | MyInt | MyBigInt | MyBlob | MyDouble | MyDecimal
    | MyEnum | MyTime | MyBool | MyJson | MyAny | MyUserDefined

  /** Which case of the switch a printed column type falls in. */
  function MysqlFamily(columnType: string): MyFamily {
    if columnType in {"varchar", "text", "char", "tinytext", "mediumtext", "longtext"} then MyText
    else if columnType == "tinyint" then MyTinyInt
    else if columnType in {"int", "integer", "smallint", "mediumint", "year"} then MyInt
    else if columnType == "bigint" then MyBigInt
    else if columnType in {"blob", "binary", "varbinary", "tinyblob", "mediumblob", "longblob"} then MyBlob
    else if columnType in {"double", "double precision", "real", "float"} then MyDouble
    else if columnType in {"decimal", "dec", "fixed"} then MyDecimal
    else if columnType == "enum" then MyEnum
    else if columnType in {"date", "timestamp", "datetime", "time"} then MyTime
    else if columnType in {"boolean", "bool"} then MyBool
    else if columnType == "json" then MyJson
    else if columnType == "any" then MyAny
    else MyUserDefined
  }

  /** The default case: the first enum of any schema with the column type's name. */
  function MysqlEnumType(columnType: string, schemas: seq<Schema>, notNull: bool, defaultSchema: string,
                         structName: string -> string): (r: Option<string>)
    ensures r.Some? <==> exists j :: 0 <= j < |schemas| && columnType in schemas[j].enums
    ensures forall j :: 0 <= j < |schemas| && columnType in schemas[j].enums
                        && (forall i :: 0 <= i < j ==> columnType !in schemas[i].enums)
                        ==> r == Some(EnumTypeName(schemas[j].name, columnType, notNull, defaultSchema, structName))
    decreases |schemas|
  {
    if |schemas| == 0 then None
    else if columnType in schemas[0].enums then
      Some(EnumTypeName(schemas[0].name, columnType, notNull, defaultSchema, structName))
    else
      assert forall j :: 1 <= j < |schemas| ==> schemas[j] == schemas[1..][j - 1];
      MysqlEnumType(columnType, schemas[1..], notNull, defaultSchema, structName)
  }

  /** mysqlType.  With struct names that are exported, the Go type is never empty. */
  function MysqlType(col: Column, catalog: Catalog, structName: string -> string): (r: string)
    ensures ExportedNames(structName) ==> |r| > 0
  {
    var user := MysqlUser(col, catalog, structName);
    var r := MyFamilyType(MysqlFamily(PgColumnType(col)), ColumnNotNull(col), col.unsigned, col.length, user);
    assert ExportedNames(structName) ==> |r| > 0 by {
      if ExportedNames(structName) {
        MyUserShape(col, catalog, structName);
        MyFamilyNonEmpty(MysqlFamily(PgColumnType(col)), ColumnNotNull(col), col.unsigned, col.length, user);
      }
    }
    r
  }

  /** Every case gives a non-empty Go type when the default case does. */
  lemma MyFamilyNonEmpty(family: MyFamily, notNull: bool, unsigned: bool, length: int, user: string)
    requires |user| > 0
    ensures |MyFamilyType(family, notNull, unsigned, length, user)| > 0
  {
  }

  /** The default case's answer for a column: its enum's Go type, or interface{}. */
  function MysqlUser(col: Column, catalog: Catalog, structName: string -> string): string {
    match MysqlEnumType(PgColumnType(col), catalog.schemas, ColumnNotNull(col), catalog.defaultSchema, structName)
    case Some(t) => t
    case None => "interface{}"
  }

  /** The switch of mysqlType once the case is known; `user` is the default case's answer. */
  function MyFamilyType(family: MyFamily, notNull: bool, unsigned: bool, length: int, user: string): string {
    match family
    case MyText => if notNull then "string" else "sql.NullString"
    case MyTinyInt =>
      if length == 1 then (if notNull then "bool" else "sql.NullBool")
      else if notNull then (if unsigned then "uint32" else "int32")
      else "sql.NullInt32"
    case MyInt => if notNull then (if unsigned then "uint32" else "int32") else "sql.NullInt32"
    case MyBigInt => if notNull then (if unsigned then "uint64" else "int64") else "sql.NullInt64"
    case MyBlob => if notNull then "[]byte" else "sql.NullString"
    case MyDouble => if notNull then "float64" else "sql.NullFloat64"
    case MyDecimal => if notNull then "string" else "sql.NullString"
    case MyEnum => "string"
    case MyTime => if notNull then "time.Time" else "sql.NullTime"
    case MyBool => if notNull then "bool" else "sql.NullBool"
    case MyJson => "json.RawMessage"
    case MyAny => "interface{}"
    case MyUserDefined => user
  }

  /** The cases whose answer does not depend on the column's nullability. */
  predicate NullIndifferent(family: MyFamily) {
    family == MyEnum || family == MyJson || family == MyAny || family == MyUserDefined
  }

  /** A NULL wrapper is chosen exactly for a nullable column of a case that has one. */
  lemma MyFamilySqlNull(family: MyFamily, notNull: bool, unsigned: bool, length: int, user: string)
    requires user == "interface{}" || (|user| > 0 && IsUpper(user[0]))
    ensures HasPrefix(MyFamilyType(family, notNull, unsigned, length, user), "sql.Null")
            <==> !notNull && !NullIndifferent(family)
  {
    var r := MyFamilyType(family, notNull, unsigned, length, user);
    PrefixHead(r, "sql.Null");
    if !notNull && !NullIndifferent(family) {
      assert r[..8] == "sql.Null";
    }
  }

  /** Unsigned types are only chosen for an unsigned NOT NULL integer column. */
  lemma MyFamilyUnsigned(family: MyFamily, notNull: bool, unsigned: bool, length: int, user: string)
    requires user == "interface{}" || (|user| > 0 && IsUpper(user[0]))
    ensures HasPrefix(MyFamilyType(family, notNull, unsigned, length, user), "uint")
            ==> unsigned && notNull && family in {MyTinyInt, MyInt, MyBigInt}
  {
    PrefixHead(MyFamilyType(family, notNull, unsigned, length, user), "uint");
  }

  // ---------------------------------------------------------------- mysqlType, end to end

  lemma MyUserShape(col: Column, catalog: Catalog, structName: string -> string)
    requires ExportedNames(structName)
    ensures var u := MysqlEnumType(PgColumnType(col), catalog.schemas, ColumnNotNull(col), catalog.defaultSchema, structName);
            u.Some? ==> |u.value| > 0 && IsUpper(u.value[0]) && u.value != "interface{}"
  {
    var columnType := PgColumnType(col);
    var u := MysqlEnumType(columnType, catalog.schemas, ColumnNotNull(col), catalog.defaultSchema, structName);
    if u.Some? {
      var j :| 0 <= j < |catalog.schemas| && columnType in catalog.schemas[j].enums;
      var k := FirstHolder(columnType, catalog.schemas, j);
      EnumTypeNameShape(catalog.schemas[k].name, columnType, ColumnNotNull(col), catalog.defaultSchema, structName);
      assert u.value[0] != 'i';
    }
  }

  /** The first schema with an enum of the given name, given that schema `j` has one. */
  function FirstHolder(name: string, schemas: seq<Schema>, j: nat): (k: nat)
    requires j < |schemas| && name in schemas[j].enums
    ensures k <= j && name in schemas[k].enums
    ensures forall i :: 0 <= i < k ==> name !in schemas[i].enums
    decreases j
  {
    if j == 0 || forall i :: 0 <= i < j ==> name !in schemas[i].enums then j
    else
      var i :| 0 <= i < j && name in schemas[i].enums;
      FirstHolder(name, schemas, i)
  }

  /** A NULL wrapper is chosen exactly for a nullable column of a case that has one. */
  lemma MysqlSqlNull(col: Column, catalog: Catalog, structName: string -> string)
    requires ExportedNames(structName)
    ensures HasPrefix(MysqlType(col, catalog, structName), "sql.Null")
            <==> !col.notNull && !col.isArray && !NullIndifferent(MysqlFamily(PgColumnType(col)))
  {
    var columnType, notNull, user := PgColumnType(col), ColumnNotNull(col), MysqlUser(col, catalog, structName);
    MyUserShape(col, catalog, structName);
    MyFamilySqlNull(MysqlFamily(columnType), notNull, col.unsigned, col.length, user);
  }

  /** Signedness only shows in an unsigned NOT NULL integer column. */
  lemma MysqlUnsigned(col: Column, catalog: Catalog, structName: string -> string)
    requires ExportedNames(structName)
    ensures HasPrefix(MysqlType(col, catalog, structName), "uint")
            ==> col.unsigned && ColumnNotNull(col) && MysqlFamily(PgColumnType(col)) in {MyTinyInt, MyInt, MyBigInt}
    ensures !ColumnNotNull(col) ==> MysqlType(col, catalog, structName) == MysqlType(col.(unsigned := !col.unsigned), catalog, structName)
  {
    var columnType, notNull, user := PgColumnType(col), ColumnNotNull(col), MysqlUser(col, catalog, structName);
    MyUserShape(col, catalog, structName);
    MyFamilyUnsigned(MysqlFamily(columnType), notNull, col.unsigned, col.length, user);
    var flipped := col.(unsigned := !col.unsigned);
    assert PgColumnType(flipped) == columnType && ColumnNotNull(flipped) == notNull;
    assert MysqlUser(flipped, catalog, structName) == user;
    if !notNull {
      MyFamilyNullableSigned(MysqlFamily(columnType), col.unsigned, col.length, user);
    }
  }

  /** For a nullable column the switch does not look at signedness. */
  lemma MyFamilyNullableSigned(family: MyFamily, unsigned: bool, length: int, user: string)
    ensures MyFamilyType(family, false, unsigned, length, user) == MyFamilyType(family, false, !unsigned, length, user)
  {
  }

  /** Outside the built-in cases the answer is interface{} exactly when no schema has an enum of that name. */
  lemma MysqlUnknownIsInterface(col: Column, catalog: Catalog, structName: string -> string)
    requires ExportedNames(structName)
    requires MysqlFamily(PgColumnType(col)) == MyUserDefined
    ensures MysqlType(col, catalog, structName) == "interface{}"
            <==> forall j :: 0 <= j < |catalog.schemas| ==> PgColumnType(col) !in catalog.schemas[j].enums
  {
    MyUserShape(col, catalog, structName);
  }

  /** Outside the built-in cases, the first schema with an enum of that name gives the Go enum type. */
  lemma MysqlEnumFirst(col: Column, catalog: Catalog, structName: string -> string, j: nat)
    requires MysqlFamily(PgColumnType(col)) == MyUserDefined
    requires j < |catalog.schemas| && PgColumnType(col) in catalog.schemas[j].enums
    requires forall i :: 0 <= i < j ==> PgColumnType(col) !in catalog.schemas[i].enums
    ensures MysqlType(col, catalog, structName)
            == EnumTypeName(catalog.schemas[j].name, PgColumnType(col), ColumnNotNull(col), catalog.defaultSchema, structName)
  {
  }

  /** A one-wide tinyint maps as a boolean does. */
  lemma MysqlTinyIntOneIsBool(col: Column, catalog: Catalog, structName: string -> string)
    requires col.typ.schema == "" && col.typ.name == "tinyint" && col.length == 1
    ensures MysqlType(col, catalog, structName) == MysqlType(col.(typ := col.typ.(name := "bool")), catalog, structName)
  {
    var b := col.(typ := col.typ.(name := "bool"));
    assert PgColumnType(col) == "tinyint" && PgColumnType(b) == "bool";
    TinyIntAndBoolFamilies();
    MyTinyIntOne(ColumnNotNull(col), col.unsigned, MysqlUser(col, catalog, structName), MysqlUser(b, catalog, structName));
  }

  /** tinyint and bool fall into their own cases of mysqlType's switch. */
  lemma TinyIntAndBoolFamilies()
    ensures MysqlFamily("tinyint") == MyTinyInt && MysqlFamily("bool") == MyBool
  {
  }

  /** In the tinyint case a width of 1 answers as the bool case does, whatever the default answer. */
  lemma MyTinyIntOne(notNull: bool, unsigned: bool, user: string, user': string)
    ensures MyFamilyType(MyTinyInt, notNull, unsigned, 1, user) == MyFamilyType(MyBool, notNull, unsigned, 1, user')
  {
  }
}
