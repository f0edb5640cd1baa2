/**
 * The table metadata lookups of the CRUD generator and the schema package, and the generator's
 * database engine names.
 */
module Tables {
  import opened Wrappers

  /** schema.TableMetaData: a table and its columns in database order. */
  datatype TableMetaData = TableMetaData(name: string, columns: seq<string>)

  /**
   * getTableMetaData / GetTableMetaData: a search over the map's entries for the key equal to
   * `tableName`; nil when none is.  Go visits the entries in an unspecified order.
   */
  method GetTableMetaData<V>(t: map<string, V>, tableName: string) returns (r: Option<V>)
    ensures tableName in t ==> r == Some(t[tableName])
    ensures tableName !in t ==> r == None
  {
    var todo := t.Keys;
    while todo != {}
      invariant todo <= t.Keys
      invariant tableName in t ==> tableName in todo
      decreases |todo|
    {
      var name :| name in todo;
      if name == tableName {
        return Some(t[name]);
      }
      todo := todo - {name};
    }
    return None;
  }

  // ---------------------------------------------------------------- engineType

  const EnginePostgres := "postgresql"
  const EngineMysql := "mysql"
  const EngineSqlite := "sqlite"

  /** engineType.Valid: exactly the three engine constants are valid. */
  function Valid(engine: string): (r: bool)
    ensures r <==> engine in {EnginePostgres, EngineMysql, EngineSqlite}
  {
    match engine
    case "postgresql" => true
    case "mysql" => true
    case "sqlite" => true
    case _ => false
  }
}
