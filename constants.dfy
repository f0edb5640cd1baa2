/**
 * The table-name constants registry (internal/goconstatnts/params.go, and the column-less copy in
 * internal/crud/gen_constants.go): one entry per output directory, holding the Go package, the
 * generator version, the tables with their constant-name prefixes sorted by prefix, and the
 * column constants of each table.
 */
module Constants {
  import opened Wrappers
  import opened Strings
  import Utils

  datatype TableItem = TableItem(prefix: string, name: string)
  datatype ColumnItem = ColumnItem(table: string, prefix: string, name: string)
  datatype Entry = Entry(package: string, version: string, tables: seq<TableItem>, columns: seq<ColumnItem>)

  /** The package-name lookup failed; its message is wrapped. */
  datatype ConstantsError = PackageNameError(cause: string)

  // ---------------------------------------------------------------- prefixes

  /** The characters of the class `[\_\-0-9]`. */
  predicate Blanked(c: char) {
    c == '_' || c == '-' || IsDigit(c)
  }

  /** ReplaceAllString with the class `[\_\-0-9]` and " ": every such character becomes a space. */
  function Blank(s: string): (r: string)
    ensures |r| == |s|
    ensures forall i :: 0 <= i < |s| ==> r[i] == if Blanked(s[i]) then ' ' else s[i]
    decreases |s|
  {
    if |s| == 0 then "" else [if Blanked(s[0]) then ' ' else s[0]] + Blank(s[1..])
  }

  /** The constant-name prefix: the blanked name camel-cased, its first letter upper-cased. */
  function Prefix(name: string): string {
    UcFirst(Utils.CamelCase(Blank(name)))
  }

  /** A prefix is one identifier: no space, '-' or '_' is left in it. */
  lemma PrefixNoSeparator(name: string)
    ensures forall k :: 0 <= k < |Prefix(name)| ==> !Utils.IsSeparator(Prefix(name)[k])
  {
    var words := Utils.Fields(Blank(name));
    var c := Utils.ConcatTitled(words);
    Utils.TitledHasNoSeparator(words);
    assert c == Utils.CamelCase(Blank(name));
    forall k | 0 <= k < |Prefix(name)|
      ensures !Utils.IsSeparator(Prefix(name)[k])
    {
      if k == 0 {
        assert !Utils.IsSeparator(c[0]);
      } else {
        assert Prefix(name)[k] == c[k];
      }
    }
  }

  // ---------------------------------------------------------------- tables

  /** FindInArray on the table names. */
  function HasTable(tables: seq<TableItem>, name: string): (r: bool)
    ensures r <==> exists i :: 0 <= i < |tables| && tables[i].name == name
    decreases |tables|
  {
    if |tables| == 0 then false
    else tables[0].name == name || HasTable(tables[1..], name)
  }

  /** Ascending by prefix, as sort.Slice leaves the tables. */
  predicate SortedByPrefix(ts: seq<TableItem>) {
    forall i, j :: 0 <= i < j < |ts| ==> LessEq(ts[i].prefix, ts[j].prefix)
  }

  function InsertTable(x: TableItem, ts: seq<TableItem>): (r: seq<TableItem>)
    requires SortedByPrefix(ts)
    ensures SortedByPrefix(r)
    ensures multiset(r) == multiset(ts) + multiset{x}
    decreases |ts|
  {
    if |ts| == 0 then [x]
    else if LessEq(x.prefix, ts[0].prefix) then
      BelowAll(x, ts);
      [x] + ts
    else
      var rest := InsertTable(x, ts[1..]);
      HeadBelowInserted(x, ts, rest);
      [ts[0]] + rest
  }

  /** An item at or below the head of a sorted list is at or below all of it. */
  lemma BelowAll(x: TableItem, ts: seq<TableItem>)
    requires SortedByPrefix(ts) && |ts| > 0 && LessEq(x.prefix, ts[0].prefix)
    ensures forall j :: 0 <= j < |ts| ==> LessEq(x.prefix, ts[j].prefix)
  {
    forall j | 0 <= j < |ts| { LessEqTransitive(x.prefix, ts[0].prefix, ts[j].prefix); }
  }

  /** Inserting an item above the head into the tail keeps the head at or below everything. */
  lemma HeadBelowInserted(x: TableItem, ts: seq<TableItem>, rest: seq<TableItem>)
    requires SortedByPrefix(ts) && |ts| > 0 && !LessEq(x.prefix, ts[0].prefix)
    requires multiset(rest) == multiset(ts[1..]) + multiset{x}
    ensures forall j :: 0 <= j < |rest| ==> LessEq(ts[0].prefix, rest[j].prefix)
    ensures multiset([ts[0]] + rest) == multiset(ts) + multiset{x}
  {
    assert multiset(ts) == multiset{ts[0]} + multiset(ts[1..]) by { assert ts == [ts[0]] + ts[1..]; }
    LessTotal(x.prefix, ts[0].prefix);
    forall j | 0 <= j < |rest|
      ensures LessEq(ts[0].prefix, rest[j].prefix)
    {
      assert rest[j] in multiset(rest);
      if rest[j] != x {
        var k :| 1 <= k < |ts| && ts[k] == rest[j];
      }
    }
  }

  /**
   * sort.Slice by prefix: an ascending permutation of the tables.  Insertion keeps tables of equal
   * prefix in their earlier order, which is the order sort.Slice gives for up to 12 tables.
   */
  function SortTables(ts: seq<TableItem>): (r: seq<TableItem>)
    ensures SortedByPrefix(r)
    ensures multiset(r) == multiset(ts)
    decreases |ts|
  {
    if |ts| == 0 then []
    else
      assert ts == [ts[0]] + ts[1..];
      InsertTable(ts[0], SortTables(ts[1..]))
  }

  // ---------------------------------------------------------------- entries

  /** Each table carries its own name's prefix. */
  predicate Prefixed(ts: seq<TableItem>) {
    forall i :: 0 <= i < |ts| ==> ts[i].prefix == Prefix(ts[i].name)
  }

  /** No table is listed twice. */
  predicate Distinct(ts: seq<TableItem>) {
    forall t :: t in multiset(ts) ==> multiset(ts)[t] == 1
  }

  /** What every entry of the registry keeps: prefixed, each table once, ascending by prefix. */
  predicate ValidEntry(e: Entry) {
    Prefixed(e.tables) && Distinct(e.tables) && SortedByPrefix(e.tables)
  }

  /** The column constants of a newly added table, in the given order. */
  function ColumnItems(table: string, columns: seq<string>): (r: seq<ColumnItem>)
    ensures |r| == |columns|
    ensures forall i :: 0 <= i < |r| ==> r[i].table == table && r[i].name == columns[i]
    decreases |columns|
  {
    if |columns| == 0 then []
    else [ColumnItem(table, Prefix(table + "_" + columns[0]), columns[0])] + ColumnItems(table, columns[1..])
  }

  /** The entry of `outputDir` before the call: the existing one, or a fresh one with package and version. */
  function Base(entries: map<string, Entry>, version: string, outputDir: string, packageName: string): Entry {
    if outputDir in entries then entries[outputDir] else Entry(packageName, version, [], [])
  }

  /** The entry addConstantItem leaves for outputDir: the table added once with its columns, then sorted. */
  function Added(entries: map<string, Entry>, version: string, outputDir: string, tableName: string,
                 columnNames: seq<string>, packageName: string): Entry
  {
    var base := Base(entries, version, outputDir, packageName);
    if HasTable(base.tables, tableName) then base.(tables := SortTables(base.tables))
    else base.(tables := SortTables(base.tables + [TableItem(Prefix(tableName), tableName)]),
               columns := base.columns + ColumnItems(tableName, columnNames))
  }

  lemma PrefixedPermutation(a: seq<TableItem>, b: seq<TableItem>)
    requires Prefixed(a) && multiset(a) == multiset(b)
    ensures Prefixed(b)
  {
    forall i | 0 <= i < |b|
      ensures b[i].prefix == Prefix(b[i].name)
    {
      assert b[i] in multiset(a);
      var k :| 0 <= k < |a| && a[k] == b[i];
    }
  }

  lemma HasItem(ts: seq<TableItem>, item: TableItem)
    requires item in multiset(ts)
    ensures HasTable(ts, item.name)
  {
    var k :| 0 <= k < |ts| && ts[k] == item;
  }

  /** Sorting a valid entry's tables again keeps it valid and keeps a registered table. */
  lemma ResortedValid(base: Entry, tableName: string)
    requires ValidEntry(base) && HasTable(base.tables, tableName)
    ensures var ts := SortTables(base.tables);
      ValidEntry(base.(tables := ts)) && multiset(ts)[TableItem(Prefix(tableName), tableName)] == 1
  {
    var ts := SortTables(base.tables);
    PrefixedPermutation(base.tables, ts);
    var k :| 0 <= k < |base.tables| && base.tables[k].name == tableName;
    assert base.tables[k] == TableItem(Prefix(tableName), tableName);
    assert base.tables[k] in multiset(base.tables);
  }

  /** Adding an unregistered table to a valid entry and sorting keeps it valid, with the table once. */
  lemma GrownValid(base: Entry, tableName: string)
    requires ValidEntry(base) && !HasTable(base.tables, tableName)
    ensures var ts := SortTables(base.tables + [TableItem(Prefix(tableName), tableName)]);
      Prefixed(ts) && Distinct(ts) && SortedByPrefix(ts) && multiset(ts)[TableItem(Prefix(tableName), tableName)] == 1
  {
    var grown := base.tables + [TableItem(Prefix(tableName), tableName)];
    AppendFresh(base.tables, tableName);
    PrefixedPermutation(grown, SortTables(grown));
  }

  /** Appending an unregistered table, with its own prefix, to valid tables lists it once and keeps them prefixed and distinct. */
  lemma AppendFresh(tables: seq<TableItem>, tableName: string)
    requires Prefixed(tables) && Distinct(tables) && !HasTable(tables, tableName)
    ensures var grown := tables + [TableItem(Prefix(tableName), tableName)];
      Prefixed(grown) && Distinct(grown) && multiset(grown)[TableItem(Prefix(tableName), tableName)] == 1
  {
    var item := TableItem(Prefix(tableName), tableName);
    assert item !in tables;
    assert multiset(tables + [item]) == multiset(tables) + multiset{item};
  }

  /**
   * addConstantItem keeps the entry valid and registers the table: afterwards the table is
   * listed exactly once.
   */
  lemma AddedValid(entries: map<string, Entry>, version: string, outputDir: string, tableName: string,
                   columnNames: seq<string>, packageName: string)
    requires ValidEntry(Base(entries, version, outputDir, packageName))
    ensures var e := Added(entries, version, outputDir, tableName, columnNames, packageName);
      ValidEntry(e) && HasTable(e.tables, tableName)
      && multiset(e.tables)[TableItem(Prefix(tableName), tableName)] == 1
  {
    var base := Base(entries, version, outputDir, packageName);
    var e := Added(entries, version, outputDir, tableName, columnNames, packageName);
    if HasTable(base.tables, tableName) {
      ResortedValid(base, tableName);
    } else {
      GrownValid(base, tableName);
    }
    HasItem(e.tables, TableItem(Prefix(tableName), tableName));
  }

  /** Two tables of a valid entry never share a name. */
  lemma DistinctNames(e: Entry, i: nat, j: nat)
    requires ValidEntry(e)
    requires i < j < |e.tables|
    ensures e.tables[i].name != e.tables[j].name
  {
    var ts := e.tables;
    assert ts == ts[..j] + [ts[j]] + ts[j + 1..];
    assert ts[i] in multiset(ts[..j]);
    assert multiset(ts)[ts[i]] >= multiset(ts[..j])[ts[i]] + multiset([ts[j]])[ts[i]];
    assert ts[i] != ts[j];
  }

  /** A table already registered adds nothing: no table and no column constant. */
  lemma AddAgain(entries: map<string, Entry>, version: string, outputDir: string, tableName: string,
                 columnNames: seq<string>, packageName: string)
    requires outputDir in entries && HasTable(entries[outputDir].tables, tableName)
    ensures var e := Added(entries, version, outputDir, tableName, columnNames, packageName);
      multiset(e.tables) == multiset(entries[outputDir].tables) && e.columns == entries[outputDir].columns
      && e.package == entries[outputDir].package && e.version == entries[outputDir].version
  {
  }

  /** The column-less registry of gen_constants.go: no column constant is ever added. */
  lemma NoColumnsAdded(entries: map<string, Entry>, version: string, outputDir: string, tableName: string,
                       packageName: string)
    ensures Added(entries, version, outputDir, tableName, [], packageName).columns
         == Base(entries, version, outputDir, packageName).columns
  {
    var base := Base(entries, version, outputDir, packageName);
    assert base.columns + ColumnItems(tableName, []) == base.columns;
  }

  // ---------------------------------------------------------------- the registry

  /** Every entry of the map is valid. */
  predicate AllValid(entries: map<string, Entry>) {
    forall d :: d in entries ==> ValidEntry(entries[d])
  }

  lemma AllValidUpdate(entries: map<string, Entry>, d: string, e: Entry)
    requires AllValid(entries) && ValidEntry(e)
    ensures AllValid(entries[d := e])
  {
  }

  class Registry {
    var entries: map<string, Entry>

    ghost predicate Valid()
      reads this
    {
      AllValid(entries)
    }

    /** The zero generateConstantsParams: its nil map reads as empty. */
    constructor ()
      ensures entries == map[] && Valid()
    {
      entries := map[];
    }

    /** The column constants of a new table, appended one per column in the given order. */
    static method AppendColumns(columns: seq<ColumnItem>, tableName: string, columnNames: seq<string>)
      returns (r: seq<ColumnItem>)
      ensures r == columns + ColumnItems(tableName, columnNames)
    {
      r := columns;
      var i := 0;
      while i < |columnNames|
        invariant 0 <= i <= |columnNames|
        invariant r + ColumnItems(tableName, columnNames[i..]) == columns + ColumnItems(tableName, columnNames)
      {
        assert columnNames[i..][1..] == columnNames[i + 1..];
        r := r + [ColumnItem(tableName, Prefix(tableName + "_" + columnNames[i]), columnNames[i])];
        i := i + 1;
      }
      assert columnNames[i..] == [];
    }

    /** The entry of outputDir, grown by the table and its columns when the table is new, then sorted. */
    static method AddToEntry(params: Entry, tableName: string, columnNames: seq<string>) returns (r: Entry)
      ensures HasTable(params.tables, tableName) ==> r == params.(tables := SortTables(params.tables))
      ensures !HasTable(params.tables, tableName) ==>
        r == params.(tables := SortTables(params.tables + [TableItem(Prefix(tableName), tableName)]),
                     columns := params.columns + ColumnItems(tableName, columnNames))
    {
      r := params;
      if !HasTable(params.tables, tableName) {
        var columns := params.columns;
        if |columnNames| > 0 {
          columns := AppendColumns(columns, tableName, columnNames);
        } else {
          assert columns + ColumnItems(tableName, columnNames) == columns;
        }
        r := r.(tables := r.tables + [TableItem(Prefix(tableName), tableName)], columns := columns);
      }
      r := r.(tables := SortTables(r.tables));
    }

    /**
     * addConstantItem with the package-name lookup's answer as a parameter: on failure the
     * registry is unchanged; otherwise only the entry of outputDir is replaced.
     */
    method AddConstantItem(version: string, outputDir: string, tableName: string, columnNames: seq<string>,
                           packageName: Result<string, string>) returns (err: Option<ConstantsError>)
      requires Valid()
      modifies this
      ensures Valid()
      ensures packageName.Err? ==> err == Some(PackageNameError(packageName.error)) && entries == old(entries)
      ensures packageName.Ok? ==> err.None? && entries == old(entries)[outputDir :=
                Added(old(entries), version, outputDir, tableName, columnNames, packageName.value)]
    {
      if packageName.Err? {
        return Some(PackageNameError(packageName.error));
      }
      var params := if outputDir in entries then entries[outputDir] else Entry(packageName.value, version, [], []);
      assert params == Base(entries, version, outputDir, packageName.value);
      params := AddToEntry(params, tableName, columnNames);
      AddedValid(entries, version, outputDir, tableName, columnNames, packageName.value);
      AllValidUpdate(entries, outputDir, params);
      entries := entries[outputDir := params];
      err := None;
    }
  }
}
