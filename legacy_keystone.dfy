/**
 * The older mobx-keystone generator (internal/pgxgen/keystone.go): its type projection, which
 * ignores nullability and always wraps in `types.maybe`, the "prop" import it adds for record
 * fields, and its struct order (the named structs first, then the others by ascending key).
 */
module LegacyKeystone {
  import opened Wrappers
  import opened Strings
  import opened Fields
  import Utils
  import Structs
  import Keystone
  import LegacyModels

  // ---------------------------------------------------------------- getKeystoneType

  const TimeTypes: set<string> := {"bun.NullTime", "time.Time"}

  /** The cases of the legacy type switch. */
  datatype Kind = Integer | Number | Text | Boolean | DateString | Record

  /** The case a name (already without '*') falls into; 64-bit integers are plain integers here. */
  function KindOf(n: string): Option<Kind> {
    if n in Keystone.IntTypes || n in Keystone.BigIntTypes then Some(Integer)
    else if n in Keystone.FloatTypes then Some(Number)
    else if n == "string" then Some(Text)
    else if n == "bool" then Some(Boolean)
    else if n in TimeTypes then Some(DateString)
    else if n in Keystone.RecordTypes then Some(Record)
    else None
  }

  /** The wrapper every non-record projection gets: `tProp(types.maybe(%s))`. */
  function Maybe(tp: string): Keystone.Projection {
    Keystone.Projection("tProp(types.maybe(", "))", tp)
  }

  function BuiltinProjection(k: Kind): Keystone.Projection {
    match k
    case Integer => Maybe("types.integer")
    case Number => Maybe("types.number")
    case Text => Maybe("types.string")
    case Boolean => Maybe("types.boolean")
    case DateString => Maybe("types.dateString")
    case Record => Keystone.Projection("prop<", ">()", "Record<string, any>")
  }

  /**
   * getKeystoneType (legacy): every '*' is dropped first; then the type switch, a struct of the
   * catalog, an alias (whose result replaces both outputs), or unchecked.  None is the endless
   * recursion through an alias already followed.
   */
  function KeystoneType(suffix: string, st: Structs.StructMap, sct: Structs.Types, t: string, visited: set<string>)
    : (r: Option<Keystone.Projection>)
    decreases sct.Keys - visited
  {
    var n := RemoveChar(t, '*');
    if KindOf(n).Some? then Some(BuiltinProjection(KindOf(n).value))
    else if n in st then Some(Maybe("types.model(" + n + suffix + ")"))
    else if n in sct then
      if n in visited then None
      else KeystoneType(suffix, st, sct, sct[n].typ, visited + {n})
    else Some(Maybe("types.unchecked()"))
  }

  /** Nullability plays no part: a pointer and any '*' spelling project as the bare type. */
  lemma PointerBlind(suffix: string, st: Structs.StructMap, sct: Structs.Types, t: string, visited: set<string>)
    ensures KeystoneType(suffix, st, sct, "*" + t, visited) == KeystoneType(suffix, st, sct, t, visited)
    ensures KeystoneType(suffix, st, sct, RemoveChar(t, '*'), visited) == KeystoneType(suffix, st, sct, t, visited)
  {
    RemoveCharIdempotent(t, '*');
    assert RemoveChar("*" + t, '*') == RemoveChar(t, '*') by {
      assert ("*" + t)[1..] == t;
    }
    SameSwitchName(suffix, st, sct, "*" + t, t, visited);
    SameSwitchName(suffix, st, sct, RemoveChar(t, '*'), t, visited);
  }

  /** The projection depends on a type only through its name without '*'. */
  lemma SameSwitchName(suffix: string, st: Structs.StructMap, sct: Structs.Types, a: string, b: string, visited: set<string>)
    requires RemoveChar(a, '*') == RemoveChar(b, '*')
    ensures KeystoneType(suffix, st, sct, a, visited) == KeystoneType(suffix, st, sct, b, visited)
  {
  }

  /** Every projection is `tProp(types.maybe(…))`, except records, which are `prop<Record<string, any>>()`. */
  lemma {:induction false} AlwaysMaybe(suffix: string, st: Structs.StructMap, sct: Structs.Types, t: string, visited: set<string>)
    ensures var r := KeystoneType(suffix, st, sct, t, visited);
      r.Some? ==> r.value == Maybe(r.value.tp) || r.value == Keystone.Projection("prop<", ">()", "Record<string, any>")
    decreases sct.Keys - visited
  {
    var n := RemoveChar(t, '*');
    if KindOf(n).None? && n !in st && n in sct && n !in visited {
      AlwaysMaybe(suffix, st, sct, sct[n].typ, visited + {n});
    }
  }

  /** The 64-bit integers are plain `types.integer` here, pointer or not. */
  lemma BigIntIsInteger(suffix: string, st: Structs.StructMap, sct: Structs.Types, n: string)
    requires n in Keystone.BigIntTypes
    ensures KeystoneType(suffix, st, sct, n, {}) == Some(Maybe("types.integer"))
    ensures KeystoneType(suffix, st, sct, "*" + n, {}) == Some(Maybe("types.integer"))
  {
    assert '*' !in n;
    RemoveCharAbsent(n, '*');
    assert KindOf(n) == Some(Integer);
    PointerBlind(suffix, st, sct, n, {});
  }

  /** The current generators make a 64-bit integer a `bigint`, with a default when it is not a pointer. */
  lemma BigIntsDiffer(v: Keystone.Variant, suffix: string, st: Structs.StructMap, sct: Structs.Types, n: string)
    requires n in Keystone.BigIntTypes
    ensures KeystoneType(suffix, st, sct, n, {}) == Some(Maybe("types.integer"))
    ensures Keystone.KeystoneType(v, suffix, st, sct, n, {}) == Some(Keystone.Projection("prop<", ">(0n)", "bigint"))
  {
    BigIntIsInteger(suffix, st, sct, n);
    Keystone.BigIntProjection(v, suffix, st, sct, n);
  }

  /** A type declared as an alias of itself is the source's endless recursion. */
  lemma SelfAliasDiverges(suffix: string, st: Structs.StructMap, sct: Structs.Types, a: string)
    requires '*' !in a && KindOf(a).None? && a !in st && a in sct && sct[a].typ == a
    ensures KeystoneType(suffix, st, sct, a, {}).None?
  {
    RemoveCharAbsent(a, '*');
    assert KeystoneType(suffix, st, sct, a, {a}).None?;
  }

  /**
   * The getType template helper of the legacy generator: it fails exactly when the projection
   * does, and is otherwise the type text inside its wrapper, `.withSetter()` appended when configured.
   */
  function GetType(suffix: string, withSetter: bool, st: Structs.StructMap, sct: Structs.Types, t: string)
    : (r: Option<string>)
    ensures var p := KeystoneType(suffix, st, sct, t, {});
      && (p.None? <==> r.None?)
      && (p.Some? ==> r.value == p.value.before + p.value.tp + p.value.after + (if withSetter then ".withSetter()" else ""))
  {
    match KeystoneType(suffix, st, sct, t, {})
    case None => None
    case Some(p) =>
      AlwaysMaybe(suffix, st, sct, t, {});
      Keystone.Rendered(p, withSetter);
      Some(Keystone.Sprintf(p.TypeWrap() + (if withSetter then ".withSetter()" else ""), p.tp))
  }

  // ---------------------------------------------------------------- imports

  const BaseImports: seq<string> := ["Model", "tProp", "types", "model"]

  /** Some field of some struct is a map or JSONB value. */
  predicate HasRecordField(st: Structs.StructMap) {
    exists k, i :: k in st && 0 <= i < |st[k].fields| && st[k].fields[i].typ in Keystone.RecordTypes
  }

  /** The mobx-keystone imports: the four base names, and "prop" once when a record field exists. */
  method KeystoneImports(st: Structs.StructMap) returns (imports: seq<string>)
    ensures imports == BaseImports + (if HasRecordField(st) then ["prop"] else [])
  {
    imports := BaseImports;
    assert !Utils.ExistInArray(imports, "prop");
    var todo := st.Keys;
    while todo != {}
      invariant todo <= st.Keys
      invariant imports == BaseImports + (if exists k, i :: k in st && k !in todo && 0 <= i < |st[k].fields|
                                                            && st[k].fields[i].typ in Keystone.RecordTypes
                                          then ["prop"] else [])
      decreases |todo|
    {
      var k :| k in todo;
      todo := todo - {k};
      var fields := st[k].fields;
      var i := 0;
      while i < |fields|
        invariant 0 <= i <= |fields|
        invariant imports == BaseImports + ["prop"] || forall j :: 0 <= j < i ==> fields[j].typ !in Keystone.RecordTypes
        invariant imports == BaseImports + ["prop"] || imports == BaseImports
        invariant imports == BaseImports + ["prop"] ==>
          (exists k, i :: k in st && k !in todo && 0 <= i < |st[k].fields| && st[k].fields[i].typ in Keystone.RecordTypes)
        invariant imports == BaseImports ==>
          forall k', j :: k' in st && k' !in todo && k' != k && 0 <= j < |st[k'].fields| ==> st[k'].fields[j].typ !in Keystone.RecordTypes
      {
        if fields[i].typ in Keystone.RecordTypes && !Utils.ExistInArray(imports, "prop") {
          imports := imports + ["prop"];
          break;
        }
        i := i + 1;
      }
    }
  }

  // ---------------------------------------------------------------- struct order

  /** The first sort name that is not a key of the catalog. */
  function Missing(st: Structs.StructMap, names: seq<string>): (r: Option<string>)
    ensures r.None? <==> forall i :: 0 <= i < |names| ==> names[i] in st
    ensures r.Some? ==> exists i :: 0 <= i < |names| && names[i] == r.value && r.value !in st
                                    && forall j :: 0 <= j < i ==> names[j] in st
    decreases |names|
  {
    if |names| == 0 then None
    else if names[0] !in st then Some(names[0])
    else
      var r := Missing(st, names[1..]);
      assert forall i :: 1 <= i < |names| ==> names[1..][i - 1] == names[i];
      r
  }

  /** The structs the sort names select, in the order named. */
  function Listed(st: Structs.StructMap, names: seq<string>): (r: seq<StructParameters>)
    requires forall i :: 0 <= i < |names| ==> names[i] in st
    ensures |r| == |names|
    ensures forall i :: 0 <= i < |names| ==> r[i] == st[names[i]]
  {
    seq(|names|, i requires 0 <= i < |names| => st[names[i]])
  }

  /** The structs under `keys`, in that order, except those whose Name is a sort name. */
  function Unlisted(st: Structs.StructMap, keys: seq<string>, names: seq<string>): (r: seq<StructParameters>)
    requires forall i :: 0 <= i < |keys| ==> keys[i] in st
    ensures forall i :: 0 <= i < |r| ==> r[i].name !in names
    ensures forall i :: 0 <= i < |r| ==> exists j :: 0 <= j < |keys| && r[i] == st[keys[j]]
    decreases |keys|
  {
    if |keys| == 0 then []
    else
      var last := keys[|keys| - 1];
      var init := Unlisted(st, keys[..|keys| - 1], names);
      assert forall i :: 0 <= i < |keys| - 1 ==> keys[..|keys| - 1][i] == keys[i];
      if st[last].name in names then init else init + [st[last]]
  }

  /** The order the template receives: the named structs, then the others by ascending key. */
  ghost function Order(st: Structs.StructMap, names: seq<string>): Result<seq<StructParameters>, string> {
    match Missing(st, names)
    case Some(name) => Err(name)
    case None =>
      SortedSetStrict(st.Keys);
      Ok(Listed(st, names) + Unlisted(st, SortedSet(st.Keys), names))
  }

  /** The sort step of compileMobxKeystoneModels (legacy); an error names the unknown struct. */
  method SortStructs(st: Structs.StructMap, sort: string) returns (r: Result<seq<StructParameters>, string>)
    ensures r == Order(st, Split(sort, ','))
  {
    var sortParam := Split(sort, ',');
    // Split never returns an empty list, so the branch for an empty sort list cannot run.
    var structs: seq<StructParameters> := [];
    var i := 0;
    while i < |sortParam|
      invariant 0 <= i <= |sortParam|
      invariant forall j :: 0 <= j < i ==> sortParam[j] in st
      invariant structs == Listed(st, sortParam[..i])
    {
      var name := sortParam[i];
      if name !in st {
        MissingAt(st, sortParam, i);
        return Err(name);
      }
      structs := structs + [st[name]];
      i := i + 1;
    }
    assert sortParam[..i] == sortParam;
    var keys := CollectKeys(st);
    keys := SortStrings(keys);
    KeysAreSortedSet(st, keys);
    structs := AppendUnlisted(st, keys, sortParam, structs);
    r := Ok(structs);
  }

  /** The second loop of the sort step: the structs under `keys` whose Name is not a sort name. */
  method AppendUnlisted(st: Structs.StructMap, keys: seq<string>, names: seq<string>, listed: seq<StructParameters>)
    returns (structs: seq<StructParameters>)
    requires forall i :: 0 <= i < |keys| ==> keys[i] in st
    ensures structs == listed + Unlisted(st, keys, names)
  {
    structs := listed;
    var j := 0;
    while j < |keys|
      invariant 0 <= j <= |keys|
      invariant structs == listed + Unlisted(st, keys[..j], names)
    {
      assert keys[..j + 1][..j] == keys[..j];
      if !Utils.ExistInArray(names, st[keys[j]].name) {
        structs := structs + [st[keys[j]]];
      }
      j := j + 1;
    }
    assert keys[..j] == keys;
  }

  lemma MissingAt(st: Structs.StructMap, names: seq<string>, i: nat)
    requires i < |names| && names[i] !in st && forall j :: 0 <= j < i ==> names[j] in st
    ensures Missing(st, names) == Some(names[i])
  {
    var r := Missing(st, names);
    var k :| 0 <= k < |names| && names[k] == r.value && r.value !in st && forall j :: 0 <= j < k ==> names[j] in st;
    assert k == i;
  }

  lemma {:induction false} UnlistedHas(st: Structs.StructMap, keys: seq<string>, names: seq<string>, j: nat)
    requires forall i :: 0 <= i < |keys| ==> keys[i] in st
    requires j < |keys| && st[keys[j]].name !in names
    ensures st[keys[j]] in Unlisted(st, keys, names)
    decreases |keys|
  {
    if j < |keys| - 1 {
      var init := keys[..|keys| - 1];
      assert init[j] == keys[j];
      UnlistedHas(st, init, names, j);
    }
  }

  /**
   * On a catalog keyed by Name, a successful sort lists the named structs first, in the order
   * named, and after them every other struct; no struct of the catalog is left out.
   */
  lemma OrderCoversCatalog(st: Structs.StructMap, names: seq<string>)
    requires LegacyModels.KeysAreNames(st)
    requires Missing(st, names).None?
    ensures var r := Order(st, names).value;
      && (forall i :: 0 <= i < |names| ==> r[i].name == names[i])
      && (forall i :: |names| <= i < |r| ==> r[i].name !in names)
      && (forall k :: k in st ==> st[k] in r)
  {
    SortedSetStrict(st.Keys);
    var keys := SortedSet(st.Keys);
    var listed := Listed(st, names);
    var rest := Unlisted(st, keys, names);
    var r := listed + rest;
    assert Order(st, names).value == r;
    forall i | |names| <= i < |r| ensures r[i].name !in names {
      assert r[i] == rest[i - |names|];
    }
    forall k | k in st ensures st[k] in r {
      if k in names {
        var i :| 0 <= i < |names| && names[i] == k;
        assert r[i] == st[k];
      } else {
        var j :| 0 <= j < |keys| && keys[j] == k;
        UnlistedHas(st, keys, names, j);
      }
    }
  }

  /** An unset sort setting still names the empty struct name, so it fails unless the catalog has one. */
  lemma UnsetSortFails(st: Structs.StructMap)
    requires "" !in st
    ensures Split("", ',') == [""]
    ensures Order(st, Split("", ',')) == Err("")
  {
  }

  // ---------------------------------------------------------------- compileMobxKeystoneModels

  datatype CompileError = UndefinedOutputDir | UndefinedStruct(name: string)

  datatype KeystoneFile = KeystoneFile(outputDir: string, outputFileName: string, imports: seq<string>,
                                       structs: seq<StructParameters>)

  /** compileMobxKeystoneModels (legacy) up to the template. */
  method CompileMobxKeystoneModels(outputDir: string, outputFileName: string, sort: string, st: Structs.StructMap)
    returns (r: Result<KeystoneFile, CompileError>)
    ensures outputDir == "" ==> r == Err(UndefinedOutputDir)
    ensures outputDir != "" && Order(st, Split(sort, ',')).Err? ==>
      r == Err(UndefinedStruct(Order(st, Split(sort, ',')).error))
    ensures outputDir != "" && Order(st, Split(sort, ',')).Ok? ==>
      r == Ok(KeystoneFile(outputDir, if outputFileName == "" then "models.ts" else outputFileName,
                           BaseImports + (if HasRecordField(st) then ["prop"] else []),
                           Order(st, Split(sort, ',')).value))
  {
    if outputDir == "" {
      return Err(UndefinedOutputDir);
    }
    var fileName := if outputFileName == "" then "models.ts" else outputFileName;
    var imports := KeystoneImports(st);
    var structs := SortStructs(st, sort);
    if structs.Err? {
      return Err(UndefinedStruct(structs.error));
    }
    r := Ok(KeystoneFile(outputDir, fileName, imports, structs.value));
  }
}
