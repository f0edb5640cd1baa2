/**
 * The mobx-keystone projection of the current generators (internal/keystone and the keystone output
 * of internal/gomodels): the Go field type of a model mapped to a property wrapper and a type
 * text, the `getType` and `exist_field_id` template helpers, SkipModels pruning and the
 * compile step's checks and struct order.
 */
module Keystone {
  import opened Wrappers
  import opened Strings
  import opened Fields
  import Structs
  import Slice

  /** Which generator projects: internal/keystone knows uuid types, internal/gomodels does not. */
  datatype Variant = KeystoneGen | GoModelsGen

  /**
   * A projection: the printf format `before + "%s" + after` the source builds as `typeWrap`, and
   * the type text `tp` that goes into its verb.
   */
  datatype Projection = Projection(before: string, after: string, tp: string) {
    function TypeWrap(): string {
      before + "%s" + after
    }
  }

  // ---------------------------------------------------------------- fmt.Sprintf

  /**
   * fmt.Sprintf(format, arg) for a format whose only verb is `%s`: the first `%s` becomes the
   * argument; with no verb at all Go appends the unused argument as `%!(EXTRA string=…)`.
   */
  function Sprintf(format: string, arg: string): string
    decreases |format|
  {
    if |format| < 2 then format + "%!(EXTRA string=" + arg + ")"
    else if format[0] == '%' && format[1] == 's' then arg + format[2..]
    else [format[0]] + Sprintf(format[1..], arg)
  }

  /** The verb is replaced in place: what precedes and what follows it is kept as it is. */
  lemma {:induction false} SprintfSplice(a: string, b: string, arg: string)
    requires '%' !in a
    ensures Sprintf(a + "%s" + b, arg) == a + arg + b
    decreases |a|
  {
    if |a| > 0 {
      SprintfSplice(a[1..], b, arg);
      assert (a + "%s" + b)[1..] == a[1..] + "%s" + b;
    } else {
      assert a + "%s" + b == "%s" + b;
    }
  }

  // ---------------------------------------------------------------- getKeystoneType

  const IntTypes: set<string> := {"int", "int8", "int16", "int32", "uint", "uint8", "uint16", "uint32"}
  const BigIntTypes: set<string> := {"int64", "uint64"}
  const FloatTypes: set<string> := {"float32", "float64"}
  const TimeTypes: set<string> := {"bun.NullTime", "time.Time", "pgtype.Time"}
  const UuidTypes: set<string> := {"uuid.UUID", "uuid.NullUUID"}
  const RecordTypes: set<string> := {"map[string]interface{}", "pgtype.JSONB"}

  /** A type is nullable when it mentions "Null" or is a pointer. */
  predicate IsNullable(t: string) {
    Contains(t, "Null") || HasPrefix(t, "*")
  }

  /** The name the type switch looks at: a nullable type loses every '*'. */
  function SwitchName(t: string): (n: string)
    ensures IsNullable(t) ==> '*' !in n
    ensures !IsNullable(t) ==> n == t
  {
    if IsNullable(t) then RemoveChar(t, '*') else t
  }

  /** The cases of the type switch. */
  datatype Kind = IntKind | BigIntKind | FloatKind | StringKind | BoolKind | TimeKind | UuidKind | RecordKind

  /** The switch case a name falls into, if any; only the keystone generator has a uuid case. */
  function KindOf(v: Variant, n: string): Option<Kind> {
    if n in IntTypes then Some(IntKind)
    else if n in BigIntTypes then Some(BigIntKind)
    else if n in FloatTypes then Some(FloatKind)
    else if n == "string" then Some(StringKind)
    else if n == "bool" then Some(BoolKind)
    else if n in TimeTypes then Some(TimeKind)
    else if v == KeystoneGen && n in UuidTypes then Some(UuidKind)
    else if n in RecordTypes then Some(RecordKind)
    else None
  }

  /** The case lists are disjoint, so each listed name selects its own case. */
  lemma KindTable(v: Variant, n: string)
    ensures n in IntTypes ==> KindOf(v, n) == Some(IntKind)
    ensures n in BigIntTypes ==> KindOf(v, n) == Some(BigIntKind)
    ensures n in FloatTypes ==> KindOf(v, n) == Some(FloatKind)
    ensures n == "string" ==> KindOf(v, n) == Some(StringKind)
    ensures n == "bool" ==> KindOf(v, n) == Some(BoolKind)
    ensures n in TimeTypes ==> KindOf(v, n) == Some(TimeKind)
    ensures n in UuidTypes ==> KindOf(v, n) == if v == KeystoneGen then Some(UuidKind) else None
    ensures n in RecordTypes ==> KindOf(v, n) == Some(RecordKind)
  {
  }

  /** `tProp(%s)`, or `tProp(types.maybe(%s))` for a nullable type, around `tp`. */
  function TProp(nullable: bool, tp: string): Projection {
    if nullable then Projection("tProp(types.maybe(", "))", tp) else Projection("tProp(", ")", tp)
  }

  /** The projection of a builtin case; only non-nullable types get a default value. */
  function BuiltinProjection(k: Kind, nullable: bool): Projection {
    match k
    case IntKind => TProp(nullable, if nullable then "types.integer" else "types.integer,0")
    case BigIntKind => Projection("prop<", if nullable then " | undefined>()" else ">(0n)", "bigint")
    case FloatKind => TProp(nullable, if nullable then "types.number" else "types.number,0")
    case StringKind => TProp(nullable, if nullable then "types.string" else "types.string,\"\"")
    case BoolKind => TProp(nullable, if nullable then "types.boolean" else "types.boolean,false")
    case TimeKind => TProp(nullable, if nullable then "types.dateString" else "types.dateString,\"\"")
    case UuidKind => TProp(nullable, if nullable then "types.string" else "types.string,\"\"")
    case RecordKind => Projection("prop<", if nullable then " | undefined>({})" else ">({})", "Record<string, any>")
  }

  /**
   * getKeystoneType.  A struct of the catalog wins over a scalar alias; an alias is projected
   * through its underlying type, whose result replaces both outputs; anything else is unchecked.
   * `visited` holds the aliases already followed: meeting one again means the source recurses
   * without end, which is the None result.
   */
  function KeystoneType(v: Variant, suffix: string, st: Structs.StructMap, sct: Structs.Types,
                        t: string, visited: set<string>): (r: Option<Projection>)
    decreases sct.Keys - visited
  {
    var n := SwitchName(t);
    var nullable := IsNullable(t);
    if KindOf(v, n).Some? then Some(BuiltinProjection(KindOf(v, n).value, nullable))
    else if n in st then Some(TProp(nullable, "types.model(" + n + suffix + ")"))
    else if n in sct then
      if n in visited then None
      else KeystoneType(v, suffix, st, sct, sct[n].typ, visited + {n})
    else Some(TProp(nullable, "types.unchecked()"))
  }

  /** The type switch comes first: a builtin name is never looked up in the catalog or the aliases. */
  lemma BuiltinsFirst(v: Variant, suffix: string, st: Structs.StructMap, sct: Structs.Types, t: string, visited: set<string>)
    requires KindOf(v, SwitchName(t)).Some?
    ensures KeystoneType(v, suffix, st, sct, t, visited) == Some(BuiltinProjection(KindOf(v, SwitchName(t)).value, IsNullable(t)))
  {
  }

  /** Nullable builtin types use the maybe/undefined wrappers and carry no default value. */
  lemma NullableBuiltins(k: Kind)
    ensures var p := BuiltinProjection(k, true);
      && (p.before, p.after) in {("tProp(types.maybe(", "))"), ("prop<", " | undefined>()"), ("prop<", " | undefined>({})")}
      && p.tp in {"types.integer", "bigint", "types.number", "types.string", "types.boolean",
                  "types.dateString", "Record<string, any>"}
  {
  }

  /** The defaults of non-nullable builtin types. */
  lemma NonNullableDefaults(k: Kind)
    ensures k == IntKind ==> BuiltinProjection(k, false) == Projection("tProp(", ")", "types.integer,0")
    ensures k == BigIntKind ==> BuiltinProjection(k, false) == Projection("prop<", ">(0n)", "bigint")
    ensures k == FloatKind ==> BuiltinProjection(k, false) == Projection("tProp(", ")", "types.number,0")
    ensures k == StringKind || k == UuidKind ==> BuiltinProjection(k, false) == Projection("tProp(", ")", "types.string,\"\"")
    ensures k == BoolKind ==> BuiltinProjection(k, false) == Projection("tProp(", ")", "types.boolean,false")
    ensures k == TimeKind ==> BuiltinProjection(k, false) == Projection("tProp(", ")", "types.dateString,\"\"")
    ensures k == RecordKind ==> BuiltinProjection(k, false) == Projection("prop<", ">({})", "Record<string, any>")
  {
  }

  /** A default is exactly what nullability takes away: the nullable text is a proper prefix of the other. */
  lemma DefaultsOnlyWhenNonNullable(k: Kind)
    requires k != BigIntKind && k != RecordKind
    ensures HasPrefix(BuiltinProjection(k, false).tp, BuiltinProjection(k, true).tp)
    ensures |BuiltinProjection(k, false).tp| > |BuiltinProjection(k, true).tp|
  {
  }

  /** Maps and JSONB project to a record whatever their nullability. */
  lemma RecordIgnoresNullability(nullable: bool)
    ensures var p := BuiltinProjection(RecordKind, nullable);
      p.tp == "Record<string, any>" && p.before == "prop<" && HasSuffix(p.after, "({})")
  {
  }

  /** Every nullable spelling of a type (any '*' anywhere) projects like the plain pointer. */
  lemma NullableSpellings(v: Variant, suffix: string, st: Structs.StructMap, sct: Structs.Types, t: string, visited: set<string>)
    requires IsNullable(t)
    ensures KeystoneType(v, suffix, st, sct, t, visited)
         == KeystoneType(v, suffix, st, sct, "*" + RemoveChar(t, '*'), visited)
  {
    var p := "*" + RemoveChar(t, '*');
    assert HasPrefix(p, "*");
    RemoveLeading(RemoveChar(t, '*'), '*');
    assert SwitchName(p) == RemoveChar(t, '*');
  }

  /** A 64-bit integer name falls into the bigint case of either generator. */
  lemma BigIntCase(v: Variant, n: string)
    requires n in BigIntTypes
    ensures KindOf(v, n) == Some(BigIntKind)
  {
  }

  /** A 64-bit integer is not nullable, so either generator makes it a `bigint` with default 0n. */
  lemma BigIntProjection(v: Variant, suffix: string, st: Structs.StructMap, sct: Structs.Types, n: string)
    requires n in BigIntTypes
    ensures KeystoneType(v, suffix, st, sct, n, {}) == Some(Projection("prop<", ">(0n)", "bigint"))
  {
    assert !IsNullable(n) by {
      assert n == "int64" || n == "uint64";
      assert 'N' !in n && n[0] != '*';
      NotContainsFirst(n, "Null");
    }
    BigIntCase(v, n);
  }

  /** A uuid name falls into the uuid case of the keystone generator and into no case of the other. */
  lemma UuidCase(v: Variant, n: string)
    requires n in UuidTypes
    ensures KindOf(v, n) == if v == KeystoneGen then Some(UuidKind) else None
  {
  }

  /** Away from uuid names the two generators' type switches agree. */
  lemma CasesAgree(n: string)
    requires n !in UuidTypes
    ensures KindOf(KeystoneGen, n) == KindOf(GoModelsGen, n)
  {
  }

  /** Only the current keystone generator knows uuid types; the gomodels one leaves them unchecked. */
  lemma UuidOnlyInKeystone(suffix: string, st: Structs.StructMap, sct: Structs.Types, t: string)
    requires SwitchName(t) in UuidTypes && SwitchName(t) !in st && SwitchName(t) !in sct
    ensures KeystoneType(KeystoneGen, suffix, st, sct, t, {})
         == Some(TProp(IsNullable(t), if IsNullable(t) then "types.string" else "types.string,\"\""))
    ensures KeystoneType(GoModelsGen, suffix, st, sct, t, {}) == Some(TProp(IsNullable(t), "types.unchecked()"))
  {
    UuidCase(KeystoneGen, SwitchName(t));
    UuidCase(GoModelsGen, SwitchName(t));
  }

  /** Away from uuid types the two variants project identically, through any alias chain. */
  lemma {:induction false} VariantsAgree(suffix: string, st: Structs.StructMap, sct: Structs.Types, t: string, visited: set<string>)
    requires SwitchName(t) !in UuidTypes
    requires forall k :: k in sct ==> SwitchName(sct[k].typ) !in UuidTypes
    ensures KeystoneType(KeystoneGen, suffix, st, sct, t, visited) == KeystoneType(GoModelsGen, suffix, st, sct, t, visited)
    decreases sct.Keys - visited
  {
    var n := SwitchName(t);
    CasesAgree(n);
    if !KindOf(KeystoneGen, n).Some? && n !in st && n in sct && n !in visited {
      VariantsAgree(suffix, st, sct, sct[n].typ, visited + {n});
    }
  }

  /** An alias of a builtin type projects exactly as its underlying type, whatever was visited. */
  lemma AliasOfBuiltin(v: Variant, suffix: string, st: Structs.StructMap, sct: Structs.Types,
                       a: string, visited: set<string>, visited': set<string>)
    requires !IsNullable(a) && KindOf(v, a).None? && a !in st && a in sct && a !in visited
    requires KindOf(v, SwitchName(sct[a].typ)).Some?
    ensures KeystoneType(v, suffix, st, sct, a, visited) == KeystoneType(v, suffix, st, sct, sct[a].typ, visited')
  {
  }

  /**
   * The alias result replaces the wrapper too: a pointer to an alias of a non-nullable builtin
   * type gets that type's non-nullable projection, default value included.
   */
  lemma AliasDropsNullability(v: Variant, suffix: string, st: Structs.StructMap, sct: Structs.Types, a: string)
    requires '*' !in a && KindOf(v, a).None? && a !in st && a in sct
    requires !IsNullable(sct[a].typ) && KindOf(v, sct[a].typ).Some?
    ensures KeystoneType(v, suffix, st, sct, "*" + a, {}) == Some(BuiltinProjection(KindOf(v, sct[a].typ).value, false))
  {
    assert HasPrefix("*" + a, "*");
    RemoveLeading(a, '*');
    AliasStep(v, suffix, st, sct, "*" + a, {});
    BuiltinsFirst(v, suffix, st, sct, sct[a].typ, {a});
  }

  /** Whether projecting `t` follows an alias. */
  predicate FollowsAlias(v: Variant, st: Structs.StructMap, sct: Structs.Types, t: string) {
    !KindOf(v, SwitchName(t)).Some? && SwitchName(t) !in st && SwitchName(t) in sct
  }

  /** An alias met for the first time is projected through its underlying type. */
  lemma AliasStep(v: Variant, suffix: string, st: Structs.StructMap, sct: Structs.Types, t: string, visited: set<string>)
    requires FollowsAlias(v, st, sct, t) && SwitchName(t) !in visited
    ensures KeystoneType(v, suffix, st, sct, t, visited)
         == KeystoneType(v, suffix, st, sct, sct[SwitchName(t)].typ, visited + {SwitchName(t)})
  {
  }

  /** The alias table is acyclic when a rank strictly decreases along every alias step. */
  predicate Ranked(v: Variant, st: Structs.StructMap, sct: Structs.Types, rank: map<string, nat>) {
    forall k :: k in sct && KindOf(v, k).None? && k !in st ==>
      k in rank && (FollowsAlias(v, st, sct, sct[k].typ) ==> SwitchName(sct[k].typ) in rank
                                                               && rank[SwitchName(sct[k].typ)] < rank[k])
  }

  /** Over an acyclic alias table the projection always ends. */
  lemma {:induction false} RankedTerminates(v: Variant, suffix: string, st: Structs.StructMap, sct: Structs.Types,
                                            rank: map<string, nat>, t: string, visited: set<string>)
    requires Ranked(v, st, sct, rank)
    requires FollowsAlias(v, st, sct, t) ==>
      forall x :: x in visited ==> x in rank && SwitchName(t) in rank && rank[SwitchName(t)] < rank[x]
    ensures KeystoneType(v, suffix, st, sct, t, visited).Some?
    decreases sct.Keys - visited
  {
    var n := SwitchName(t);
    if FollowsAlias(v, st, sct, t) {
      assert n in rank;
      assert n !in visited;
      RankedTerminates(v, suffix, st, sct, rank, sct[n].typ, visited + {n});
    }
  }

  /** A type declared as an alias of itself is the source's endless recursion. */
  lemma SelfAliasDiverges(v: Variant, suffix: string, st: Structs.StructMap, sct: Structs.Types, a: string)
    requires !IsNullable(a) && KindOf(v, a).None? && a !in st && a in sct && sct[a].typ == a
    ensures KeystoneType(v, suffix, st, sct, a, {}).None?
  {
    assert KeystoneType(v, suffix, st, sct, a, {a}).None?;
  }

  // ---------------------------------------------------------------- getType

  /** The openings a wrapper can have. */
  predicate Opening(before: string) {
    before == "tProp(" || before == "tProp(types.maybe(" || before == "prop<"
  }

  lemma OpeningHasNoVerb(before: string)
    requires Opening(before)
    ensures '%' !in before
  {
  }

  lemma BuiltinOpening(k: Kind, nullable: bool)
    ensures Opening(BuiltinProjection(k, nullable).before)
  {
  }

  /** Every projection opens its wrapper with one of the known openings. */
  lemma {:induction false} KnownOpening(v: Variant, suffix: string, st: Structs.StructMap, sct: Structs.Types, t: string, visited: set<string>)
    ensures var r := KeystoneType(v, suffix, st, sct, t, visited);
      r.Some? ==> Opening(r.value.before)
    decreases sct.Keys - visited
  {
    var n := SwitchName(t);
    if KindOf(v, n).Some? {
      BuiltinsFirst(v, suffix, st, sct, t, visited);
      BuiltinOpening(KindOf(v, n).value, IsNullable(t));
    } else if FollowsAlias(v, st, sct, t) && n !in visited {
      AliasStep(v, suffix, st, sct, t, visited);
      KnownOpening(v, suffix, st, sct, sct[n].typ, visited + {n});
    }
  }

  /**
   * The getType template helper: the wrapper (with `.withSetter()` when configured) filled in.
   * It fails exactly when the projection does, and is otherwise the type text inside the wrapper.
   */
  function GetType(v: Variant, suffix: string, withSetter: bool, st: Structs.StructMap, sct: Structs.Types, t: string)
    : (r: Option<string>)
    ensures var p := KeystoneType(v, suffix, st, sct, t, {});
      && (p.None? <==> r.None?)
      && (p.Some? ==> r.value == p.value.before + p.value.tp + p.value.after + (if withSetter then ".withSetter()" else ""))
  {
    match KeystoneType(v, suffix, st, sct, t, {})
    case None => None
    case Some(p) =>
      KnownOpening(v, suffix, st, sct, t, {});
      Rendered(p, withSetter);
      Some(Sprintf(p.TypeWrap() + (if withSetter then ".withSetter()" else ""), p.tp))
  }

  /** WithSetter only appends `.withSetter()` to the rendered property. */
  lemma SetterSuffix(v: Variant, suffix: string, st: Structs.StructMap, sct: Structs.Types, t: string)
    ensures GetType(v, suffix, true, st, sct, t).None? <==> GetType(v, suffix, false, st, sct, t).None?
    ensures GetType(v, suffix, true, st, sct, t).Some? ==>
      GetType(v, suffix, true, st, sct, t).value == GetType(v, suffix, false, st, sct, t).value + ".withSetter()"
  {
  }

  /** A wrapper with a known opening renders as its opening, the type text and its closing. */
  lemma Rendered(p: Projection, withSetter: bool)
    requires Opening(p.before)
    ensures Sprintf(p.TypeWrap() + (if withSetter then ".withSetter()" else ""), p.tp)
         == p.before + p.tp + p.after + (if withSetter then ".withSetter()" else "")
  {
    var tail := p.after + (if withSetter then ".withSetter()" else "");
    OpeningHasNoVerb(p.before);
    assert p.TypeWrap() + (if withSetter then ".withSetter()" else "") == p.before + "%s" + tail;
    SprintfSplice(p.before, tail, p.tp);
  }

  // ---------------------------------------------------------------- exist_field_id

  /** exist_field_id: some struct with that Name has a field whose lower-cased name is `fieldName`. */
  method ExistFieldId(st: Structs.StructMap, structName: string, fieldName: string) returns (found: bool)
    ensures found <==> exists k, i :: k in st && st[k].name == structName && 0 <= i < |st[k].fields|
                                      && ToLower(st[k].fields[i].name) == fieldName
  {
    var todo := st.Keys;
    while todo != {}
      invariant todo <= st.Keys
      invariant forall k, i :: k in st && k !in todo && st[k].name == structName && 0 <= i < |st[k].fields|
                               ==> ToLower(st[k].fields[i].name) != fieldName
      decreases |todo|
    {
      var k :| k in todo;
      todo := todo - {k};
      var s := st[k];
      if s.name == structName {
        var j := 0;
        while j < |s.fields|
          invariant 0 <= j <= |s.fields|
          invariant forall i :: 0 <= i < j ==> ToLower(s.fields[i].name) != fieldName
        {
          if ToLower(s.fields[j].name) == fieldName {
            return true;
          }
          j := j + 1;
        }
      }
    }
    return false;
  }

  // ---------------------------------------------------------------- SkipModels

  /** SkipModels: the named models are deleted from the catalog, referenced or not; the rest stay as they were. */
  method SkipModels(models: Structs.Catalog, skip: seq<string>)
    modifies models
    ensures forall n :: n in models.structs <==> n in old(models.structs) && n !in skip
    ensures forall n :: n in models.structs ==> models.structs[n] == old(models.structs)[n]
  {
    var i := 0;
    while i < |skip|
      invariant 0 <= i <= |skip|
      invariant forall n :: n in models.structs <==> n in old(models.structs) && n !in skip[..i]
      invariant forall n :: n in models.structs ==> models.structs[n] == old(models.structs)[n]
    {
      assert skip[..i + 1] == skip[..i] + [skip[i]];
      models.structs := models.structs - {skip[i]};
      i := i + 1;
    }
    assert skip[..i] == skip;
  }

  // ---------------------------------------------------------------- compileMobxKeystoneModels

  datatype CompileError = UndefinedOutputDir | SortFailed(err: Slice.SortError)

  /** What the template receives: where to write and the structs in output order. */
  datatype KeystoneFile = KeystoneFile(outputDir: string, outputFileName: string, structs: seq<StructParameters>)

  /** The priority names as the source derives them: the sort setting split at ','. */
  function SortNamesAsWritten(sort: string): (r: seq<string>)
    ensures |r| >= 1
  {
    Split(sort, ',')
  }

  /** An unset sort setting still names one struct, the empty name, which no catalog struct has. */
  lemma UnsetSortFails(items: seq<StructParameters>)
    requires "" !in Slice.Names(items)
    ensures SortNamesAsWritten("") == [""]
    ensures Slice.SortOutcome(items, SortNamesAsWritten("")) == Some(Slice.UndefinedStruct(""))
  {
  }

  /** The priority names: none for an unset sort setting, otherwise the ','-separated names. */
  function SortNames(sort: string): (r: seq<string>)
    ensures sort == "" <==> |r| == 0
    ensures sort != "" ==> r == SortNamesAsWritten(sort)
  {
    if sort == "" then [] else Split(sort, ',')
  }

  /** With no sort setting nothing is reported and the slice keeps its order. */
  lemma UnsetSortKeepsOrder(items: seq<StructParameters>)
    ensures Slice.SortOutcome(items, SortNames("")).None?
  {
  }

  /**
   * compileMobxKeystoneModels up to the template: an output directory is required, the file name
   * defaults to "models.ts", and the catalog (in map order, recorded by `items`) is sorted by the
   * priority names.
   */
  method CompileMobxKeystoneModels(outputDir: string, outputFileName: string, sort: string, st: Structs.StructMap)
    returns (r: Result<KeystoneFile, CompileError>, ghost items: seq<StructParameters>)
    ensures outputDir == "" ==> r == Err(UndefinedOutputDir)
    ensures outputDir != "" ==>
      |items| == |st| && (forall s :: s in items ==> exists k :: k in st && st[k] == s)
      && (r.Err? <==> Slice.SortOutcome(items, SortNames(sort)).Some?)
      && (r.Err? ==> r == Err(SortFailed(Slice.SortOutcome(items, SortNames(sort)).value)))
    ensures r.Ok? ==> r.value.outputDir == outputDir
                      && r.value.outputFileName == (if outputFileName == "" then "models.ts" else outputFileName)
    ensures r.Ok? && sort == "" ==> r.value.structs == items
    ensures r.Ok? && sort != "" ==> r.value.structs == Slice.Gather(Slice.SortOrder(items, SortNames(sort)), items)
  {
    items := [];
    if outputDir == "" {
      return Err(UndefinedOutputDir), items;
    }
    var fileName := if outputFileName == "" then "models.ts" else outputFileName;
    var slice, keys := Slice.ConvertStructsToSlice(st);
    items := slice;
    forall s | s in items
      ensures exists k :: k in st && st[k] == s
    {
      var i :| 0 <= i < |items| && items[i] == s;
      assert st[keys[i]] == s;
    }
    var structs := new Slice.StructSlice(slice);
    var err := structs.Sort(SortNames(sort));
    if err.Some? {
      return Err(SortFailed(err.value)), items;
    }
    r := Ok(KeystoneFile(outputDir, fileName, structs.items));
  }
}
