/**
 * The TypeScript generator (internal/typescript, and its older copy in internal/pgxgen): the
 * Go-to-TypeScript type projection, the include/exclude struct filter, the field helpers the
 * template calls, and the output checks made before any struct is read.
 */
module Typescript {
  import opened Wrappers
  import opened Strings
  import opened Fields
  import Structs
  import Slice

  // ---------------------------------------------------------------- getTypescriptType

  const NumberTypes: set<string> := {"int", "int8", "int16", "int32", "int64", "uint", "uint8", "uint16", "uint32", "uint64",
                                     "float32", "float64"}
  const DateTypes: set<string> := {"bun.NullTime", "time.Time", "timestamppb.Timestamp"}
  const RecordTypes: set<string> := {"map[string]interface{}", "pgtype.JSONB"}

  /** The names the type switch knows. */
  predicate Known(n: string) {
    n in NumberTypes || n == "string" || n == "bool" || n in DateTypes || n in RecordTypes
  }

  /** The type switch of getTypescriptType, on a name without '*': `any` exactly for an unknown name. */
  function SwitchType(n: string): (r: string)
    ensures r in {"number", "string", "boolean", "Date", "Record<string, any>", "any"}
    ensures r == "any" <==> !Known(n)
  {
    if n in NumberTypes then "number"
    else if n == "string" then "string"
    else if n == "bool" then "boolean"
    else if n in DateTypes then "Date"
    else if n in RecordTypes then "Record<string, any>"
    else "any"
  }

  /**
   * getTypescriptType: every '*' is dropped, then the switch.  The result is one of six
   * TypeScript types, never empty, and `any` exactly for an unknown name.
   */
  function TypescriptType(t: string): (r: string)
    ensures r in {"number", "string", "boolean", "Date", "Record<string, any>", "any"}
    ensures |r| > 0
    ensures r == "any" <==> !Known(RemoveChar(t, '*'))
  {
    SwitchType(RemoveChar(t, '*'))
  }

  /** Pointer and non-pointer spellings project identically. */
  lemma PointerInsensitive(t: string)
    ensures TypescriptType("*" + t) == TypescriptType(t)
    ensures TypescriptType(RemoveChar(t, '*')) == TypescriptType(t)
  {
    RemoveCharIdempotent(t, '*');
    assert RemoveChar("*" + t, '*') == RemoveChar(t, '*') by {
      assert ("*" + t)[1..] == t;
    }
  }

  // ---------------------------------------------------------------- template helpers

  /** isNullable: the type mentions '*'. */
  predicate IsNullable(t: string) {
    Contains(t, "*")
  }

  /** A type is nullable exactly when its projection had a '*' to drop. */
  lemma NullableIffStar(t: string)
    ensures IsNullable(t) <==> '*' in t
    ensures IsNullable(t) <==> RemoveChar(t, '*') != t
  {
    ContainsCharIff(t, '*');
    if '*' !in t {
      RemoveCharAbsent(t, '*');
    }
  }

  /** `f.Name[0]`: the first byte of the UTF-8 encoding of a name starting with c. */
  function LeadByte(c: char): (b: nat)
    ensures b < 256
    ensures (c as int < 0x80) == (b < 0x80)
    ensures c as int < 0x80 ==> b == c as int
  {
    var n := c as int;
    if n < 0x80 then n
    else if n < 0x800 then 0xC0 + n / 0x40
    else if n < 0x1_0000 then 0xE0 + n / 0x1000
    else 0xF0 + n / 0x4_0000
  }

  /** unicode.IsLower of a rune below 256: a to z, the micro sign and the Latin-1 small letters. */
  predicate IsLowerLatin1(b: nat) {
    'a' as int <= b <= 'z' as int || b == 0xB5 || 0xDF <= b <= 0xF6 || 0xF8 <= b <= 0xFF
  }

  /** A field the TypeScript output leaves out: `unicode.IsLower(rune(f.Name[0]))`. */
  predicate StartsLower(f: StructField) {
    |f.name| > 0 && IsLowerLatin1(LeadByte(f.name[0]))
  }

  /** On ASCII names the byte test is the letter test. */
  lemma StartsLowerAscii(f: StructField)
    requires |f.name| > 0 && f.name[0] as int < 0x80
    ensures StartsLower(f) <==> IsLower(f.name[0])
  {
  }

  /**
   * A name starting with a character of three or more UTF-8 bytes has a lead byte from 0xE0 on,
   * which reads as a Latin-1 small letter: such fields are left out like lower-case ones.
   */
  lemma WideLeadIsLower(f: StructField)
    requires |f.name| > 0 && f.name[0] as int >= 0x800
    ensures StartsLower(f)
  {
  }

  /** A two-byte character reads as lower-case only when its lead byte is 0xDF (U+07C0 to U+07FF). */
  lemma TwoByteLead(f: StructField)
    requires |f.name| > 0 && 0x80 <= f.name[0] as int < 0x800
    ensures StartsLower(f) <==> f.name[0] as int >= 0x7C0
  {
  }

  function NotStartsLower(f: StructField): bool {
    !StartsLower(f)
  }

  /** filterFields: the fields whose name does not start lower-case, in order (an empty name would panic). */
  method FilterFields(fields: seq<StructField>) returns (res: seq<StructField>)
    requires forall i :: 0 <= i < |fields| ==> |fields[i].name| > 0
    ensures res == Structs.Filter(fields, NotStartsLower)
  {
    res := [];
    var i := 0;
    while i < |fields|
      invariant 0 <= i <= |fields|
      invariant res == Structs.Filter(fields[..i], NotStartsLower)
    {
      Structs.FilterLast(fields, i, NotStartsLower);
      if !IsLowerLatin1(LeadByte(fields[i].name[0])) {
        res := res + [fields[i]];
      }
      i := i + 1;
    }
    assert fields[..i] == fields;
  }

  /** The kept fields are exactly those not starting lower-case, and filtering again keeps them all. */
  lemma FilterFieldsProperties(fields: seq<StructField>)
    ensures forall f :: f in Structs.Filter(fields, NotStartsLower) <==> f in fields && !StartsLower(f)
    ensures Structs.Filter(Structs.Filter(fields, NotStartsLower), NotStartsLower) == Structs.Filter(fields, NotStartsLower)
  {
    Structs.FilterMembers(fields, NotStartsLower);
    Structs.FilterIdempotent(fields, NotStartsLower);
  }

  // ---------------------------------------------------------------- struct filter

  /** A regular-expression test `MatchString(pattern, name)`; the regexp engine is not modelled. */
  type Matcher = (string, string) -> bool

  /** The filter's rule: an exclude pattern matches, or includes are given and none matches. */
  predicate Deleted(includes: seq<string>, excludes: seq<string>, matches: Matcher, name: string) {
    (exists i :: 0 <= i < |excludes| && matches(excludes[i], name))
    || (|includes| > 0 && forall i :: 0 <= i < |includes| ==> !matches(includes[i], name))
  }

  /**
   * The per-struct decision as the source takes it: an optional flag that a non-matching include
   * sets only while still unset, a matching include clears, and a matching exclude sets.
   */
  method DeleteDecision(includes: seq<string>, excludes: seq<string>, matches: Matcher, name: string)
    returns (deleteStruct: Option<bool>)
    ensures (deleteStruct.Some? && deleteStruct.value) <==> Deleted(includes, excludes, matches, name)
    ensures deleteStruct.None? <==> |includes| == 0 && forall i :: 0 <= i < |excludes| ==> !matches(excludes[i], name)
  {
    deleteStruct := None;
    var i := 0;
    while i < |includes|
      invariant 0 <= i <= |includes|
      invariant deleteStruct.None? <==> i == 0
      invariant deleteStruct == Some(false) <==> exists j :: 0 <= j < i && matches(includes[j], name)
    {
      if !matches(includes[i], name) {
        if deleteStruct.None? {
          deleteStruct := Some(true);
        }
      } else {
        deleteStruct := Some(false);
      }
      i := i + 1;
    }
    var j := 0;
    while j < |excludes|
      invariant 0 <= j <= |excludes|
      invariant (exists e :: 0 <= e < j && matches(excludes[e], name)) ==> deleteStruct == Some(true)
      invariant (forall e :: 0 <= e < j ==> !matches(excludes[e], name)) ==>
        (deleteStruct.None? <==> |includes| == 0)
      invariant (forall e :: 0 <= e < j ==> !matches(excludes[e], name)) && |includes| > 0 ==>
        (deleteStruct == Some(false) <==> exists k :: 0 <= k < |includes| && matches(includes[k], name))
    {
      if matches(excludes[j], name) {
        deleteStruct := Some(true);
      }
      j := j + 1;
    }
  }

  /** The struct filter: the structs whose Name is deleted by the rule go, the others stay unchanged. */
  method FilterStructs(structs: Structs.StructMap, includes: seq<string>, excludes: seq<string>, matches: Matcher)
    returns (kept: Structs.StructMap)
    ensures forall k :: k in kept <==> k in structs && !Deleted(includes, excludes, matches, structs[k].name)
    ensures forall k :: k in kept ==> kept[k] == structs[k]
  {
    kept := structs;
    var todo := structs.Keys;
    while todo != {}
      invariant todo <= structs.Keys
      invariant forall k :: k in kept <==> k in structs && (k in todo || !Deleted(includes, excludes, matches, structs[k].name))
      invariant forall k :: k in kept ==> kept[k] == structs[k]
      decreases |todo|
    {
      var key :| key in todo;
      todo := todo - {key};
      var deleteStruct := DeleteDecision(includes, excludes, matches, structs[key].name);
      if deleteStruct.Some? && deleteStruct.value {
        kept := kept - {key};
      }
    }
  }

  /** Without patterns nothing is deleted; a struct matching an exclude goes even if an include matches it too. */
  lemma FilterRuleCases(includes: seq<string>, excludes: seq<string>, matches: Matcher, name: string)
    ensures |includes| == 0 && |excludes| == 0 ==> !Deleted(includes, excludes, matches, name)
    ensures (exists i :: 0 <= i < |excludes| && matches(excludes[i], name)) ==> Deleted(includes, excludes, matches, name)
    ensures |includes| > 0 && (forall i :: 0 <= i < |excludes| ==> !matches(excludes[i], name)) ==>
      (Deleted(includes, excludes, matches, name) <==> forall i :: 0 <= i < |includes| ==> !matches(includes[i], name))
  {
  }

  // ---------------------------------------------------------------- generateTypescript

  datatype TsError = EmptyOutputDir | EmptyOutputFileName

  /** The output checks, made before any struct is read. */
  function OutputCheck(outputDir: string, outputFileName: string): (r: Option<TsError>)
    ensures r.None? <==> outputDir != "" && outputFileName != ""
    ensures outputDir == "" ==> r == Some(EmptyOutputDir)
  {
    if outputDir == "" then Some(EmptyOutputDir)
    else if outputFileName == "" then Some(EmptyOutputFileName)
    else None
  }

  /**
   * generateTypescript for one configuration, up to the template: the output checks, the struct
   * filter over the structs read from the directory, then the slice the template receives.  Sort
   * is called without priority names, so the slice keeps map order (recorded by `keys`).
   */
  method PrepareTypescript(outputDir: string, outputFileName: string, structs: Structs.StructMap,
                           includes: seq<string>, excludes: seq<string>, matches: Matcher)
    returns (r: Result<seq<StructParameters>, TsError>, ghost keys: seq<string>)
    ensures r.Err? <==> OutputCheck(outputDir, outputFileName).Some?
    ensures r.Err? ==> r.error == OutputCheck(outputDir, outputFileName).value
    ensures r.Ok? ==> |r.value| == |keys| && Structs.Distinct(keys)
    ensures r.Ok? ==> forall k :: k in keys <==> k in structs && !Deleted(includes, excludes, matches, structs[k].name)
    ensures r.Ok? ==> forall i :: 0 <= i < |keys| ==> keys[i] in structs && r.value[i] == structs[keys[i]]
  {
    keys := [];
    var check := OutputCheck(outputDir, outputFileName);
    if check.Some? {
      return Err(check.value), keys;
    }
    var kept := FilterStructs(structs, includes, excludes, matches);
    var items;
    items, keys := Slice.ConvertStructsToSlice(kept);
    var slice := new Slice.StructSlice(items);
    var err := slice.Sort([]);
    assert err.None?;
    r := Ok(slice.items);
  }
}
