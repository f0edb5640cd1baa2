/**
 * The configuration records the generators read (internal/config): the models section with its
 * field edits, the CRUD method parameters, and the small accessors defined on them.
 */
module Config {
  import opened Strings
  import opened Utils

  // ---------------------------------------------------------------- gen_models

  datatype Tag = Tag(name: string, value: string)

  /** use_uint_for_ids_exceptions: fields of one struct that keep their signed type. */
  datatype UintException = UintException(structName: string, fieldNames: seq<string>)

  /** add_fields: a field to insert at "start" (also for an empty position), "end" or "after X". */
  datatype AddField = AddField(structName: string, fieldName: string, position: string, typ: string, tags: seq<Tag>)

  datatype NewFieldParameters = NewFieldParameters(name: string, typ: string, matchWithCurrentTags: bool, tags: seq<Tag>)

  /** update_fields: new parameters for the first field of that name in one struct. */
  datatype UpdateField = UpdateField(structName: string, fieldName: string, newParameters: NewFieldParameters)

  /** update_all_struct_fields.by_field: rename and retype every field of a name, in every struct. */
  datatype ByField = ByField(fieldName: string, newFieldName: string, newType: string, matchWithCurrentTags: bool, tags: seq<Tag>)

  /** update_all_struct_fields.by_type: retype every field of a type, in every struct. */
  datatype ByType = ByType(typ: string, newType: string, matchWithCurrentTags: bool, tags: seq<Tag>)

  /** delete_fields: fields to remove from one struct. */
  datatype DeleteField = DeleteField(structName: string, fieldNames: seq<string>)

  /** The gen_models section (the fields processStructs and compileGoModels read). */
  datatype GenModels = GenModels(
    modelsOutputDir: string,
    modelsOutputFilename: string,
    modelsPackageName: string,
    useUintForIds: bool,
    uintExceptions: seq<UintException>,
    addFields: seq<AddField>,
    updateFields: seq<UpdateField>,
    byField: seq<ByField>,
    byType: seq<ByType>,
    deleteFields: seq<DeleteField>)

  /**
   * GetModelsOutputDir: the output directory without one trailing '/'.  The source indexes the
   * last byte, so an empty directory is outside its domain.
   */
  function GetModelsOutputDir(outputDir: string): (r: string)
    requires |outputDir| > 0
    ensures HasSuffix(outputDir, "/") ==> outputDir == r + "/"
    ensures !HasSuffix(outputDir, "/") ==> r == outputDir
  {
    if outputDir[|outputDir| - 1] == '/' then outputDir[..|outputDir| - 1] else outputDir
  }

  /** Only one '/' goes: a directory written with a trailing '/' comes back as written without it. */
  lemma OutputDirInverse(dir: string)
    ensures GetModelsOutputDir(dir + "/") == dir
    ensures |dir| > 0 && dir[|dir| - 1] != '/' ==> GetModelsOutputDir(dir) == dir
  {
    assert (dir + "/")[..|dir|] == dir;
  }

  /** GetModelsOutputFileName: "models.go" by default, otherwise the name with ".go" added when missing. */
  function GetModelsOutputFileName(name: string): (r: string)
    ensures HasSuffix(r, ".go")
    ensures name == "" ==> r == "models.go"
    ensures HasSuffix(name, ".go") ==> r == name
    ensures name != "" && !HasSuffix(name, ".go") ==> r == name + ".go"
  {
    var res := if name == "" then "models.go" else name;
    if res != "" && !HasSuffix(res, ".go") then
      assert (res + ".go")[|res|..] == ".go";
      res + ".go"
    else res
  }

  /** Applying the file-name default twice changes nothing. */
  lemma OutputFileNameIdempotent(name: string)
    ensures GetModelsOutputFileName(GetModelsOutputFileName(name)) == GetModelsOutputFileName(name)
  {
  }

  /** ExistPrefereExceptionsField: some exception for the struct lists the field. */
  function ExistPrefereExceptionsField(exceptions: seq<UintException>, structName: string, fieldName: string): (r: bool)
    ensures r <==> exists i :: 0 <= i < |exceptions| && exceptions[i].structName == structName
                               && fieldName in exceptions[i].fieldNames
    decreases |exceptions|
  {
    if |exceptions| == 0 then false
    else if exceptions[0].structName == structName && ExistInArray(exceptions[0].fieldNames, fieldName) then true
    else
      var r := ExistPrefereExceptionsField(exceptions[1..], structName, fieldName);
      assert forall i :: 1 <= i < |exceptions| ==> exceptions[i] == exceptions[1..][i - 1];
      r
  }

  // ---------------------------------------------------------------- crud_params

  datatype WhereParamsItem = WhereParamsItem(value: string, operator: string)

  datatype OrderParam = OrderParam(orderBy: string, direction: string)

  /** One configured CRUD method.  A nil `where` map reads as the empty map. */
  datatype Method = Method(
    name: string,
    returning: string,
    where: map<string, WhereParamsItem>,
    whereAdditional: seq<string>,
    skipColumns: seq<string>,
    columnValues: map<string, string>,
    limit: bool,
    order: OrderParam)

  /** AddWhereParam: `where[key]` becomes `params`; the other keys and the other settings stay. */
  function AddWhereParam(m: Method, key: string, params: WhereParamsItem): (r: Method)
    ensures key in r.where && r.where[key] == params
    ensures r.where.Keys == m.where.Keys + {key}
    ensures forall k :: k in m.where && k != key ==> r.where[k] == m.where[k]
    ensures r.(where := m.where) == m
  {
    m.(where := m.where[key := params])
  }
}
