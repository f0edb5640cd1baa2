/**
 * The older models generator (internal/pgxgen/models.go).  Its reader, its edit stages and its
 * tag rendering are the same loops as the catalog's (the reader keeps no imports, there are no
 * bulk by-field / by-type updates), and each struct is written back under its own Name.  What
 * differs is stated here: the write-back, the absence of the nil-tag-map panic, and the output
 * target of compileTemplate.
 */
module LegacyModels {
  import opened Wrappers
  import opened Strings
  import opened Fields
  import opened Config
  import Structs
  import GoModels

  // ---------------------------------------------------------------- the shape getStructs produces

  /** Every struct is stored under its own Name. */
  predicate KeysAreNames(m: Structs.StructMap) {
    forall k :: k in m ==> m[k].name == k
  }

  /** Every field's tag map was made (none is nil). */
  predicate FieldsTagged(fields: seq<StructField>) {
    forall i :: 0 <= i < |fields| ==> fields[i].tags.TagMap?
  }

  predicate AllTagged(m: Structs.StructMap) {
    forall k :: k in m ==> FieldsTagged(m[k].fields)
  }

  predicate ScanShaped(st: Structs.ScanState) {
    KeysAreNames(st.structs) && AllTagged(st.structs) && FieldsTagged(st.current.fields)
  }

  lemma {:induction false} ScanKeepsShape(st: Structs.ScanState, lines: seq<string>, re: Structs.LineMatchers)
    requires ScanShaped(st)
    ensures ScanShaped(Structs.Scan(st, lines, [], re))
    decreases |lines|
  {
    if |lines| > 0 {
      var next := Structs.ScanStep(st, lines[0], [], re);
      assert ScanShaped(next);
      ScanKeepsShape(next, lines[1..], re);
    }
  }

  /**
   * getStructs: the same line reader as the catalog's, without imports.  Every struct it
   * returns is keyed by its own Name, and every field has a made tag map.
   */
  method GetStructs(file: string, re: Structs.LineMatchers) returns (structs: Structs.StructMap)
    ensures structs == Structs.Scan(Structs.ScanState(map[], Structs.EmptyStruct([])), Lines(file), [], re).structs
    ensures KeysAreNames(structs) && AllTagged(structs)
  {
    structs := Structs.GetStructsOld(file, [], re);
    ScanKeepsShape(Structs.ScanState(map[], Structs.EmptyStruct([])), Lines(file), re);
  }

  // ---------------------------------------------------------------- processStructs

  /**
   * The uint widening loop: each struct's fields are widened, then the struct is written back
   * under its Name.  When every key is its struct's Name this is the widening of every field.
   */
  method Widen(exceptions: seq<UintException>, st: Structs.Catalog)
    modifies st
    ensures KeysAreNames(old(st.structs)) ==>
      st.structs == GoModels.EditAll(old(st.structs), GoModels.WidenEdit(exceptions))
  {
    ghost var start := st.structs;
    var todo := st.structs.Keys;
    while todo != {}
      invariant KeysAreNames(start) ==> todo <= start.Keys && st.structs.Keys == start.Keys
      invariant KeysAreNames(start) ==> forall k :: k in todo ==> st.structs[k] == start[k]
      invariant KeysAreNames(start) ==> forall k :: k in start && k !in todo ==>
        st.structs[k] == GoModels.EditStruct(start[k], GoModels.WidenEdit(exceptions))
      decreases |todo|
    {
      var k :| k in todo;
      todo := todo - {k};
      if k in st.structs {
        var s := st.structs[k];
        var fields, panicked := GoModels.EditStructFields(s, GoModels.WidenEdit(exceptions), GoModels.NeverPanics());
        st.structs := st.structs[s.name := s.(fields := fields)];
      }
    }
    if KeysAreNames(start) {
      EditAllByParts(start, st.structs, GoModels.WidenEdit(exceptions));
    }
  }

  lemma EditAllByParts(m: Structs.StructMap, r: Structs.StructMap, edit: GoModels.FieldEdit)
    requires r.Keys == m.Keys
    requires forall k :: k in m ==> r[k] == GoModels.EditStruct(m[k], edit)
    ensures r == GoModels.EditAll(m, edit)
  {
  }

  /** The legacy stages: widening, added fields, targeted updates, deletions; the first error stops them. */
  function LegacyProcess(c: GenModels, m: Structs.StructMap): (r: GoModels.Stage)
    ensures r.structs.Keys == m.Keys
  {
    var widened := if c.useUintForIds then GoModels.EditAll(m, GoModels.WidenEdit(c.uintExceptions)) else m;
    var added := GoModels.AddFieldsStage(c.addFields, widened);
    if added.err.Some? then added
    else
      var updated := GoModels.UpdateFieldsStage(c.updateFields, added.structs);
      if updated.err.Some? then updated
      else GoModels.DeleteFieldsStage(c.deleteFields, updated.structs)
  }

  /** processStructs (legacy), for a catalog keyed by Name as getStructs builds it. */
  method ProcessStructs(c: GenModels, st: Structs.Catalog) returns (err: Option<GoModels.ProcessError>)
    modifies st
    ensures KeysAreNames(old(st.structs)) ==> err == LegacyProcess(c, old(st.structs)).err
    ensures KeysAreNames(old(st.structs)) && err != Some(GoModels.NilTagMapWrite) ==>
      st.structs == LegacyProcess(c, old(st.structs)).structs
  {
    if c.useUintForIds {
      Widen(c.uintExceptions, st);
    }
    err := GoModels.AddFields(c.addFields, st);
    if err.Some? {
      return;
    }
    err := GoModels.UpdateFields(c.updateFields, st);
    if err.Some? {
      return;
    }
    err := GoModels.DeleteFields(c.deleteFields, st);
  }

  /** The legacy pipeline is the current one without the by_field and by_type stages. */
  lemma LegacyIsCurrentWithoutBulkUpdates(c: GenModels, m: Structs.StructMap)
    ensures LegacyProcess(c, m) == GoModels.Process(c.(byField := [], byType := []), m)
  {
    var c' := c.(byField := [], byType := []);
    var widened := if c.useUintForIds then GoModels.EditAll(m, GoModels.WidenEdit(c.uintExceptions)) else m;
    var added := GoModels.AddFieldsStage(c.addFields, widened);
    if added.err.None? {
      assert GoModels.ByFieldStage([], added.structs) == GoModels.Stage(added.structs, None);
      assert GoModels.ByTypeStage([], added.structs) == GoModels.Stage(added.structs, None);
    }
  }

  /**
   * On a catalog whose tag maps are all made, no legacy stage writes into a nil map: the
   * pipeline never panics, and every tag map it leaves is made.
   */
  lemma NeverPanicsOnTaggedCatalog(c: GenModels, m: Structs.StructMap)
    requires AllTagged(m)
    ensures LegacyProcess(c, m).err != Some(GoModels.NilTagMapWrite)
    ensures AllTagged(LegacyProcess(c, m).structs)
  {
    var widened := if c.useUintForIds then GoModels.EditAll(m, GoModels.WidenEdit(c.uintExceptions)) else m;
    assert AllTagged(widened) by {
      if c.useUintForIds {
        forall k | k in widened ensures FieldsTagged(widened[k].fields) {
          assert FieldsTagged(m[k].fields);
        }
      }
    }
    AddKeepsTagged(c.addFields, widened);
    var added := GoModels.AddFieldsStage(c.addFields, widened);
    if added.err.None? {
      UpdateKeepsTagged(c.updateFields, added.structs);
      var updated := GoModels.UpdateFieldsStage(c.updateFields, added.structs);
      if updated.err.None? {
        DeleteKeepsTagged(c.deleteFields, updated.structs);
      }
    }
  }

  lemma AddFieldToTagged(fields: seq<StructField>, af: AddField)
    requires FieldsTagged(fields)
    requires GoModels.AddFieldTo(fields, af).Ok?
    ensures FieldsTagged(GoModels.AddFieldTo(fields, af).value)
  {
    var p := GoModels.InsertPosition(fields, af).value;
    assert GoModels.AddFieldTo(fields, af).value == fields[..p] + [GoModels.NewField(af)] + fields[p..];
  }

  lemma {:induction false} AddKeepsTagged(afs: seq<AddField>, m: Structs.StructMap)
    requires AllTagged(m)
    ensures AllTagged(GoModels.AddFieldsStage(afs, m).structs)
    ensures GoModels.AddFieldsStage(afs, m).err != Some(GoModels.NilTagMapWrite)
    decreases |afs|
  {
    if |afs| > 0 {
      var af := afs[0];
      if af.structName in m {
        var r := GoModels.AddFieldTo(m[af.structName].fields, af);
        if r.Ok? {
          AddFieldToTagged(m[af.structName].fields, af);
          AddKeepsTagged(afs[1..], m[af.structName := m[af.structName].(fields := r.value)]);
        } else {
          assert r.error != GoModels.NilTagMapWrite by {
            assert r.error == GoModels.InsertPosition(m[af.structName].fields, af).error;
          }
        }
      }
    }
  }

  lemma {:induction false} UpdateKeepsTagged(ufs: seq<UpdateField>, m: Structs.StructMap)
    requires AllTagged(m)
    ensures AllTagged(GoModels.UpdateFieldsStage(ufs, m).structs)
    ensures GoModels.UpdateFieldsStage(ufs, m).err != Some(GoModels.NilTagMapWrite)
    decreases |ufs|
  {
    if |ufs| > 0 {
      var uf := ufs[0];
      var one := GoModels.UpdateOne(uf, m);
      if uf.structName in m {
        var fields := m[uf.structName].fields;
        var i := ExistFieldIndex(fields, uf.fieldName);
        if i != -1 {
          assert fields[i].tags.TagMap?;
          assert !GoModels.RetagPanics(fields[i].tags, uf.newParameters.matchWithCurrentTags, uf.newParameters.tags);
          assert AllTagged(one.structs) by {
            var g := GoModels.UpdateApply(uf.newParameters, fields[i]);
            assert g.tags.TagMap?;
            assert FieldsTagged(fields[i := g]);
          }
        }
      }
      if one.err.None? {
        UpdateKeepsTagged(ufs[1..], one.structs);
      }
    }
  }

  lemma {:induction false} DeleteNamesTagged(fields: seq<StructField>, names: seq<string>)
    requires FieldsTagged(fields)
    ensures FieldsTagged(GoModels.DeleteNames(fields, names).0)
    decreases |names|
  {
    if |names| > 0 {
      var i := ExistFieldIndex(fields, names[0]);
      if i != -1 {
        var rest := fields[..i] + fields[i + 1..];
        RemoveTagged(fields, i);
        DeleteNamesTagged(rest, names[1..]);
      }
    }
  }

  /** Removing one field keeps the others tagged. */
  lemma RemoveTagged(fields: seq<StructField>, i: nat)
    requires FieldsTagged(fields) && i < |fields|
    ensures FieldsTagged(fields[..i] + fields[i + 1..])
  {
    var rest := fields[..i] + fields[i + 1..];
    forall j | 0 <= j < |rest| ensures rest[j].tags.TagMap? {
      if j < i {
        assert rest[j] == fields[j];
      } else {
        assert rest[j] == fields[j + 1];
      }
    }
  }

  lemma {:induction false} DeleteKeepsTagged(dfs: seq<DeleteField>, m: Structs.StructMap)
    requires AllTagged(m)
    ensures AllTagged(GoModels.DeleteFieldsStage(dfs, m).structs)
    ensures GoModels.DeleteFieldsStage(dfs, m).err != Some(GoModels.NilTagMapWrite)
    decreases |dfs|
  {
    if |dfs| > 0 {
      var df := dfs[0];
      if df.structName in m {
        var r := GoModels.DeleteNames(m[df.structName].fields, df.fieldNames);
        DeleteNamesTagged(m[df.structName].fields, df.fieldNames);
        var m' := m[df.structName := m[df.structName].(fields := r.0)];
        assert AllTagged(m');
        if r.1.None? {
          DeleteKeepsTagged(dfs[1..], m');
        }
      }
    }
  }

  /**
   * A catalog read by getStructs goes through the legacy processStructs without a panic, and
   * the result is the current pipeline's without its bulk updates.
   */
  lemma ReadCatalogProcesses(c: GenModels, file: string, re: Structs.LineMatchers)
    ensures var m := Structs.Scan(Structs.ScanState(map[], Structs.EmptyStruct([])), Lines(file), [], re).structs;
      && KeysAreNames(m)
      && LegacyProcess(c, m).err != Some(GoModels.NilTagMapWrite)
      && LegacyProcess(c, m) == GoModels.Process(c.(byField := [], byType := []), m)
  {
    var m := Structs.Scan(Structs.ScanState(map[], Structs.EmptyStruct([])), Lines(file), [], re).structs;
    ScanKeepsShape(Structs.ScanState(map[], Structs.EmptyStruct([])), Lines(file), re);
    NeverPanicsOnTaggedCatalog(c, m);
    LegacyIsCurrentWithoutBulkUpdates(c, m);
  }

  // ---------------------------------------------------------------- compileTemplate

  /** A field as the template prints it: convertTags has set Tag from the tag map. */
  datatype RenderedField = RenderedField(name: string, typ: string, tag: string)

  ghost function Rendered(f: StructField): RenderedField {
    RenderedField(f.name, f.typ, GoTag(f.tags.Entries()))
  }

  /** convertTags on every field of every struct, before the template runs. */
  method ConvertAllTags(st: Structs.StructMap) returns (rendered: map<string, seq<RenderedField>>)
    ensures rendered.Keys == st.Keys
    ensures forall k :: k in st ==> |rendered[k]| == |st[k].fields|
    ensures forall k, i :: k in st && 0 <= i < |st[k].fields| ==> rendered[k][i] == Rendered(st[k].fields[i])
  {
    rendered := map[];
    var todo := st.Keys;
    while todo != {}
      invariant todo <= st.Keys
      invariant rendered.Keys == st.Keys - todo
      invariant forall k :: k in rendered ==> |rendered[k]| == |st[k].fields|
      invariant forall k, i :: k in rendered && 0 <= i < |st[k].fields| ==> rendered[k][i] == Rendered(st[k].fields[i])
      decreases |todo|
    {
      var k :| k in todo;
      var out := ConvertFieldTags(st[k].fields);
      rendered := rendered[k := out];
      todo := todo - {k};
    }
  }

  /** convertTags on the fields of one struct, in order. */
  method ConvertFieldTags(fields: seq<StructField>) returns (out: seq<RenderedField>)
    ensures |out| == |fields|
    ensures forall j :: 0 <= j < |fields| ==> out[j] == Rendered(fields[j])
  {
    out := [];
    var i := 0;
    while i < |fields|
      invariant 0 <= i <= |fields|
      invariant |out| == i
      invariant forall j :: 0 <= j < i ==> out[j] == Rendered(fields[j])
    {
      var tag := GetGoTag(fields[i]);
      out := out + [RenderedField(fields[i].name, fields[i].typ, tag)];
      i := i + 1;
    }
  }

  /** A field with no tags prints an empty Tag; otherwise one key:"value" entry per tag. */
  lemma RenderedTagShape(f: StructField)
    ensures Rendered(f).tag == "" <==> |f.tags.Entries()| == 0
    ensures |f.tags.Entries()| > 0 && (forall k :: k in f.tags.Entries() ==> ' ' !in k && ' ' !in f.tags.Entries()[k]) ==>
      |Split(Rendered(f).tag, ' ')| == |f.tags.Entries()|
  {
    GoTagEmpty(f.tags.Entries());
    if |f.tags.Entries()| > 0 && (forall k :: k in f.tags.Entries() ==> ' ' !in k && ' ' !in f.tags.Entries()[k]) {
      GoTagEntries(f.tags.Entries());
    }
  }

  /** The file name as written: ".go" is added to a non-empty name without it; an empty one stays empty. */
  function LegacyFileName(name: string): (r: string)
    ensures r == "" <==> name == ""
    ensures name != "" ==> HasSuffix(r, ".go")
    ensures HasSuffix(name, ".go") ==> r == name
    ensures name != "" && !HasSuffix(name, ".go") ==> r == name + ".go"
  {
    if name != "" && !HasSuffix(name, ".go") then
      assert (name + ".go")[|name|..] == ".go";
      name + ".go"
    else name
  }

  /**
   * compileTemplate's target as written: the trailing-'/' branch slices the directory to its
   * full length, so the directory is kept as configured and its last '/'-piece, the package
   * name, is empty when it ends in '/'.
   */
  function LegacyTargetAsWritten(c: GenModels): (r: Result<GoModels.Target, string>)
    ensures r.Err? <==> c.modelsOutputDir == ""
    ensures r.Ok? ==> r.value.outputDir == c.modelsOutputDir
    ensures r.Ok? ==> r.value.packageName == GoModels.PackageNameAsWritten(c)
    ensures r.Ok? ==> r.value.outputFileName == LegacyFileName(c.modelsOutputFilename)
  {
    if c.modelsOutputDir == "" then Err("config error: undefined models_output_dir")
    else
      var dir := c.modelsOutputDir[..|c.modelsOutputDir|];
      Ok(GoModels.Target(dir, LegacyFileName(c.modelsOutputFilename), GoModels.PackageNameAsWritten(c)))
  }

  /** The target with the trailing '/' dropped before the package name is taken. */
  function LegacyTarget(c: GenModels): (r: Result<GoModels.Target, string>)
    ensures r.Err? <==> c.modelsOutputDir == ""
    ensures r.Ok? ==> r.value.outputDir == GetModelsOutputDir(c.modelsOutputDir)
    ensures r.Ok? ==> r.value.packageName == GoModels.PackageName(c)
    ensures r.Ok? ==> r.value.outputFileName == LegacyFileName(c.modelsOutputFilename)
    ensures r.Ok? && c.modelsPackageName == "" ==> '/' !in r.value.packageName
  {
    if c.modelsOutputDir == "" then Err("config error: undefined models_output_dir")
    else Ok(GoModels.Target(GetModelsOutputDir(c.modelsOutputDir), LegacyFileName(c.modelsOutputFilename), GoModels.PackageName(c)))
  }

  /** "db/models/" without a package name: the package clause as written is empty; corrected it is "models". */
  lemma LegacyTrailingSlash()
    ensures var c := GenModels("db/models/", "", "", false, [], [], [], [], [], []);
      && LegacyTargetAsWritten(c) == Ok(GoModels.Target("db/models/", "", ""))
      && LegacyTarget(c) == Ok(GoModels.Target("db/models", "", "models"))
  {
    GoModels.TrailingSlashPackage();
    var c := GenModels("db/models/", "", "", false, [], [], [], [], [], []);
    assert GetModelsOutputDir(c.modelsOutputDir) == "db/models";
  }

  /** Without a trailing '/' the two targets agree. */
  lemma TargetsAgreeWithoutSlash(c: GenModels)
    requires !HasSuffix(c.modelsOutputDir, "/")
    ensures LegacyTargetAsWritten(c) == LegacyTarget(c)
  {
    if c.modelsOutputDir != "" {
      var d := c.modelsOutputDir;
      assert d[..|d|] == d;
      if c.modelsPackageName == "" {
        assert GetModelsOutputDir(d) == d;
      }
    }
  }
}
