/**
 * The models generator (internal/gomodels/gomodels.go): processStructs, the in-place edit
 * pipeline over the struct catalog (uint widening, added fields, renames and retypes by field
 * name and by type, targeted updates, deletions); getScalarTypes; and the output target and the
 * import list of compileGoModels.
 */
module GoModels {
  import opened Wrappers
  import opened Strings
  import opened Fields
  import opened Config
  import Structs

  /** How processStructs stops.  NilTagMapWrite is the runtime panic of a write into a nil tag map. */
  datatype ProcessError =
    | StructNotFound(structName: string)
    | UnavailablePosition(position: string, structName: string)
    | FieldNotFound(fieldName: string, structName: string)
    | NilTagMapWrite

  /** The catalog after a stage, and the error that stopped it, if any. */
  datatype Stage = Stage(structs: Structs.StructMap, err: Option<ProcessError>)

  // ---------------------------------------------------------------- tags written from the config

  /** Tags written one by one into a map: a later tag overwrites an earlier one of the same name. */
  function WriteTags(base: map<string, string>, tags: seq<Tag>): (r: map<string, string>)
    ensures r.Keys == base.Keys + set i | 0 <= i < |tags| :: tags[i].name
    ensures forall k :: k in base && (forall i :: 0 <= i < |tags| ==> tags[i].name != k) ==> r[k] == base[k]
    decreases |tags|
  {
    if |tags| == 0 then base
    else
      var init := tags[..|tags| - 1];
      var last := tags[|tags| - 1];
      assert forall i :: 0 <= i < |init| ==> init[i] == tags[i];
      var r := WriteTags(base, init)[last.name := last.value];
      assert r.Keys == base.Keys + set i | 0 <= i < |tags| :: tags[i].name by {
        forall k ensures k in r.Keys <==> k in base.Keys + set i | 0 <= i < |tags| :: tags[i].name {
          if k in set i | 0 <= i < |tags| :: tags[i].name {
            var i :| 0 <= i < |tags| && tags[i].name == k;
            if i < |init| {
              assert k in set j | 0 <= j < |init| :: init[j].name;
            }
          }
        }
      }
      r
  }

  /** The tag written last under a name is the value that name ends up with. */
  lemma {:induction false} LastTagWins(base: map<string, string>, tags: seq<Tag>, i: nat)
    requires i < |tags|
    requires forall j :: i < j < |tags| ==> tags[j].name != tags[i].name
    ensures WriteTags(base, tags)[tags[i].name] == tags[i].value
    decreases |tags|
  {
    if i < |tags| - 1 {
      var init := tags[..|tags| - 1];
      assert init[i] == tags[i];
      forall j | i < j < |init| ensures init[j].name != init[i].name {
        assert init[j] == tags[j];
      }
      LastTagWins(base, init, i);
    }
  }

  /**
   * The tag rule shared by ByField, ByType and UpdateFields: unless the current tags are kept
   * (MatchWithCurrentTags) they are replaced by a fresh map, then the configured tags are
   * written.  Writing into a field's nil tag map panics: that is the None result.
   */
  function Retag(t: Tags, keepCurrent: bool, tags: seq<Tag>): (r: Option<Tags>)
    ensures r.None? <==> keepCurrent && t.NilTags? && |tags| > 0
    ensures r.Some? ==> r.value.Entries() == WriteTags(if keepCurrent then t.Entries() else map[], tags)
    ensures r.Some? && keepCurrent && |tags| == 0 ==> r.value == t
  {
    if !keepCurrent then Some(TagMap(WriteTags(map[], tags)))
    else if t.NilTags? then (if |tags| == 0 then Some(NilTags) else None)
    else Some(TagMap(WriteTags(t.entries, tags)))
  }

  function RetagPanics(t: Tags, keepCurrent: bool, tags: seq<Tag>): bool {
    Retag(t, keepCurrent, tags).None?
  }

  /** The retagged value where there is one (the panicking case keeps the old tags). */
  function Retagged(t: Tags, keepCurrent: bool, tags: seq<Tag>): Tags {
    var r := Retag(t, keepCurrent, tags);
    if r.Some? then r.value else t
  }

  // ---------------------------------------------------------------- editing every field of every struct

  /** One field edit, given the name of the struct that holds the field. */
  type FieldEdit = (string, StructField) -> StructField

  /** Where an edit panics, given the name of the struct that holds the field. */
  type FieldPanic = (string, StructField) -> bool

  function EditFields(structName: string, fields: seq<StructField>, edit: FieldEdit): (r: seq<StructField>)
    ensures |r| == |fields|
    ensures forall i :: 0 <= i < |fields| ==> r[i] == edit(structName, fields[i])
  {
    seq(|fields|, i requires 0 <= i < |fields| => edit(structName, fields[i]))
  }

  function EditStruct(s: StructParameters, edit: FieldEdit): StructParameters {
    s.(fields := EditFields(s.name, s.fields, edit))
  }

  /** An edit applied to every field of every struct: the loops over `*st` and `s.Fields`. */
  function EditAll(m: Structs.StructMap, edit: FieldEdit): (r: Structs.StructMap)
    ensures r.Keys == m.Keys
    ensures forall k :: k in m ==> r[k] == EditStruct(m[k], edit)
  {
    map k | k in m :: EditStruct(m[k], edit)
  }

  predicate StructPanics(s: StructParameters, panics: FieldPanic) {
    exists i :: 0 <= i < |s.fields| && panics(s.name, s.fields[i])
  }

  predicate AnyPanics(m: Structs.StructMap, panics: FieldPanic) {
    exists k :: k in m && StructPanics(m[k], panics)
  }

  /**
   * The loop shape of the widening, ByField and ByType stages: every field of every struct (in
   * map order) is edited in place; the first field whose edit panics stops the program.
   */
  method EditAllFields(st: Structs.Catalog, edit: FieldEdit, panics: FieldPanic) returns (panicked: bool)
    modifies st
    ensures panicked <==> AnyPanics(old(st.structs), panics)
    ensures !panicked ==> st.structs == EditAll(old(st.structs), edit)
  {
    ghost var start := st.structs;
    var todo := st.structs.Keys;
    while todo != {}
      invariant todo <= start.Keys && st.structs.Keys == start.Keys
      invariant forall k :: k in todo ==> st.structs[k] == start[k]
      invariant forall k :: k in start && k !in todo ==> st.structs[k] == EditStruct(start[k], edit)
      invariant forall k :: k in start && k !in todo ==> !StructPanics(start[k], panics)
      decreases |todo|
    {
      var k :| k in todo;
      var s := st.structs[k];
      var fields, stopped := EditStructFields(s, edit, panics);
      if stopped {
        return true;
      }
      st.structs := st.structs[k := s.(fields := fields)];
      todo := todo - {k};
    }
    assert st.structs == EditAll(start, edit);
    return false;
  }

  /** The inner loop: the fields of one struct, edited in order until an edit panics. */
  method EditStructFields(s: StructParameters, edit: FieldEdit, panics: FieldPanic)
    returns (fields: seq<StructField>, panicked: bool)
    ensures panicked <==> StructPanics(s, panics)
    ensures !panicked ==> fields == EditFields(s.name, s.fields, edit)
  {
    fields := s.fields;
    var i := 0;
    while i < |fields|
      invariant 0 <= i <= |fields| == |s.fields|
      invariant forall j :: 0 <= j < i ==> fields[j] == edit(s.name, s.fields[j]) && !panics(s.name, s.fields[j])
      invariant forall j :: i <= j < |fields| ==> fields[j] == s.fields[j]
    {
      if panics(s.name, fields[i]) {
        return fields, true;
      }
      fields := fields[i := edit(s.name, fields[i])];
      i := i + 1;
    }
    assert fields == EditFields(s.name, s.fields, edit);
    return fields, false;
  }

  // ---------------------------------------------------------------- stage 1: uint for ids

  /** The unsigned type an id of a signed type becomes. */
  function UnsignedOf(t: string): (r: Option<string>)
    ensures r.Some? <==> t == "int16" || t == "int32" || t == "int64"
    ensures r.Some? ==> r.value == "u" + t
  {
    if t == "int16" then Some("uint16")
    else if t == "int32" then Some("uint32")
    else if t == "int64" then Some("uint64")
    else None
  }

  /** A field the widening rewrites: an ...ID field, not excepted, of a (pointer to) int16/32/64. */
  predicate Widens(exceptions: seq<UintException>, structName: string, f: StructField) {
    HasSuffix(f.name, "ID") && !ExistPrefereExceptionsField(exceptions, structName, f.name)
    && UnsignedOf(RemoveChar(f.typ, '*')).Some?
  }

  function WidenField(exceptions: seq<UintException>, structName: string, f: StructField): (r: StructField)
    ensures r.name == f.name && r.tags == f.tags
    ensures !Widens(exceptions, structName, f) ==> r == f
    ensures Widens(exceptions, structName, f) ==>
      r.typ == (if HasPrefix(f.typ, "*") then "*" else "") + "u" + RemoveChar(f.typ, '*')
  {
    var ftype := RemoveChar(f.typ, '*');
    if !HasSuffix(f.name, "ID") || ExistPrefereExceptionsField(exceptions, structName, f.name) then f
    else match UnsignedOf(ftype)
      case None => f
      case Some(u) => f.(typ := if HasPrefix(f.typ, "*") then "*" + u else u)
  }

  /** A widened type keeps exactly one leading '*' iff the original started with one. */
  lemma WidenedStars(exceptions: seq<UintException>, structName: string, f: StructField)
    requires Widens(exceptions, structName, f)
    ensures var t := WidenField(exceptions, structName, f).typ;
      && (HasPrefix(t, "*") <==> HasPrefix(f.typ, "*"))
      && CountChar(t, '*') == (if HasPrefix(f.typ, "*") then 1 else 0)
      && RemoveChar(t, '*') == "u" + RemoveChar(f.typ, '*')
  {
    var u := "u" + RemoveChar(f.typ, '*');
    assert '*' !in u;
    CountCharAbsent(u, '*');
    RemoveCharAbsent(u, '*');
    if HasPrefix(f.typ, "*") {
      assert ("*" + u)[1..] == u;
    }
  }

  lemma {:induction false} CountCharAbsent(s: string, c: char)
    requires c !in s
    ensures CountChar(s, c) == 0
    decreases |s|
  {
    if |s| > 0 {
      CountCharAbsent(s[1..], c);
    }
  }

  function WidenEdit(exceptions: seq<UintException>): FieldEdit {
    (structName: string, f: StructField) => WidenField(exceptions, structName, f)
  }

  function NeverPanics(): FieldPanic {
    (structName: string, f: StructField) => false
  }

  // ---------------------------------------------------------------- stage 2: add fields

  function NewField(af: AddField): StructField {
    StructField(af.fieldName, af.typ, TagMap(WriteTags(map[], af.tags)))
  }

  predicate IsWordOrDot(c: char) {
    IsWord(c) || c == '.'
  }

  /** Length of the leading run of `[\w\.]` characters. */
  function DotWordRun(s: string): (n: nat)
    ensures n <= |s|
    ensures forall i :: 0 <= i < n ==> IsWordOrDot(s[i])
    ensures n < |s| ==> !IsWordOrDot(s[n])
  {
    if |s| == 0 || !IsWordOrDot(s[0]) then 0 else 1 + DotWordRun(s[1..])
  }

  /** Where the regexp `after ([\w\.]+)` can match: "after " followed by a `[\w\.]` character. */
  predicate AfterAt(pos: string, i: nat) {
    i + 7 <= |pos| && pos[i..i + 6] == "after " && IsWordOrDot(pos[i + 6])
  }

  /**
   * The group the regexp `after ([\w\.]+)` captures in the position string: at the leftmost
   * place it matches, the longest run of `[\w\.]` characters after "after ".
   */
  function AfterTarget(pos: string): (r: Option<string>)
    ensures r.None? <==> forall i :: 0 <= i <= |pos| ==> !AfterAt(pos, i)
    ensures r.Some? ==>
      exists i :: 0 <= i <= |pos| && AfterAt(pos, i) && (forall j :: 0 <= j < i ==> !AfterAt(pos, j))
                  && r.value == pos[i + 6..i + 6 + DotWordRun(pos[i + 6..])]
  {
    AfterFrom(pos, 0)
  }

  function AfterFrom(pos: string, from: nat): (r: Option<string>)
    requires from <= |pos|
    requires forall j :: 0 <= j < from ==> !AfterAt(pos, j)
    ensures r.None? <==> forall i :: 0 <= i <= |pos| ==> !AfterAt(pos, i)
    ensures r.Some? ==>
      exists i :: from <= i <= |pos| && AfterAt(pos, i) && (forall j :: 0 <= j < i ==> !AfterAt(pos, j))
                  && r.value == pos[i + 6..i + 6 + DotWordRun(pos[i + 6..])]
    decreases |pos| - from
  {
    if AfterAt(pos, from) then Some(pos[from + 6..from + 6 + DotWordRun(pos[from + 6..])])
    else if from + 7 > |pos| then
      assert forall i :: from < i <= |pos| ==> !AfterAt(pos, i);
      None
    else AfterFrom(pos, from + 1)
  }

  /** The captured anchor is never empty and holds only `[\w\.]` characters. */
  lemma AfterTargetShape(pos: string)
    requires AfterTarget(pos).Some?
    ensures |AfterTarget(pos).value| > 0
    ensures forall c :: c in AfterTarget(pos).value ==> IsWordOrDot(c)
  {
    var i :| 0 <= i <= |pos| && AfterAt(pos, i) && AfterTarget(pos).value == pos[i + 6..i + 6 + DotWordRun(pos[i + 6..])];
    assert pos[i + 6..][0] == pos[i + 6];
  }

  lemma AfterExample()
    ensures AfterTarget("after id") == Some("id")
    ensures AfterTarget("start") == None
  {
    assert AfterAt("after id", 0);
    assert "after id"[6..] == "id" && "after id"[6..8] == "id";
    assert DotWordRun("id") == 2 by {
      assert "id"[1..] == "d" && "d"[1..] == "";
    }
    assert forall i :: 0 <= i <= 5 ==> !AfterAt("start", i);
  }

  /**
   * Where the new field goes: 0 for "start" (also the empty position), the end for "end", right
   * after the first field named X for a position the `after X` regexp matches.  Otherwise the
   * position is unavailable, or X names no field.
   */
  function InsertPosition(fields: seq<StructField>, af: AddField): (r: Result<nat, ProcessError>)
    ensures r.Ok? ==> r.value <= |fields|
    ensures af.position == "" || af.position == "start" ==> r == Ok(0)
    ensures af.position == "end" ==> r == Ok(|fields|)
    ensures af.position !in {"", "start", "end"} && AfterTarget(af.position).None? ==>
      r == Err(UnavailablePosition(af.position, af.structName))
    ensures af.position !in {"", "start", "end"} && AfterTarget(af.position).Some? ==>
      var x := AfterTarget(af.position).value;
      && ((forall i :: 0 <= i < |fields| ==> fields[i].name != x) <==> r == Err(FieldNotFound(x, af.structName)))
      && (r.Ok? ==> 0 < r.value && fields[r.value - 1].name == x
                    && forall j :: 0 <= j < r.value - 1 ==> fields[j].name != x)
  {
    var position := if af.position == "" then "start" else af.position;
    if position == "start" then Ok(0)
    else if position == "end" then Ok(|fields|)
    else match AfterTarget(position)
      case None => Err(UnavailablePosition(af.position, af.structName))
      case Some(after) =>
        var i := ExistFieldIndex(fields, after);
        if i == -1 then Err(FieldNotFound(after, af.structName)) else Ok(i + 1)
  }

  /** The field list with the new field inserted. */
  function AddFieldTo(fields: seq<StructField>, af: AddField): (r: Result<seq<StructField>, ProcessError>)
    ensures r.Ok? <==> InsertPosition(fields, af).Ok?
    ensures r.Err? ==> r.error == InsertPosition(fields, af).error
    ensures r.Ok? ==> var p := InsertPosition(fields, af).value;
      && |r.value| == |fields| + 1 && r.value[p] == NewField(af)
      && r.value[..p] + r.value[p + 1..] == fields
  {
    match InsertPosition(fields, af)
      case Err(e) => Err(e)
      case Ok(p) =>
        InsertedAt(fields, p, NewField(af));
        Ok(fields[..p] + [NewField(af)] + fields[p..])
  }

  lemma InsertedAt(fields: seq<StructField>, p: nat, f: StructField)
    requires p <= |fields|
    ensures var r := fields[..p] + [f] + fields[p..];
      |r| == |fields| + 1 && r[p] == f && r[..p] + r[p + 1..] == fields
  {
    var r := fields[..p] + [f] + fields[p..];
    assert r[..p] == fields[..p] && r[p + 1..] == fields[p..];
  }

  /** The add_fields loop: each entry in turn; the first error stops it. */
  function AddFieldsStage(afs: seq<AddField>, m: Structs.StructMap): (r: Stage)
    ensures r.structs.Keys == m.Keys
    decreases |afs|
  {
    if |afs| == 0 then Stage(m, None)
    else
      var af := afs[0];
      if af.structName !in m then Stage(m, Some(StructNotFound(af.structName)))
      else match AddFieldTo(m[af.structName].fields, af)
        case Err(e) => Stage(m, Some(e))
        case Ok(fields) => AddFieldsStage(afs[1..], m[af.structName := m[af.structName].(fields := fields)])
  }

  /** One add_fields entry: the position switch of processStructs. */
  method InsertNewField(fields: seq<StructField>, f: AddField) returns (r: Result<seq<StructField>, ProcessError>)
    ensures r == AddFieldTo(fields, f)
  {
    var newField := NewField(f);
    var position := f.position;
    if position == "" {
      position := "start";
    }
    if position == "start" {
      assert fields[..0] + [newField] + fields[0..] == [newField] + fields;
      return Ok([newField] + fields);
    } else if position == "end" {
      assert fields[..|fields|] + [newField] + fields[|fields|..] == fields + [newField];
      return Ok(fields + [newField]);
    }
    var after := AfterTarget(position);
    if after.None? {
      return Err(UnavailablePosition(f.position, f.structName));
    }
    var existFieldIndex := ExistFieldIndex(fields, after.value);
    if existFieldIndex == -1 {
      return Err(FieldNotFound(after.value, f.structName));
    }
    return Ok(fields[..existFieldIndex + 1] + [newField] + fields[existFieldIndex + 1..]);
  }

  method AddFields(afs: seq<AddField>, st: Structs.Catalog) returns (err: Option<ProcessError>)
    modifies st
    ensures Stage(st.structs, err) == AddFieldsStage(afs, old(st.structs))
  {
    ghost var start := st.structs;
    var i := 0;
    while i < |afs|
      invariant 0 <= i <= |afs|
      invariant AddFieldsStage(afs[i..], st.structs) == AddFieldsStage(afs, start)
    {
      var f := afs[i];
      assert afs[i..][0] == f && afs[i..][1..] == afs[i + 1..];
      if f.structName !in st.structs {
        return Some(StructNotFound(f.structName));
      }
      var s := st.structs[f.structName];
      var fields := InsertNewField(s.fields, f);
      if fields.Err? {
        return Some(fields.error);
      }
      s := s.(fields := fields.value);
      st.structs := st.structs[f.structName := s];
      i := i + 1;
    }
    return None;
  }

  // ---------------------------------------------------------------- stage 3: update all fields by name

  function ByFieldApply(p: ByField, f: StructField): StructField {
    StructField(if p.newFieldName != "" then p.newFieldName else f.name,
                if p.newType != "" then p.newType else f.typ,
                Retagged(f.tags, p.matchWithCurrentTags, p.tags))
  }

  function ByFieldEdit(p: ByField): FieldEdit {
    (structName: string, f: StructField) => if f.name == p.fieldName then ByFieldApply(p, f) else f
  }

  function ByFieldPanic(p: ByField): FieldPanic {
    (structName: string, f: StructField) => f.name == p.fieldName && RetagPanics(f.tags, p.matchWithCurrentTags, p.tags)
  }

  /** The by_field entries in turn, each over every field of every struct. */
  function ByFieldStage(ps: seq<ByField>, m: Structs.StructMap): (r: Stage)
    ensures r.err.Some? ==> r.err == Some(NilTagMapWrite)
    ensures r.structs.Keys == m.Keys
    decreases |ps|
  {
    if |ps| == 0 then Stage(m, None)
    else if AnyPanics(m, ByFieldPanic(ps[0])) then Stage(m, Some(NilTagMapWrite))
    else ByFieldStage(ps[1..], EditAll(m, ByFieldEdit(ps[0])))
  }

  /**
   * One by_field entry: a field of that name gets the new name and the new type where they are
   * given, and the tag rule; every other field is left as it was.
   */
  lemma ByFieldEffect(p: ByField, m: Structs.StructMap, k: string, i: nat)
    requires k in m && i < |m[k].fields|
    ensures var f := m[k].fields[i];
      var g := EditAll(m, ByFieldEdit(p))[k].fields[i];
      && |EditAll(m, ByFieldEdit(p))[k].fields| == |m[k].fields|
      && (f.name != p.fieldName ==> g == f)
      && (f.name == p.fieldName ==>
            && g.name == (if p.newFieldName != "" then p.newFieldName else f.name)
            && g.typ == (if p.newType != "" then p.newType else f.typ)
            && (!RetagPanics(f.tags, p.matchWithCurrentTags, p.tags) ==>
                  g.tags.Entries() == WriteTags(if p.matchWithCurrentTags then f.tags.Entries() else map[], p.tags)))
  {
  }

  method UpdateAllByField(ps: seq<ByField>, st: Structs.Catalog) returns (err: Option<ProcessError>)
    modifies st
    ensures err == ByFieldStage(ps, old(st.structs)).err
    ensures err.None? ==> st.structs == ByFieldStage(ps, old(st.structs)).structs
  {
    ghost var start := st.structs;
    var i := 0;
    while i < |ps|
      invariant 0 <= i <= |ps|
      invariant ByFieldStage(ps[i..], st.structs) == ByFieldStage(ps, start)
    {
      assert ps[i..][0] == ps[i] && ps[i..][1..] == ps[i + 1..];
      var panicked := EditAllFields(st, ByFieldEdit(ps[i]), ByFieldPanic(ps[i]));
      if panicked {
        return Some(NilTagMapWrite);
      }
      i := i + 1;
    }
    return None;
  }

  // ---------------------------------------------------------------- stage 4: update all fields by type

  /** A matching field always takes the new type, even an empty one. */
  function ByTypeApply(p: ByType, f: StructField): StructField {
    StructField(f.name, p.newType, Retagged(f.tags, p.matchWithCurrentTags, p.tags))
  }

  function ByTypeEdit(p: ByType): FieldEdit {
    (structName: string, f: StructField) => if f.typ == p.typ then ByTypeApply(p, f) else f
  }

  function ByTypePanic(p: ByType): FieldPanic {
    (structName: string, f: StructField) => f.typ == p.typ && RetagPanics(f.tags, p.matchWithCurrentTags, p.tags)
  }

  function ByTypeStage(ps: seq<ByType>, m: Structs.StructMap): (r: Stage)
    ensures r.err.Some? ==> r.err == Some(NilTagMapWrite)
    ensures r.structs.Keys == m.Keys
    decreases |ps|
  {
    if |ps| == 0 then Stage(m, None)
    else if AnyPanics(m, ByTypePanic(ps[0])) then Stage(m, Some(NilTagMapWrite))
    else ByTypeStage(ps[1..], EditAll(m, ByTypeEdit(ps[0])))
  }

  /**
   * One by_type entry retypes exactly the fields of that type, keeps their names and applies the
   * tag rule to them; every other field is left as it was.
   */
  lemma ByTypeEffect(p: ByType, m: Structs.StructMap, k: string, i: nat)
    requires k in m && i < |m[k].fields|
    ensures var f := m[k].fields[i];
      var g := EditAll(m, ByTypeEdit(p))[k].fields[i];
      && |EditAll(m, ByTypeEdit(p))[k].fields| == |m[k].fields|
      && g.name == f.name
      && (f.typ != p.typ ==> g == f)
      && (f.typ == p.typ ==> g.typ == p.newType)
      && (f.typ == p.typ && !RetagPanics(f.tags, p.matchWithCurrentTags, p.tags) ==>
            g.tags.Entries() == WriteTags(if p.matchWithCurrentTags then f.tags.Entries() else map[], p.tags))
  {
  }

  method UpdateAllByType(ps: seq<ByType>, st: Structs.Catalog) returns (err: Option<ProcessError>)
    modifies st
    ensures err == ByTypeStage(ps, old(st.structs)).err
    ensures err.None? ==> st.structs == ByTypeStage(ps, old(st.structs)).structs
  {
    ghost var start := st.structs;
    var i := 0;
    while i < |ps|
      invariant 0 <= i <= |ps|
      invariant ByTypeStage(ps[i..], st.structs) == ByTypeStage(ps, start)
    {
      assert ps[i..][0] == ps[i] && ps[i..][1..] == ps[i + 1..];
      var panicked := EditAllFields(st, ByTypeEdit(ps[i]), ByTypePanic(ps[i]));
      if panicked {
        return Some(NilTagMapWrite);
      }
      i := i + 1;
    }
    return None;
  }

  // ---------------------------------------------------------------- stage 5: update fields

  function UpdateApply(params: NewFieldParameters, f: StructField): StructField {
    StructField(if params.name != "" then params.name else f.name,
                if params.typ != "" then params.typ else f.typ,
                Retagged(f.tags, params.matchWithCurrentTags, params.tags))
  }

  /** One update_fields entry: the first field of that name in that struct gets the new parameters. */
  function UpdateOne(uf: UpdateField, m: Structs.StructMap): (r: Stage)
    ensures r.structs.Keys == m.Keys
  {
    if uf.structName !in m then Stage(m, Some(StructNotFound(uf.structName)))
    else
      var fields := m[uf.structName].fields;
      var i := ExistFieldIndex(fields, uf.fieldName);
      if i == -1 then Stage(m, Some(FieldNotFound(uf.fieldName, uf.structName)))
      else if RetagPanics(fields[i].tags, uf.newParameters.matchWithCurrentTags, uf.newParameters.tags) then
        Stage(m, Some(NilTagMapWrite))
      else Stage(m[uf.structName := m[uf.structName].(fields := fields[i := UpdateApply(uf.newParameters, fields[i])])], None)
  }

  /** The update_fields entries in turn; the first error stops them. */
  function UpdateFieldsStage(ufs: seq<UpdateField>, m: Structs.StructMap): (r: Stage)
    ensures r.structs.Keys == m.Keys
    decreases |ufs|
  {
    if |ufs| == 0 then Stage(m, None)
    else
      var one := UpdateOne(ufs[0], m);
      if one.err.Some? then one else UpdateFieldsStage(ufs[1..], one.structs)
  }

  /**
   * A successful update_fields entry changes only the first field of that name in that struct:
   * every other struct, and every other field, stays as it was.
   */
  lemma UpdateOnlyFirst(uf: UpdateField, m: Structs.StructMap)
    requires UpdateOne(uf, m).err.None?
    ensures uf.structName in m
    ensures var r := UpdateOne(uf, m).structs;
      && (forall k :: k in m && k != uf.structName ==> r[k] == m[k])
      && |r[uf.structName].fields| == |m[uf.structName].fields|
      && var i := ExistFieldIndex(m[uf.structName].fields, uf.fieldName);
         && 0 <= i
         && (forall j :: 0 <= j < |m[uf.structName].fields| && j != i ==>
               r[uf.structName].fields[j] == m[uf.structName].fields[j])
         && r[uf.structName].fields[i] == UpdateApply(uf.newParameters, m[uf.structName].fields[i])
  {
  }

  method UpdateFields(ufs: seq<UpdateField>, st: Structs.Catalog) returns (err: Option<ProcessError>)
    modifies st
    ensures err == UpdateFieldsStage(ufs, old(st.structs)).err
    ensures err != Some(NilTagMapWrite) ==> st.structs == UpdateFieldsStage(ufs, old(st.structs)).structs
  {
    ghost var start := st.structs;
    var n := 0;
    while n < |ufs|
      invariant 0 <= n <= |ufs|
      invariant UpdateFieldsStage(ufs[n..], st.structs) == UpdateFieldsStage(ufs, start)
    {
      assert ufs[n..][0] == ufs[n] && ufs[n..][1..] == ufs[n + 1..];
      err := ApplyUpdateField(ufs[n], st);
      if err.Some? {
        return;
      }
      n := n + 1;
    }
    return None;
  }

  /** The body of the update_fields loop for one entry. */
  method ApplyUpdateField(f: UpdateField, st: Structs.Catalog) returns (err: Option<ProcessError>)
    modifies st
    ensures err == UpdateOne(f, old(st.structs)).err
    ensures err != Some(NilTagMapWrite) ==> st.structs == UpdateOne(f, old(st.structs)).structs
  {
    if f.structName !in st.structs {
      return Some(StructNotFound(f.structName));
    }
    var s := st.structs[f.structName];
    var existFieldIndex := ExistFieldIndex(s.fields, f.fieldName);
    if existFieldIndex == -1 {
      return Some(FieldNotFound(f.fieldName, f.structName));
    }
    var existField := s.fields[existFieldIndex];
    var params := f.newParameters;
    if params.name != "" {
      existField := existField.(name := params.name);
    }
    if params.typ != "" {
      existField := existField.(typ := params.typ);
    }
    var tags := Retag(existField.tags, params.matchWithCurrentTags, params.tags);
    if tags.None? {
      return Some(NilTagMapWrite);
    }
    existField := existField.(tags := tags.value);
    st.structs := st.structs[f.structName := s.(fields := s.fields[existFieldIndex := existField])];
    return None;
  }

  // ---------------------------------------------------------------- stage 6: delete fields

  /** The names deleted in turn, each at its first occurrence; the first missing name stops it. */
  function DeleteNames(fields: seq<StructField>, names: seq<string>): (r: (seq<StructField>, Option<string>))
    ensures r.1.Some? ==> r.1.value in names
    decreases |names|
  {
    if |names| == 0 then (fields, None)
    else
      var i := ExistFieldIndex(fields, names[0]);
      if i == -1 then (fields, Some(names[0]))
      else DeleteNames(fields[..i] + fields[i + 1..], names[1..])
  }

  /**
   * Deleting a name removes exactly its first occurrence: what precedes it is kept, what follows
   * moves up by one, in order.
   */
  lemma DeleteFirstOccurrence(fields: seq<StructField>, name: string)
    requires ExistFieldIndex(fields, name) != -1
    ensures var i := ExistFieldIndex(fields, name);
      var r := DeleteNames(fields, [name]).0;
      && DeleteNames(fields, [name]).1.None?
      && |r| == |fields| - 1
      && fields[i].name == name
      && (forall j :: 0 <= j < i ==> r[j] == fields[j] && r[j].name != name)
      && (forall j :: i <= j < |r| ==> r[j] == fields[j + 1])
      && multiset(r) + multiset{fields[i]} == multiset(fields)
  {
    var i := ExistFieldIndex(fields, name);
    assert [name][1..] == [];
    assert fields == fields[..i] + [fields[i]] + fields[i + 1..];
  }

  /** A run of successful deletions removes one field per name and adds none. */
  lemma {:induction false} DeleteNamesShrinks(fields: seq<StructField>, names: seq<string>)
    requires DeleteNames(fields, names).1.None?
    ensures |DeleteNames(fields, names).0| == |fields| - |names|
    ensures multiset(DeleteNames(fields, names).0) <= multiset(fields)
    decreases |names|
  {
    if |names| > 0 {
      var i := ExistFieldIndex(fields, names[0]);
      var rest := fields[..i] + fields[i + 1..];
      assert DeleteNames(fields, names) == DeleteNames(rest, names[1..]);
      DeleteNamesShrinks(rest, names[1..]);
      RemoveAtMultiset(fields, i);
    }
  }

  lemma RemoveAtMultiset(fields: seq<StructField>, i: nat)
    requires i < |fields|
    ensures |fields[..i] + fields[i + 1..]| == |fields| - 1
    ensures multiset(fields) == multiset(fields[..i] + fields[i + 1..]) + multiset{fields[i]}
  {
    assert fields == fields[..i] + [fields[i]] + fields[i + 1..];
  }

  /** The delete_fields entries in turn; deletions made before an error stay made. */
  function DeleteFieldsStage(dfs: seq<DeleteField>, m: Structs.StructMap): (r: Stage)
    ensures r.structs.Keys == m.Keys
    decreases |dfs|
  {
    if |dfs| == 0 then Stage(m, None)
    else
      var df := dfs[0];
      if df.structName !in m then Stage(m, Some(StructNotFound(df.structName)))
      else
        var r := DeleteNames(m[df.structName].fields, df.fieldNames);
        var m' := m[df.structName := m[df.structName].(fields := r.0)];
        if r.1.Some? then Stage(m', Some(FieldNotFound(r.1.value, df.structName)))
        else DeleteFieldsStage(dfs[1..], m')
  }

  method DeleteFields(dfs: seq<DeleteField>, st: Structs.Catalog) returns (err: Option<ProcessError>)
    modifies st
    ensures Stage(st.structs, err) == DeleteFieldsStage(dfs, old(st.structs))
  {
    ghost var start := st.structs;
    var n := 0;
    while n < |dfs|
      invariant 0 <= n <= |dfs|
      invariant DeleteFieldsStage(dfs[n..], st.structs) == DeleteFieldsStage(dfs, start)
    {
      var item := dfs[n];
      assert dfs[n..][0] == item && dfs[n..][1..] == dfs[n + 1..];
      if item.structName !in st.structs {
        return Some(StructNotFound(item.structName));
      }
      var s := st.structs[item.structName];
      var fields := s.fields;
      var k := 0;
      while k < |item.fieldNames|
        invariant 0 <= k <= |item.fieldNames|
        invariant DeleteNames(fields, item.fieldNames[k..]) == DeleteNames(s.fields, item.fieldNames)
      {
        var name := item.fieldNames[k];
        assert item.fieldNames[k..][0] == name && item.fieldNames[k..][1..] == item.fieldNames[k + 1..];
        var existFieldIndex := ExistFieldIndex(fields, name);
        if existFieldIndex == -1 {
          st.structs := st.structs[item.structName := s.(fields := fields)];
          return Some(FieldNotFound(name, item.structName));
        }
        fields := fields[..existFieldIndex] + fields[existFieldIndex + 1..];
        k := k + 1;
      }
      assert item.fieldNames[k..] == [];
      st.structs := st.structs[item.structName := s.(fields := fields)];
      n := n + 1;
    }
    return None;
  }

  // ---------------------------------------------------------------- processStructs

  /**
   * The stages in their fixed order; an error stops the later stages, earlier edits persist.
   * No stage adds or removes a struct.
   */
  function Process(c: GenModels, m: Structs.StructMap): (r: Stage)
    ensures r.structs.Keys == m.Keys
  {
    var widened := if c.useUintForIds then EditAll(m, WidenEdit(c.uintExceptions)) else m;
    var added := AddFieldsStage(c.addFields, widened);
    if added.err.Some? then added
    else
      var renamed := ByFieldStage(c.byField, added.structs);
      if renamed.err.Some? then renamed
      else
        var retyped := ByTypeStage(c.byType, renamed.structs);
        if retyped.err.Some? then retyped
        else
          var updated := UpdateFieldsStage(c.updateFields, retyped.structs);
          if updated.err.Some? then updated
          else DeleteFieldsStage(c.deleteFields, updated.structs)
  }

  /**
   * processStructs: the catalog after the stages, or the error that stopped them.  After a
   * panic the program is gone, so only the panic itself is stated.
   */
  method ProcessStructs(c: GenModels, st: Structs.Catalog) returns (err: Option<ProcessError>)
    modifies st
    ensures err == Process(c, old(st.structs)).err
    ensures err != Some(NilTagMapWrite) ==> st.structs == Process(c, old(st.structs)).structs
  {
    if c.useUintForIds {
      var panicked := EditAllFields(st, WidenEdit(c.uintExceptions), NeverPanics());
      assert !panicked;
    }
    err := AddFields(c.addFields, st);
    if err.Some? {
      return;
    }
    err := UpdateAllByField(c.byField, st);
    if err.Some? {
      return;
    }
    err := UpdateAllByType(c.byType, st);
    if err.Some? {
      return;
    }
    err := UpdateFields(c.updateFields, st);
    if err.Some? {
      return;
    }
    err := DeleteFields(c.deleteFields, st);
  }

  // ---------------------------------------------------------------- getScalarTypes

  /** Regexp `\s`: space, tab, newline, form feed, carriage return. */
  predicate IsSpace(c: char) {
    c == ' ' || c == '\t' || c == '\n' || c == '\U{0C}' || c == '\r'
  }

  /** Length of the leading run of `[^\s]` characters. */
  function NonSpaceRun(s: string): (n: nat)
    ensures n <= |s|
    ensures forall i :: 0 <= i < n ==> !IsSpace(s[i])
    ensures n < |s| ==> IsSpace(s[n])
  {
    if |s| == 0 || IsSpace(s[0]) then 0 else 1 + NonSpaceRun(s[1..])
  }

  /** The two groups of the regexp `^type (\w+) ([^\s]+)` on a line, if it matches. */
  function ScalarDecl(line: string): (r: Option<(string, string)>)
    ensures r.Some? ==> IsWordString(r.value.0) && |r.value.1| > 0
    ensures r.Some? ==> forall c :: c in r.value.1 ==> !IsSpace(c)
    ensures r.Some? ==> HasPrefix(line, "type " + r.value.0 + " " + r.value.1)
  {
    if !HasPrefix(line, "type ") then None
    else
      var rest := line[5..];
      var n := WordRun(rest);
      if n == 0 || n == |rest| || rest[n] != ' ' then None
      else
        var after := rest[n + 1..];
        var k := NonSpaceRun(after);
        if k == 0 then None
        else
          assert line[..5 + n + 1 + k] == "type " + rest[..n] + " " + after[..k];
          Some((rest[..n], after[..k]))
  }

  /** One line of getScalarTypes: a declaration outside a struct header adds or replaces its alias. */
  function AddScalar(types: Structs.Types, line: string): Structs.Types {
    if Contains(line, "struct {") then types
    else match ScalarDecl(line)
      case None => types
      case Some(decl) => types[decl.0 := Structs.TypesParameters(decl.0, decl.1)]
  }

  /** The alias table of the lines, read in order: a later declaration of a name wins. */
  function ScalarTypesOf(lines: seq<string>): (r: Structs.Types)
    ensures forall k :: k in r ==> r[k].name == k
    decreases |lines|
  {
    if |lines| == 0 then map[] else AddScalar(ScalarTypesOf(lines[..|lines| - 1]), lines[|lines| - 1])
  }

  lemma ScalarTypesStep(lines: seq<string>, i: nat)
    requires i < |lines|
    ensures ScalarTypesOf(lines[..i + 1]) == AddScalar(ScalarTypesOf(lines[..i]), lines[i])
  {
    assert lines[..i + 1][..i] == lines[..i];
  }

  /** getScalarTypes: the `type Name Under` declarations of the file's complete lines. */
  method GetScalarTypes(file: string) returns (types: Structs.Types)
    ensures types == ScalarTypesOf(Lines(file))
  {
    var lines := Lines(file);
    types := map[];
    var i := 0;
    while i < |lines|
      invariant 0 <= i <= |lines|
      invariant types == ScalarTypesOf(lines[..i])
    {
      var line := lines[i];
      ScalarTypesStep(lines, i);
      if !Contains(line, "struct {") {
        var decl := ScalarDecl(line);
        if decl.Some? {
          types := types[decl.value.0 := Structs.TypesParameters(decl.value.0, decl.value.1)];
        }
      }
      i := i + 1;
    }
    assert lines[..i] == lines;
  }

  /** A `type Name Under` line declares Name as an alias of Under. */
  lemma ScalarDeclOfLine(name: string, under: string, rest: string)
    requires IsWordString(name) && |under| > 0 && forall c :: c in under ==> !IsSpace(c)
    requires |rest| > 0 && IsSpace(rest[0])
    ensures ScalarDecl("type " + name + " " + under + rest) == Some((name, under))
  {
    WordRunOf(name, [' '] + (under + rest));
    NonSpaceRunOf(under, rest);
    ScalarDeclOfParts("type " + name + " " + under + rest, name, under, rest);
  }

  lemma ScalarDeclOfParts(line: string, name: string, under: string, rest: string)
    requires line == "type " + name + " " + under + rest
    requires 0 < |name| && WordRun(name + ([' '] + (under + rest))) == |name|
    requires 0 < |under| && NonSpaceRun(under + rest) == |under| && |rest| > 0
    ensures ScalarDecl(line) == Some((name, under))
  {
    TypeLineSplit(line, name, under, rest);
    ScalarDeclOfTail(line, name, under);
  }

  lemma TypeLineSplit(line: string, name: string, under: string, rest: string)
    requires line == "type " + name + " " + under + rest
    ensures HasPrefix(line, "type ") && |line| == 5 + |name| + 1 + |under| + |rest|
    ensures line[5..] == name + ([' '] + (under + rest))
    ensures line[5 + |name|] == ' ' && line[5 + |name| + 1..] == under + rest
    ensures line[5..5 + |name|] == name && line[5 + |name| + 1..5 + |name| + 1 + |under|] == under
  {
    assert line[..5] == "type ";
  }

  /** The declaration read from a `type ` line once the name and the underlying type are delimited. */
  lemma ScalarDeclOfTail(line: string, name: string, under: string)
    requires HasPrefix(line, "type ") && |line| > 5 + |name| + 1 + |under|
    requires 0 < |name| == WordRun(line[5..]) && line[5 + |name|] == ' '
    requires 0 < |under| == NonSpaceRun(line[5 + |name| + 1..])
    requires line[5..5 + |name|] == name && line[5 + |name| + 1..5 + |name| + 1 + |under|] == under
    ensures ScalarDecl(line) == Some((name, under))
  {
    var n, rest := |name|, line[5..];
    assert rest[n] == ' ' && rest[n + 1..] == line[5 + n + 1..] && rest[..n] == name;
    assert rest[n + 1..][..|under|] == under;
  }

  lemma {:induction false} NonSpaceRunOf(w: string, rest: string)
    requires forall c :: c in w ==> !IsSpace(c)
    requires |rest| > 0 && IsSpace(rest[0])
    ensures NonSpaceRun(w + rest) == |w|
    decreases |w|
  {
    if |w| > 0 {
      assert (w + rest)[1..] == w[1..] + rest;
      assert (w + rest)[0] == w[0];
      NonSpaceRunOf(w[1..], rest);
    } else {
      assert w + rest == rest;
    }
  }

  /** A line that mentions "struct {" declares nothing, even when it starts with "type ". */
  lemma StructLineSkipped(lines: seq<string>, line: string)
    requires Contains(line, "struct {")
    ensures ScalarTypesOf(lines + [line]) == ScalarTypesOf(lines)
  {
    assert (lines + [line])[..|lines|] == lines;
  }

  // ---------------------------------------------------------------- compileGoModels: imports and target

  /** The imports of all structs, each once, in the order the (unordered) map walk meets them. */
  method CollectImports(st: Structs.StructMap) returns (allImports: seq<string>)
    ensures Structs.Distinct(allImports)
    ensures forall x :: x in allImports <==> exists k :: k in st && x in st[k].imports
  {
    allImports := [];
    var todo := st.Keys;
    while todo != {}
      invariant todo <= st.Keys
      invariant Structs.Distinct(allImports)
      invariant forall x :: x in allImports <==> exists k :: k in st && k !in todo && x in st[k].imports
      decreases |todo|
    {
      var k :| k in todo;
      var imports := st[k].imports;
      var j := 0;
      while j < |imports|
        invariant 0 <= j <= |imports|
        invariant Structs.Distinct(allImports)
        invariant forall x :: x in allImports <==>
          (exists k' :: k' in st && k' !in todo && x in st[k'].imports) || x in imports[..j]
      {
        assert imports[..j + 1] == imports[..j] + [imports[j]];
        if !Utils.ExistInArray(allImports, imports[j]) {
          allImports := allImports + [imports[j]];
        }
        j := j + 1;
      }
      assert imports[..j] == imports;
      todo := todo - {k};
    }
  }

  /** Where compileGoModels writes, and the package clause it uses. */
  datatype Target = Target(outputDir: string, outputFileName: string, packageName: string)

  /** The package name as written: the last '/'-piece of the configured directory. */
  function PackageNameAsWritten(c: GenModels): string {
    if c.modelsPackageName != "" then c.modelsPackageName else LastSegment(c.modelsOutputDir, '/')
  }

  /** The package name taken from the directory without its trailing '/'. */
  function PackageName(c: GenModels): (r: string)
    requires c.modelsOutputDir != ""
    ensures c.modelsPackageName != "" ==> r == c.modelsPackageName
    ensures c.modelsPackageName == "" ==> '/' !in r && HasSuffix(GetModelsOutputDir(c.modelsOutputDir), r)
  {
    if c.modelsPackageName != "" then c.modelsPackageName else LastSegment(GetModelsOutputDir(c.modelsOutputDir), '/')
  }

  /** The target of compileGoModels: an error without a models directory. */
  function GoModelsTarget(c: GenModels): (r: Result<Target, string>)
    ensures r.Err? <==> c.modelsOutputDir == ""
    ensures r.Ok? ==> HasSuffix(r.value.outputFileName, ".go") && r.value.packageName == PackageName(c)
    ensures r.Ok? ==> r.value.outputDir == GetModelsOutputDir(c.modelsOutputDir)
  {
    if c.modelsOutputDir == "" then Err("config error: undefined models_output_dir")
    else Ok(Target(GetModelsOutputDir(c.modelsOutputDir), GetModelsOutputFileName(c.modelsOutputFilename), PackageName(c)))
  }

  /**
   * With a trailing '/' on the models directory and no package name, the package clause as
   * written is empty, while the directory itself is written without the '/'.
   */
  lemma TrailingSlashPackage()
    ensures var c := GenModels("db/models/", "", "", false, [], [], [], [], [], []);
      && PackageNameAsWritten(c) == ""
      && PackageName(c) == "models"
  {
    var c := GenModels("db/models/", "", "", false, [], [], [], [], [], []);
    assert GetModelsOutputDir(c.modelsOutputDir) == "db/models";
    assert "db/models" == "db" + "/" + "models";
    assert '/' !in "models" && '/' !in "db";
    LastSegmentAfter("db", "models");
  }

  lemma LastSegmentAfter(a: string, b: string)
    requires '/' !in a && '/' !in b
    ensures LastSegment(a + "/" + b, '/') == b
  {
    assert a + "/" + b == a + (['/'] + b);
    LastSegmentIsLastPiece(a + "/" + b, '/');
    SplitAfterPiece(a, '/', b);
    NoSepSplit(b, '/');
  }
}
