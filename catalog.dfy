/**
 * The struct catalog of internal/structs/structs.go: the map from struct name to struct, the
 * struct-declaration reader parseTypeSpec, the legacy line reader GetStructsOld and the closure
 * filler FillMissedTypes that copies every referenced struct into a models catalog.
 */
module Structs {
  import opened Wrappers
  import opened Strings
  import opened TypeExpr
  import opened Fields

  /** TypesParameters: a scalar alias `type Name Type` read from a models file. */
  datatype TypesParameters = TypesParameters(name: string, typ: string)

  /** Types: the scalar aliases by name. */
  type Types = map<string, TypesParameters>

  type StructMap = map<string, StructParameters>

  predicate Distinct<T(==)>(s: seq<T>) {
    forall i, j :: 0 <= i < j < |s| ==> s[i] != s[j]
  }

  // ---------------------------------------------------------------- RemoveUnexportedFields

  /** The elements of `s` that satisfy `keep`, in their original order. */
  function Filter<T>(s: seq<T>, keep: T -> bool): (r: seq<T>)
    ensures |r| <= |s|
    decreases |s|
  {
    if |s| == 0 then []
    else (if keep(s[0]) then [s[0]] else []) + Filter(s[1..], keep)
  }

  /** The exported fields, in their original order. */
  function ExportedFields(fields: seq<StructField>): seq<StructField> {
    Filter(fields, IsExported)
  }

  /** Exactly the elements satisfying `keep` are kept. */
  lemma {:induction false} FilterMembers<T>(s: seq<T>, keep: T -> bool)
    ensures forall x :: x in Filter(s, keep) <==> x in s && keep(x)
    decreases |s|
  {
    if |s| > 0 {
      FilterMembers(s[1..], keep);
      assert s == [s[0]] + s[1..];
    }
  }

  /** Filtering distributes over concatenation: the kept elements stay in their relative order. */
  lemma {:induction false} FilterAppend<T>(a: seq<T>, b: seq<T>, keep: T -> bool)
    ensures Filter(a + b, keep) == Filter(a, keep) + Filter(b, keep)
    decreases |a|
  {
    if |a| == 0 {
      assert a + b == b;
    } else {
      FilterAppend(a[1..], b, keep);
      var head := if keep(a[0]) then [a[0]] else [];
      assert (a + b)[0] == a[0] && (a + b)[1..] == a[1..] + b;
      assert Filter(a + b, keep) == head + Filter(a[1..] + b, keep);
      assert Filter(a, keep) == head + Filter(a[1..], keep);
    }
  }

  /** Filtering twice removes nothing more. */
  lemma {:induction false} FilterIdempotent<T>(s: seq<T>, keep: T -> bool)
    ensures Filter(Filter(s, keep), keep) == Filter(s, keep)
    decreases |s|
  {
    if |s| > 0 {
      FilterIdempotent(s[1..], keep);
      var rest := Filter(s[1..], keep);
      if keep(s[0]) {
        assert ([s[0]] + rest)[0] == s[0] && ([s[0]] + rest)[1..] == rest;
      } else {
        assert Filter(s, keep) == rest;
      }
    }
  }

  lemma FilterLast<T>(s: seq<T>, i: nat, keep: T -> bool)
    requires i < |s|
    ensures Filter(s[..i + 1], keep) == Filter(s[..i], keep) + (if keep(s[i]) then [s[i]] else [])
  {
    assert s[..i + 1] == s[..i] + [s[i]];
    FilterAppend(s[..i], [s[i]], keep);
    assert [s[i]][1..] == [];
  }

  /** RemoveUnexportedFields keeps exactly the exported fields, and a second pass changes nothing. */
  lemma ExportedFieldsProperties(fields: seq<StructField>)
    ensures forall f :: f in ExportedFields(fields) <==> f in fields && IsExported(f)
    ensures ExportedFields(ExportedFields(fields)) == ExportedFields(fields)
  {
    FilterMembers(fields, IsExported);
    FilterIdempotent(fields, IsExported);
  }

  /** The inner loop of RemoveUnexportedFields. */
  method KeepExported(fields: seq<StructField>) returns (kept: seq<StructField>)
    ensures kept == ExportedFields(fields)
  {
    kept := [];
    var i := 0;
    while i < |fields|
      invariant 0 <= i <= |fields|
      invariant kept == ExportedFields(fields[..i])
    {
      FilterLast(fields, i, IsExported);
      if IsExported(fields[i]) {
        kept := kept + [fields[i]];
      }
      i := i + 1;
    }
    assert fields[..i] == fields;
  }

  /** Structs: the catalog, a map from struct name to struct that its methods update in place. */
  class Catalog {
    var structs: StructMap

    constructor ()
      ensures structs == map[]
    {
      structs := map[];
    }

    /** AddStruct: stores (or replaces) the struct under `name`. */
    method AddStruct(name: string, params: StructParameters)
      modifies this
      ensures structs == old(structs)[name := params]
    {
      structs := structs[name := params];
    }

    /** RemoveUnexportedFields: every struct keeps only its exported fields; names are untouched. */
    method RemoveUnexportedFields()
      modifies this
      ensures structs.Keys == old(structs).Keys
      ensures forall k :: k in structs ==>
        structs[k] == old(structs)[k].(fields := ExportedFields(old(structs)[k].fields))
    {
      ghost var start := structs;
      var todo := structs.Keys;
      while todo != {}
        invariant todo <= structs.Keys == start.Keys
        invariant forall k :: k in todo ==> structs[k] == start[k]
        invariant forall k :: k in structs && k !in todo ==>
          structs[k] == start[k].(fields := ExportedFields(start[k].fields))
        decreases |todo|
      {
        var k :| k in todo;
        var s := structs[k];
        var kept := KeepExported(s.fields);
        structs := structs[k := s.(fields := kept)];
        todo := todo - {k};
      }
    }
  }

  // ---------------------------------------------------------------- parseTypeSpec

  /** A type declaration `type Name T`; the name is optional in the AST. */
  datatype TypeSpec = TypeSpec(name: Option<string>, typ: Expr)

  /** A field's tag map: parsed from its tag literal, or never made (nil) when it has none. */
  function FieldTags(tag: Option<string>): (t: Tags)
    ensures tag.None? <==> t.NilTags?
    ensures forall k :: k in t.Entries() ==> IsWordString(k) && IsWordString(t.Entries()[k])
  {
    if tag.Some? then TagMap(ParseTags(tag.value)) else NilTags
  }

  function Repeat<T>(x: T, n: nat): (r: seq<T>)
    ensures |r| == n && forall i :: 0 <= i < n ==> r[i] == x
  {
    if n == 0 then [] else [x] + Repeat(x, n - 1)
  }

  /**
   * The entries one field declaration appends.  The k names of `A, B T` share one record whose
   * name is overwritten for each of them, so k entries carrying the last name are appended;
   * an embedded field (no names) and a field whose type parses to nothing append none.
   */
  function DeclEntries(d: FieldDecl): Result<seq<StructField>, ParseError> {
    match ParseTypeExpr(d.typ)
    case Err(e) => Err(e)
    case Ok(None) => Ok([])
    case Ok(Some(data)) =>
      if data.typeName == "" || |d.names| == 0 then Ok([])
      else Ok(Repeat(StructField(d.names[|d.names| - 1], data.typeName, FieldTags(d.tag)), |d.names|))
  }

  /**
   * A declaration fails exactly when its type does not parse; interface and function fields
   * append nothing; every entry carries the last name, the field's tags and a non-empty type.
   */
  lemma DeclEntriesShape(d: FieldDecl)
    ensures var r := DeclEntries(d);
      && (r.Err? <==> ParseTypeExpr(d.typ).Err?)
      && (r.Err? ==> r.error == ParseTypeExpr(d.typ).error)
      && (d.typ.InterfaceType? || d.typ.FuncType? ==> r == Ok([]))
      && (r.Ok? && |d.names| == 0 ==> r.value == [])
      && (r.Ok? ==> forall i :: 0 <= i < |r.value| ==>
            r.value[i].name == d.names[|d.names| - 1] && r.value[i].tags == FieldTags(d.tag)
            && r.value[i].typ == ParseTypeExpr(d.typ).value.value.typeName && |r.value[i].typ| > 0)
      && (r.Ok? && WellFormed(d.typ) && ParseTypeExpr(d.typ).value.Some? ==> |r.value| == |d.names|)
  {
    if WellFormed(d.typ) && ParseTypeExpr(d.typ).Ok? && ParseTypeExpr(d.typ).value.Some? {
      TypeNameNonEmpty(d.typ);
    }
  }

  lemma DeclEntriesParsed(d: FieldDecl, data: FieldExprData)
    requires ParseTypeExpr(d.typ) == Ok(Some(data)) && data.typeName != ""
    ensures |d.names| == 0 ==> DeclEntries(d) == Ok([])
    ensures |d.names| > 0 ==>
      DeclEntries(d) == Ok(Repeat(StructField(d.names[|d.names| - 1], data.typeName, FieldTags(d.tag)), |d.names|))
  {
  }

  /** As written, a field whose type parses to nothing (interface, func) has its name read through nil. */
  function DeclEntriesAsWritten(d: FieldDecl): Result<seq<StructField>, ParseError> {
    match ParseTypeExpr(d.typ)
    case Err(e) => Err(e)
    case Ok(None) => Err(NilDereference)
    case Ok(Some(data)) =>
      if data.typeName == "" || |d.names| == 0 then Ok([])
      else Ok(Repeat(StructField(d.names[|d.names| - 1], data.typeName, FieldTags(d.tag)), |d.names|))
  }

  /** The entries of a whole field list, in declaration order; the first parse error is fatal. */
  function DeclsEntries(decls: seq<FieldDecl>): Result<seq<StructField>, ParseError>
    decreases |decls|
  {
    if |decls| == 0 then Ok([])
    else
      var init := DeclsEntries(decls[..|decls| - 1]);
      var last := DeclEntries(decls[|decls| - 1]);
      if init.Err? then init
      else if last.Err? then Err(last.error)
      else Ok(init.value + last.value)
  }

  /** The field list of a struct type; a missing list (`struct` without braces) is empty. */
  function StructDecls(e: Expr): seq<FieldDecl>
    requires e.StructType?
  {
    if e.fields.Some? then e.fields.value else []
  }

  /**
   * parseTypeSpec: for a struct type, names the struct after the declaration and appends the
   * entries of its fields in order.  Any other type leaves the struct alone.  A field type that
   * cannot be parsed ends the program (log.Fatal), here the Err outcome.
   */
  function TypeSpecResult(sp: StructParameters, spec: TypeSpec): Result<StructParameters, ParseError> {
    if !spec.typ.StructType? then Ok(sp)
    else
      var named := if spec.name.Some? then sp.(name := spec.name.value, originalName := spec.name.value) else sp;
      var entries := DeclsEntries(StructDecls(spec.typ));
      if entries.Err? then Err(entries.error) else Ok(named.(fields := sp.fields + entries.value))
  }

  /** What parseTypeSpec promises: the struct's fields grow by its declarations' entries, and nothing else changes but the name. */
  lemma TypeSpecResultShape(sp: StructParameters, spec: TypeSpec)
    ensures var r := TypeSpecResult(sp, spec);
      && (!spec.typ.StructType? ==> r == Ok(sp))
      && (spec.typ.StructType? ==> (r.Ok? <==> DeclsEntries(StructDecls(spec.typ)).Ok?))
      && (r.Err? ==> r.error == DeclsEntries(StructDecls(spec.typ)).error)
      && (r.Ok? && spec.typ.StructType? ==> r.value.fields == sp.fields + DeclsEntries(StructDecls(spec.typ)).value)
      && (r.Ok? && spec.typ.StructType? && spec.name.Some? ==>
            r.value.name == spec.name.value && r.value.originalName == spec.name.value)
      && (r.Ok? && spec.name.None? ==> r.value.name == sp.name && r.value.originalName == sp.originalName)
      && (r.Ok? ==> r.value.imports == sp.imports && r.value.externalPackage == sp.externalPackage)
  {
  }

  /** parseTypeSpec, loop by loop. */
  method ParseTypeSpec(sp: StructParameters, spec: TypeSpec) returns (r: Result<StructParameters, ParseError>)
    ensures r == TypeSpecResult(sp, spec)
  {
    if !spec.typ.StructType? {
      return Ok(sp);
    }
    var out := sp;
    if spec.name.Some? {
      out := out.(name := spec.name.value, originalName := spec.name.value);
    }
    var decls := StructDecls(spec.typ);
    var fields := sp.fields;
    ghost var done: seq<StructField> := [];
    var i := 0;
    while i < |decls|
      invariant 0 <= i <= |decls|
      invariant DeclsEntries(decls[..i]) == Ok(done)
      invariant fields == sp.fields + done
    {
      var entries := FieldEntries(decls[i]);
      DeclsEntriesStep(decls, i);
      if entries.Err? {
        DeclsEntriesErrPrefix(decls, i + 1);
        return Err(entries.error);
      }
      fields := fields + entries.value;
      done := done + entries.value;
      i := i + 1;
    }
    assert decls[..|decls|] == decls;
    out := out.(fields := fields);
    r := Ok(out);
  }

  /** The body of parseTypeSpec's field loop for one declaration: the entries it appends. */
  method FieldEntries(d: FieldDecl) returns (r: Result<seq<StructField>, ParseError>)
    ensures r == DeclEntries(d)
  {
    var tags := FieldTags(d.tag);
    var parsed := ParseTypeExpr(d.typ);
    if parsed.Err? {
      return Err(parsed.error);
    }
    if parsed.value.None? || parsed.value.value.typeName == "" {
      return Ok([]);
    }
    var f := StructField("", parsed.value.value.typeName, tags);
    var appended := 0;
    for j := 0 to |d.names|
      invariant appended == j
      invariant j > 0 ==> f.name == d.names[j - 1]
      invariant f.typ == parsed.value.value.typeName && f.tags == tags
    {
      f := f.(name := d.names[j]);
      appended := appended + 1;
    }
    // the appended entries all point at the one record f
    DeclEntriesParsed(d, parsed.value.value);
    r := Ok(Repeat(f, appended));
  }

  /** One more declaration: its entries follow those of the declarations before it. */
  lemma DeclsEntriesStep(decls: seq<FieldDecl>, i: nat)
    requires i < |decls| && DeclsEntries(decls[..i]).Ok?
    ensures DeclEntries(decls[i]).Err? ==> DeclsEntries(decls[..i + 1]) == Err(DeclEntries(decls[i]).error)
    ensures DeclEntries(decls[i]).Ok? ==>
      DeclsEntries(decls[..i + 1]) == Ok(DeclsEntries(decls[..i]).value + DeclEntries(decls[i]).value)
  {
    assert decls[..i + 1][..i] == decls[..i];
  }

  /** Once a declaration fails to parse, the whole list fails with its error. */
  lemma {:induction false} DeclsEntriesErrPrefix(decls: seq<FieldDecl>, n: nat)
    requires n <= |decls| && DeclsEntries(decls[..n]).Err?
    ensures DeclsEntries(decls) == DeclsEntries(decls[..n])
    decreases |decls| - n
  {
    if n < |decls| {
      assert decls[..n + 1][..n] == decls[..n];
      DeclsEntriesErrPrefix(decls, n + 1);
    } else {
      assert decls[..n] == decls;
    }
  }

  /** Entries of concatenated field lists are the concatenated entries: declaration order is kept. */
  lemma {:induction false} DeclsEntriesAppend(a: seq<FieldDecl>, b: seq<FieldDecl>)
    requires DeclsEntries(a + b).Ok?
    ensures DeclsEntries(a).Ok? && DeclsEntries(b).Ok?
    ensures DeclsEntries(a + b).value == DeclsEntries(a).value + DeclsEntries(b).value
    decreases |b|
  {
    if |b| == 0 {
      assert a + b == a;
    } else {
      var ab := a + b;
      assert ab[..|ab| - 1] == a + b[..|b| - 1];
      assert ab[|ab| - 1] == b[|b| - 1];
      DeclsEntriesAppend(a, b[..|b| - 1]);
    }
  }

  /** Every appended entry has a non-empty type. */
  lemma {:induction false} DeclsEntriesTyped(decls: seq<FieldDecl>)
    requires DeclsEntries(decls).Ok?
    ensures forall i :: 0 <= i < |DeclsEntries(decls).value| ==> |DeclsEntries(decls).value[i].typ| > 0
    decreases |decls|
  {
    if |decls| > 0 {
      DeclsEntriesTyped(decls[..|decls| - 1]);
      DeclEntriesShape(decls[|decls| - 1]);
    }
  }

  /** As written, an interface-typed field such as `Data interface{}` panics; corrected, it is skipped. */
  lemma InterfaceFieldAsWritten()
    ensures DeclEntriesAsWritten(FieldDecl(["Data"], InterfaceType, None)) == Err(NilDereference)
    ensures DeclEntries(FieldDecl(["Data"], InterfaceType, None)) == Ok([])
  {
  }

  /** `A, B int` appends two entries that both read B (they share one record). */
  lemma TwoNamesShareLastName()
    ensures DeclEntries(FieldDecl(["A", "B"], Ident("int"), None))
         == Ok([StructField("B", "int", NilTags), StructField("B", "int", NilTags)])
  {
    assert !IdentExported("int");
    assert ParseTypeExpr(Ident("int")) == Ok(Some(Data(false, "int")));
    var f := StructField("B", "int", NilTags);
    assert Repeat(f, 1) == [f] + Repeat(f, 0) == [f];
    assert Repeat(f, 2) == [f] + Repeat(f, 1) == [f, f];
    assert FieldTags(None) == NilTags;
  }

  // ---------------------------------------------------------------- GetStructsOld

  /** One successful match of the field-line regexp: name, type and the raw tag literal ("" if absent). */
  datatype FieldMatch = FieldMatch(name: string, typ: string, tags: string)

  /**
   * The regexps GetStructsOld applies to a line, as functions: `startStruct` is the name captured
   * when `type (\w+) struct {` matches exactly once; `matchField` the submatches of the field regexp.
   */
  datatype LineMatchers = LineMatchers(startStruct: string -> Option<string>, matchField: string -> Option<FieldMatch>)

  /** The reader's state: the structs closed so far and the one being read. */
  datatype ScanState = ScanState(structs: StructMap, current: StructParameters)

  function EmptyStruct(imports: seq<string>): StructParameters {
    StructParameters("", "", imports, [], "")
  }

  /** A line beginning with '}' closes the current struct (regexp `^\}`). */
  predicate ClosesStruct(line: string) {
    HasPrefix(line, "}")
  }

  /** The field a matched line contributes; its tag map is always made. */
  function MatchedField(m: FieldMatch): StructField {
    StructField(m.name, m.typ, TagMap(ParseTags(m.tags)))
  }

  /** What one line does to the reader's state. */
  function ScanStep(st: ScanState, line: string, imports: seq<string>, re: LineMatchers): ScanState {
    if ClosesStruct(line) then
      ScanState(st.structs[st.current.name := st.current], EmptyStruct(imports))
    else if re.startStruct(line).Some? then
      ScanState(st.structs, EmptyStruct(imports).(name := re.startStruct(line).value))
    else if st.current.name != "" && re.matchField(line).Some? && re.matchField(line).value.name != "" then
      st.(current := st.current.(fields := st.current.fields + [MatchedField(re.matchField(line).value)]))
    else st
  }

  function Scan(st: ScanState, lines: seq<string>, imports: seq<string>, re: LineMatchers): ScanState
    decreases |lines|
  {
    if |lines| == 0 then st else Scan(ScanStep(st, lines[0], imports, re), lines[1..], imports, re)
  }

  /**
   * GetStructsOld: reads the models file line by line.  A `type X struct {` line opens struct X,
   * field lines are collected while a struct is open, and a line starting with '}' stores the
   * current struct under its name (the empty name when none is open).
   */
  method GetStructsOld(file: string, imports: seq<string>, re: LineMatchers) returns (structs: StructMap)
    ensures structs == Scan(ScanState(map[], EmptyStruct(imports)), Lines(file), imports, re).structs
  {
    var lines := Lines(file);
    structs := map[];
    var current := EmptyStruct(imports);
    var i := 0;
    while i < |lines|
      invariant 0 <= i <= |lines|
      invariant Scan(ScanState(structs, current), lines[i..], imports, re)
             == Scan(ScanState(map[], EmptyStruct(imports)), lines, imports, re)
    {
      assert lines[i..][1..] == lines[i + 1..];
      var line := lines[i];
      i := i + 1;
      if HasPrefix(line, "}") {
        structs := structs[current.name := current];
        current := EmptyStruct(imports);
        continue;
      }
      var started := re.startStruct(line);
      if started.Some? {
        current := StructParameters("", started.value, imports, [], "");
        continue;
      }
      if current.name != "" {
        var m := re.matchField(line);
        if m.None? {
          continue;
        }
        var field := StructField(m.value.name, m.value.typ, TagMap(ParseTags(m.value.tags)));
        if field.name != "" {
          current := current.(fields := current.fields + [field]);
        }
      }
    }
  }

  /** Scanning a concatenation scans the second part from where the first left off. */
  lemma {:induction false} ScanAppend(st: ScanState, a: seq<string>, b: seq<string>, imports: seq<string>, re: LineMatchers)
    ensures Scan(st, a + b, imports, re) == Scan(Scan(st, a, imports, re), b, imports, re)
    decreases |a|
  {
    if |a| == 0 {
      assert a + b == b;
    } else {
      assert (a + b)[0] == a[0] && (a + b)[1..] == a[1..] + b;
      ScanAppend(ScanStep(st, a[0], imports, re), a[1..], b, imports, re);
    }
  }

  /** The fields that a run of body lines contributes, in line order. */
  function BodyFields(lines: seq<string>, re: LineMatchers): seq<StructField>
    decreases |lines|
  {
    if |lines| == 0 then [] else LineFields(lines[0], re) + BodyFields(lines[1..], re)
  }

  /** The field one body line contributes: its match, unless there is none or its name is empty. */
  function LineFields(line: string, re: LineMatchers): seq<StructField> {
    var m := re.matchField(line);
    if m.Some? && m.value.name != "" then [MatchedField(m.value)] else []
  }

  /** A body line inside an open struct appends its field and changes nothing else. */
  lemma BodyLineStep(st: ScanState, line: string, imports: seq<string>, re: LineMatchers)
    requires st.current.name != "" && BodyLine(line, re)
    ensures ScanStep(st, line, imports, re) == st.(current := st.current.(fields := st.current.fields + LineFields(line, re)))
  {
  }

  /** A line that neither closes nor opens a struct. */
  predicate BodyLine(line: string, re: LineMatchers) {
    !ClosesStruct(line) && re.startStruct(line).None?
  }

  /** Inside an open struct, body lines append their fields in order and change nothing else. */
  lemma {:induction false} ScanBody(st: ScanState, body: seq<string>, imports: seq<string>, re: LineMatchers)
    requires st.current.name != ""
    requires forall i :: 0 <= i < |body| ==> BodyLine(body[i], re)
    ensures Scan(st, body, imports, re).structs == st.structs
    ensures Scan(st, body, imports, re).current == st.current.(fields := st.current.fields + BodyFields(body, re))
    decreases |body|
  {
    if |body| > 0 {
      ScanBody(st.(current := st.current.(fields := st.current.fields + LineFields(body[0], re))), body[1..], imports, re);
      ScanBodyStep(st, body, imports, re);
    }
  }

  lemma ScanBodyStep(st: ScanState, body: seq<string>, imports: seq<string>, re: LineMatchers)
    requires |body| > 0 && st.current.name != "" && BodyLine(body[0], re)
    requires var next := st.(current := st.current.(fields := st.current.fields + LineFields(body[0], re)));
      && Scan(next, body[1..], imports, re).structs == next.structs
      && Scan(next, body[1..], imports, re).current == next.current.(fields := next.current.fields + BodyFields(body[1..], re))
    ensures Scan(st, body, imports, re).structs == st.structs
    ensures Scan(st, body, imports, re).current == st.current.(fields := st.current.fields + BodyFields(body, re))
  {
    var added := st.current.fields + LineFields(body[0], re);
    BodyLineStep(st, body[0], imports, re);
    assert added + BodyFields(body[1..], re) == st.current.fields + BodyFields(body, re);
  }

  /**
   * A file holding one struct declaration yields exactly that struct, with the fields of its
   * body lines in order.
   */
  lemma OneStructFile(file: string, open: string, body: seq<string>, close: string,
                      imports: seq<string>, re: LineMatchers)
    requires Lines(file) == [open] + body + [close]
    requires !ClosesStruct(open) && re.startStruct(open).Some? && re.startStruct(open).value != ""
    requires forall i :: 0 <= i < |body| ==> BodyLine(body[i], re)
    requires ClosesStruct(close)
    ensures var name := re.startStruct(open).value;
      Scan(ScanState(map[], EmptyStruct(imports)), Lines(file), imports, re).structs
      == map[name := StructParameters("", name, imports, BodyFields(body, re), "")]
  {
    var name := re.startStruct(open).value;
    var st0 := ScanState(map[], EmptyStruct(imports));
    var st1 := ScanState(map[], StructParameters("", name, imports, [], ""));
    var st2 := st1.(current := st1.current.(fields := BodyFields(body, re)));
    assert Scan(st0, [open], imports, re) == st1 by {
      assert ScanStep(st0, open, imports, re) == st1;
      assert [open][1..] == [];
    }
    assert Scan(st0, [open] + body, imports, re) == st2 by {
      ScanAppend(st0, [open], body, imports, re);
      ScanBody(st1, body, imports, re);
    }
    assert Scan(st0, [open] + body + [close], imports, re) == Scan(st2, [close], imports, re) by {
      ScanAppend(st0, [open] + body, [close], imports, re);
    }
    assert Scan(st2, [close], imports, re) == ScanStep(st2, close, imports, re) by {
      assert [close][1..] == [];
    }
  }

  /** Unterminated text at the end of the file is ignored. */
  lemma GetStructsOldIgnoresTail(file: string, tail: string, imports: seq<string>, re: LineMatchers)
    requires |file| == 0 || file[|file| - 1] == '\n'
    requires '\n' !in tail
    ensures Scan(ScanState(map[], EmptyStruct(imports)), Lines(file + tail), imports, re)
         == Scan(ScanState(map[], EmptyStruct(imports)), Lines(file), imports, re)
  {
    LinesDropTail(file, tail);
  }

  // ---------------------------------------------------------------- GetNestedStructs / GetMissedStructs

  /** Every field has a type: GetNestedStructs slices its first character. */
  predicate Typed(fields: seq<StructField>) {
    forall i :: 0 <= i < |fields| ==> |fields[i].typ| > 0
  }

  predicate AllTyped(m: StructMap) {
    forall k :: k in m ==> Typed(m[k].fields)
  }

  /** The type with one leading '*' removed. */
  function StripStar(t: string): (r: string)
    ensures t == r || t == "*" + r
  {
    if |t| > 0 && t[0] == '*' then t[1..] else t
  }

  /** GetNestedStructs as written: the lower-case test looks past one '*', the result keeps it. */
  function NestedStructsAsWritten(fields: seq<StructField>, scalarTypes: Types, acc: seq<string>): seq<string>
    requires Typed(fields)
    decreases |fields|
  {
    if |fields| == 0 then acc
    else
      var t := fields[0].typ;
      var tp := StripStar(t);
      var acc' := if tp != UcFirst(tp) || t == "[]byte" || t in acc || t in scalarTypes then acc else acc + [t];
      NestedStructsAsWritten(fields[1..], scalarTypes, acc')
  }

  /** A field type that names another struct: upper-case initial, neither []byte nor a scalar alias. */
  predicate Nested(t: string, scalarTypes: Types) {
    var tp := StripStar(t);
    tp == UcFirst(tp) && tp != "[]byte" && tp !in scalarTypes
  }

  /**
   * GetNestedStructs, reading the struct name behind a pointer: the distinct names of the structs
   * the fields refer to, in order of first reference (after `acc`).
   */
  function NestedStructsFrom(fields: seq<StructField>, scalarTypes: Types, acc: seq<string>): (r: seq<string>)
    requires Typed(fields) && Distinct(acc)
    ensures Distinct(r)
    ensures forall x :: x in r <==>
      x in acc || exists i :: 0 <= i < |fields| && Nested(fields[i].typ, scalarTypes) && StripStar(fields[i].typ) == x
    decreases |fields|
  {
    if |fields| == 0 then acc
    else
      var tp := StripStar(fields[0].typ);
      var acc' := if !Nested(fields[0].typ, scalarTypes) || tp in acc then acc else acc + [tp];
      var r := NestedStructsFrom(fields[1..], scalarTypes, acc');
      assert forall x :: x in r <==>
        x in acc || exists i :: 0 <= i < |fields| && Nested(fields[i].typ, scalarTypes) && StripStar(fields[i].typ) == x
      by {
        forall x
          ensures x in r <==>
            x in acc || exists i :: 0 <= i < |fields| && Nested(fields[i].typ, scalarTypes) && StripStar(fields[i].typ) == x
        {
          if exists i :: 0 <= i < |fields[1..]| && Nested(fields[1..][i].typ, scalarTypes) && StripStar(fields[1..][i].typ) == x {
            var i :| 0 <= i < |fields[1..]| && Nested(fields[1..][i].typ, scalarTypes) && StripStar(fields[1..][i].typ) == x;
            assert fields[i + 1] == fields[1..][i];
          }
          if exists i :: 0 <= i < |fields| && Nested(fields[i].typ, scalarTypes) && StripStar(fields[i].typ) == x {
            var i :| 0 <= i < |fields| && Nested(fields[i].typ, scalarTypes) && StripStar(fields[i].typ) == x;
            if i > 0 {
              assert fields[1..][i - 1] == fields[i];
            }
          }
        }
      }
      r
  }

  function NestedStructs(fields: seq<StructField>, scalarTypes: Types): (r: seq<string>)
    requires Typed(fields)
    ensures Distinct(r)
    ensures forall x :: x in r <==>
      exists i :: 0 <= i < |fields| && Nested(fields[i].typ, scalarTypes) && StripStar(fields[i].typ) == x
    ensures forall x :: x in r ==> x != "[]byte" && x !in scalarTypes && x == UcFirst(x)
  {
    NestedStructsFrom(fields, scalarTypes, [])
  }

  /**
   * GetMissedStructs: the names the catalog's structs refer to that are not catalog keys.  Go
   * returns them in map-iteration order; the model returns the set.
   */
  function MissedStructs(m: StructMap, scalarTypes: Types): (r: set<string>)
    requires AllTyped(m)
    ensures forall x :: x in r ==> x !in m && x !in scalarTypes && x != "[]byte" && x == UcFirst(x)
    ensures forall k, x :: k in m && x in NestedStructs(m[k].fields, scalarTypes) && x !in m ==> x in r
  {
    set k, x | k in m && x in NestedStructs(m[k].fields, scalarTypes) && x !in m :: x
  }

  /** As written, a pointer field `Next *B` yields the name "*B", which no struct is called. */
  lemma PointerFieldAsWritten(allStructs: StructMap, scalarTypes: Types)
    requires forall k :: k in allStructs ==> |k| > 0 && k[0] != '*'
    requires "B" !in scalarTypes && "*B" !in scalarTypes
    ensures NestedStructsAsWritten([StructField("Next", "*B", NilTags)], scalarTypes, []) == ["*B"]
    ensures "*B" !in allStructs
    ensures NestedStructs([StructField("Next", "*B", NilTags)], scalarTypes) == ["B"]
  {
    var fs := [StructField("Next", "*B", NilTags)];
    assert StripStar("*B") == "B";
    assert UcFirst("B") == "B";
    assert fs[1..] == [];
  }

  // ---------------------------------------------------------------- FillMissedTypes

  lemma ShrinkingDifference(a: set<string>, b: set<string>, added: set<string>)
    requires added != {} && added <= a && forall y :: y in added ==> y !in b
    ensures |a - (b + added)| < |a - b|
  {
    var x :| x in added;
    assert x !in b;
    var c := a - b;
    assert x in c;
    assert a - (b + added) <= c - {x};
    SubsetCard(a - (b + added), c - {x});
    assert |c - {x}| == |c| - 1;
  }

  lemma {:induction false} SubsetCard(x: set<string>, y: set<string>)
    requires x <= y
    ensures |x| <= |y|
    decreases |y|
  {
    if y != {} {
      var e :| e in y;
      SubsetCard(x - {e}, y - {e});
    }
  }

  /**
   * `after` extends `before` only with copies from `all`: no key is removed or replaced, and every
   * new key holds the struct `all` has under that name.
   */
  predicate Grown<V(==)>(before: map<string, V>, after: map<string, V>, all: map<string, V>) {
    before.Keys <= after.Keys
    && (forall k :: k in before ==> after[k] == before[k])
    && (forall k :: k in after && k !in before ==> k in all && after[k] == all[k])
  }

  lemma GrownTransitive<V>(a: map<string, V>, b: map<string, V>, c: map<string, V>, all: map<string, V>)
    requires Grown(a, b, all) && Grown(b, c, all)
    ensures Grown(a, c, all)
  {
  }

  /**
   * The closure FillMissedTypes computes, round by round: each round copies every missed name
   * from `all`; the rounds stop when nothing is missed, or fail with the missed names `all` lacks.
   */
  ghost function Closure(m: StructMap, all: StructMap, scalarTypes: Types): (r: Result<StructMap, set<string>>)
    requires AllTyped(m) && AllTyped(all)
    ensures r.Ok? ==> Grown(m, r.value, all) && AllTyped(r.value) && MissedStructs(r.value, scalarTypes) == {}
    ensures r.Err? ==> r.error != {} && forall x :: x in r.error ==> x !in all && x !in scalarTypes
    decreases |all.Keys - m.Keys|
  {
    var missed := MissedStructs(m, scalarTypes);
    var unknown := missed - all.Keys;
    if missed == {} then Ok(m)
    else if unknown != {} then Err(unknown)
    else
      assert missed <= all.Keys by { DifferenceEmpty(missed, all.Keys); }
      ExtendGrown(m, all, missed);
      ShrinkingDifference(all.Keys, m.Keys, missed);
      var r := Closure(Extend(m, all, missed), all, scalarTypes);
      if r.Ok? then
        GrownTransitive(m, Extend(m, all, missed), r.value, all);
        r
      else r
  }

  /**
   * The closure is the least closed extension: any catalog that grows `m` with structs of `all`
   * and misses nothing contains it; so when the closure fails, no such catalog exists.
   */
  lemma {:induction false} ClosureMinimal(m: StructMap, all: StructMap, scalarTypes: Types, c: StructMap)
    requires AllTyped(m) && AllTyped(all) && AllTyped(c)
    requires Grown(m, c, all) && MissedStructs(c, scalarTypes) == {}
    ensures Closure(m, all, scalarTypes).Ok?
    ensures Grown(Closure(m, all, scalarTypes).value, c, all)
    decreases |all.Keys - m.Keys|
  {
    var missed := MissedStructs(m, scalarTypes);
    if missed != {} {
      MissedWithin(m, all, scalarTypes, c);
      ExtendWithin(m, all, scalarTypes, c);
      ClosureStep(m, all, scalarTypes);
      ClosureMinimal(Extend(m, all, missed), all, scalarTypes, c);
    }
  }

  /** A name `m` misses is a key of every closed catalog grown from `m`, and so a key of `all`. */
  lemma MissedWithin(m: StructMap, all: StructMap, scalarTypes: Types, c: StructMap)
    requires AllTyped(m) && AllTyped(c)
    requires Grown(m, c, all) && MissedStructs(c, scalarTypes) == {}
    ensures MissedStructs(m, scalarTypes) <= c.Keys * all.Keys
  {
    forall x | x in MissedStructs(m, scalarTypes)
      ensures x in c && x in all
    {
      MissedOne(m, all, scalarTypes, c, x);
    }
  }

  lemma MissedOne(m: StructMap, all: StructMap, scalarTypes: Types, c: StructMap, x: string)
    requires AllTyped(m) && AllTyped(c)
    requires Grown(m, c, all) && MissedStructs(c, scalarTypes) == {}
    requires x in MissedStructs(m, scalarTypes)
    ensures x in c && x in all
  {
    var k := MissedWitness(m, scalarTypes, x);
    assert c[k] == m[k];
    ClosedHolds(c, scalarTypes, k, x);
  }

  /** The struct that refers to a missed name. */
  lemma MissedWitness(m: StructMap, scalarTypes: Types, x: string) returns (k: string)
    requires AllTyped(m) && x in MissedStructs(m, scalarTypes)
    ensures k in m && x in NestedStructs(m[k].fields, scalarTypes) && x !in m
  {
    k :| k in m && x in NestedStructs(m[k].fields, scalarTypes) && x !in m;
  }

  /** A catalog that misses nothing holds every name its structs refer to. */
  lemma ClosedHolds(c: StructMap, scalarTypes: Types, k: string, x: string)
    requires AllTyped(c) && MissedStructs(c, scalarTypes) == {}
    requires k in c && x in NestedStructs(c[k].fields, scalarTypes)
    ensures x in c
  {
  }

  /** Extending `m` by its missed names stays inside every closed catalog grown from `m`. */
  lemma ExtendWithin(m: StructMap, all: StructMap, scalarTypes: Types, c: StructMap)
    requires AllTyped(m) && AllTyped(c)
    requires Grown(m, c, all) && MissedStructs(c, scalarTypes) == {}
    requires MissedStructs(m, scalarTypes) <= all.Keys
    ensures Grown(Extend(m, all, MissedStructs(m, scalarTypes)), c, all)
  {
    MissedWithin(m, all, scalarTypes, c);
  }

  lemma DifferenceEmpty(a: set<string>, b: set<string>)
    requires a - b == {}
    ensures a <= b
  {
    forall x | x in a
      ensures x in b
    {
      assert x !in a - b;
    }
  }

  /** A missed name that `all` lacks fails the closure in this round, and is reported. */
  lemma ClosureFails(m: StructMap, all: StructMap, scalarTypes: Types, x: string)
    requires AllTyped(m) && AllTyped(all)
    requires x in MissedStructs(m, scalarTypes) && x !in all
    ensures Closure(m, all, scalarTypes) == Err(MissedStructs(m, scalarTypes) - all.Keys)
    ensures x in Closure(m, all, scalarTypes).error
  {
    assert x in MissedStructs(m, scalarTypes) - all.Keys;
  }

  /** One round of the closure. */
  lemma ClosureStep(m: StructMap, all: StructMap, scalarTypes: Types)
    requires AllTyped(m) && AllTyped(all)
    requires MissedStructs(m, scalarTypes) != {} && MissedStructs(m, scalarTypes) <= all.Keys
    ensures AllTyped(Extend(m, all, MissedStructs(m, scalarTypes)))
    ensures |all.Keys - Extend(m, all, MissedStructs(m, scalarTypes)).Keys| < |all.Keys - m.Keys|
    ensures Closure(m, all, scalarTypes)
         == Closure(Extend(m, all, MissedStructs(m, scalarTypes)), all, scalarTypes)
  {
    var missed := MissedStructs(m, scalarTypes);
    ExtendGrown(m, all, missed);
    ShrinkingDifference(all.Keys, m.Keys, missed);
  }

  /**
   * FillMissedTypes: copies every struct the models catalog refers to, transitively, from
   * `allStructs`.  On success the catalog is the closure, which the lemma above shows to be the
   * least closed extension; a name found in neither allStructs nor the scalar types is fatal
   * (log.Fatalf), the Err outcome, and it is one of the unknown names of the failing round.
   */
  method FillMissedTypes(allStructs: StructMap, models: Catalog, scalarTypes: Types) returns (r: Result<(), string>)
    requires AllTyped(allStructs) && AllTyped(models.structs)
    modifies models
    ensures AllTyped(models.structs)
    ensures Grown(old(models.structs), models.structs, allStructs)
    ensures r.Ok? ==> MissedStructs(models.structs, scalarTypes) == {}
    ensures r.Ok? ==> Closure(old(models.structs), allStructs, scalarTypes) == Ok(models.structs)
    ensures r.Err? ==> Closure(old(models.structs), allStructs, scalarTypes).Err?
    ensures r.Err? ==> r.error in Closure(old(models.structs), allStructs, scalarTypes).error
    ensures r.Err? ==> r.error !in allStructs && r.error !in scalarTypes
    decreases |allStructs.Keys - models.structs.Keys|
  {
    var missed := MissedStructs(models.structs, scalarTypes);
    if missed == {} {
      return Ok(());
    }
    ghost var before := models.structs;
    var unknown := AddMissed(allStructs, models, missed, scalarTypes);
    if unknown.Some? {
      ClosureFails(before, allStructs, scalarTypes, unknown.value);
      return Err(unknown.value);
    }
    ClosureStep(before, allStructs, scalarTypes);
    missed := MissedStructs(models.structs, scalarTypes);
    if missed == {} {
      return Ok(());
    }
    ghost var middle := models.structs;
    r := FillMissedTypes(allStructs, models, scalarTypes);
    GrownTransitive(before, middle, models.structs, allStructs);
  }

  /**
   * The loop of FillMissedTypes: copies each missed name's struct from allStructs, or stops at
   * the first name that allStructs lacks.  Its `continue` for a scalar type cannot be taken:
   * missed names are never scalar types.
   */
  method AddMissed(allStructs: StructMap, models: Catalog, missed: set<string>, scalarTypes: Types)
    returns (unknown: Option<string>)
    requires AllTyped(allStructs) && AllTyped(models.structs)
    requires forall x :: x in missed ==> x !in scalarTypes && x !in models.structs
    modifies models
    ensures AllTyped(models.structs)
    ensures Grown(old(models.structs), models.structs, allStructs)
    ensures unknown.Some? ==> unknown.value in missed && unknown.value !in allStructs
    ensures unknown.None? ==> missed <= allStructs.Keys && models.structs.Keys == old(models.structs).Keys + missed
    ensures unknown.None? ==> models.structs == Extend(old(models.structs), allStructs, missed)
  {
    ghost var start := models.structs;
    var todo := missed;
    while todo != {}
      invariant todo <= missed
      invariant missed - todo <= allStructs.Keys
      invariant models.structs == Extend(start, allStructs, missed - todo)
      decreases |todo|
    {
      var st :| st in todo;
      if st !in allStructs {
        if st in scalarTypes {
          assert false;
        }
        ExtendGrown(start, allStructs, missed - todo);
        return Some(st);
      }
      models.AddStruct(st, allStructs[st]);
      ExtendStep(start, allStructs, missed - todo, st);
      assert missed - (todo - {st}) == (missed - todo) + {st};
      todo := todo - {st};
    }
    ExtendGrown(start, allStructs, missed - todo);
    assert missed - todo == missed;
    return None;
  }

  /** `m` with the entries of `all` under the keys `ks` added. */
  function Extend(m: StructMap, all: StructMap, ks: set<string>): StructMap
    requires ks <= all.Keys
  {
    m + map k | k in ks :: all[k]
  }

  lemma ExtendStep(m: StructMap, all: StructMap, ks: set<string>, k: string)
    requires ks <= all.Keys && k in all
    ensures Extend(m, all, ks)[k := all[k]] == Extend(m, all, ks + {k})
  {
  }

  /** Adding entries under new keys only grows the map, keeping every value typed. */
  lemma ExtendGrown(m: StructMap, all: StructMap, ks: set<string>)
    requires ks <= all.Keys && ks !! m.Keys
    requires AllTyped(m) && AllTyped(all)
    ensures Grown(m, Extend(m, all, ks), all) && AllTyped(Extend(m, all, ks))
    ensures Extend(m, all, ks).Keys == m.Keys + ks
  {
  }
}
