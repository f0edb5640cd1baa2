/**
 * parseTypeExpr (internal/structs/parser.go): turns the type expression of a struct field into
 * the canonical type string the generators print, plus its export and package flags.
 */
module TypeExpr {
  import opened Wrappers
  import opened Strings

  /** The Go AST node kinds parseTypeExpr distinguishes. */
  datatype Expr =
    | Ident(name: string)                              // Foo, int, string
    | Star(x: Expr)                                    // *X
    | Selector(x: Expr, sel: string)                   // pkg.T (x is normally an identifier)
    | ArrayType(length: Option<string>, elt: Expr)     // []T and [N]T
    | MapType(key: Expr, value: Expr)                  // map[K]V
    | InterfaceType
    | FuncType
    | StructType(fields: Option<seq<FieldDecl>>)
    | OtherExpr(kind: string)                          // channels, ellipses, ...

  /** One line of a struct body: the declared names (none for an embedded field), type and tag. */
  datatype FieldDecl = FieldDecl(names: seq<string>, typ: Expr, tag: Option<string>)

  /** fieldExprData */
  datatype FieldExprData = FieldExprData(
    isExported: bool,
    ixExternal: bool,
    typeName: string,
    pkgName: string,
    pkgType: string)

  /** The ways parseTypeExpr ends without a value; NilDereference stands for Go's runtime panic. */
  datatype ParseError =
    | NestedStruct        // "currently unavailable parse nested struct"
    | UndefinedSelector   // "undefined selector expr"
    | UnavailableType     // "unavailable type: ..."
    | NilDereference      // a field read through the nil pointer returned for interface/func

  type Parsed = Result<Option<FieldExprData>, ParseError>

  /** ast.IsExported for an identifier, over ASCII: it starts with a letter 'A' to 'Z'. */
  predicate IdentExported(name: string) {
    |name| > 0 && IsUpper(name[0])
  }

  function Data(exported: bool, typeName: string): FieldExprData {
    FieldExprData(exported, false, typeName, "", "")
  }

  /** parseTypeExpr as written: the map key string is parsed from expr.Value. */
  function ParseTypeExprAsWritten(e: Expr): Parsed
    decreases e
  {
    match e
    case InterfaceType => Ok(None)
    case StructType(_) => Err(NestedStruct)
    case Ident(name) => Ok(Some(Data(IdentExported(name), name)))
    case Star(x) =>
      var t := ParseTypeExprAsWritten(x);
      if t.Err? then t
      else if t.value.None? then Err(NilDereference)
      else Ok(Some(Data(t.value.value.isExported, "*" + t.value.value.typeName)))
    case Selector(x, sel) =>
      if x.Ident? then Ok(Some(FieldExprData(IdentExported(x.name), true, x.name + "." + sel, x.name, sel)))
      else Err(UndefinedSelector)
    case ArrayType(_, elt) =>
      var t := ParseTypeExprAsWritten(elt);
      if t.Err? then t
      else if t.value.None? then Err(NilDereference)
      else Ok(Some(Data(t.value.value.isExported, "[]" + t.value.value.typeName)))
    case MapType(_, value) =>
      var key := ParseTypeExprAsWritten(value);
      if key.Err? then key
      else if value.InterfaceType? then
        (if key.value.None? then Err(NilDereference)
         else Ok(Some(Data(false, "map[" + key.value.value.typeName + "]any"))))
      else
        var v := ParseTypeExprAsWritten(value);
        if v.Err? then v
        else if v.value.None? then Err(NilDereference)
        else if key.value.None? then Err(NilDereference)
        else Ok(Some(Data(v.value.value.isExported, "map[" + key.value.value.typeName + "]" + v.value.value.typeName)))
    case FuncType => Ok(None)
    case OtherExpr(_) => Err(UnavailableType)
  }

  /**
   * parseTypeExpr with the map key parsed from expr.Key, as the "map[%s]%s" format intends; a map
   * whose value is an interface renders as map[K]any.  Every other case is as in the source.
   */
  function ParseTypeExpr(e: Expr): (r: Parsed)
    ensures e.Ident? ==> r == Ok(Some(FieldExprData(IdentExported(e.name), false, e.name, "", "")))
    ensures e.InterfaceType? || e.FuncType? ==> r == Ok(None)
    ensures e.StructType? ==> r == Err(NestedStruct)
    ensures e.OtherExpr? ==> r == Err(UnavailableType)
    decreases e
  {
    match e
    case InterfaceType => Ok(None)
    case StructType(_) => Err(NestedStruct)
    case Ident(name) => Ok(Some(Data(IdentExported(name), name)))
    case Star(x) =>
      var t := ParseTypeExpr(x);
      if t.Err? then t
      else if t.value.None? then Err(NilDereference)
      else Ok(Some(Data(t.value.value.isExported, "*" + t.value.value.typeName)))
    case Selector(x, sel) =>
      if x.Ident? then Ok(Some(FieldExprData(IdentExported(x.name), true, x.name + "." + sel, x.name, sel)))
      else Err(UndefinedSelector)
    case ArrayType(_, elt) =>
      var t := ParseTypeExpr(elt);
      if t.Err? then t
      else if t.value.None? then Err(NilDereference)
      else Ok(Some(Data(t.value.value.isExported, "[]" + t.value.value.typeName)))
    case MapType(keyExpr, value) =>
      var key := ParseTypeExpr(keyExpr);
      if key.Err? then key
      else if key.value.None? then Err(NilDereference)
      else if value.InterfaceType? then Ok(Some(Data(false, "map[" + key.value.value.typeName + "]any")))
      else
        var v := ParseTypeExpr(value);
        if v.Err? then v
        else if v.value.None? then Err(NilDereference)
        else Ok(Some(Data(v.value.value.isExported, "map[" + key.value.value.typeName + "]" + v.value.value.typeName)))
    case FuncType => Ok(None)
    case OtherExpr(_) => Err(UnavailableType)
  }

  /** Every identifier in the expression is non-empty, as the Go parser guarantees. */
  predicate WellFormed(e: Expr)
    decreases e
  {
    match e
    case Ident(name) => |name| > 0
    case Star(x) => WellFormed(x)
    case Selector(x, sel) => WellFormed(x) && |sel| > 0
    case ArrayType(_, elt) => WellFormed(elt)
    case MapType(k, v) => WellFormed(k) && WellFormed(v)
    case _ => true
  }

  /** A pointer renders as "*" + the pointee, keeps its exportedness and drops the package fields. */
  lemma PointerType(x: Expr, d: FieldExprData)
    requires ParseTypeExpr(x) == Ok(Some(d))
    ensures ParseTypeExpr(Star(x)) == Ok(Some(FieldExprData(d.isExported, false, "*" + d.typeName, "", "")))
  {
  }

  /** pkg.T renders as "pkg.T", is external and records both halves. */
  lemma SelectorType(pkg: string, name: string)
    ensures ParseTypeExpr(Selector(Ident(pkg), name))
         == Ok(Some(FieldExprData(IdentExported(pkg), true, pkg + "." + name, pkg, name)))
  {
  }

  /** A qualifier that is not an identifier is an error. */
  lemma SelectorNeedsIdent(x: Expr, name: string)
    requires !x.Ident?
    ensures ParseTypeExpr(Selector(x, name)) == Err(UndefinedSelector)
  {
  }

  /** Arrays and slices both render as "[]" + element type: the length is dropped. */
  lemma ArrayLengthDropped(n: Option<string>, elt: Expr)
    ensures ParseTypeExpr(ArrayType(n, elt)) == ParseTypeExpr(ArrayType(None, elt))
  {
  }

  /** A corrected map renders both its key and its value. */
  lemma MapRendersKeyAndValue(k: Expr, v: Expr, dk: FieldExprData, dv: FieldExprData)
    requires ParseTypeExpr(k) == Ok(Some(dk)) && ParseTypeExpr(v) == Ok(Some(dv))
    ensures ParseTypeExpr(MapType(k, v)) == Ok(Some(Data(dv.isExported, "map[" + dk.typeName + "]" + dv.typeName)))
  {
  }

  /** Every successfully parsed, well-formed expression has a non-empty type name. */
  lemma {:induction false} TypeNameNonEmpty(e: Expr)
    requires WellFormed(e)
    ensures ParseTypeExpr(e).Ok? && ParseTypeExpr(e).value.Some? ==> |ParseTypeExpr(e).value.value.typeName| > 0
    decreases e
  {
    match e
    case Star(x) => TypeNameNonEmpty(x);
    case ArrayType(_, elt) => TypeNameNonEmpty(elt);
    case MapType(k, v) => TypeNameNonEmpty(k); TypeNameNonEmpty(v);
    case _ =>
  }

  /** Parsing a well-formed expression never dereferences nil unless it nests an interface or func. */
  predicate NoNilInside(e: Expr)
    decreases e
  {
    match e
    case Star(x) => !x.InterfaceType? && !x.FuncType? && NoNilInside(x)
    case ArrayType(_, elt) => !elt.InterfaceType? && !elt.FuncType? && NoNilInside(elt)
    case MapType(k, v) => !k.InterfaceType? && !k.FuncType? && !v.FuncType? && NoNilInside(k) && NoNilInside(v)
    case _ => true
  }

  lemma {:induction false} NoNilDereference(e: Expr)
    requires NoNilInside(e)
    ensures ParseTypeExpr(e) != Err(NilDereference)
    ensures ParseTypeExpr(e).Ok? && !e.InterfaceType? && !e.FuncType? ==> ParseTypeExpr(e).value.Some?
    decreases e
  {
    match e
    case Star(x) => NoNilDereference(x);
    case ArrayType(_, elt) => NoNilDereference(elt);
    case MapType(k, v) => NoNilDereference(k); NoNilDereference(v);
    case _ =>
  }

  // ---------------------------------------------------------------- the map-key discrepancy

  /** As written, map[string]int renders as "map[int]int": the key is taken from the value. */
  lemma MapKeyFromValueAsWritten()
    ensures ParseTypeExprAsWritten(MapType(Ident("string"), Ident("int")))
         == Ok(Some(Data(false, "map[int]int")))
    ensures ParseTypeExpr(MapType(Ident("string"), Ident("int")))
         == Ok(Some(Data(false, "map[string]int")))
  {
    assert !IdentExported("int") && !IdentExported("string");
    assert ParseTypeExprAsWritten(Ident("int")) == Ok(Some(Data(false, "int")));
    assert ParseTypeExpr(Ident("string")) == Ok(Some(Data(false, "string")));
    assert "map[" + "int" + "]" + "int" == "map[int]int";
    assert "map[" + "string" + "]" + "int" == "map[string]int";
  }

  /** As written, map[string]interface{} reads the type name of a nil result and panics. */
  lemma MapOfInterfaceAsWritten()
    ensures ParseTypeExprAsWritten(MapType(Ident("string"), InterfaceType)) == Err(NilDereference)
    ensures ParseTypeExpr(MapType(Ident("string"), InterfaceType)) == Ok(Some(Data(false, "map[string]any")))
  {
    assert ParseTypeExpr(Ident("string")) == Ok(Some(Data(false, "string")));
    assert "map[" + "string" + "]any" == "map[string]any";
  }

  /** The as-written map case always renders the value in the key position. */
  lemma {:induction false} AsWrittenMapKeyIsValue(k: Expr, v: Expr)
    requires ParseTypeExprAsWritten(v).Ok? && ParseTypeExprAsWritten(v).value.Some? && !v.InterfaceType?
    ensures var d := ParseTypeExprAsWritten(v).value.value;
            ParseTypeExprAsWritten(MapType(k, v)) == Ok(Some(Data(d.isExported, "map[" + d.typeName + "]" + d.typeName)))
  {
  }
}
