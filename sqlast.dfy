/**
  The two parameter recognisers of sqlc's query rewriter, and the pg_temp helpers of its
  PostgreSQL catalog.
*/
module SqlAst {
  import opened Wrappers
  import opened Strings

  // ---------------------------------------------------------------- parameter recognisers

  /** A qualified function name. */
  datatype FuncName = FuncName(schema: string, name: string)

  /** The syntax nodes the recognisers look at; every other kind of node is `OtherNode`. */
  datatype Node =
    | FuncCall(func: Option<FuncName>)
    | AExpr(name: seq<string>)
    | OtherNode

  /**
   * The functions that name a query parameter: sqlc.arg, sqlc.narg and sqlc.slice.  Only a call
   * whose function is named, in the sqlc schema, can be one.
   */
  predicate IsParamFunc(node: Node): (b: bool)
    ensures b ==> node.FuncCall? && node.func.Some? && node.func.value.schema == "sqlc"
  {
    node.FuncCall? && node.func.Some?
    && node.func.value.schema == "sqlc"
    && (node.func.value.name == "arg" || node.func.value.name == "narg" || node.func.value.name == "slice")
  }

  /** An operator expression whose dotted name is "@", as in `@id`; the name "@" alone is one. */
  predicate IsParamSign(node: Node): (b: bool)
    ensures b ==> node.AExpr?
    ensures node == AExpr(["@"]) ==> b
  {
    node.AExpr? && Join(node.name, ".") == "@"
  }

  /** The three parameter functions count only with the sqlc schema: a bare `arg(...)` is an ordinary call. */
  lemma ParamFuncNeedsSchema(schema: string, name: string)
    requires name in {"arg", "narg", "slice"}
    ensures IsParamFunc(FuncCall(Some(FuncName(schema, name)))) <==> schema == "sqlc"
  {
  }

  /** The "@" sign is an operator named by the one part "@": no longer dotted name joins to it. */
  lemma {:induction false} ParamSignIsAt(name: seq<string>)
    ensures IsParamSign(AExpr(name)) <==> name == ["@"]
  {
    if |name| >= 2 {
      var j := Join(name, ".");
      assert j == name[0] + "." + Join(name[1..], ".");
      assert j[|name[0]|] == '.';
    }
  }

  /** No node is both a parameter function and a parameter sign. */
  lemma ParamKindsDisjoint(node: Node)
    ensures !(IsParamFunc(node) && IsParamSign(node))
  {
  }

  // ---------------------------------------------------------------- pg_temp

  datatype TypeName = TypeName(name: string)

  datatype Argument = Argument(typ: TypeName)

  datatype Function = Function(name: string, args: seq<Argument>, returnType: TypeName)

  /** A catalog schema: its name and the functions it declares. */
  datatype Schema = Schema(name: string, funcs: seq<Function>)

  /** The temporary schema, which starts empty. */
  function PgTemp(): (s: Schema)
    ensures s.name == "pg_temp" && s.funcs == []
  {
    Schema("pg_temp", [])
  }

  /** A type reference by bare name. */
  function MakeTypeName(name: string): (t: TypeName)
    ensures t.name == name
  {
    TypeName(name)
  }

  /** A function of `n` arguments of any type returning any type (none when `n` is not positive). */
  method ArgN(name: string, n: int) returns (f: Function)
    ensures f.name == name && f.returnType == TypeName("any")
    ensures |f.args| == if n > 0 then n else 0
    ensures forall i :: 0 <= i < |f.args| ==> f.args[i].typ == TypeName("any")
  {
    var args: seq<Argument> := [];
    var i := 0;
    while i < n
      invariant 0 <= i && (n > 0 ==> i <= n) && (n <= 0 ==> i == 0)
      invariant |args| == i
      invariant forall k :: 0 <= k < |args| ==> args[k].typ == TypeName("any")
    {
      args := args + [Argument(TypeName("any"))];
      i := i + 1;
    }
    f := Function(name, args, TypeName("any"));
  }
}
