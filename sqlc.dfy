/**
 * The rewriters internal/sqlc runs over the files sqlc generates: the nullable-type
 * substitution (sqlc.go, replace.go, with the tables of types.go and replace.go), the json-tag
 * rewrite (sqlc.go), the package-line rewrite and the early returns of the import rewrite
 * (movemodels.go, replace.go), the import block they write, and the sqlc version check.
 */
module SqlcRewrites {
  import opened Wrappers
  import opened Strings
  import opened Rewriting
  import Utils
  import Structs

  // ---------------------------------------------------------------- nullable types

  /** types.go: sqlc's nullable wrappers and the pointer types they become. */
  const NullableTypes: map<string, string> := map[
    "sql.NullInt32" := "*int32",
    "sql.NullInt64" := "*int64",
    "sql.NullInt16" := "*int16",
    "sql.NullFloat64" := "*float64",
    "sql.NullFloat32" := "*float32",
    "pgtype.Numeric" := "*float64",
    "sql.NullString" := "*string",
    "sql.NullBool" := "*bool",
    "sql.NullTime" := "*time.Time"
  ]

  /** replaceTypesMap of replace.go: the same table without pgtype.Numeric. */
  const LegacyNullableTypes: map<string, string> := map[
    "sql.NullInt32" := "*int32",
    "sql.NullInt64" := "*int64",
    "sql.NullInt16" := "*int16",
    "sql.NullFloat64" := "*float64",
    "sql.NullFloat32" := "*float32",
    "sql.NullString" := "*string",
    "sql.NullBool" := "*bool",
    "sql.NullTime" := "*time.Time"
  ]

  /** The keys `order` visits are entries of the table, and none is empty. */
  predicate Visits(table: map<string, string>, order: seq<string>) {
    forall j :: 0 <= j < |order| ==> order[j] in table && order[j] != ""
  }

  /** One strings.ReplaceAll per key, in the order the map range visits them. */
  function Substituted(s: string, table: map<string, string>, order: seq<string>): string
    requires Visits(table, order)
    decreases |order|
  {
    if |order| == 0 then s
    else Substituted(ReplaceAll(s, order[0], table[order[0]]), table, order[1..])
  }

  /**
   * replaceStructTypes: every entry of the table in turn, over the text.  `order` is the order
   * in which the range over the Go map happens to visit the keys.
   */
  method ReplaceStructTypes(table: map<string, string>, order: seq<string>, str: string) returns (res: string)
    requires Visits(table, order)
    ensures res == Substituted(str, table, order)
  {
    res := str;
    var i := 0;
    assert order[0..] == order;
    while i < |order|
      invariant 0 <= i <= |order|
      invariant Substituted(res, table, order[i..]) == Substituted(str, table, order)
    {
      assert order[i..][1..] == order[i + 1..];
      res := ReplaceAll(res, order[i], table[order[i]]);
      i := i + 1;
    }
  }

  /** The replace.go variant: the older table, and an error result that is always nil. */
  method LegacyReplaceStructTypes(order: seq<string>, str: string) returns (res: string, err: Option<string>)
    requires Visits(LegacyNullableTypes, order)
    ensures err == None && res == Substituted(str, LegacyNullableTypes, order)
  {
    res := ReplaceStructTypes(LegacyNullableTypes, order, str);
    err := None;
  }

  /** A key of the tables: no '*', and it begins "sq" or "pg". */
  predicate KeyShape(k: string) {
    |k| >= 2 && '*' !in k && ((k[0] == 's' && k[1] == 'q') || (k[0] == 'p' && k[1] == 'g'))
  }

  /** A pointer type of the tables: a leading '*', no 'p' and no 'q', and no final 's'. */
  predicate PointerShape(v: string) {
    |v| > 0 && v[0] == '*' && 'p' !in v && 'q' !in v && v[|v| - 1] != 's'
  }

  predicate TableShape(table: map<string, string>) {
    forall k :: k in table ==> KeyShape(k) && PointerShape(table[k])
  }

  lemma KeysShaped()
    ensures KeyShape("sql.NullInt32") && KeyShape("sql.NullInt64") && KeyShape("sql.NullInt16")
    ensures KeyShape("sql.NullFloat64") && KeyShape("sql.NullFloat32") && KeyShape("pgtype.Numeric")
    ensures KeyShape("sql.NullString") && KeyShape("sql.NullBool") && KeyShape("sql.NullTime")
  {
  }

  lemma PointersShaped()
    ensures PointerShape("*int32") && PointerShape("*int64") && PointerShape("*int16")
    ensures PointerShape("*float64") && PointerShape("*float32") && PointerShape("*string")
    ensures PointerShape("*bool") && PointerShape("*time.Time")
  {
  }

  lemma NullableKeys()
    ensures forall k :: k in NullableTypes ==>
      k == "sql.NullInt32" || k == "sql.NullInt64" || k == "sql.NullInt16" || k == "sql.NullFloat64"
      || k == "sql.NullFloat32" || k == "pgtype.Numeric" || k == "sql.NullString" || k == "sql.NullBool"
      || k == "sql.NullTime"
  {
  }

  lemma NullableValues()
    ensures forall k :: k in NullableTypes ==>
      var v := NullableTypes[k];
      v == "*int32" || v == "*int64" || v == "*int16" || v == "*float64" || v == "*float32"
      || v == "*string" || v == "*bool" || v == "*time.Time"
  {
  }

  lemma NullableTableShaped()
    ensures TableShape(NullableTypes)
  {
    NullableKeys();
    NullableValues();
    KeysShaped();
    PointersShaped();
  }

  lemma LegacyKeys()
    ensures forall k :: k in LegacyNullableTypes ==>
      k == "sql.NullInt32" || k == "sql.NullInt64" || k == "sql.NullInt16" || k == "sql.NullFloat64"
      || k == "sql.NullFloat32" || k == "sql.NullString" || k == "sql.NullBool" || k == "sql.NullTime"
  {
  }

  lemma LegacyValues()
    ensures forall k :: k in LegacyNullableTypes ==>
      var v := LegacyNullableTypes[k];
      v == "*int32" || v == "*int64" || v == "*int16" || v == "*float64" || v == "*float32"
      || v == "*string" || v == "*bool" || v == "*time.Time"
  {
  }

  lemma LegacyTableShaped()
    ensures TableShape(LegacyNullableTypes)
  {
    LegacyKeys();
    LegacyValues();
    KeysShaped();
    PointersShaped();
  }

  /** An inserted pointer type can neither hold nor complete a key. */
  lemma PointerApart(v: string, k: string, k2: string)
    requires PointerShape(v) && KeyShape(k)
    ensures RightApart(v, k) && LeftApart(v, k, k2)
  {
    forall p | 0 <= p < |v|
      ensures !Compatible(v[p..], k)
    {
      assert v[p] in v && k[0] in k;
      if 0 < p < |v| - 1 {
        assert v[p + 1] in v;
      }
    }
    forall q | 0 < q < |k|
      ensures !Compatible(k[q..], v)
    {
      assert k[q] in k;
    }
  }

  /** A key that the substitution visits, or that was absent before, is absent afterwards. */
  lemma {:induction false} SubstitutedFree(s: string, table: map<string, string>, order: seq<string>, k: string)
    requires TableShape(table) && Visits(table, order) && k in table
    requires k in order || Free(s, k)
    ensures Free(Substituted(s, table, order), k)
    decreases |order|
  {
    if |order| > 0 {
      var k2 := order[0];
      if k == k2 || Free(s, k) {
        PointerApart(table[k2], k, k2);
        KeepsFree(s, k, k2, table[k2]);
      } else {
        var j :| 0 <= j < |order| && order[j] == k;
        assert order[1..][j - 1] == k;
      }
      SubstitutedFree(ReplaceAll(s, k2, table[k2]), table, order[1..], k);
    }
  }

  /**
   * Whatever order the map range takes, no nullable wrapper is left in the text: the inserted
   * pointer types can neither contain a key nor complete one with the text around them.
   */
  lemma NullableTypesGone(s: string, order: seq<string>)
    requires Visits(NullableTypes, order) && forall k :: k in NullableTypes ==> k in order
    ensures forall k :: k in NullableTypes ==> Free(Substituted(s, NullableTypes, order), k)
  {
    NullableTableShaped();
    forall k | k in NullableTypes
      ensures Free(Substituted(s, NullableTypes, order), k)
    {
      SubstitutedFree(s, NullableTypes, order, k);
    }
  }

  /** The same for the table of replace.go. */
  lemma LegacyNullableTypesGone(s: string, order: seq<string>)
    requires Visits(LegacyNullableTypes, order) && forall k :: k in LegacyNullableTypes ==> k in order
    ensures forall k :: k in LegacyNullableTypes ==> Free(Substituted(s, LegacyNullableTypes, order), k)
  {
    LegacyTableShaped();
    forall k | k in LegacyNullableTypes
      ensures Free(Substituted(s, LegacyNullableTypes, order), k)
    {
      SubstitutedFree(s, LegacyNullableTypes, order, k);
    }
  }

  // ---------------------------------------------------------------- json tags

  /** The struct tag sqlc writes for a field: json:"f". */
  function Tag(f: string): string {
    "json:\"" + f + "\""
  }

  function OmitemptyTag(f: string): string {
    "json:\"" + f + ",omitempty\""
  }

  const HiddenTag: string := "json:\"-\""

  /** The first loop of replaceJsonTags: each configured field in turn gains ",omitempty". */
  function Omitted(s: string, fields: seq<string>): string
    decreases |fields|
  {
    if |fields| == 0 then s
    else Omitted(ReplaceAll(s, Tag(fields[0]), OmitemptyTag(fields[0])), fields[1..])
  }

  /** The second loop: each configured field's tag becomes json:"-". */
  function Hidden(s: string, fields: seq<string>): string
    decreases |fields|
  {
    if |fields| == 0 then s
    else Hidden(ReplaceAll(s, Tag(fields[0]), HiddenTag), fields[1..])
  }

  /** replaceJsonTags: the omitempty fields first, then the hidden ones. */
  method ReplaceJsonTags(omitempty: seq<string>, hideFields: seq<string>, str: string) returns (res: string)
    ensures res == Hidden(Omitted(str, omitempty), hideFields)
  {
    res := str;
    var i := 0;
    assert omitempty[0..] == omitempty;
    while i < |omitempty|
      invariant 0 <= i <= |omitempty|
      invariant Omitted(res, omitempty[i..]) == Omitted(str, omitempty)
    {
      assert omitempty[i..][1..] == omitempty[i + 1..];
      res := ReplaceAll(res, Tag(omitempty[i]), OmitemptyTag(omitempty[i]));
      i := i + 1;
    }
    var afterOmit := res;
    var j := 0;
    assert hideFields[0..] == hideFields;
    while j < |hideFields|
      invariant 0 <= j <= |hideFields|
      invariant Hidden(res, hideFields[j..]) == Hidden(afterOmit, hideFields)
    {
      assert hideFields[j..][1..] == hideFields[j + 1..];
      res := ReplaceAll(res, Tag(hideFields[j]), HiddenTag);
      j := j + 1;
    }
  }

  /** A field name made of word characters, as the column names sqlc turns into tags. */
  predicate PlainName(f: string) {
    forall i :: 0 <= i < |f| ==> IsWord(f[i])
  }

  /** A json tag whose name and options hold neither a quote nor a colon. */
  predicate TagLike(x: string) {
    |x| >= 7 && x[..6] == "json:\"" && x[|x| - 1] == '"'
    && forall i :: 6 <= i < |x| - 1 ==> x[i] != '"' && x[i] != ':'
  }

  /** Where quotes and colons sit in a tag. */
  lemma TagMarks(x: string)
    requires TagLike(x)
    ensures forall i :: 0 <= i < |x| && x[i] == ':' ==> i == 4
    ensures forall i :: 0 <= i < |x| && x[i] == '"' ==> i == 5 || i == |x| - 1
  {
    assert x[0] == 'j' && x[1] == 's' && x[2] == 'o' && x[3] == 'n' && x[4] == ':' && x[5] == '"' by {
      assert x[..6][0] == x[0] && x[..6][4] == x[4] && x[..6][5] == x[5];
    }
  }

  /** A tag meets another tag, overlapping at its start or running into it, only as the same tag. */
  lemma TagOffset(x: string, y: string, p: nat)
    requires TagLike(x) && TagLike(y) && p < |x|
    ensures Compatible(x[p..], y) ==> p == 0 && x == y
  {
    if Compatible(x[p..], y) {
      var m := if |x| - p < |y| then |x| - p else |y|;
      assert forall i :: 0 <= i < m ==> x[p + i] == y[i] by {
        if HasPrefix(x[p..], y) {
          assert forall i :: 0 <= i < m ==> x[p..][..|y|][i] == y[i];
        } else {
          assert forall i :: 0 <= i < m ==> y[..|x| - p][i] == x[p..][i];
        }
      }
      TagMarks(x);
      TagMarks(y);
      assert y[..6][0] == y[0] && y[..6][3] == y[3] && y[..6][1] == y[1] && y[..6][2] == y[2];
      if m >= 5 {
        assert x[p + 4] == y[4];
      }
      assert p == 0;
      assert x[m - 1] == y[m - 1];
      assert |x| == |y|;
      assert x == y;
    }
  }

  /** Two distinct tags keep apart under a pass that writes one in place of some pattern. */
  lemma TagsApart(v: string, k: string, k2: string)
    requires TagLike(v) && TagLike(k) && v != k
    ensures RightApart(v, k) && LeftApart(v, k, k2)
  {
    forall p | 0 <= p < |v|
      ensures !Compatible(v[p..], k)
    {
      TagOffset(v, k, p);
    }
    forall q | 0 < q < |k|
      ensures !Compatible(k[q..], v)
    {
      TagOffset(k, v, q);
      assert Compatible(k[q..], v) <==> Compatible(v, k[q..]);
    }
  }

  lemma TagShape(f: string)
    requires PlainName(f)
    ensures TagLike(Tag(f)) && TagLike(OmitemptyTag(f)) && TagLike(HiddenTag)
  {
    var t := Tag(f);
    var o := OmitemptyTag(f);
    assert forall i :: 6 <= i < |t| - 1 ==> t[i] == f[i - 6];
    assert forall i :: 6 <= i < 6 + |f| ==> o[i] == f[i - 6];
    assert o[6 + |f|..] == ",omitempty\"";
  }

  /** The replacements never equal a plain tag. */
  lemma TagsDiffer(f: string, g: string)
    requires PlainName(f)
    ensures OmitemptyTag(g) != Tag(f) && HiddenTag != Tag(f)
  {
    var o := OmitemptyTag(g);
    var t := Tag(f);
    if |o| == |t| {
      assert o[6 + |g|] == ',';
      assert t[6 + |g|] == f[|g|];
    }
    if |t| == |HiddenTag| {
      assert t[6] == f[0];
    }
  }

  predicate PlainNames(fields: seq<string>) {
    forall j :: 0 <= j < |fields| ==> PlainName(fields[j])
  }

  /** After the omitempty loop, no tag of a listed field is left, nor one that was absent before. */
  lemma {:induction false} OmittedFree(s: string, fields: seq<string>, f: string)
    requires PlainName(f) && PlainNames(fields) && (f in fields || Free(s, Tag(f)))
    ensures Free(Omitted(s, fields), Tag(f))
    decreases |fields|
  {
    if |fields| > 0 {
      var g := fields[0];
      var k := Tag(f);
      if f == g || Free(s, k) {
        TagShape(f);
        TagShape(g);
        TagsDiffer(f, g);
        TagsApart(OmitemptyTag(g), k, Tag(g));
        KeepsFree(s, k, Tag(g), OmitemptyTag(g));
      } else {
        var j :| 0 <= j < |fields| && fields[j] == f;
        assert fields[1..][j - 1] == f;
      }
      assert PlainNames(fields[1..]) by {
        assert forall j :: 0 <= j < |fields| - 1 ==> fields[1..][j] == fields[j + 1];
      }
      OmittedFree(ReplaceAll(s, Tag(g), OmitemptyTag(g)), fields[1..], f);
    }
  }

  /** After the hiding loop, no tag of a listed field is left, nor one that was absent before. */
  lemma {:induction false} HiddenFree(s: string, fields: seq<string>, f: string)
    requires PlainName(f) && PlainNames(fields) && (f in fields || Free(s, Tag(f)))
    ensures Free(Hidden(s, fields), Tag(f))
    decreases |fields|
  {
    if |fields| > 0 {
      var g := fields[0];
      var k := Tag(f);
      if f == g || Free(s, k) {
        TagShape(f);
        TagsDiffer(f, g);
        TagsApart(HiddenTag, k, Tag(g));
        KeepsFree(s, k, Tag(g), HiddenTag);
      } else {
        var j :| 0 <= j < |fields| && fields[j] == f;
        assert fields[1..][j - 1] == f;
      }
      assert PlainNames(fields[1..]) by {
        assert forall j :: 0 <= j < |fields| - 1 ==> fields[1..][j] == fields[j + 1];
      }
      HiddenFree(ReplaceAll(s, Tag(g), HiddenTag), fields[1..], f);
    }
  }

  /** replaceJsonTags leaves no plain tag of any field it was configured with. */
  lemma JsonTagsGone(str: string, omitempty: seq<string>, hideFields: seq<string>)
    requires PlainNames(omitempty) && PlainNames(hideFields)
    ensures forall f :: f in omitempty || f in hideFields ==>
      Free(Hidden(Omitted(str, omitempty), hideFields), Tag(f))
  {
    forall f | f in omitempty || f in hideFields
      ensures Free(Hidden(Omitted(str, omitempty), hideFields), Tag(f))
    {
      if f in omitempty {
        OmittedFree(str, omitempty, f);
      } else {
        var j :| 0 <= j < |hideFields| && hideFields[j] == f;
      }
      HiddenFree(Omitted(str, omitempty), hideFields, f);
    }
  }

  /** Hiding skips a field whose plain tag is already gone. */
  lemma {:induction false} HiddenSkips(s: string, hideFields: seq<string>, omitempty: seq<string>)
    requires PlainNames(hideFields) && PlainNames(omitempty)
    requires forall f :: f in omitempty ==> Free(s, Tag(f))
    ensures Hidden(s, hideFields) == Hidden(s, Utils.Without(hideFields, omitempty))
    decreases |hideFields|
  {
    if |hideFields| > 0 {
      var h := hideFields[0];
      var rest := hideFields[1..];
      assert PlainNames(rest) by {
        assert forall j :: 0 <= j < |rest| ==> rest[j] == hideFields[j + 1];
      }
      var s' := ReplaceAll(s, Tag(h), HiddenTag);
      if h in omitempty {
        FreeUnchanged(s, Tag(h), HiddenTag);
        assert Utils.Without(hideFields, omitempty) == Utils.Without(rest, omitempty);
        HiddenSkips(s, rest, omitempty);
      } else {
        forall f | f in omitempty
          ensures Free(s', Tag(f))
        {
          var j :| 0 <= j < |omitempty| && omitempty[j] == f;
          TagShape(f);
          TagsDiffer(f, h);
          TagsApart(HiddenTag, Tag(f), Tag(h));
          KeepsFree(s, Tag(f), Tag(h), HiddenTag);
        }
        var w := Utils.Without(rest, omitempty);
        assert Utils.Without(hideFields, omitempty) == [h] + w;
        assert ([h] + w)[0] == h && ([h] + w)[1..] == w;
        HiddenSkips(s', rest, omitempty);
      }
    }
  }

  /**
   * A field listed both for omitempty and for hiding keeps its omitempty tag: the hiding loop
   * acts exactly as if such fields were not listed for it.
   */
  lemma BothKeepsOmitempty(str: string, omitempty: seq<string>, hideFields: seq<string>)
    requires PlainNames(omitempty) && PlainNames(hideFields)
    ensures Hidden(Omitted(str, omitempty), hideFields)
         == Hidden(Omitted(str, omitempty), Utils.Without(hideFields, omitempty))
  {
    var s := Omitted(str, omitempty);
    forall f | f in omitempty
      ensures Free(s, Tag(f))
    {
      var j :| 0 <= j < |omitempty| && omitempty[j] == f;
      OmittedFree(str, omitempty, f);
    }
    HiddenSkips(s, hideFields, omitempty);
  }

  // ---------------------------------------------------------------- package line

  /** The package name: the configured one when set, otherwise the last '/'-piece of the directory. */
  function PackageNameFor(outputDir: string, packageName: string): (r: string)
    ensures packageName != "" ==> r == packageName
    ensures packageName == "" ==> r == LastSegment(outputDir, '/')
    ensures packageName == "" ==> '/' !in r && HasSuffix(outputDir, r)
  {
    if packageName != "" then packageName
    else
      var pieces := Split(outputDir, '/');
      LastSegmentIsLastPiece(outputDir, '/');
      pieces[|pieces| - 1]
  }

  /** One line read from the file: a package clause is replaced, without its newline. */
  function RewriteLine(line: string, name: string): string {
    if HasPrefix(line, "package") then "package " + name else line
  }

  function RewriteLines(lines: seq<string>, name: string): string
    decreases |lines|
  {
    if |lines| == 0 then "" else RewriteLine(lines[0], name) + RewriteLines(lines[1..], name)
  }

  /** The text the reader loop accumulates: every complete line, rewritten. */
  function Rewritten(s: string, name: string): string {
    RewriteLines(Lines(s), name)
  }

  /** Reading one more line: the rewritten text grows by that line, rewritten. */
  lemma RewrittenStep(s: string, name: string)
    requires '\n' in s
    ensures Rewritten(s, name) == RewriteLine(s[..LineLength(s)], name) + Rewritten(s[LineLength(s)..], name)
  {
    var n := LineLength(s);
    assert Lines(s) == [s[..n]] + Lines(s[n..]);
    assert ([s[..n]] + Lines(s[n..]))[1..] == Lines(s[n..]);
  }

  lemma ConcatAssoc(a: string, b: string, c: string)
    ensures (a + b) + c == a + (b + c)
  {
  }

  /** The reader loop shared by both versions of replacePackageName. */
  method RewritePackageLines(str: string, name: string) returns (res: string)
    ensures res == Rewritten(str, name)
  {
    res := "";
    var rest := str;
    while '\n' in rest
      invariant res + Rewritten(rest, name) == Rewritten(str, name)
      decreases |rest|
    {
      var n := LineLength(rest);
      var line := rest[..n];
      ghost var before := res;
      RewrittenStep(rest, name);
      if HasPrefix(line, "package") {
        res := res + ("package " + name);
      } else {
        res := res + line;
      }
      assert res == before + RewriteLine(line, name);
      ConcatAssoc(before, RewriteLine(line, name), Rewritten(rest[n..], name));
      rest := rest[n..];
    }
    assert Rewritten(rest, name) == "";
    assert res + "" == res;
  }

  /** movemodels.go's replacePackageName: nothing to do without an output directory. */
  method MovePackageName(outputDir: string, packageName: string, str: string) returns (res: string)
    ensures outputDir == "" ==> res == str
    ensures outputDir != "" ==> res == Rewritten(str, PackageNameFor(outputDir, packageName))
  {
    if outputDir == "" {
      return str;
    }
    var name := PackageNameFor(outputDir, packageName);
    res := RewritePackageLines(str, name);
  }

  /** replace.go's replacePackageName: no guard on the directory, and no read error on a string. */
  method ReplacePackageName(outputDir: string, packageName: string, str: string) returns (res: string, err: Option<string>)
    ensures err == None && res == Rewritten(str, PackageNameFor(outputDir, packageName))
  {
    var name := PackageNameFor(outputDir, packageName);
    res := RewritePackageLines(str, name);
    err := None;
  }

  /** No line of `s` begins with "package". */
  predicate NoPackageLine(s: string) {
    forall i :: 0 <= i < |s| && (i == 0 || s[i - 1] == '\n') ==> !HasPrefix(s[i..], "package")
  }

  lemma NoPackageLineRest(s: string, n: nat)
    requires NoPackageLine(s) && 0 < n <= |s| && s[n - 1] == '\n'
    ensures NoPackageLine(s[n..])
  {
    var rest := s[n..];
    forall i | 0 <= i < |rest| && (i == 0 || rest[i - 1] == '\n')
      ensures !HasPrefix(rest[i..], "package")
    {
      assert rest[i..] == s[n + i..];
    }
  }

  /** A newline-terminated text without a package clause comes back unchanged. */
  lemma {:induction false} RewrittenKeepsPlain(s: string, name: string)
    requires |s| == 0 || s[|s| - 1] == '\n'
    requires NoPackageLine(s)
    ensures Rewritten(s, name) == s
    decreases |s|
  {
    if |s| > 0 {
      assert s[|s| - 1] == '\n';
      var n := LineLength(s);
      RewrittenStep(s, name);
      FirstLineKept(s, n, name);
      NoPackageLineRest(s, n);
      RewrittenKeepsPlain(s[n..], name);
      KeptJoin(Rewritten(s, name), RewriteLine(s[..n], name), Rewritten(s[n..], name), s, n);
    }
  }

  lemma KeptJoin(whole: string, line: string, rest: string, s: string, n: nat)
    requires n <= |s| && whole == line + rest && line == s[..n] && rest == s[n..]
    ensures whole == s
  {
    assert s[..n] + s[n..] == s;
  }

  /** The first line of a text without a package clause is not rewritten. */
  lemma FirstLineKept(s: string, n: nat, name: string)
    requires NoPackageLine(s) && 0 < n <= |s|
    ensures RewriteLine(s[..n], name) == s[..n]
  {
    assert s[0..] == s;
    if n >= 7 {
      assert s[..n][..7] == s[..7];
    }
  }

  /** Text after the last newline is lost. */
  lemma RewrittenDropsTail(s: string, t: string, name: string)
    requires |s| == 0 || s[|s| - 1] == '\n'
    requires '\n' !in t
    ensures Rewritten(s + t, name) == Rewritten(s, name)
  {
    LinesDropTail(s, t);
  }

  /** A package clause is replaced by "package <name>" and its newline is dropped. */
  lemma PackageLineJoinsNext(line: string, rest: string, name: string)
    requires IsLine(line) && HasPrefix(line, "package")
    ensures Rewritten(line + rest, name) == "package " + name + Rewritten(rest, name)
  {
    LinesCons(line, rest);
    assert ([line] + Lines(rest))[1..] == Lines(rest);
  }

  /** Without a directory and a name, replace.go writes a bare "package " clause. */
  lemma LegacyEmptyPackage(line: string, rest: string)
    requires IsLine(line) && HasPrefix(line, "package")
    ensures Rewritten(line + rest, PackageNameFor("", "")) == "package " + Rewritten(rest, "")
  {
    assert Split("", '/') == [""];
    PackageLineJoinsNext(line, rest, "");
  }

  // ---------------------------------------------------------------- imports

  /** The dot-import of the models package. */
  function DotImport(packagePath: string): string {
    ". \"" + packagePath + "\""
  }

  /** getNewImports: the existing import lines, then the dot-import, in one import block. */
  function NewImports(existImports: seq<string>, packagePath: string): (r: string)
    ensures |r| >= 10 && r[..8] == "import(\n" && r[|r| - 2..] == "\n)"
  {
    "import(\n" + Join(existImports + [DotImport(packagePath)], "\n") + "\n)"
  }

  /**
   * The block's body, between "import(\n" and "\n)", splits back into the existing imports
   * followed by the dot-import, as long as no line holds a newline.
   */
  lemma NewImportsLines(existImports: seq<string>, packagePath: string)
    requires forall i :: 0 <= i < |existImports| ==> '\n' !in existImports[i]
    requires '\n' !in packagePath
    ensures var r := NewImports(existImports, packagePath);
      |r| >= 10 && r[..8] == "import(\n" && r[|r| - 2..] == "\n)"
      && Split(r[8..|r| - 2], '\n') == existImports + [DotImport(packagePath)]
  {
    var parts := existImports + [DotImport(packagePath)];
    var body := Join(parts, "\n");
    var r := NewImports(existImports, packagePath);
    assert r == "import(\n" + body + "\n)";
    assert r[8..|r| - 2] == body;
    forall i | 0 <= i < |parts|
      ensures '\n' !in parts[i]
    {
      if i == |existImports| {
        assert parts[i] == ". \"" + packagePath + "\"";
      }
    }
    JoinSplit(parts, '\n');
  }

  /**
   * replaceImports of movemodels.go past its regular expressions: `referenced` says whether some
   * model struct or field is mentioned, `single` and `block` are the text with the
   * single-import form or the import block rewritten, when that form occurs.
   */
  function MoveImports(outputDir: string, packagePath: string, str: string, referenced: bool,
                       single: Option<string>, block: Option<string>): (r: Result<string, string>)
    ensures outputDir == "" ==> r == Ok(str)
    ensures outputDir != "" && packagePath == "" ==> r.Err?
    ensures outputDir != "" && packagePath != "" && !referenced ==> r == Ok(str)
    ensures r.Err? ==> outputDir != "" && packagePath == ""
    ensures r.Ok? && single.None? && block.None? ==> r.value == str
  {
    if outputDir == "" then Ok(str)
    else if packagePath == "" then Err("empty package path")
    else if !referenced then Ok(str)
    else Ok(ImportsKept(str, single, block))
  }

  /**
   * The rewritten text as the source computes it: the result variable starts empty, the
   * single form overwrites it, then the block form; with neither form present it stays empty.
   */
  function ImportsResult(single: Option<string>, block: Option<string>): (r: string)
    ensures block.Some? ==> r == block.value
    ensures block.None? && single.Some? ==> r == single.value
    ensures block.None? && single.None? ==> r == ""
  {
    var afterSingle := if single.Some? then single.value else "";
    if block.Some? then block.value else afterSingle
  }

  /** The same with the text itself as the starting value, so that no form leaves it as it was. */
  function ImportsKept(str: string, single: Option<string>, block: Option<string>): (r: string)
    ensures block.Some? ==> r == block.value
    ensures block.None? && single.Some? ==> r == single.value
    ensures block.None? && single.None? ==> r == str
  {
    var afterSingle := if single.Some? then single.value else str;
    if block.Some? then block.value else afterSingle
  }

  /** A referencing file with no import statement is emptied as written, and kept as corrected. */
  lemma ImportsBlanked(str: string)
    ensures ImportsResult(None, None) == ""
    ensures ImportsKept(str, None, None) == str
    ensures forall single: Option<string>, block: Option<string> :: single.Some? || block.Some? ==>
      ImportsResult(single, block) == ImportsKept(str, single, block)
  {
  }

  /**
   * replaceImports of replace.go as written: no directory or package-path guard, and the same
   * empty starting value of the result.
   */
  function LegacyReplaceImportsAsWritten(str: string, referenced: bool, single: Option<string>, block: Option<string>)
    : (r: string)
    ensures !referenced ==> r == str
    ensures referenced && block.Some? ==> r == block.value
    ensures referenced && block.None? && single.Some? ==> r == single.value
    ensures referenced && block.None? && single.None? ==> r == ""
  {
    if !referenced then str else ImportsResult(single, block)
  }

  /** replaceImports of replace.go, corrected in the same way as MoveImports: with no import form the text is kept. */
  function LegacyReplaceImports(str: string, referenced: bool, single: Option<string>, block: Option<string>)
    : (r: string)
    ensures !referenced ==> r == str
    ensures referenced && block.Some? ==> r == block.value
    ensures referenced && block.None? && single.Some? ==> r == single.value
    ensures referenced && block.None? && single.None? ==> r == str
  {
    if !referenced then str else ImportsKept(str, single, block)
  }

  /**
   * As written, the older rewrite empties a referencing file with no import statement; the
   * corrected one keeps it, and the two agree everywhere else.
   */
  lemma LegacyImportsBlanked(str: string, referenced: bool, single: Option<string>, block: Option<string>)
    ensures LegacyReplaceImportsAsWritten(str, true, None, None) == ""
    ensures LegacyReplaceImports(str, true, None, None) == str
    ensures !referenced || single.Some? || block.Some? ==>
      LegacyReplaceImportsAsWritten(str, referenced, single, block) == LegacyReplaceImports(str, referenced, single, block)
  {
    if referenced && (single.Some? || block.Some?) {
      ImportsBlanked(str);
    }
  }

  /** With a directory and a package path configured, both versions agree. */
  lemma ImportVersionsAgree(outputDir: string, packagePath: string, str: string, referenced: bool,
                            single: Option<string>, block: Option<string>)
    requires outputDir != "" && packagePath != ""
    ensures MoveImports(outputDir, packagePath, str, referenced, single, block)
         == Ok(LegacyReplaceImports(str, referenced, single, block))
  {
  }

  // ---------------------------------------------------------------- version

  datatype SqlcError = UnsupportedVersion(version: int)

  /** The sqlc configuration version accepted after generation. */
  function CheckVersion(version: int): (r: Option<SqlcError>)
    ensures r == None <==> 1 <= version <= 2
    ensures r.Some? ==> r.value.version == version
  {
    if version > 2 || version < 1 then Some(UnsupportedVersion(version)) else None
  }
}
