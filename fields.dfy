/**
 * The struct catalog's records (internal/structs/field.go, parameters.go): a field with its tag
 * map, a struct with its ordered field list, the struct-tag parser of parseTypeSpec and the
 * sorted tag serialisation GetGoTag.
 */
module Fields {
  import opened Wrappers
  import opened Strings

  /** A Go `map[string]string` of tags, which may be nil (never made). */
  datatype Tags = NilTags | TagMap(entries: map<string, string>)
  {
    /** Reading a nil map behaves like reading an empty one. */
    function Entries(): map<string, string> {
      if NilTags? then map[] else entries
    }
  }

  /** StructField (the parsed-expression pointer is not kept). */
  datatype StructField = StructField(name: string, typ: string, tags: Tags)

  /** StructParameters */
  datatype StructParameters = StructParameters(
    externalPackage: string,
    name: string,
    imports: seq<string>,
    fields: seq<StructField>,
    originalName: string)

  // ---------------------------------------------------------------- IsExported

  /** StructField.IsExported: the name equals its UcFirst form. */
  predicate IsExported(f: StructField) {
    f.name == UcFirst(f.name)
  }

  /** So a name is exported iff it is empty or does not start with a lower-case letter. */
  lemma IsExportedIff(f: StructField)
    ensures IsExported(f) <==> |f.name| == 0 || !IsLower(f.name[0])
  {
    if |f.name| > 0 {
      assert f.name == [f.name[0]] + f.name[1..];
      if IsLower(f.name[0]) {
        assert UcFirst(f.name)[0] != f.name[0];
      }
    }
  }

  // ---------------------------------------------------------------- ExistFieldIndex

  /** StructParameters.ExistFieldIndex: the first index of a field called `name`, or -1. */
  function ExistFieldIndex(fields: seq<StructField>, name: string): (r: int)
    ensures r == -1 <==> forall i :: 0 <= i < |fields| ==> fields[i].name != name
    ensures r != -1 ==> 0 <= r < |fields| && fields[r].name == name
    ensures r != -1 ==> forall j :: 0 <= j < r ==> fields[j].name != name
  {
    FindFrom(fields, name, 0)
  }

  function FindFrom(fields: seq<StructField>, name: string, from: nat): (r: int)
    requires from <= |fields|
    requires forall j :: 0 <= j < from ==> fields[j].name != name
    ensures r == -1 <==> forall i :: 0 <= i < |fields| ==> fields[i].name != name
    ensures r != -1 ==> from <= r < |fields| && fields[r].name == name
    ensures r != -1 ==> forall j :: 0 <= j < r ==> fields[j].name != name
    decreases |fields| - from
  {
    if from == |fields| then -1
    else if fields[from].name == name then from
    else FindFrom(fields, name, from + 1)
  }

  // ---------------------------------------------------------------- tag parsing

  /** Length of the leading run of regexp `\w` characters. */
  function WordRun(s: string): (n: nat)
    ensures n <= |s|
    ensures forall i :: 0 <= i < n ==> IsWord(s[i])
    ensures n < |s| ==> !IsWord(s[n])
  {
    if |s| == 0 || !IsWord(s[0]) then 0 else 1 + WordRun(s[1..])
  }

  predicate IsWordString(s: string) {
    |s| > 0 && forall i :: 0 <= i < |s| ==> IsWord(s[i])
  }

  /**
   * A match of the tag regexp (\w+):"(\w+)" that starts at the first character of `s`: the key,
   * the value and the length of the match.  The key must be the whole word run, because ':' is
   * not a word character.
   */
  function TagMatchAt(s: string): (r: Option<(string, string, nat)>)
    ensures r.Some? ==> IsWordString(r.value.0) && IsWordString(r.value.1)
    ensures r.Some? ==> 0 < r.value.2 <= |s|
  {
    var k := WordRun(s);
    if k == 0 || k + 2 > |s| || s[k] != ':' || s[k + 1] != '"' then None
    else
      var v := WordRun(s[k + 2..]);
      if v == 0 || k + 2 + v >= |s| || s[k + 2 + v] != '"' then None
      else Some((s[..k], s[k + 2..k + 2 + v], k + 3 + v))
  }

  /** FindAllStringSubmatch of the tag regexp: leftmost, non-overlapping (key, value) pairs. */
  function TagPairs(s: string): (pairs: seq<(string, string)>)
    ensures forall i :: 0 <= i < |pairs| ==> IsWordString(pairs[i].0) && IsWordString(pairs[i].1)
    decreases |s|
  {
    if |s| == 0 then []
    else
      match TagMatchAt(s)
      case Some((k, v, n)) => [(k, v)] + TagPairs(s[n..])
      case None => TagPairs(s[1..])
  }

  /** The tag map built from the pairs in order: a later pair overwrites an earlier key. */
  function PairsToMap(pairs: seq<(string, string)>): (m: map<string, string>)
    ensures forall k :: k in m <==> exists i :: 0 <= i < |pairs| && pairs[i].0 == k
    decreases |pairs|
  {
    if |pairs| == 0 then map[]
    else
      var last := pairs[|pairs| - 1];
      var m := PairsToMap(pairs[..|pairs| - 1]);
      assert forall i :: 0 <= i < |pairs| - 1 ==> pairs[..|pairs| - 1][i] == pairs[i];
      m[last.0 := last.1]
  }

  /** A repeated key keeps the value of its last occurrence. */
  lemma {:induction false} LastValueWins(pairs: seq<(string, string)>, i: nat)
    requires i < |pairs|
    requires forall j :: i < j < |pairs| ==> pairs[j].0 != pairs[i].0
    ensures PairsToMap(pairs)[pairs[i].0] == pairs[i].1
    decreases |pairs|
  {
    if i < |pairs| - 1 {
      var init := pairs[..|pairs| - 1];
      assert init[i] == pairs[i];
      forall j | i < j < |init| ensures init[j].0 != init[i].0 {
        assert init[j] == pairs[j];
      }
      LastValueWins(init, i);
    }
  }

  /** The tags of one struct-tag literal, as parseTypeSpec and GetStructsOld parse them. */
  function ParseTags(tag: string): (m: map<string, string>)
    ensures forall k :: k in m ==> IsWordString(k) && IsWordString(m[k])
  {
    var pairs := TagPairs(tag);
    var m := PairsToMap(pairs);
    assert forall k :: k in m ==> IsWordString(k) && IsWordString(m[k]) by {
      forall k | k in m ensures IsWordString(k) && IsWordString(m[k]) {
        LastOccurrence(pairs, k);
      }
    }
    m
  }

  lemma LastOccurrence(pairs: seq<(string, string)>, k: string)
    requires forall i :: 0 <= i < |pairs| ==> IsWordString(pairs[i].0) && IsWordString(pairs[i].1)
    requires k in PairsToMap(pairs)
    ensures IsWordString(k) && IsWordString(PairsToMap(pairs)[k])
    decreases |pairs|
  {
    var init := pairs[..|pairs| - 1];
    if pairs[|pairs| - 1].0 != k {
      LastOccurrence(init, k);
    }
  }

  /** A key:"value" pair of word strings at the front is matched whole. */
  lemma TagMatchOfPair(k: string, v: string, rest: string)
    requires IsWordString(k) && IsWordString(v)
    ensures TagMatchAt(k + ":\"" + v + "\"" + rest) == Some((k, v, |k| + |v| + 3))
  {
    var s := k + ":\"" + v + "\"" + rest;
    WordRunOf(k, ":\"" + v + "\"" + rest);
    assert s == k + (":\"" + v + "\"" + rest);
    assert s[|k| + 2..] == v + ("\"" + rest);
    WordRunOf(v, "\"" + rest);
    assert s[..|k|] == k;
    assert s[|k| + 2..|k| + 2 + |v|] == v;
  }

  lemma {:induction false} WordRunOf(w: string, rest: string)
    requires forall i :: 0 <= i < |w| ==> IsWord(w[i])
    requires |rest| > 0 && !IsWord(rest[0])
    ensures WordRun(w + rest) == |w|
    decreases |w|
  {
    if |w| > 0 {
      assert (w + rest)[1..] == w[1..] + rest;
      WordRunOf(w[1..], rest);
    } else {
      assert w + rest == rest;
    }
  }

  // ---------------------------------------------------------------- GetGoTag

  /** One rendered tag: key:"value". */
  function Entry(key: string, value: string): (r: string)
    ensures |r| >= 3
  {
    key + ":\"" + value + "\""
  }

  function Render(keys: seq<string>, m: map<string, string>): (r: seq<string>)
    requires forall i :: 0 <= i < |keys| ==> keys[i] in m
    ensures |r| == |keys|
    ensures forall i :: 0 <= i < |keys| ==> r[i] == Entry(keys[i], m[keys[i]])
    decreases |keys|
  {
    if |keys| == 0 then [] else [Entry(keys[0], m[keys[0]])] + Render(keys[1..], m)
  }

  /** The serialised tag: every entry, in ascending key order, separated by single spaces. */
  ghost function GoTag(m: map<string, string>): string {
    var keys := SortedSet(m.Keys);
    SortedSetStrict(m.Keys);
    Join(Render(keys, m), " ")
  }

  /** StructField.GetGoTag */
  method GetGoTag(f: StructField) returns (tag: string)
    ensures tag == GoTag(f.tags.Entries())
  {
    var m := f.tags.Entries();
    var keys := CollectKeys(m);
    keys := SortStrings(keys);
    KeysAreSortedSet(m, keys);
    var entries := Render(keys, m);
    tag := "";
    var i := 0;
    while i < |keys|
      invariant 0 <= i <= |keys|
      invariant tag == Join(entries[..i], " ")
    {
      var e := Entry(keys[i], m[keys[i]]);
      assert e == entries[i];
      RenderStep(entries, i, tag);
      if tag != "" {
        tag := tag + " ";
      }
      tag := tag + e;
      i := i + 1;
    }
    assert entries[..|keys|] == entries;
  }

  lemma RenderStep(entries: seq<string>, i: nat, tag: string)
    requires i < |entries|
    requires forall j :: 0 <= j < |entries| ==> |entries[j]| > 0
    requires tag == Join(entries[..i], " ")
    ensures Join(entries[..i + 1], " ") == (if tag != "" then tag + " " else tag) + entries[i]
  {
    JoinAppend(entries[..i], entries[i]);
    assert entries[..i + 1] == entries[..i] + [entries[i]];
  }

  lemma KeysAreSortedSet<V>(m: map<string, V>, keys: seq<string>)
    requires Sorted(keys) && multiset(keys) == multiset(m.Keys)
    ensures keys == SortedSet(m.Keys)
    ensures forall i :: 0 <= i < |keys| ==> keys[i] in m
  {
    SortedUnique(keys, SortedSet(m.Keys));
    SortedSetStrict(m.Keys);
  }

  /** The keys of a map, in Go's unspecified iteration order. */
  method CollectKeys<V>(m: map<string, V>) returns (keys: seq<string>)
    ensures multiset(keys) == multiset(m.Keys)
  {
    keys := [];
    var rest := m.Keys;
    while rest != {}
      invariant rest <= m.Keys
      invariant multiset(keys) + multiset(rest) == multiset(m.Keys)
      decreases |rest|
    {
      var k :| k in rest;
      assert multiset(rest) == multiset(rest - {k}) + multiset{k};
      keys := keys + [k];
      rest := rest - {k};
    }
  }

  /** A map's keys collected and then sorted: `sort.Strings` over the keys of a range loop. */
  method SortedKeys<V>(m: map<string, V>) returns (keys: seq<string>)
    ensures keys == SortedSet(m.Keys)
    ensures forall i :: 0 <= i < |keys| ==> keys[i] in m
  {
    keys := CollectKeys(m);
    keys := SortStrings(keys);
    KeysAreSortedSet(m, keys);
  }

  lemma {:induction false} JoinAppend(parts: seq<string>, x: string)
    requires forall i :: 0 <= i < |parts| ==> |parts[i]| > 0
    ensures Join(parts, " ") == "" <==> |parts| == 0
    ensures Join(parts + [x], " ") == if |parts| == 0 then x else Join(parts, " ") + " " + x
    decreases |parts|
  {
    if |parts| > 1 {
      JoinAppend(parts[1..], x);
      assert (parts + [x])[1..] == parts[1..] + [x];
    } else if |parts| == 1 {
      assert (parts + [x])[1..] == [x];
    }
  }

  /** An empty (or nil) tag map serialises to "", and only an empty one does. */
  lemma GoTagEmpty(m: map<string, string>)
    ensures GoTag(m) == "" <==> |m| == 0
  {
    SortedSetStrict(m.Keys);
    var entries := Render(SortedSet(m.Keys), m);
    JoinAppend(entries, "");
    assert |m.Keys| == |m|;
  }

  /**
   * With keys and values free of spaces, splitting the tag at each space gives exactly one
   * key:"value" entry per key, in strictly ascending key order.
   */
  lemma GoTagEntries(m: map<string, string>)
    requires |m| > 0
    requires forall k :: k in m ==> ' ' !in k && ' ' !in m[k]
    ensures |Split(GoTag(m), ' ')| == |m| == |SortedSet(m.Keys)|
    ensures StrictlySorted(SortedSet(m.Keys))
    ensures forall i :: 0 <= i < |m| ==>
      (SortedSet(m.Keys)[i] in m && Split(GoTag(m), ' ')[i] == Entry(SortedSet(m.Keys)[i], m[SortedSet(m.Keys)[i]]))
  {
    SortedSetStrict(m.Keys);
    assert |m.Keys| == |m|;
    GoTagSplit(m);
  }

  /** Splitting the tag of a map whose keys and values hold no space gives back its entries. */
  lemma GoTagSplit(m: map<string, string>)
    requires |m| > 0
    requires forall k :: k in m ==> ' ' !in k && ' ' !in m[k]
    ensures forall i :: 0 <= i < |SortedSet(m.Keys)| ==> SortedSet(m.Keys)[i] in m
    ensures Split(GoTag(m), ' ') == Render(SortedSet(m.Keys), m)
  {
    SortedSetStrict(m.Keys);
    var keys := SortedSet(m.Keys);
    assert |m.Keys| == |m|;
    EntriesSpaceFree(keys, m);
    JoinSplit(Render(keys, m), ' ');
  }

  lemma EntriesSpaceFree(keys: seq<string>, m: map<string, string>)
    requires forall i :: 0 <= i < |keys| ==> keys[i] in m
    requires forall k :: k in m ==> ' ' !in k && ' ' !in m[k]
    ensures forall i :: 0 <= i < |keys| ==> ' ' !in Render(keys, m)[i]
  {
    forall i | 0 <= i < |keys| ensures ' ' !in Render(keys, m)[i] {
      assert keys[i] in m;
      EntrySpaceFree(keys[i], m[keys[i]]);
    }
  }

  lemma EntrySpaceFree(key: string, value: string)
    requires ' ' !in key && ' ' !in value
    ensures ' ' !in Entry(key, value)
  {
    assert Entry(key, value) == key + ":\"" + value + "\"";
  }
}
