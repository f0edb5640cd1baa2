/**
 * StructSlice (internal/structs/slice.go): an ordered list of structs with a priority sort and
 * the conversion from the catalog map.
 */
module Slice {
  import opened Wrappers
  import opened Strings
  import opened Fields
  import Structs

  /** How Sort can fail: a priority name that no struct has, or a negative slice capacity (panic). */
  datatype SortError = UndefinedStruct(name: string) | CapacityPanic

  function Names(items: seq<StructParameters>): (r: seq<string>)
    ensures |r| == |items| && forall i :: 0 <= i < |items| ==> r[i] == items[i].name
    decreases |items|
  {
    if |items| == 0 then [] else Names(items[..|items| - 1]) + [items[|items| - 1].name]
  }

  predicate DistinctNames(items: seq<StructParameters>) {
    forall i, j :: 0 <= i < j < |items| ==> items[i].name != items[j].name
  }

  // ---------------------------------------------------------------- ExistStructIndex

  /** ExistStructIndex: the first index whose struct has the name, with that struct, or (-1, nil). */
  function ExistStructIndex(items: seq<StructParameters>, name: string): (r: (int, Option<StructParameters>))
    ensures r.0 == -1 <==> name !in Names(items)
    ensures r.0 == -1 ==> r.1.None?
    ensures r.0 != -1 ==> 0 <= r.0 < |items| && items[r.0].name == name && r.1 == Some(items[r.0])
    ensures r.0 != -1 ==> forall j :: 0 <= j < r.0 ==> items[j].name != name
    decreases |items|
  {
    if |items| == 0 then (-1, None)
    else if items[0].name == name then (0, Some(items[0]))
    else
      var r := ExistStructIndex(items[1..], name);
      assert Names(items[1..]) == Names(items)[1..];
      if r.0 == -1 then (-1, None) else (r.0 + 1, r.1)
  }

  // ---------------------------------------------------------------- the order Sort produces

  /** The names of the structs that are not prioritised, in slice order. */
  function NotPriority(items: seq<StructParameters>, priority: seq<string>): seq<string>
    decreases |items|
  {
    if |items| == 0 then []
    else
      var rest := NotPriority(items[..|items| - 1], priority);
      var last := items[|items| - 1].name;
      if last in priority then rest else rest + [last]
  }

  /** The name order of Sort: the priority names as given, then the others ascending. */
  function SortOrder(items: seq<StructParameters>, priority: seq<string>): seq<string> {
    priority + SortStrings(NotPriority(items, priority))
  }

  /** The structs called `name`, in slice order. */
  function Named(items: seq<StructParameters>, name: string): seq<StructParameters>
    decreases |items|
  {
    if |items| == 0 then []
    else Named(items[..|items| - 1], name) + (if items[|items| - 1].name == name then [items[|items| - 1]] else [])
  }

  /** For each name in turn, every struct of that name. */
  function Gather(names: seq<string>, items: seq<StructParameters>): seq<StructParameters>
    decreases |names|
  {
    if |names| == 0 then [] else Gather(names[..|names| - 1], items) + Named(items, names[|names| - 1])
  }

  /** The first priority name no struct has, if any. */
  function FirstMissing(items: seq<StructParameters>, priority: seq<string>): (r: Option<string>)
    ensures r.Some? ==> r.value in priority && r.value !in Names(items)
    ensures r.None? ==> forall n :: n in priority ==> n in Names(items)
    decreases |priority|
  {
    if |priority| == 0 then None
    else if priority[0] !in Names(items) then Some(priority[0])
    else FirstMissing(items, priority[1..])
  }

  /** What Sort reports. */
  function SortOutcome(items: seq<StructParameters>, priority: seq<string>): Option<SortError> {
    if |priority| == 0 then None
    else if FirstMissing(items, priority).Some? then Some(UndefinedStruct(FirstMissing(items, priority).value))
    else if |items| < |priority| then Some(CapacityPanic)
    else None
  }

  /** StructSlice: the slice Sort reorders in place. */
  class StructSlice {
    var items: seq<StructParameters>

    constructor (items0: seq<StructParameters>)
      ensures items == items0
    {
      items := items0;
    }

    /**
     * Sort: the structs named by `priorityNames` first, in that order, then the rest by
     * ascending name.  Without priority names, or on an error, the slice is left as it is.
     */
    method Sort(priorityNames: seq<string>) returns (err: Option<SortError>)
      modifies this
      ensures err == SortOutcome(old(items), priorityNames)
      ensures err.Some? || |priorityNames| == 0 ==> items == old(items)
      ensures err.None? && |priorityNames| > 0 ==> items == Gather(SortOrder(old(items), priorityNames), old(items))
    {
      if |priorityNames| == 0 {
        return None;
      }
      var st := items;
      var names: seq<string> := [];
      var i := 0;
      while i < |priorityNames|
        invariant 0 <= i <= |priorityNames|
        invariant names == priorityNames[..i]
        invariant FirstMissing(st, priorityNames) == FirstMissing(st, priorityNames[i..])
      {
        var found := ExistStructIndex(st, priorityNames[i]);
        assert priorityNames[i..][1..] == priorityNames[i + 1..];
        if found.0 == -1 {
          return Some(UndefinedStruct(priorityNames[i]));
        }
        names := names + [priorityNames[i]];
        i := i + 1;
      }
      assert names == priorityNames;
      if |st| - |priorityNames| < 0 {
        // a negative capacity for the non-priority names panics
        return Some(CapacityPanic);
      }
      var notPriorityNames := CollectNotPriority(st, names);
      notPriorityNames := SortStrings(notPriorityNames);
      names := names + notPriorityNames;
      var sorted := GatherStructs(names, st);
      items := sorted;
      err := None;
    }
  }

  /** The loop of Sort that collects, in slice order, the names that are not prioritised. */
  method CollectNotPriority(st: seq<StructParameters>, names: seq<string>) returns (notPriorityNames: seq<string>)
    ensures notPriorityNames == NotPriority(st, names)
  {
    notPriorityNames := [];
    var k := 0;
    while k < |st|
      invariant 0 <= k <= |st|
      invariant notPriorityNames == NotPriority(st[..k], names)
    {
      assert st[..k + 1][..k] == st[..k];
      if st[k].name !in names {
        notPriorityNames := notPriorityNames + [st[k].name];
      }
      k := k + 1;
    }
    assert st[..k] == st;
  }

  /** The nested loops of Sort: for each name, every struct of that name, appended in turn. */
  method GatherStructs(names: seq<string>, st: seq<StructParameters>) returns (sorted: seq<StructParameters>)
    ensures sorted == Gather(names, st)
  {
    sorted := [];
    var n := 0;
    while n < |names|
      invariant 0 <= n <= |names|
      invariant sorted == Gather(names[..n], st)
    {
      var m := 0;
      ghost var before := sorted;
      while m < |st|
        invariant 0 <= m <= |st|
        invariant sorted == before + Named(st[..m], names[n])
      {
        assert st[..m + 1][..m] == st[..m];
        if st[m].name == names[n] {
          sorted := sorted + [st[m]];
        }
        m := m + 1;
      }
      assert st[..m] == st;
      assert names[..n + 1][..n] == names[..n];
      n := n + 1;
    }
    assert names[..n] == names;
  }

  // ---------------------------------------------------------------- properties of the order

  lemma {:induction false} NamedMembers(items: seq<StructParameters>, name: string)
    ensures forall s :: s in Named(items, name) <==> s in items && s.name == name
    decreases |items|
  {
    if |items| > 0 {
      NamedMembers(items[..|items| - 1], name);
      assert items == items[..|items| - 1] + [items[|items| - 1]];
    }
  }

  /** With distinct names, a present name selects exactly its struct. */
  lemma NamedUnique(items: seq<StructParameters>, i: nat)
    requires DistinctNames(items) && i < |items|
    ensures Named(items, items[i].name) == [items[i]]
  {
    NamedSplit(items, i);
    assert items[..|items|] == items;
  }

  lemma {:induction false} NamedSplit(items: seq<StructParameters>, i: nat)
    requires DistinctNames(items) && i < |items|
    ensures Named(items[..i + 1], items[i].name) == [items[i]]
    ensures forall k :: i < k <= |items| ==> Named(items[..k], items[i].name) == [items[i]]
  {
    assert Named(items[..i], items[i].name) == [] by {
      NamedAbsent(items[..i], items[i].name);
    }
    assert items[..i + 1][..i] == items[..i];
    forall k | i < k <= |items|
      ensures Named(items[..k], items[i].name) == [items[i]]
    {
      NamedGrow(items, i, k);
    }
  }

  lemma {:induction false} NamedGrow(items: seq<StructParameters>, i: nat, k: nat)
    requires DistinctNames(items) && i < k <= |items|
    requires Named(items[..i + 1], items[i].name) == [items[i]]
    ensures Named(items[..k], items[i].name) == [items[i]]
    decreases k
  {
    if k > i + 1 {
      NamedGrow(items, i, k - 1);
      assert items[..k][..k - 1] == items[..k - 1];
      assert items[..k][k - 1] == items[k - 1];
    }
  }

  lemma {:induction false} NamedAbsent(items: seq<StructParameters>, name: string)
    requires forall j :: 0 <= j < |items| ==> items[j].name != name
    ensures Named(items, name) == []
    decreases |items|
  {
    if |items| > 0 {
      NamedAbsent(items[..|items| - 1], name);
    }
  }

  /** Gathering names that each belong to exactly one struct lists those structs in name order. */
  lemma {:induction false} GatherNames(names: seq<string>, items: seq<StructParameters>)
    requires DistinctNames(items)
    requires forall n :: n in names ==> n in Names(items)
    ensures Names(Gather(names, items)) == names
    ensures forall s :: s in Gather(names, items) ==> s in items
    decreases |names|
  {
    if |names| > 0 {
      var init := names[..|names| - 1];
      var last := names[|names| - 1];
      assert init + [last] == names;
      assert forall n :: n in init ==> n in names;
      GatherNames(init, items);
      assert last in Names(items);
      var i :| 0 <= i < |items| && Names(items)[i] == last;
      NamedUnique(items, i);
      var g := Gather(init, items);
      assert Gather(names, items) == g + [items[i]];
      assert Names(g + [items[i]]) == Names(g) + [items[i].name] by {
        assert (g + [items[i]])[..|g|] == g;
      }
    }
  }

  /** The names Sort puts last are the non-priority names, each once, ascending. */
  lemma {:induction false} NotPriorityMembers(items: seq<StructParameters>, priority: seq<string>)
    ensures forall n :: n in NotPriority(items, priority) <==> n in Names(items) && n !in priority
    ensures DistinctNames(items) ==> Structs.Distinct(NotPriority(items, priority))
    decreases |items|
  {
    if |items| > 0 {
      var init := items[..|items| - 1];
      NotPriorityMembers(init, priority);
      assert Names(items) == Names(init) + [items[|items| - 1].name];
      if DistinctNames(items) {
        assert DistinctNames(init);
        assert items[|items| - 1].name !in Names(init) by {
          forall j | 0 <= j < |init| ensures Names(init)[j] != items[|items| - 1].name {
            assert Names(init)[j] == items[j].name;
          }
        }
      }
    }
  }

  lemma DistinctNamesDistinct(items: seq<StructParameters>)
    requires DistinctNames(items)
    ensures Structs.Distinct(Names(items)) && Structs.Distinct(items)
  {
    assert forall i, j :: 0 <= i < j < |items| ==> items[i] != items[j] by {
      forall i, j | 0 <= i < j < |items| ensures items[i] != items[j] {
        assert items[i].name != items[j].name;
      }
    }
  }

  /** In a sequence without repeats every member occurs once. */
  lemma {:induction false} DistinctCounts<T>(s: seq<T>)
    requires Structs.Distinct(s)
    ensures forall x :: multiset(s)[x] == if x in s then 1 else 0
    decreases |s|
  {
    if |s| > 0 {
      var init := s[..|s| - 1];
      DistinctCounts(init);
      assert s == init + [s[|s| - 1]];
      assert s[|s| - 1] !in init by {
        forall j | 0 <= j < |init| ensures init[j] != s[|s| - 1] {
          assert init[j] == s[j];
        }
      }
    }
  }

  /** Two sequences without repeats and with the same members are permutations of each other. */
  lemma DistinctSameMembers<T>(a: seq<T>, b: seq<T>)
    requires Structs.Distinct(a) && Structs.Distinct(b)
    requires forall x :: x in a <==> x in b
    ensures multiset(a) == multiset(b)
  {
    DistinctCounts(a);
    DistinctCounts(b);
  }

  /** A permutation of a sequence without repeats has no repeats. */
  lemma PermutationDistinct<T>(a: seq<T>, b: seq<T>)
    requires multiset(a) == multiset(b) && Structs.Distinct(b)
    ensures Structs.Distinct(a)
  {
    DistinctCounts(b);
    forall i, j | 0 <= i < j < |a| ensures a[i] != a[j] {
      RepeatCounts(a, i, j);
      assert a[i] in multiset(b);
    }
  }

  /**
   * With distinct struct names and distinct priority names that all exist, the names Sort orders
   * by are a permutation of the struct names.
   */
  lemma SortOrderPermutes(items: seq<StructParameters>, priority: seq<string>)
    requires DistinctNames(items) && Structs.Distinct(priority)
    requires forall n :: n in priority ==> n in Names(items)
    ensures multiset(SortOrder(items, priority)) == multiset(Names(items))
  {
    var rest := NotPriority(items, priority);
    var names := Names(items);
    NotPriorityMembers(items, priority);
    DistinctCounts(priority);
    DistinctCounts(rest);
    DistinctNamesDistinct(items);
    DistinctCounts(names);
    assert multiset(SortOrder(items, priority)) == multiset(priority) + multiset(rest);
    forall x
      ensures multiset(priority)[x] + multiset(rest)[x] == multiset(names)[x]
    {
      if x in priority {
        assert x in names && x !in rest;
      } else {
        assert x in rest <==> x in names;
      }
    }
  }

  /**
   * After a successful Sort of structs with distinct names by distinct priority names: the
   * prioritised structs come first in the order given, the others follow by ascending name,
   * and the result is a permutation of the input.
   */
  lemma SortResult(items: seq<StructParameters>, priority: seq<string>)
    requires DistinctNames(items) && Structs.Distinct(priority) && |priority| > 0
    requires SortOutcome(items, priority).None?
    ensures var r := Gather(SortOrder(items, priority), items);
      && |r| == |items|
      && Names(r)[..|priority|] == priority
      && Sorted(Names(r)[|priority|..])
      && multiset(r) == multiset(items)
  {
    var order := SortOrder(items, priority);
    var r := Gather(order, items);
    NotPriorityMembers(items, priority);
    assert forall n :: n in order ==> n in Names(items) by {
      forall n | n in order ensures n in Names(items) {
        if n !in priority {
          assert n in multiset(SortStrings(NotPriority(items, priority)));
        }
      }
    }
    GatherNames(order, items);
    SortOrderPermutes(items, priority);
    assert Names(r)[..|priority|] == priority;
    assert Names(r)[|priority|..] == SortStrings(NotPriority(items, priority));
    assert |r| == |items| by {
      assert |multiset(Names(r))| == |multiset(Names(items))|;
    }
    GatherPermutes(r, items);
  }

  /** Structs drawn from `items` (distinct names) whose names permute its names permute it. */
  lemma GatherPermutes(r: seq<StructParameters>, items: seq<StructParameters>)
    requires DistinctNames(items)
    requires forall s :: s in r ==> s in items
    requires multiset(Names(r)) == multiset(Names(items))
    ensures multiset(r) == multiset(items)
  {
    DistinctNamesDistinct(items);
    PermutationDistinct(Names(r), Names(items));
    assert DistinctNames(r) by {
      forall i, j | 0 <= i < j < |r| ensures r[i].name != r[j].name {
        assert Names(r)[i] != Names(r)[j];
      }
    }
    DistinctNamesDistinct(r);
    forall s | s in items
      ensures s in r
    {
      var i :| 0 <= i < |items| && items[i] == s;
      assert s.name in multiset(Names(r)) by {
        assert Names(items)[i] == s.name;
      }
      var j :| 0 <= j < |r| && Names(r)[j] == s.name;
      assert r[j] in r;
      var k :| 0 <= k < |items| && items[k] == r[j];
      assert items[k].name == items[i].name;
    }
    DistinctSameMembers(r, items);
  }

  /** Without priority names Sort reports nothing; an unknown name is reported before any panic. */
  lemma SortOutcomeCases(items: seq<StructParameters>, priority: seq<string>)
    ensures |priority| == 0 ==> SortOutcome(items, priority).None?
    ensures (exists n :: n in priority && n !in Names(items)) ==>
      SortOutcome(items, priority).Some? && SortOutcome(items, priority).value.UndefinedStruct?
  {
  }

  /** A repeated priority name on a one-struct slice makes the capacity negative. */
  lemma RepeatedPriorityPanics(s: StructParameters)
    ensures SortOutcome([s], [s.name, s.name]) == Some(CapacityPanic)
  {
    assert Names([s]) == [s.name];
  }

  // ---------------------------------------------------------------- ConvertStructsToSlice

  /**
   * ConvertStructsToSlice: every value of the map once per key, in map-iteration order (here an
   * arbitrary order, recorded by the ghost sequence of keys).
   */
  method ConvertStructsToSlice(st: map<string, StructParameters>) returns (res: seq<StructParameters>, ghost keys: seq<string>)
    ensures |res| == |keys| == |st|
    ensures forall k :: k in st <==> k in keys
    ensures Structs.Distinct(keys)
    ensures forall i :: 0 <= i < |res| ==> keys[i] in st && res[i] == st[keys[i]]
  {
    res := [];
    keys := [];
    var todo := st.Keys;
    while todo != {}
      invariant todo <= st.Keys
      invariant |res| == |keys|
      invariant forall k :: k in keys <==> k in st && k !in todo
      invariant Structs.Distinct(keys)
      invariant forall i :: 0 <= i < |res| ==> keys[i] in st && res[i] == st[keys[i]]
      invariant |keys| + |todo| == |st|
      decreases |todo|
    {
      var k :| k in todo;
      res := res + [st[k]];
      keys := keys + [k];
      todo := todo - {k};
    }
  }
}
