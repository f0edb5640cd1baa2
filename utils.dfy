/**
 * The generic slice helpers of utils/utils.go and the PascalCase converter of utils/strings.go.
 */
module Utils {
  import opened Strings

  // ---------------------------------------------------------------- ExistInArray

  /** ExistInArray: a linear search for `item`. */
  function ExistInArray<T(==)>(values: seq<T>, item: T): (r: bool)
    ensures r <==> item in values
    decreases |values|
  {
    if |values| == 0 then false
    else if values[0] == item then true
    else ExistInArray(values[1..], item)
  }

  // ---------------------------------------------------------------- FilterString

  /** The elements of `values` that do not occur in `drop`, in their original order. */
  function Without<T(==)>(values: seq<T>, drop: seq<T>): seq<T>
    decreases |values|
  {
    if |values| == 0 then []
    else (if values[0] in drop then [] else [values[0]]) + Without(values[1..], drop)
  }

  /** FilterString: copies `values`, skipping every item that occurs in `filterValues`. */
  method FilterString<T(==)>(values: seq<T>, filterValues: seq<T>) returns (result: seq<T>)
    ensures result == Without(values, filterValues)
    ensures forall x :: x in result <==> x in values && x !in filterValues
    ensures |result| <= |values|
  {
    result := [];
    var i := 0;
    while i < |values|
      invariant 0 <= i <= |values|
      invariant result + Without(values[i..], filterValues) == Without(values, filterValues)
    {
      assert values[i..] == [values[i]] + values[i + 1..];
      if ExistInArray(filterValues, values[i]) {
        i := i + 1;
        continue;
      }
      result := result + [values[i]];
      i := i + 1;
    }
    WithoutMembers(values, filterValues);
    WithoutShorter(values, filterValues);
  }

  lemma {:induction false} WithoutMembers<T>(values: seq<T>, drop: seq<T>)
    ensures forall x :: x in Without(values, drop) <==> x in values && x !in drop
    decreases |values|
  {
    if |values| > 0 {
      WithoutMembers(values[1..], drop);
      assert values == [values[0]] + values[1..];
    }
  }

  lemma {:induction false} WithoutShorter<T>(values: seq<T>, drop: seq<T>)
    ensures |Without(values, drop)| <= |values|
    decreases |values|
  {
    if |values| > 0 {
      WithoutShorter(values[1..], drop);
    }
  }

  /** With nothing to filter, FilterString returns a copy equal to its input. */
  lemma {:induction false} WithoutNothing<T>(values: seq<T>)
    ensures Without(values, []) == values
    decreases |values|
  {
    if |values| > 0 {
      WithoutNothing(values[1..]);
      assert values == [values[0]] + values[1..];
    }
  }

  /** Filtering twice with the same list gives the same result as filtering once. */
  lemma {:induction false} WithoutIdempotent<T>(values: seq<T>, drop: seq<T>)
    ensures Without(Without(values, drop), drop) == Without(values, drop)
    decreases |values|
  {
    if |values| > 0 {
      WithoutIdempotent(values[1..], drop);
      if values[0] in drop {
        assert Without(values, drop) == Without(values[1..], drop);
      } else {
        var rest := Without(values[1..], drop);
        assert Without(values, drop) == [values[0]] + rest;
        assert ([values[0]] + rest)[1..] == rest;
        assert Without([values[0]] + rest, drop) == [values[0]] + Without(rest, drop);
      }
    }
  }

  // ---------------------------------------------------------------- ToPascalCase

  /** The separators of ToPascalCase's strings.FieldsFunc call. */
  predicate IsSeparator(c: char) {
    c == ' ' || c == '-' || c == '_'
  }

  /** Length of the leading run of non-separator characters. */
  function RunLength(s: string): (n: nat)
    ensures n <= |s|
    ensures forall i :: 0 <= i < n ==> !IsSeparator(s[i])
    ensures n < |s| ==> IsSeparator(s[n])
  {
    if |s| == 0 || IsSeparator(s[0]) then 0 else 1 + RunLength(s[1..])
  }

  /** strings.FieldsFunc with IsSeparator: the maximal separator-free runs, empty pieces dropped. */
  function Fields(s: string): (words: seq<string>)
    ensures forall i :: 0 <= i < |words| ==> |words[i]| > 0
    ensures forall i, j :: 0 <= i < |words| && 0 <= j < |words[i]| ==> !IsSeparator(words[i][j])
    decreases |s|
  {
    if |s| == 0 then []
    else if IsSeparator(s[0]) then Fields(s[1..])
    else
      var n := RunLength(s);
      [s[..n]] + Fields(s[n..])
  }

  /** A string with no separator is one word, or no word when it is empty. */
  lemma {:induction false} FieldsOfWord(s: string)
    requires forall i :: 0 <= i < |s| ==> !IsSeparator(s[i])
    ensures Fields(s) == if |s| == 0 then [] else [s]
  {
    if |s| > 0 {
      RunLengthOfWord(s);
      assert s[..|s|] == s;
      assert s[|s|..] == [];
    }
  }

  lemma {:induction false} RunLengthOfWord(s: string)
    requires forall i :: 0 <= i < |s| ==> !IsSeparator(s[i])
    ensures RunLength(s) == |s|
    decreases |s|
  {
    if |s| > 0 {
      RunLengthOfWord(s[1..]);
    }
  }

  /**
   * cases.Title applied to strings.ToLower(word), simplified to ASCII: the word lower-cased with
   * its first letter upper-cased.
   */
  function TitleLower(word: string): (r: string)
    ensures |r| == |word|
  {
    UcFirst(ToLower(word))
  }

  function ConcatTitled(words: seq<string>): string
    decreases |words|
  {
    if |words| == 0 then "" else TitleLower(words[0]) + ConcatTitled(words[1..])
  }

  /** ToPascalCase: title-cased words concatenated, then every "Id" spelled "ID". */
  method ToPascalCase(s: string) returns (r: string)
    ensures r == ReplaceAll(ConcatTitled(Fields(s)), "Id", "ID")
    ensures |Fields(s)| == 0 ==> r == ""
    ensures !Contains(r, "Id")
    ensures forall i :: 0 <= i < |r| ==> !IsSeparator(r[i])
  {
    var words := Fields(s);
    if |words| == 0 {
      return "";
    }
    var pascal := "";
    var i := 0;
    while i < |words|
      invariant 0 <= i <= |words|
      invariant pascal + ConcatTitled(words[i..]) == ConcatTitled(words)
    {
      assert words[i..][1..] == words[i + 1..];
      pascal := pascal + TitleLower(words[i]);
      i := i + 1;
    }
    assert pascal == ConcatTitled(words);
    r := ReplaceAll(pascal, "Id", "ID");
    NoIdAfterReplace(pascal);
    TitledHasNoSeparator(words);
    ReplaceKeepsNoSeparator(pascal);
  }

  lemma {:induction false} TitledHasNoSeparator(words: seq<string>)
    requires forall i, j :: 0 <= i < |words| && 0 <= j < |words[i]| ==> !IsSeparator(words[i][j])
    ensures forall k :: 0 <= k < |ConcatTitled(words)| ==> !IsSeparator(ConcatTitled(words)[k])
    decreases |words|
  {
    if |words| > 0 {
      TitledHasNoSeparator(words[1..]);
      var w := words[0];
      var t := TitleLower(w);
      assert forall k :: 0 <= k < |t| ==> !IsSeparator(t[k]) by {
        forall k | 0 <= k < |t|
          ensures !IsSeparator(t[k])
        {
          assert !IsSeparator(w[k]);
          assert ToLower(w)[k] == LowerChar(w[k]);
        }
      }
    }
  }

  lemma {:induction false} ReplaceKeepsNoSeparator(s: string)
    requires forall k :: 0 <= k < |s| ==> !IsSeparator(s[k])
    ensures forall k :: 0 <= k < |ReplaceAll(s, "Id", "ID")| ==> !IsSeparator(ReplaceAll(s, "Id", "ID")[k])
    decreases |s|
  {
    if |s| >= 2 {
      if s[..2] == "Id" {
        ReplaceKeepsNoSeparator(s[2..]);
      } else {
        ReplaceKeepsNoSeparator(s[1..]);
      }
    }
  }

  /** After replacing every "Id" by "ID", no "Id" is left. */
  lemma {:induction false} NoIdAfterReplace(s: string)
    ensures !Contains(ReplaceAll(s, "Id", "ID"), "Id")
    decreases |s|
  {
    var r := ReplaceAll(s, "Id", "ID");
    if |s| < 2 {
      if |s| == 1 {
        assert !Contains(s[1..], "Id");
      }
    } else if s[..2] == "Id" {
      var rest := ReplaceAll(s[2..], "Id", "ID");
      NoIdAfterReplace(s[2..]);
      assert r == "ID" + rest;
      assert r[1..] == "D" + rest;
      assert r[1..][1..] == rest;
    } else {
      var rest := ReplaceAll(s[1..], "Id", "ID");
      NoIdAfterReplace(s[1..]);
      assert r == [s[0]] + rest;
      assert r[1..] == rest;
      if s[0] == 'I' {
        ReplaceAllHead(s[1..]);
      }
    }
  }

  /** The first character of ReplaceAll(s, "Id", "ID") is 'I' (a replacement) or the first of s. */
  lemma ReplaceAllHead(s: string)
    requires |s| > 0
    ensures var r := ReplaceAll(s, "Id", "ID"); |r| > 0 && (r[0] == 'I' || r[0] == s[0])
  {
  }

  // ---------------------------------------------------------------- stringy CamelCase

  /**
   * stringy's CamelCase, simplified to ASCII: the words between ' ', '-' and '_', each
   * lower-cased with its first letter upper-cased, concatenated.
   */
  function CamelCase(s: string): (r: string)
    ensures forall k :: 0 <= k < |r| ==> !IsSeparator(r[k])
  {
    TitledHasNoSeparator(Fields(s));
    ConcatTitled(Fields(s))
  }

  /** A camel-cased string that starts with a letter starts with that letter in upper case. */
  lemma CamelCaseFirst(s: string)
    requires |s| > 0 && IsLetter(s[0])
    ensures |CamelCase(s)| > 0 && CamelCase(s)[0] == UpperChar(LowerChar(s[0]))
  {
    var n := RunLength(s);
    assert n > 0;
    assert Fields(s) == [s[..n]] + Fields(s[n..]);
    assert ConcatTitled(Fields(s)) == TitleLower(s[..n]) + ConcatTitled(Fields(s[n..]));
  }
}
