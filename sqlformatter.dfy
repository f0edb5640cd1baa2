/**
 * The indentation state of the SQL formatter (internal/sqlformatter/process.go): the pieces of a
 * query are visited in order, and each appends itself to the output behind a line break whose
 * depth follows the parentheses and the subqueries seen so far.  The keyword splitter and the
 * whitespace clean-ups are regular-expression passes and enter as parameters.
 */
module SqlFormatter {
  import opened Strings

  /** The accumulator threaded through the pieces. */
  datatype T = T(str: string, shiftArr: seq<string>, tab: string, arr: seq<string>, parensLevel: int, deep: int)

  // ---------------------------------------------------------------- parentheses

  /** subqueryLevel: the level, minus the difference of the lengths with '(' and with ')' removed. */
  function SubqueryLevel(str: string, level: int): (r: int)
    ensures r == level + CountChar(str, '(') - CountChar(str, ')')
  {
    RemovedLength(str, '(');
    RemovedLength(str, ')');
    level - (|RemoveChar(str, '(')| - |RemoveChar(str, ')')|)
  }

  lemma {:induction false} RemovedLength(s: string, c: char)
    ensures |RemoveChar(s, c)| == |s| - CountChar(s, c)
    decreases |s|
  {
    if |s| > 0 {
      RemovedLength(s[1..], c);
    }
  }

  /** Two pieces in a row move the level by the sum of their moves. */
  lemma SubqueryLevelConcat(a: string, b: string, level: int)
    ensures SubqueryLevel(a + b, level) == SubqueryLevel(b, SubqueryLevel(a, level))
  {
    CountCharConcat(a, b, '(');
    CountCharConcat(a, b, ')');
  }

  lemma {:induction false} CountCharConcat(a: string, b: string, c: char)
    ensures CountChar(a + b, c) == CountChar(a, c) + CountChar(b, c)
    decreases |a|
  {
    if |a| > 0 {
      CountCharConcat(a[1..], b, c);
      assert (a + b)[0] == a[0] && (a + b)[1..] == a[1..] + b;
    } else {
      assert a + b == b;
    }
  }

  // ---------------------------------------------------------------- shifts

  function Repeat(s: string, n: nat): string {
    if n == 0 then "" else s + Repeat(s, n - 1)
  }

  lemma {:induction false} RepeatLength(s: string, n: nat)
    ensures |Repeat(s, n)| == n * |s|
  {
    if n > 0 {
      RepeatLength(s, n - 1);
    }
  }

  /** createShiftArr: a hundred line breaks, the i-th followed by i copies of the tab. */
  method CreateShiftArr(tab: string) returns (a: seq<string>)
    ensures |a| == 100
    ensures forall i :: 0 <= i < 100 ==> a[i] == "\n" + Repeat(tab, i)
  {
    a := [];
    var i := 0;
    while i < 100
      invariant 0 <= i <= 100 && |a| == i
      invariant forall j :: 0 <= j < i ==> a[j] == "\n" + Repeat(tab, j)
    {
      a := a + ["\n" + Repeat(tab, i)];
      i := i + 1;
    }
  }

  /** Each shift is one line break and `i` tabs long, so deeper shifts are longer. */
  lemma ShiftLength(tab: string, i: nat)
    ensures |"\n" + Repeat(tab, i)| == 1 + i * |tab|
  {
    RepeatLength(tab, i);
  }

  // ---------------------------------------------------------------- splitting

  /**
   * splitIfEven: the text between quotes (even positions) goes through the keyword splitter,
   * a quoted literal (odd positions) is kept whole.
   */
  function SplitIfEven(i: nat, str: string, split: string -> seq<string>): seq<string> {
    if i % 2 == 0 then split(str) else [str]
  }

  /** The pieces genArray has collected after the first `n` parts. */
  function Spread(parts: seq<string>, split: string -> seq<string>, n: nat): seq<string>
    requires n <= |parts|
  {
    if n == 0 then [] else Spread(parts, split, n - 1) + SplitIfEven(n - 1, parts[n - 1], split)
  }

  /** genArray: every part, split or kept, concatenated in order. */
  method GenArray(parts: seq<string>, split: string -> seq<string>) returns (a: seq<string>)
    ensures a == Spread(parts, split, |parts|)
  {
    a := [];
    for i := 0 to |parts|
      invariant a == Spread(parts, split, i)
    {
      a := a + SplitIfEven(i, parts[i], split);
    }
  }

  /** A quoted literal reaches the array unchanged, after everything that came before it. */
  lemma {:induction false} QuotedKept(parts: seq<string>, split: string -> seq<string>, n: nat, j: nat)
    requires n <= |parts| && j < n && j % 2 == 1
    ensures parts[j] in Spread(parts, split, n)
    decreases n
  {
    if j < n - 1 {
      QuotedKept(parts, split, n - 1, j);
    } else {
      assert Spread(parts, split, n) == Spread(parts, split, n - 1) + [parts[j]];
    }
  }

  /** With a splitter that splits nothing, the array is the list of parts itself. */
  lemma {:induction false} SpreadUnsplit(parts: seq<string>, split: string -> seq<string>, n: nat)
    requires n <= |parts|
    requires forall s :: split(s) == [s]
    ensures Spread(parts, split, n) == parts[..n]
    decreases n
  {
    if n > 0 {
      SpreadUnsplit(parts, split, n - 1);
      assert parts[..n] == parts[..n - 1] + [parts[n - 1]];
    }
  }

  // ---------------------------------------------------------------- comma breaks

  /** The characters of `\s` in Go's regular expressions. */
  predicate IsSpace(c: char) {
    c == ' ' || c == '\t' || c == '\n' || c == '\r' || c as int == 12
  }

  /** Length of the run of characters satisfying `isRun` at the start of `s`. */
  function RunOf(s: string, isRun: char -> bool): (n: nat)
    ensures n <= |s|
    ensures forall i :: 0 <= i < n ==> isRun(s[i])
    ensures n < |s| ==> !isRun(s[n])
    decreases |s|
  {
    if |s| > 0 && isRun(s[0]) then 1 + RunOf(s[1..], isRun) else 0
  }

  /**
   * The comma rule of genOutput as intended: a comma followed by whitespace becomes a comma,
   * a line break and two tabs.
   */
  function CommaBreak(s: string, tab: string): string
    decreases |s|
  {
    if |s| == 0 then ""
    else if s[0] == ',' && |s| > 1 && IsSpace(s[1]) then
      ",\n" + tab + tab + CommaBreak(s[1 + RunOf(s[1..], IsSpace)..], tab)
    else [s[0]] + CommaBreak(s[1..], tab)
  }

  /**
   * The comma rule as written: the pattern is a raw string holding `\\s+`, which matches a
   * backslash followed by letters 's', so only ",\s", ",\ss", ... are rewritten.
   */
  function CommaBreakAsWritten(s: string, tab: string): string
    decreases |s|
  {
    if |s| == 0 then ""
    else if s[0] == ',' && |s| > 2 && s[1] == '\\' && s[2] == 's' then
      ",\n" + tab + tab + CommaBreakAsWritten(s[2 + RunOf(s[2..], c => c == 's')..], tab)
    else [s[0]] + CommaBreakAsWritten(s[1..], tab)
  }

  /** Any text without a backslash, every real query among them, is left alone as written. */
  lemma {:induction false} AsWrittenKeepsQueries(s: string, tab: string)
    requires '\\' !in s
    ensures CommaBreakAsWritten(s, tab) == s
    decreases |s|
  {
    if |s| > 0 {
      if |s| > 1 {
        assert s[1] in s;
      }
      AsWrittenKeepsQueries(s[1..], tab);
      assert s == [s[0]] + s[1..];
    }
  }

  /** The text with its whitespace left out. */
  function NonSpace(s: string): (r: string)
    ensures forall c :: c in r ==> !IsSpace(c)
  {
    if |s| == 0 then "" else (if IsSpace(s[0]) then "" else [s[0]]) + NonSpace(s[1..])
  }

  lemma {:induction false} NonSpaceConcat(a: string, b: string)
    ensures NonSpace(a + b) == NonSpace(a) + NonSpace(b)
    decreases |a|
  {
    if |a| > 0 {
      NonSpaceConcat(a[1..], b);
      assert (a + b)[0] == a[0] && (a + b)[1..] == a[1..] + b;
    } else {
      assert a + b == b;
    }
  }

  lemma {:induction false} NonSpaceSkip(s: string, n: nat)
    requires n <= |s| && forall i :: 0 <= i < n ==> IsSpace(s[i])
    ensures NonSpace(s[n..]) == NonSpace(s)
    decreases n
  {
    if n > 0 {
      NonSpaceSkip(s[1..], n - 1);
      assert s[1..][n - 1..] == s[n..];
    }
  }

  predicate AllSpace(s: string) {
    forall i :: 0 <= i < |s| ==> IsSpace(s[i])
  }

  lemma {:induction false} NonSpaceOfSpace(s: string)
    requires AllSpace(s)
    ensures NonSpace(s) == ""
    decreases |s|
  {
    if |s| > 0 {
      NonSpaceOfSpace(s[1..]);
    }
  }

  /** The text a comma break writes keeps only its comma once whitespace is left out. */
  lemma LeadNonSpace(tab: string)
    requires AllSpace(tab)
    ensures NonSpace(",\n" + tab + tab) == ","
  {
    var lead := ",\n" + tab + tab;
    assert AllSpace(lead[1..]) by {
      assert forall i :: 2 <= i < |lead| ==> lead[i] == (tab + tab)[i - 2];
    }
    NonSpaceOfSpace(lead[1..]);
    assert lead == [','] + lead[1..];
    NonSpaceConcat([','], lead[1..]);
  }

  /** One comma break: the comma, the line break and tabs, then the text after the whitespace. */
  lemma CommaBreakAtComma(s: string, tab: string)
    requires |s| > 1 && s[0] == ',' && IsSpace(s[1])
    ensures CommaBreak(s, tab) == ",\n" + tab + tab + CommaBreak(s[1 + RunOf(s[1..], IsSpace)..], tab)
  {
  }

  /** The comma rule changes whitespace only, as long as the tab is whitespace. */
  lemma {:induction false} CommaBreakOnlySpace(s: string, tab: string)
    requires AllSpace(tab)
    ensures NonSpace(CommaBreak(s, tab)) == NonSpace(s)
    decreases |s|
  {
    if |s| > 0 {
      if s[0] == ',' && |s| > 1 && IsSpace(s[1]) {
        var n := RunOf(s[1..], IsSpace);
        var rest := s[1 + n..];
        assert s[1..][n..] == rest;
        CommaBreakAtComma(s, tab);
        CommaBreakOnlySpace(rest, tab);
        LeadNonSpace(tab);
        NonSpaceConcat(",\n" + tab + tab, CommaBreak(rest, tab));
        NonSpaceSkip(s[1..], n);
      } else {
        CommaBreakOnlySpace(s[1..], tab);
        NonSpaceConcat([s[0]], CommaBreak(s[1..], tab));
      }
    }
  }

  /** The discrepancy on a select list: as written it stays on one line... */
  lemma CommaBreakAsWrittenExample()
    ensures CommaBreakAsWritten("a, b", "  ") == "a, b"
  {
    AsWrittenKeepsQueries("a, b", "  ");
  }

  /** ...while the intended rule breaks it after the comma. */
  lemma CommaBreakExample()
    ensures CommaBreak("a, b", "  ") == "a,\n    b"
  {
    var s := ", b";
    assert "a, b"[1..] == s && s[1..] == " b";
    assert RunOf(" b", IsSpace) == 1 by {
      assert " b"[1..] == "b";
    }
    assert s[2..] == "b";
    assert CommaBreak("b", "  ") == "b";
    CommaBreakAtComma(s, "  ");
  }

  // ---------------------------------------------------------------- one piece

  /** `\(\s*SELECT` matches: an opening parenthesis, optional whitespace, then SELECT. */
  predicate OpensSubquery(el: string) {
    exists i :: 0 <= i < |el| && el[i] == '(' && HasPrefix(el[i + 1 + RunOf(el[i + 1..], IsSpace)..], "SELECT")
  }

  /** The shifts updateStr indexes exist. */
  predicate ShiftFits(el: string, acc: T) {
    0 <= acc.deep
    && (OpensSubquery(el) ==> acc.deep + 1 < |acc.shiftArr|)
    && (!OpensSubquery(el) && '\'' !in el ==> acc.deep < |acc.shiftArr|)
  }

  /**
   * updateStr: a piece opening a subquery goes one shift deeper; a piece holding a quote is
   * glued on without a shift; any other piece goes behind the current shift.  Outside the
   * subquery path the depth drops by one when the parentheses have closed.
   */
  function UpdateStr(el: string, parensLevel: int, acc: T): (r: (string, int))
    requires ShiftFits(el, acc)
    ensures HasPrefix(r.0, acc.str) && HasSuffix(r.0, el)
    ensures 0 <= r.1
    ensures OpensSubquery(el) ==> r.1 == acc.deep + 1
    ensures !OpensSubquery(el) ==> (r.1 == acc.deep - 1 <==> parensLevel < 1 && acc.deep != 0)
    ensures !OpensSubquery(el) && !(parensLevel < 1 && acc.deep != 0) ==> r.1 == acc.deep
    ensures OpensSubquery(el) ==> r.0 == acc.str + acc.shiftArr[acc.deep + 1] + el
    ensures !OpensSubquery(el) && '\'' !in el ==> r.0 == acc.str + acc.shiftArr[acc.deep] + el
    ensures !OpensSubquery(el) && '\'' in el ==> r.0 == acc.str + el
  {
    if OpensSubquery(el) then
      (acc.str + acc.shiftArr[acc.deep + 1] + el, acc.deep + 1)
    else
      var str := if '\'' in el then acc.str + el else acc.str + acc.shiftArr[acc.deep] + el;
      var deep := if parensLevel < 1 && acc.deep != 0 then acc.deep - 1 else acc.deep;
      (str, deep)
  }

  /** The regexp "SELECT|SET" matches. */
  predicate SelectOrSet(el: string) {
    Contains(el, "SELECT") || Contains(el, "SET")
  }

  /** The piece genOutput hands to updateStr. */
  function Retouched(el: string, tab: string): string {
    if SelectOrSet(el) then CommaBreak(el, tab) else el
  }

  /**
   * genOutput: a copy of the array with only piece i retouched, the same shifts and tab, the
   * level moved by that piece's parentheses, and the output extended.
   */
  function GenOutput(acc: T, i: nat): (r: T)
    requires i < |acc.arr| && ShiftFits(Retouched(acc.arr[i], acc.tab), acc)
    ensures |r.arr| == |acc.arr| && r.arr[i] == Retouched(acc.arr[i], acc.tab)
    ensures forall j :: 0 <= j < |acc.arr| && j != i ==> r.arr[j] == acc.arr[j]
    ensures r.shiftArr == acc.shiftArr && r.tab == acc.tab
    ensures r.parensLevel == acc.parensLevel + CountChar(acc.arr[i], '(') - CountChar(acc.arr[i], ')')
    ensures (r.str, r.deep) == UpdateStr(r.arr[i], r.parensLevel, acc)
    ensures HasPrefix(r.str, acc.str) && 0 <= r.deep
    ensures acc.deep - 1 <= r.deep <= acc.deep + 1
  {
    var originalEl := acc.arr[i];
    var parensLevel := SubqueryLevel(originalEl, acc.parensLevel);
    var arr := acc.arr[i := Retouched(originalEl, acc.tab)];
    var (str, deep) := UpdateStr(arr[i], parensLevel, acc);
    T(str, acc.shiftArr, acc.tab, arr, parensLevel, deep)
  }

  /** The shifts createShiftArr builds: the j-th is a newline and j tabs. */
  predicate BuiltShifts(acc: T) {
    forall j :: 0 <= j < |acc.shiftArr| ==> acc.shiftArr[j] == "\n" + Repeat(acc.tab, j)
  }

  /**
   * With the shifts createShiftArr builds, a piece opening a subquery starts a new line indented
   * one tab deeper than the current depth, a piece without a quote a new line at the current
   * depth, and a piece with a quote continues the line.
   */
  lemma UpdateStrIndents(el: string, parensLevel: int, acc: T)
    requires ShiftFits(el, acc) && BuiltShifts(acc)
    ensures var r := UpdateStr(el, parensLevel, acc);
      && (OpensSubquery(el) ==> r.0 == acc.str + "\n" + Repeat(acc.tab, acc.deep + 1) + el)
      && (!OpensSubquery(el) && '\'' !in el ==> r.0 == acc.str + "\n" + Repeat(acc.tab, acc.deep) + el)
  {
    IndentCases(OpensSubquery(el), '\'' in el, el, acc, UpdateStr(el, parensLevel, acc).0);
  }

  /** The shift cases of updateStr, read through built shifts. */
  lemma IndentCases(opens: bool, quoted: bool, el: string, acc: T, out: string)
    requires BuiltShifts(acc) && 0 <= acc.deep
    requires opens ==> acc.deep + 1 < |acc.shiftArr| && out == acc.str + acc.shiftArr[acc.deep + 1] + el
    requires !opens && !quoted ==> acc.deep < |acc.shiftArr| && out == acc.str + acc.shiftArr[acc.deep] + el
    ensures opens ==> out == acc.str + "\n" + Repeat(acc.tab, acc.deep + 1) + el
    ensures !opens && !quoted ==> out == acc.str + "\n" + Repeat(acc.tab, acc.deep) + el
  {
  }

  /** One genOutput step indents its retouched piece by the depth, as updateStr does. */
  lemma GenOutputIndents(acc: T, i: nat)
    requires i < |acc.arr| && ShiftFits(Retouched(acc.arr[i], acc.tab), acc) && BuiltShifts(acc)
    ensures var el, r := Retouched(acc.arr[i], acc.tab), GenOutput(acc, i);
      && (OpensSubquery(el) ==> r.str == acc.str + "\n" + Repeat(acc.tab, acc.deep + 1) + el && r.deep == acc.deep + 1)
      && (!OpensSubquery(el) && '\'' !in el ==> r.str == acc.str + "\n" + Repeat(acc.tab, acc.deep) + el)
      && (!OpensSubquery(el) && '\'' in el ==> r.str == acc.str + el)
  {
    var r := GenOutput(acc, i);
    UpdateStrIndents(r.arr[i], r.parensLevel, acc);
  }

  // ---------------------------------------------------------------- transform

  function ApplyAll(s: string, fns: seq<string -> string>): string
    decreases |fns|
  {
    if |fns| == 0 then s else ApplyAll(fns[0](s), fns[1..])
  }

  /** transformString: the functions applied left to right. */
  method TransformString(str: string, fns: seq<string -> string>) returns (res: string)
    ensures res == ApplyAll(str, fns)
  {
    res := str;
    for i := 0 to |fns|
      invariant ApplyAll(res, fns[i..]) == ApplyAll(str, fns)
    {
      assert fns[i..][1..] == fns[i + 1..];
      res := fns[i](res);
    }
  }

  /** Applying a list and then another is applying their concatenation; no functions, no change. */
  lemma {:induction false} ApplyAllConcat(s: string, f: seq<string -> string>, g: seq<string -> string>)
    ensures ApplyAll(s, f + g) == ApplyAll(ApplyAll(s, f), g)
    ensures ApplyAll(s, []) == s
    decreases |f|
  {
    if |f| > 0 {
      assert (f + g)[0] == f[0] && (f + g)[1..] == f[1..] + g;
      ApplyAllConcat(f[0](s), f[1..], g);
    } else {
      assert f + g == g;
    }
  }
}
