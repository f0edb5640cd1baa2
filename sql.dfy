/**
 * The text the CRUD generators append to their strings.Builder, kept as a sequence of pieces so
 * that the placeholders (`$n`) and the predicate keywords (WHERE / AND) stay visible.  A piece
 * renders to exactly the characters the generator writes; one Go WriteString may be several pieces.
 */
module Sql {
  import opened Strings

  datatype Piece =
    | Text(s: string)
    | Keyword(k: string)   // WHERE or AND, written without the surrounding spaces
    | Param(n: nat)        // the placeholder `$n`

  /** The characters a sequence of pieces stands for. */
  function Render(ps: seq<Piece>): string
    decreases |ps|
  {
    if |ps| == 0 then ""
    else
      var head := match ps[0]
        case Text(s) => s
        case Keyword(k) => k
        case Param(n) => "$" + NatToString(n);
      head + Render(ps[1..])
  }

  /** The placeholder numbers, in the order they are written. */
  function Placeholders(ps: seq<Piece>): seq<nat>
    decreases |ps|
  {
    if |ps| == 0 then []
    else (if ps[0].Param? then [ps[0].n] else []) + Placeholders(ps[1..])
  }

  /** The predicate keywords, in the order they are written. */
  function Keywords(ps: seq<Piece>): seq<string>
    decreases |ps|
  {
    if |ps| == 0 then []
    else (if ps[0].Keyword? then [ps[0].k] else []) + Keywords(ps[1..])
  }

  /** The numbers lo, lo+1, …, hi-1. */
  function Range(lo: nat, hi: nat): (r: seq<nat>)
    requires lo <= hi
    ensures |r| == hi - lo
    ensures forall i :: 0 <= i < |r| ==> r[i] == lo + i
    decreases hi - lo
  {
    if lo == hi then [] else [lo] + Range(lo + 1, hi)
  }

  /** Constant text only: no placeholder and no keyword. */
  predicate Plain(ps: seq<Piece>) {
    forall j :: 0 <= j < |ps| ==> ps[j].Text?
  }

  /** The placeholders are $1, $2, …, each once, in the order they are written, as sqlc numbers them. */
  predicate Numbered(ps: seq<Piece>) {
    Placeholders(ps) == Range(1, |Placeholders(ps)| + 1)
  }

  /** The placeholders are lo, lo+1, …, hi-1, in the order they are written. */
  predicate NumberedFrom(ps: seq<Piece>, lo: nat, hi: nat) {
    lo <= hi && Placeholders(ps) == Range(lo, hi)
  }

  /** A well-formed predicate list: no keyword, or WHERE followed only by ANDs. */
  predicate Chained(kws: seq<string>) {
    |kws| == 0 || (kws[0] == "WHERE" && forall i :: 1 <= i < |kws| ==> kws[i] == "AND")
  }

  lemma {:induction false} PlaceholdersAppend(a: seq<Piece>, b: seq<Piece>)
    ensures Placeholders(a + b) == Placeholders(a) + Placeholders(b)
    decreases |a|
  {
    if |a| > 0 {
      PlaceholdersAppend(a[1..], b);
      assert (a + b)[1..] == a[1..] + b;
    } else {
      assert a + b == b;
    }
  }

  lemma {:induction false} KeywordsAppend(a: seq<Piece>, b: seq<Piece>)
    ensures Keywords(a + b) == Keywords(a) + Keywords(b)
    decreases |a|
  {
    if |a| > 0 {
      KeywordsAppend(a[1..], b);
      assert (a + b)[1..] == a[1..] + b;
    } else {
      assert a + b == b;
    }
  }

  lemma {:induction false} RenderAppend(a: seq<Piece>, b: seq<Piece>)
    ensures Render(a + b) == Render(a) + Render(b)
    decreases |a|
  {
    if |a| > 0 {
      RenderAppend(a[1..], b);
      assert (a + b)[1..] == a[1..] + b;
    } else {
      assert a + b == b;
    }
  }

  lemma {:induction false} MarksAppend(a: seq<Piece>, b: seq<Piece>)
    ensures Placeholders(a + b) == Placeholders(a) + Placeholders(b)
    ensures Keywords(a + b) == Keywords(a) + Keywords(b)
  {
    PlaceholdersAppend(a, b);
    KeywordsAppend(a, b);
  }

  lemma OneMarks(x: Piece)
    ensures Placeholders([x]) == (if x.Param? then [x.n] else [])
    ensures Keywords([x]) == (if x.Keyword? then [x.k] else [])
  {
    assert [x][1..] == [];
  }

  lemma {:induction false} PlainHasNone(ps: seq<Piece>)
    requires Plain(ps)
    ensures Placeholders(ps) == [] && Keywords(ps) == []
    decreases |ps|
  {
    if |ps| > 0 {
      PlainHasNone(ps[1..]);
    }
  }

  lemma NumberedJoin(a: seq<Piece>, b: seq<Piece>, lo: nat, mid: nat, hi: nat)
    requires NumberedFrom(a, lo, mid) && NumberedFrom(b, mid, hi)
    ensures NumberedFrom(a + b, lo, hi)
  {
    PlaceholdersAppend(a, b);
    RangeAppend(lo, mid, hi);
  }

  /** Joining two numbered parts: the numbers run on and the keywords concatenate. */
  lemma JoinParts(a: seq<Piece>, b: seq<Piece>, lo: nat, mid: nat, hi: nat)
    requires NumberedFrom(a, lo, mid) && NumberedFrom(b, mid, hi)
    ensures NumberedFrom(a + b, lo, hi) && Keywords(a + b) == Keywords(a) + Keywords(b)
  {
    NumberedJoin(a, b, lo, mid, hi);
    KeywordsAppend(a, b);
  }

  /** Constant text is numbered from any n up to n, and has no keyword. */
  lemma PlainAt(ps: seq<Piece>, n: nat)
    requires Plain(ps)
    ensures NumberedFrom(ps, n, n) && Keywords(ps) == []
  {
    PlainHasNone(ps);
  }

  lemma NumberedFromOne(ps: seq<Piece>, hi: nat)
    requires NumberedFrom(ps, 1, hi)
    ensures Numbered(ps)
  {
  }

  lemma {:induction false} RangeAppend(lo: nat, mid: nat, hi: nat)
    requires lo <= mid <= hi
    ensures Range(lo, mid) + Range(mid, hi) == Range(lo, hi)
  {
  }

  /** Appending in steps is appending the whole: lets a writer account for one more piece at a time. */
  lemma AppendAssoc(s: seq<Piece>, a: seq<Piece>, b: seq<Piece>)
    ensures s + (a + b) == s + a + b
  {
  }

  /** A WHERE followed by a chain that starts with AND (or is empty) is a chain. */
  lemma ChainedAfterWhere(rest: seq<string>)
    requires forall i :: 0 <= i < |rest| ==> rest[i] == "AND"
    ensures Chained(["WHERE"] + rest)
  {
  }

  /** The generators' shared output buffer. */
  class Builder {
    var out: seq<Piece>

    constructor ()
      ensures out == []
    {
      out := [];
    }

    /** WriteString of the pieces' characters. */
    method Write(ps: seq<Piece>)
      modifies this
      ensures out == old(out) + ps
    {
      out := out + ps;
    }
  }
}
