/**
 * When does a text stay free of a pattern under strings.ReplaceAll?  The sqlc rewriters
 * (internal/sqlc) run ReplaceAll once per table entry or per configured field, in an order
 * they do not control; this module gives the conditions under which one pass removes its own
 * pattern for good and later passes do not bring back a pattern an earlier pass removed.
 */
module Rewriting {
  import opened Strings

  /** `k` occurs at no position of `x`. */
  predicate Free(x: string, k: string) {
    forall i :: 0 <= i <= |x| ==> !HasPrefix(x[i..], k)
  }

  /** One of the two strings starts with the other. */
  predicate Compatible(a: string, b: string) {
    HasPrefix(a, b) || HasPrefix(b, a)
  }

  /** No occurrence of `k` can start inside an inserted copy of `v`. */
  predicate RightApart(v: string, k: string) {
    forall p :: 0 <= p < |v| ==> !Compatible(v[p..], k)
  }

  /**
   * An occurrence of `k` that would end inside a copy of `v` written in place of `k2` has the
   * same tail as `k2` begins with, so it was already in the text before the pass.
   */
  predicate LeftApart(v: string, k: string, k2: string) {
    forall q :: 0 < q < |k| && Compatible(k[q..], v) ==> HasPrefix(k2, k[q..])
  }

  lemma FreeSuffix(s: string, k: string, m: nat)
    requires Free(s, k) && m <= |s|
    ensures Free(s[m..], k)
  {
    forall i | 0 <= i <= |s[m..]|
      ensures !HasPrefix(s[m..][i..], k)
    {
      assert s[m..][i..] == s[m + i..];
    }
  }

  /** A text free of `k` is left as it is by a pass replacing `k`. */
  lemma {:induction false} FreeUnchanged(s: string, k: string, v: string)
    requires |k| > 0 && Free(s, k)
    ensures ReplaceAll(s, k, v) == s
    decreases |s|
  {
    if |s| >= |k| {
      assert s[0..] == s;
      FreeSuffix(s, k, 1);
      FreeUnchanged(s[1..], k, v);
      assert s == [s[0]] + s[1..];
    }
  }

  /** Gluing a head to a free text: only occurrences starting in the head need checking. */
  lemma FreeFront(a: string, b: string, k: string)
    requires |k| > 0 && Free(b, k)
    requires forall p :: 0 <= p < |a| ==> !HasPrefix((a + b)[p..], k)
    ensures Free(a + b, k)
  {
    var x := a + b;
    forall i | 0 <= i <= |x|
      ensures !HasPrefix(x[i..], k)
    {
      if i >= |a| {
        assert x[i..] == b[i - |a|..];
      }
    }
  }

  lemma PrefixOfConcat(k: string, a: string, b: string)
    requires HasPrefix(a + b, k)
    ensures Compatible(a, k)
  {
    if |k| <= |a| {
      assert a[..|k|] == (a + b)[..|k|];
    } else {
      assert k[..|a|] == (a + b)[..|a|] == a;
    }
  }

  /** `t` follows `s` up to position i, where `s` holds `k2` and `t` runs along `v2`. */
  predicate RunsAlong(s: string, k2: string, v2: string, t: string, i: int) {
    0 <= i < |t| && i + |k2| <= |s| && t[..i] == s[..i] && s[i..i + |k2|] == k2 && Compatible(t[i..], v2)
  }

  lemma RunsAlongCons(s: string, k2: string, v2: string, t: string, i: int)
    requires |s| > 0 && |t| > 0 && t[0] == s[0]
    requires RunsAlong(s[1..], k2, v2, t[1..], i)
    ensures RunsAlong(s, k2, v2, t, i + 1)
  {
    assert t[..i + 1] == [s[0]] + t[1..][..i];
    assert s[..i + 1] == [s[0]] + s[1..][..i];
    assert s[i + 1..i + 1 + |k2|] == s[1..][i..i + |k2|];
    assert t[i + 1..] == t[1..][i..];
  }

  /** A prefix that agrees on the first character and then runs along the tail. */
  lemma ConsPrefix(s: string, t: string)
    requires |s| > 0 && |t| > 0 && t[0] == s[0] && HasPrefix(s[1..], t[1..])
    ensures HasPrefix(s, t)
  {
    assert s[..|t|] == [s[0]] + s[1..][..|t| - 1];
    assert t == [t[0]] + t[1..];
  }

  /**
   * Any prefix `t` of a replaced text either is a prefix of the original, or follows it up to
   * some replaced occurrence of `k2` and from there runs along the inserted `v2`.
   */
  lemma {:induction false} ResultPrefix(s: string, k2: string, v2: string, t: string)
    requires |k2| > 0 && HasPrefix(ReplaceAll(s, k2, v2), t)
    ensures HasPrefix(s, t) || exists i :: RunsAlong(s, k2, v2, t, i)
    decreases |s|
  {
    if |s| < |k2| || |t| == 0 {
    } else if s[..|k2|] == k2 {
      var rest := ReplaceAll(s[|k2|..], k2, v2);
      assert ReplaceAll(s, k2, v2) == v2 + rest;
      PrefixOfConcat(t, v2, rest);
      assert t[..0] == s[..0] && t[0..] == t;
      assert RunsAlong(s, k2, v2, t, 0);
    } else {
      var rest := ReplaceAll(s[1..], k2, v2);
      assert ReplaceAll(s, k2, v2) == [s[0]] + rest;
      assert HasPrefix(rest, t[1..]) by {
        assert rest[..|t| - 1] == ([s[0]] + rest)[1..|t|];
        assert t[1..] == t[..|t|][1..];
      }
      ResultPrefix(s[1..], k2, v2, t[1..]);
      assert t[0] == s[0];
      if HasPrefix(s[1..], t[1..]) {
        ConsPrefix(s, t);
      } else {
        var i :| RunsAlong(s[1..], k2, v2, t[1..], i);
        RunsAlongCons(s, k2, v2, t, i);
      }
    }
  }

  /**
   * An occurrence of `k` at the front of a replaced text whose first character was kept: the
   * original text already started with `k`.
   */
  lemma FrontOccurrence(s: string, k: string, k2: string, v2: string)
    requires |s| > 0 && |k| > 0 && |k2| > 0 && LeftApart(v2, k, k2)
    requires HasPrefix([s[0]] + ReplaceAll(s[1..], k2, v2), k)
    ensures HasPrefix(s, k)
  {
    var rest := ReplaceAll(s[1..], k2, v2);
    var t := k[1..];
    assert ([s[0]] + rest)[..|k|] == k;
    assert rest[..|t|] == ([s[0]] + rest)[1..|k|] == t;
    assert k == [k[0]] + t;
    ResultPrefix(s[1..], k2, v2, t);
    forall i | RunsAlong(s[1..], k2, v2, t, i)
      ensures HasPrefix(s[1..], t)
    {
      AlongIsPrefix(s[1..], k, k2, v2, i);
    }
    assert s[..|k|] == [s[0]] + s[1..][..|t|];
  }

  /** Under LeftApart, a prefix running along an inserted `v2` still runs along the text. */
  lemma AlongIsPrefix(s: string, k: string, k2: string, v2: string, i: int)
    requires |k| > 0 && LeftApart(v2, k, k2) && RunsAlong(s, k2, v2, k[1..], i)
    ensures HasPrefix(s, k[1..])
  {
    var t := k[1..];
    var q := i + 1;
    assert t[i..] == k[q..];
    assert HasPrefix(k2, k[q..]);
    assert k[q..] == s[i..i + |k| - q];
    assert t == t[..i] + k[q..];
    assert s[..|t|] == s[..i] + s[i..i + |k| - q];
  }

  /**
   * A pass replacing `k2` by `v2` leaves a text free of `k`, provided `v2` keeps apart from
   * `k`; when `k2` is `k` itself, the pass makes the text free of `k` whatever it was before.
   */
  lemma {:induction false} KeepsFree(s: string, k: string, k2: string, v2: string)
    requires |k| > 0 && |k2| > 0
    requires k == k2 || Free(s, k)
    requires RightApart(v2, k) && LeftApart(v2, k, k2)
    ensures Free(ReplaceAll(s, k2, v2), k)
    decreases |s|
  {
    if |s| < |k2| {
    } else if s[..|k2|] == k2 {
      var tail := s[|k2|..];
      if k != k2 {
        FreeSuffix(s, k, |k2|);
      }
      KeepsFree(tail, k, k2, v2);
      var rest := ReplaceAll(tail, k2, v2);
      forall p | 0 <= p < |v2|
        ensures !HasPrefix((v2 + rest)[p..], k)
      {
        assert (v2 + rest)[p..] == v2[p..] + rest;
        if HasPrefix(v2[p..] + rest, k) {
          PrefixOfConcat(k, v2[p..], rest);
        }
      }
      FreeFront(v2, rest, k);
    } else {
      if k != k2 {
        FreeSuffix(s, k, 1);
        assert s[0..] == s;
      }
      KeepsFree(s[1..], k, k2, v2);
      var rest := ReplaceAll(s[1..], k2, v2);
      if HasPrefix([s[0]] + rest, k) {
        FrontOccurrence(s, k, k2, v2);
      }
      FreeFront([s[0]], rest, k);
    }
  }
}
