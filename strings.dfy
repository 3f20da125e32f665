/**
 * String operations of JavaScript that the shell relies on: `\s` whitespace,
 * `trim`, `split` on one character, `join`, global replacement of a literal
 * text, and the code-unit order in which keys are sorted.
 */
module Strings {

  /** JavaScript's `\s` class (and the characters `trim` removes). */
  predicate IsSpace(c: char)
  {
    c == ' ' || c == '\t' || c == '\n' || c == '\r' || c == '\U{000B}' || c == '\U{000C}'
    || c == '\U{00A0}' || c == '\U{1680}' || ('\U{2000}' <= c <= '\U{200A}')
    || c == '\U{2028}' || c == '\U{2029}' || c == '\U{202F}' || c == '\U{205F}'
    || c == '\U{3000}' || c == '\U{FEFF}'
  }

  /** The characters a regular-expression `.` does not match. */
  predicate IsLineTerminator(c: char)
  {
    c == '\n' || c == '\r' || c == '\U{2028}' || c == '\U{2029}'
  }

  predicate NoSpace(s: string)
  {
    forall i :: 0 <= i < |s| ==> !IsSpace(s[i])
  }

  /** `s.trimStart()`: drops the leading whitespace. */
  function TrimStart(s: string): (r: string)
    ensures |r| <= |s| && r == s[|s| - |r|..]
    ensures forall i :: 0 <= i < |s| - |r| ==> IsSpace(s[i])
    ensures r == [] || !IsSpace(r[0])
  {
    if s == [] || !IsSpace(s[0]) then s else TrimStart(s[1..])
  }

  /** `s.trimEnd()`: drops the trailing whitespace. */
  function TrimEnd(s: string): (r: string)
    ensures |r| <= |s| && r == s[..|r|]
    ensures forall i :: |r| <= i < |s| ==> IsSpace(s[i])
    ensures r == [] || !IsSpace(r[|r| - 1])
  {
    if s == [] || !IsSpace(s[|s| - 1]) then s else TrimEnd(s[..|s| - 1])
  }

  /** `s.trim()`. */
  function Trim(s: string): (r: string)
    ensures r == [] || (!IsSpace(r[0]) && !IsSpace(r[|r| - 1]))
  {
    TrimEnd(TrimStart(s))
  }

  lemma TrimOfUnspaced(s: string)
    requires s == [] || (!IsSpace(s[0]) && !IsSpace(s[|s| - 1]))
    ensures Trim(s) == s
  {
  }

  /** A prefix one element longer is the shorter prefix and that element. */
  lemma PrefixStep<T>(s: seq<T>, i: nat)
    requires i < |s|
    ensures s[..i + 1] == s[..i] + [s[i]]
  {
  }

  /** Trimming drops one leading whitespace character in front of a trimmed text. */
  lemma TrimLeadingSpace(c: char, s: string)
    requires IsSpace(c) && s != [] && !IsSpace(s[0]) && !IsSpace(s[|s| - 1])
    ensures Trim([c] + s) == s
  {
    assert ([c] + s)[1..] == s;
    assert TrimStart([c] + s) == TrimStart(s) == s;
  }

  /** The first index at or after `from` holding `c`, or `|s|` when there is none. */
  function IndexOfFrom(s: string, c: char, from: nat): (r: nat)
    requires from <= |s|
    ensures from <= r <= |s|
    ensures r < |s| ==> s[r] == c
    ensures forall i :: from <= i < r ==> s[i] != c
    decreases |s| - from
  {
    if from == |s| || s[from] == c then from else IndexOfFrom(s, c, from + 1)
  }

  /** `s.split(c)` for a one-character separator: never empty, pieces free of `c`. */
  function Split(s: string, c: char): (r: seq<string>)
    ensures |r| >= 1
    ensures forall k :: 0 <= k < |r| ==> c !in r[k]
    decreases |s|
  {
    var i := IndexOfFrom(s, c, 0);
    if i == |s| then [s] else [s[..i]] + Split(s[i + 1..], c)
  }

  /** `ps.join(sep)`. */
  function Join(ps: seq<string>, sep: string): (r: string)
  {
    if |ps| == 0 then "" else if |ps| == 1 then ps[0] else ps[0] + sep + Join(ps[1..], sep)
  }

  /** Joining a first piece onto more pieces puts the separator between it and the rest. */
  lemma JoinCons(p: string, ps: seq<string>, sep: string)
    requires |ps| >= 1
    ensures Join([p] + ps, sep) == p + sep + Join(ps, sep)
  {
    assert ([p] + ps)[1..] == ps;
  }

  lemma {:induction false} JoinSplit(s: string, c: char)
    ensures Join(Split(s, c), [c]) == s
    decreases |s|
  {
    var i := IndexOfFrom(s, c, 0);
    if i < |s| {
      JoinSplit(s[i + 1..], c);
      assert s == s[..i] + [c] + s[i + 1..];
    }
  }

  lemma {:induction false} SplitJoin(ps: seq<string>, c: char)
    requires |ps| >= 1
    requires forall k :: 0 <= k < |ps| ==> c !in ps[k]
    ensures Split(Join(ps, [c]), c) == ps
  {
    if |ps| > 1 {
      var s := Join(ps, [c]);
      assert s == ps[0] + [c] + Join(ps[1..], [c]);
      IndexOfFirstAfterUnmarked(ps[0], c, Join(ps[1..], [c]));
      assert s[..|ps[0]|] == ps[0];
      assert s[|ps[0]| + 1..] == Join(ps[1..], [c]);
      SplitJoin(ps[1..], c);
    } else {
      assert Join(ps, [c]) == ps[0];
      IndexOfAbsent(ps[0], c, 0);
    }
  }

  /** Splitting a text that ends in a separator and a piece free of it: the pieces of the front, then that piece. */
  lemma {:induction false} SplitAppend(q: string, c: char, f: string)
    requires c !in f
    ensures Split(q + [c] + f, c) == Split(q, c) + [f]
    decreases |q|
  {
    var s := q + [c] + f;
    var i := IndexOfFrom(q, c, 0);
    if i == |q| {
      IndexOfFirstAfterUnmarked(q, c, f);
      assert s[..|q|] == q && s[|q| + 1..] == f;
      IndexOfAbsent(f, c, 0);
    } else {
      var rest := q[i + 1..] + [c] + f;
      assert s == q[..i] + [c] + rest;
      IndexOfFirstAfterUnmarked(q[..i], c, rest);
      assert s[..i] == q[..i] && s[i + 1..] == rest;
      SplitAppend(q[i + 1..], c, f);
    }
  }

  lemma IndexOfAbsent(s: string, c: char, from: nat)
    requires from <= |s|
    requires c !in s
    ensures IndexOfFrom(s, c, from) == |s|
  {
  }

  lemma IndexOfFirstAfterUnmarked(a: string, c: char, b: string)
    requires c !in a
    ensures IndexOfFrom(a + [c] + b, c, 0) == |a|
  {
    var s := a + [c] + b;
    assert s[|a|] == c;
    assert forall k :: 0 <= k < |a| ==> s[k] == a[k];
  }

  /** Number of occurrences of `c` in `s`. */
  function Count(s: string, c: char): nat
  {
    if s == [] then 0 else (if s[0] == c then 1 else 0) + Count(s[1..], c)
  }

  lemma {:induction false} CountAppend(a: string, b: string, c: char)
    ensures Count(a + b, c) == Count(a, c) + Count(b, c)
  {
    if a != [] {
      assert (a + b)[1..] == a[1..] + b;
      CountAppend(a[1..], b, c);
    } else {
      assert a + b == b;
    }
  }

  lemma {:induction false} CountAbsent(s: string, c: char)
    requires c !in s
    ensures Count(s, c) == 0
  {
    if s != [] {
      CountAbsent(s[1..], c);
    }
  }

  /** `s.replace(/c/g, "")`: every occurrence of `c` removed, the rest kept in order. */
  function RemoveAll(s: string, c: char): (r: string)
    ensures c !in r
    ensures |r| == |s| - Count(s, c)
  {
    if s == [] then [] else (if s[0] == c then [] else [s[0]]) + RemoveAll(s[1..], c)
  }

  lemma {:induction false} RemoveAllAppend(a: string, b: string, c: char)
    ensures RemoveAll(a + b, c) == RemoveAll(a, c) + RemoveAll(b, c)
  {
    if a != [] {
      assert (a + b)[1..] == a[1..] + b;
      RemoveAllAppend(a[1..], b, c);
    } else {
      assert a + b == b;
    }
  }

  lemma {:induction false} RemoveAllAbsent(s: string, c: char)
    requires c !in s
    ensures RemoveAll(s, c) == s
  {
    if s != [] {
      RemoveAllAbsent(s[1..], c);
    }
  }

  /**
   * `s.replace(new RegExp(pat, 'g'), rep)` for a pattern without special
   * characters: occurrences are found left to right and do not overlap.
   */
  function ReplaceAll(s: string, pat: string, rep: string): (r: string)
    requires |pat| > 0
    decreases |s|
  {
    if |s| < |pat| then s
    else if s[..|pat|] == pat then rep + ReplaceAll(s[|pat|..], pat, rep)
    else [s[0]] + ReplaceAll(s[1..], pat, rep)
  }

  /** A text in which the first character of the pattern never occurs is left as it is. */
  lemma {:induction false} ReplaceAllUnmarked(s: string, pat: string, rep: string)
    requires |pat| > 0 && pat[0] !in s
    ensures ReplaceAll(s, pat, rep) == s
    decreases |s|
  {
    if |s| >= |pat| {
      assert s[..|pat|][0] == s[0];
      ReplaceAllUnmarked(s[1..], pat, rep);
    }
  }

  /** A piece of the text starting with `pat[0]` is the only place `pat` can start. */
  lemma ReplaceAllCons(c: char, t: string, pat: string, rep: string)
    requires |pat| > 0 && c != pat[0]
    ensures ReplaceAll([c] + t, pat, rep) == [c] + ReplaceAll(t, pat, rep)
  {
    var s := [c] + t;
    assert s[1..] == t;
    if |s| >= |pat| {
      assert s[..|pat|][0] == c;
    } else {
      ReplaceAllShort(t, pat, rep);
    }
  }

  lemma ReplaceAllShort(s: string, pat: string, rep: string)
    requires |pat| > 0 && |s| < |pat|
    ensures ReplaceAll(s, pat, rep) == s
  {
  }

  lemma ReplaceAllPrefix(t: string, pat: string, rep: string)
    requires |pat| > 0
    ensures ReplaceAll(pat + t, pat, rep) == rep + ReplaceAll(t, pat, rep)
  {
    var s := pat + t;
    assert s[..|pat|] == pat && s[|pat|..] == t;
  }

  /** `p` occurs in `s` at position `k`. */
  predicate OccursAt(s: string, p: string, k: nat)
  {
    k + |p| <= |s| && s[k..k + |p|] == p
  }

  /** `s.indexOf(p, from)` for a non-empty `p`, with `|s|` standing for "not found". */
  function IndexOfText(s: string, p: string, from: nat): (r: nat)
    requires |p| > 0 && from <= |s|
    ensures from <= r <= |s|
    ensures r < |s| ==> OccursAt(s, p, r)
    ensures forall k :: from <= k < r ==> !OccursAt(s, p, k)
    decreases |s| - from
  {
    if from + |p| > |s| then |s|
    else if s[from..from + |p|] == p then from
    else IndexOfText(s, p, from + 1)
  }

  lemma IndexOfTextAbsent(s: string, p: string, from: nat)
    requires |p| > 0 && from <= |s|
    requires forall k :: from <= k < |s| ==> s[k] != p[0]
    ensures IndexOfText(s, p, from) == |s|
  {
    forall k | from <= k < |s| ensures !OccursAt(s, p, k) {
      if k + |p| <= |s| {
        assert s[k..k + |p|][0] == s[k];
      }
    }
  }

  lemma IndexOfTextAfterUnmarked(a: string, p: string, b: string)
    requires |p| > 0 && p[0] !in a
    ensures IndexOfText(a + p + b, p, 0) == |a|
  {
    var s := a + p + b;
    assert s[|a|..|a| + |p|] == p;
    assert OccursAt(s, p, |a|);
  }

  lemma {:induction false} JoinFree(ps: seq<string>, sep: string, c: char)
    requires c !in sep
    requires forall k :: 0 <= k < |ps| ==> c !in ps[k]
    ensures c !in Join(ps, sep)
  {
    if |ps| > 1 {
      JoinFree(ps[1..], sep, c);
    }
  }

  /** Lexicographic order by character code, as JavaScript compares strings with `<`. */
  predicate LessEq(a: string, b: string)
    decreases |a|
  {
    a == [] || (b != [] && (a[0] < b[0] || (a[0] == b[0] && LessEq(a[1..], b[1..]))))
  }

  lemma {:induction false} LessEqReflexive(a: string)
    ensures LessEq(a, a)
    decreases |a|
  {
    if a != [] {
      LessEqReflexive(a[1..]);
    }
  }

  lemma {:induction false} LessEqTotal(a: string, b: string)
    ensures LessEq(a, b) || LessEq(b, a)
    decreases |a|
  {
    if a != [] && b != [] && a[0] == b[0] {
      LessEqTotal(a[1..], b[1..]);
    }
  }

  lemma {:induction false} LessEqTransitive(a: string, b: string, c: string)
    requires LessEq(a, b) && LessEq(b, c)
    ensures LessEq(a, c)
    decreases |a|
  {
    if a != [] && b != [] && c != [] && a[0] == b[0] && b[0] == c[0] {
      LessEqTransitive(a[1..], b[1..], c[1..]);
    }
  }

  lemma {:induction false} LessEqAntisymmetric(a: string, b: string)
    requires LessEq(a, b) && LessEq(b, a)
    ensures a == b
    decreases |a|
  {
    if a != [] && b != [] {
      LessEqAntisymmetric(a[1..], b[1..]);
      assert a == [a[0]] + a[1..];
      assert b == [b[0]] + b[1..];
    }
  }
}
