/**
 * lib/core.js, argument parsing: the text after a command name becomes the
 * list of values the command is applied to. Double-quoted values keep their
 * spaces (hidden behind a sentinel while the text is split on spaces), an
 * argument text wrapped in `[...]` or `{...}` holds `name:value` pairs that
 * are placed at the positions of the command's parameters, and the word
 * `null` becomes a true null.
 */
module Arguments {
  import opened Wrappers
  import opened Strings

  /** `spaceReplacement`: stands for a space inside a quoted value. */
  const SpaceReplacement: string := "@#Sp#@"

  /** `semicolonReplacement`: marks the first colon of a `name:value` token. */
  const SemicolonReplacement: string := "@#Semi#@"

  /**
   * A value a command is applied to: a string, or null. Where the source
   * leaves an entry undefined it is only ever tested with `== null`, so
   * undefined is read as null too.
   */
  datatype Arg = Null | Str(s: string)

  /** JavaScript truthiness of an argument: null and the empty string are false. */
  predicate Truthy(a: Arg)
  {
    a.Str? && a.s != []
  }

  /** An argument as string concatenation renders it. */
  function Text(a: Arg): string
  {
    if a.Null? then "null" else a.s
  }

  /** Every whitespace character of the text is either a plain space or none at all. */
  predicate OnlyPlainSpaces(s: string)
  {
    forall k :: 0 <= k < |s| ==> IsSpace(s[k]) ==> s[k] == ' '
  }

  /** `value.replace(/\s/g, spaceReplacement)`. */
  function HideSpaces(s: string): (r: string)
    ensures s != [] ==> r != [] && r[0] == (if IsSpace(s[0]) then '@' else s[0])
  {
    if s == [] then []
    else (if IsSpace(s[0]) then SpaceReplacement else [s[0]]) + HideSpaces(s[1..])
  }

  /**
   * The hidden form holds no whitespace and no double quote the value did not
   * hold; it is the value itself when that had no whitespace, and shows the
   * sentinel's `@` otherwise.
   */
  lemma {:induction false} HideSpacesShape(s: string)
    ensures NoSpace(HideSpaces(s))
    ensures '"' !in s ==> '"' !in HideSpaces(s)
    ensures NoSpace(s) ==> HideSpaces(s) == s
    ensures !NoSpace(s) ==> '@' in HideSpaces(s)
  {
    if s != [] {
      HideSpacesShape(s[1..]);
      var head := if IsSpace(s[0]) then SpaceReplacement else [s[0]];
      var r := HideSpaces(s);
      assert r == head + HideSpaces(s[1..]);
      forall i | 0 <= i < |r| ensures !IsSpace(r[i]) {
        if i >= |head| {
          assert r[i] == HideSpaces(s[1..])[i - |head|];
        }
      }
      if NoSpace(s) {
        assert NoSpace(s[1..]) by {
          forall i | 0 <= i < |s[1..]| ensures !IsSpace(s[1..][i]) {
            assert s[1..][i] == s[i + 1];
          }
        }
        assert s == [s[0]] + s[1..];
      } else if !IsSpace(s[0]) {
        assert !NoSpace(s[1..]) by {
          var i :| 0 <= i < |s| && IsSpace(s[i]);
          assert s[1..][i - 1] == s[i];
        }
        assert '@' in HideSpaces(s[1..]);
      } else {
        assert r[0] == '@';
      }
      if '"' !in s {
        assert '"' !in s[1..] by {
          forall i | 0 <= i < |s[1..]| ensures s[1..][i] != '"' {
            assert s[1..][i] == s[i + 1];
          }
        }
      }
    }
  }

  /**
   * Restoring the sentinel gives the value back, as long as its only
   * whitespace is plain spaces and it never held an `@` of its own.
   */
  lemma {:induction false} HiddenSpacesRestore(s: string)
    requires '@' !in s && OnlyPlainSpaces(s)
    ensures ReplaceAll(HideSpaces(s), SpaceReplacement, " ") == s
  {
    if s != [] {
      HiddenSpacesRestore(s[1..]);
      if IsSpace(s[0]) {
        ReplaceAllPrefix(HideSpaces(s[1..]), SpaceReplacement, " ");
      } else {
        ReplaceAllCons(s[0], HideSpaces(s[1..]), SpaceReplacement, " ");
      }
      assert s == [s[0]] + s[1..];
    }
  }

  /**
   * `transformQuotedValues`, as evidently intended: each pair of double quotes,
   * taken left to right, has the whitespace between them hidden where it
   * stands; then every double quote is removed, an unpaired one included.
   */
  function QuoteTransformed(s: string): string
    decreases |s|
  {
    var open := IndexOfFrom(s, '"', 0);
    if open == |s| then s
    else
      var rest := s[open + 1..];
      var close := IndexOfFrom(rest, '"', 0);
      if close == |rest| then s[..open] + rest
      else s[..open] + HideSpaces(rest[..close]) + QuoteTransformed(rest[close + 1..])
  }

  /** No double quote survives the transformation. */
  lemma {:induction false} QuoteTransformedUnquoted(s: string)
    ensures '"' !in QuoteTransformed(s)
    decreases |s|
  {
    var open := IndexOfFrom(s, '"', 0);
    if open < |s| {
      var rest := s[open + 1..];
      var close := IndexOfFrom(rest, '"', 0);
      if close < |rest| {
        QuoteTransformedUnquoted(rest[close + 1..]);
        HideSpacesShape(rest[..close]);
      }
    }
  }

  /** A text without double quotes is left as it is. */
  lemma QuoteFreeUnchanged(s: string)
    requires '"' !in s
    ensures QuoteTransformed(s) == s
  {
    IndexOfAbsent(s, '"', 0);
  }

  /** A quoted value has its whitespace hidden in place and loses its quotes. */
  lemma QuotedSegment(a: string, q: string, b: string)
    requires '"' !in a && '"' !in q
    ensures QuoteTransformed(a + "\"" + q + "\"" + b) == a + HideSpaces(q) + QuoteTransformed(b)
  {
    var s := a + "\"" + q + "\"" + b;
    assert s == a + ['"'] + (q + "\"" + b);
    IndexOfFirstAfterUnmarked(a, '"', q + "\"" + b);
    var rest := s[|a| + 1..];
    assert rest == q + ['"'] + b;
    IndexOfFirstAfterUnmarked(q, '"', b);
    assert s[..|a|] == a && rest[..|q|] == q && rest[|q| + 1..] == b;
  }

  /** An unpaired double quote is dropped and the text after it kept as it is. */
  lemma UnpairedQuote(a: string, q: string)
    requires '"' !in a && '"' !in q
    ensures QuoteTransformed(a + "\"" + q) == a + q
  {
    var s := a + "\"" + q;
    assert s == a + ['"'] + q;
    IndexOfFirstAfterUnmarked(a, '"', q);
    assert s[|a| + 1..] == q && s[..|a|] == a;
    IndexOfAbsent(q, '"', 0);
  }

  /** One step of `QuoteTransformed`: the text up to a complete pair, and what follows it. */
  lemma QuoteTransformedStep(s: string, open: nat, close: nat)
    requires open == IndexOfFrom(s, '"', 0) && open < |s|
    requires close == IndexOfFrom(s[open + 1..], '"', 0) && close < |s[open + 1..]|
    ensures QuoteTransformed(s) == s[..open] + HideSpaces(s[open + 1..][..close]) + QuoteTransformed(s[open + 1..][close + 1..])
  {
  }

  /** `transformQuotedValues`: walks the quote pairs from left to right. */
  method TransformQuotedValues(argumentString: string) returns (r: string)
    ensures r == QuoteTransformed(argumentString)
  {
    r := [];
    var rest := argumentString;
    var done := false;
    while !done
      invariant done ==> r == QuoteTransformed(argumentString)
      invariant !done ==> r + QuoteTransformed(rest) == QuoteTransformed(argumentString)
      decreases |rest| + (if done then 0 else 1)
    {
      var open := IndexOfFrom(rest, '"', 0);
      if open == |rest| {
        r := r + rest;
        done := true;
      } else {
        var tail := rest[open + 1..];
        var close := IndexOfFrom(tail, '"', 0);
        if close == |tail| {
          r := r + (rest[..open] + tail);
          done := true;
        } else {
          var piece := rest[..open] + HideSpaces(tail[..close]);
          QuoteTransformedStep(rest, open, close);
          assert r + QuoteTransformed(rest) == (r + piece) + QuoteTransformed(tail[close + 1..]);
          r := r + piece;
          rest := tail[close + 1..];
        }
      }
    }
  }

  /** The texts `argumentString.match(/"[^"]*"/g)` returns: the quote pairs, quotes included. */
  function QuoteMatches(s: string): (r: seq<string>)
    ensures forall k :: 0 <= k < |r| ==> |r[k]| >= 2
    decreases |s|
  {
    var open := IndexOfFrom(s, '"', 0);
    if open == |s| then []
    else
      var rest := s[open + 1..];
      var close := IndexOfFrom(rest, '"', 0);
      if close == |rest| then []
      else ["\"" + rest[..close] + "\""] + QuoteMatches(rest[close + 1..])
  }

  /** `s.replace(new RegExp(escapeRegExp(pat)), rep)`: the first occurrence of `pat`, wherever it is. */
  function ReplaceFirst(s: string, pat: string, rep: string): (r: string)
    requires |pat| > 0
  {
    var i := IndexOfText(s, pat, 0);
    if i == |s| then s else s[..i] + rep + s[i + |pat|..]
  }

  /** The loop of `transformQuotedValues`: each match replaced, in turn, by its hidden form. */
  function ReplaceEach(s: string, matches: seq<string>): string
    requires forall k :: 0 <= k < |matches| ==> |matches[k]| > 0
    decreases |matches|
  {
    if matches == [] then s
    else ReplaceEach(ReplaceFirst(s, matches[0], HideSpaces(matches[0])), matches[1..])
  }

  /** `transformQuotedValues` as written: each match replaces the first occurrence of its own text. */
  function TransformQuotedValuesAsWritten(argumentString: string): string
  {
    RemoveAll(ReplaceEach(argumentString, QuoteMatches(argumentString)), '"')
  }

  /** The text `"" " "`, with any whitespace character `w` in place of the spaces. */
  function EmptyThenSpaced(w: char): string
  {
    ['"', '"'] + [w, '"', w, '"']
  }

  lemma HideSpacesCons(c: char, t: string)
    ensures HideSpaces([c] + t) == (if IsSpace(c) then SpaceReplacement else [c]) + HideSpaces(t)
  {
    assert ([c] + t)[1..] == t;
  }

  /** `match` finds a complete pair after a quote-free text, and goes on after it. */
  lemma QuoteMatchesStep(a: string, q: string, b: string)
    requires '"' !in a && '"' !in q
    ensures QuoteMatches(a + "\"" + q + "\"" + b) == ["\"" + q + "\""] + QuoteMatches(b)
  {
    var s := a + "\"" + q + "\"" + b;
    assert s == a + ['"'] + (q + "\"" + b);
    IndexOfFirstAfterUnmarked(a, '"', q + "\"" + b);
    var rest := s[|a| + 1..];
    assert rest == q + ['"'] + b;
    IndexOfFirstAfterUnmarked(q, '"', b);
    assert rest[..|q|] == q && rest[|q| + 1..] == b;
  }

  lemma HideOneSpace(w: char)
    requires IsSpace(w)
    ensures HideSpaces([w]) == SpaceReplacement
  {
    assert [w][1..] == [];
  }

  /** A leading empty pair contributes nothing to the transformation and one match. */
  lemma EmptyPairFirst(t: string)
    ensures QuoteTransformed(['"', '"'] + t) == QuoteTransformed(t)
  {
    assert ['"', '"'] + t == "" + "\"" + "" + "\"" + t;
    QuotedSegment("", "", t);
    assert HideSpaces("") == "";
  }

  lemma EmptyPairFirstMatch(t: string)
    ensures QuoteMatches(['"', '"'] + t) == [['"', '"']] + QuoteMatches(t)
  {
    assert ['"', '"'] + t == "" + "\"" + "" + "\"" + t;
    QuoteMatchesStep("", "", t);
    assert "\"" + "" + "\"" == ['"', '"'];
  }

  lemma SpaceThenQuoted(w: char)
    requires IsSpace(w)
    ensures QuoteTransformed([w, '"', w, '"']) == [w] + SpaceReplacement
  {
    assert [w, '"', w, '"'] == [w] + "\"" + [w] + "\"" + "";
    QuotedSegment([w], [w], "");
    QuoteFreeUnchanged("");
    HideOneSpace(w);
    assert [w] + SpaceReplacement + "" == [w] + SpaceReplacement;
  }

  lemma SpaceThenQuotedMatch(w: char)
    requires IsSpace(w)
    ensures QuoteMatches([w, '"', w, '"']) == [['"', w, '"']]
  {
    assert [w, '"', w, '"'] == [w] + "\"" + [w] + "\"" + "";
    QuoteMatchesStep([w], [w], "");
    assert QuoteMatches("") == [];
    assert "\"" + [w] + "\"" == ['"', w, '"'];
  }

  lemma EmptyThenSpacedIntended(w: char)
    requires IsSpace(w)
    ensures QuoteTransformed(EmptyThenSpaced(w)) == [w] + SpaceReplacement
  {
    EmptyPairFirst([w, '"', w, '"']);
    SpaceThenQuoted(w);
  }

  lemma EmptyThenSpacedMatches(w: char)
    requires IsSpace(w)
    ensures QuoteMatches(EmptyThenSpaced(w)) == [['"', '"'], ['"', w, '"']]
  {
    EmptyPairFirstMatch([w, '"', w, '"']);
    SpaceThenQuotedMatch(w);
  }

  /** The empty pair is its own hidden form and is found where it stands. */
  lemma EmptyPairReplaced(w: char)
    ensures ReplaceFirst(EmptyThenSpaced(w), ['"', '"'], HideSpaces(['"', '"'])) == EmptyThenSpaced(w)
  {
    var s := EmptyThenSpaced(w);
    assert HideSpaces(['"', '"'])  == ['"', '"'] by {
      assert ['"', '"'][1..] == ['"'] && ['"'][1..] == [];
    }
    assert OccursAt(s, ['"', '"'], 0);
  }

  /** The quoted whitespace is first found at position 1, straddling the gap between the pairs. */
  lemma SpacePairReplaced(w: char)
    requires IsSpace(w)
    ensures ReplaceFirst(EmptyThenSpaced(w), ['"', w, '"'], HideSpaces(['"', w, '"']))
         == ['"', '"'] + SpaceReplacement + ['"', w, '"']
  {
    var s, p := EmptyThenSpaced(w), ['"', w, '"'];
    assert s[0..3][1] != p[1];
    assert !OccursAt(s, p, 0);
    assert s[1..4] == p;
    assert OccursAt(s, p, 1);
    HideSpacesCons('"', [w, '"']);
    HideSpacesCons(w, ['"']);
    HideSpacesCons('"', []);
    assert [w, '"'] == [w] + ['"'] && p == ['"'] + [w, '"'] && ['"'] == ['"'] + [];
  }

  lemma StraddledQuotesRemoved(w: char)
    requires IsSpace(w)
    ensures RemoveAll(['"', '"'] + SpaceReplacement + ['"', w, '"'], '"') == SpaceReplacement + [w]
  {
    RemoveAllAppend(['"', '"'] + SpaceReplacement, ['"', w, '"'], '"');
    RemoveAllAppend(['"', '"'], SpaceReplacement, '"');
    RemoveAllAbsent(SpaceReplacement, '"');
    assert ['"', w, '"'][1..] == [w, '"'] && [w, '"'][1..] == ['"'];
  }

  /**
   * In `"" " "` the second match, `" "`, first occurs straddling the empty
   * pair: the source hides the whitespace between the pairs and leaves the
   * quoted one alone, where hiding in place does the opposite.
   */
  lemma QuoteReplacedAtWrongPlace(w: char)
    requires IsSpace(w)
    ensures TransformQuotedValuesAsWritten(EmptyThenSpaced(w)) == SpaceReplacement + [w]
    ensures QuoteTransformed(EmptyThenSpaced(w)) == [w] + SpaceReplacement
  {
    var s := EmptyThenSpaced(w);
    EmptyThenSpacedIntended(w);
    EmptyThenSpacedMatches(w);
    EmptyPairReplaced(w);
    SpacePairReplaced(w);
    var matches := [['"', '"'], ['"', w, '"']];
    assert matches[1..] == [['"', w, '"']] && matches[1..][1..] == [];
    var m1 := ['"', w, '"'];
    assert ReplaceEach(s, matches) == ReplaceEach(s, [m1]);
    assert [m1][1..] == [];
    assert ReplaceEach(s, [m1]) == ReplaceFirst(s, m1, HideSpaces(m1));
    StraddledQuotesRemoved(w);
  }

  /** `t.replace(/\:/, semicolonReplacement)`: the first colon marked. */
  function MarkFirstColon(t: string): string
  {
    var i := IndexOfFrom(t, ':', 0);
    if i == |t| then t else t[..i] + SemicolonReplacement + t[i + 1..]
  }

  /** `paramArray[0]` of `parseNamedArguments`: the marked token up to the first marker. */
  function TokenName(t: string): string
  {
    var m := MarkFirstColon(t);
    m[..IndexOfText(m, SemicolonReplacement, 0)]
  }

  /** `paramArray[1]`: the text between the first and second markers, or undefined. */
  function TokenValue(t: string): Arg
  {
    var m := MarkFirstColon(t);
    var i := IndexOfText(m, SemicolonReplacement, 0);
    if i == |m| then Null
    else Str(m[i + |SemicolonReplacement|..IndexOfText(m, SemicolonReplacement, i + |SemicolonReplacement|)])
  }

  lemma MarkedColon(t: string, c: nat)
    requires c == IndexOfFrom(t, ':', 0) && c < |t|
    ensures MarkFirstColon(t) == t[..c] + SemicolonReplacement + t[c + 1..]
  {
  }

  lemma FirstMarker(t: string, c: nat)
    requires c < |t| && '@' !in t
    ensures IndexOfText(t[..c] + SemicolonReplacement + t[c + 1..], SemicolonReplacement, 0) == c
  {
    assert '@' !in t[..c] by {
      forall i | 0 <= i < c ensures t[..c][i] != '@' {
        assert t[i] in t;
      }
    }
    IndexOfTextAfterUnmarked(t[..c], SemicolonReplacement, t[c + 1..]);
  }

  lemma NoSecondMarker(t: string, c: nat)
    requires c < |t| && '@' !in t
    ensures var m := t[..c] + SemicolonReplacement + t[c + 1..];
      IndexOfText(m, SemicolonReplacement, c + |SemicolonReplacement|) == |m|
  {
    var m := t[..c] + SemicolonReplacement + t[c + 1..];
    forall k | c + 8 <= k < |m| ensures m[k] != SemicolonReplacement[0] {
      assert m[k] == t[k - 7];
      assert t[k - 7] in t;
    }
    IndexOfTextAbsent(m, SemicolonReplacement, c + 8);
  }

  /**
   * A token splits at its first colon, and any further colons stay in the
   * value (`arg3:some:colon:delimited:value`).
   */
  lemma ColonToken(t: string, c: nat)
    requires '@' !in t && c == IndexOfFrom(t, ':', 0) && c < |t|
    ensures TokenName(t) == t[..c] && TokenValue(t) == Str(t[c + 1..])
  {
    MarkedColon(t, c);
    FirstMarker(t, c);
    NoSecondMarker(t, c);
    MarkedPieces(t[..c], t[c + 1..]);
  }

  /** The text around an inserted marker is what was on either side of it. */
  lemma MarkedPieces(a: string, b: string)
    ensures var m := a + SemicolonReplacement + b;
      m[..|a|] == a && m[|a| + |SemicolonReplacement|..|m|] == b
  {
  }

  /** Without a colon a token is all name and its value undefined. */
  lemma ColonlessToken(t: string)
    requires '@' !in t && ':' !in t
    ensures TokenName(t) == t && TokenValue(t) == Null
  {
    IndexOfAbsent(t, ':', 0);
    IndexOfTextAbsent(t, SemicolonReplacement, 0);
  }

  /** A token as `parseNamedArguments` reads it: the name it gives and the value it carries. */
  function NamedPair(t: string): (string, Arg)
  {
    (TokenName(t), TokenValue(t))
  }

  function NamedPairs(tokens: seq<string>): (r: seq<(string, Arg)>)
    ensures |r| == |tokens| && forall k :: 0 <= k < |tokens| ==> r[k] == NamedPair(tokens[k])
  {
    seq(|tokens|, k requires 0 <= k < |tokens| => NamedPair(tokens[k]))
  }

  /** The value the last pair naming `name` carries, or None when no pair names it. */
  function FindNamed(pairs: seq<(string, Arg)>, name: string): Option<Arg>
    decreases |pairs|
  {
    if pairs == [] then None
    else if pairs[|pairs| - 1].0 == name then Some(pairs[|pairs| - 1].1)
    else FindNamed(pairs[..|pairs| - 1], name)
  }

  /**
   * `FindNamed` finds nothing exactly when no pair names `name`, and otherwise
   * the value of a pair naming it that no later pair overrides.
   */
  lemma {:induction false} FindNamedIsLast(pairs: seq<(string, Arg)>, name: string)
    ensures FindNamed(pairs, name).None? <==> forall k :: 0 <= k < |pairs| ==> pairs[k].0 != name
    ensures FindNamed(pairs, name).Some? ==>
      exists k :: 0 <= k < |pairs| && pairs[k] == (name, FindNamed(pairs, name).value)
        && forall m :: k < m < |pairs| ==> pairs[m].0 != name
    decreases |pairs|
  {
    if pairs == [] {
    } else if pairs[|pairs| - 1].0 == name {
      assert pairs[|pairs| - 1] == (name, FindNamed(pairs, name).value);
    } else {
      var prefix := pairs[..|pairs| - 1];
      FindNamedIsLast(prefix, name);
      assert FindNamed(pairs, name) == FindNamed(prefix, name);
      assert forall k :: 0 <= k < |prefix| ==> prefix[k] == pairs[k];
      if FindNamed(prefix, name).Some? {
        var k :| 0 <= k < |prefix| && prefix[k] == (name, FindNamed(prefix, name).value)
          && forall m :: k < m < |prefix| ==> prefix[m].0 != name;
        assert pairs[k] == (name, FindNamed(pairs, name).value);
        assert forall m :: k < m < |pairs| ==> pairs[m].0 != name;
      }
    }
  }

  /**
   * Two neighbouring tokens that name different parameters can change places:
   * the order of named arguments does not matter.
   */
  lemma {:induction false} FindNamedSwap(a: seq<(string, Arg)>, x: (string, Arg), y: (string, Arg),
                                         b: seq<(string, Arg)>, name: string)
    requires x.0 != y.0
    ensures FindNamed(a + [x, y] + b, name) == FindNamed(a + [y, x] + b, name)
    decreases |b|
  {
    var s, t := a + [x, y] + b, a + [y, x] + b;
    if b == [] {
      assert s[..|s| - 1] == a + [x] && t[..|t| - 1] == a + [y];
      assert (a + [x])[..|a|] == a && (a + [y])[..|a|] == a;
    } else {
      var b' := b[..|b| - 1];
      assert s[..|s| - 1] == a + [x, y] + b';
      assert t[..|t| - 1] == a + [y, x] + b';
      FindNamedSwap(a, x, y, b', name);
    }
  }

  /** Position `k` is the last one holding its name: where `methodArgumentsObject` sends that name. */
  predicate IsSlot(params: seq<string>, k: nat)
    requires k < |params|
  {
    forall m :: k < m < |params| ==> params[m] != params[k]
  }

  predicate Distinct(params: seq<string>)
  {
    forall i, j :: 0 <= i < j < |params| ==> params[i] != params[j]
  }

  /** The `== undefined` test of the second loop: null or absent becomes null. */
  function Filled(o: Option<Arg>): Arg
  {
    match o
    case None => Null
    case Some(v) => v
  }

  /**
   * The array `parseNamedArguments` returns: one entry per parameter; a
   * position holding a name repeated later on is a hole (None), every other
   * position the value of the last token naming it, or null.
   */
  function NamedSlots(tokens: seq<string>, params: seq<string>): (r: seq<Option<Arg>>)
    ensures |r| == |params|
    ensures forall k :: 0 <= k < |params| ==> (r[k].Some? <==> IsSlot(params, k))
  {
    seq(|params|, k requires 0 <= k < |params| =>
      if IsSlot(params, k) then Some(Filled(FindNamed(NamedPairs(tokens), params[k]))) else None)
  }

  /** `methodArgumentsObject` sends every parameter name to the last position holding it. */
  predicate IsSlotMap(slotOf: map<string, nat>, params: seq<string>)
  {
    (forall k :: 0 <= k < |params| ==> params[k] in slotOf)
    && forall n :: n in slotOf ==> slotOf[n] < |params| && params[slotOf[n]] == n && IsSlot(params, slotOf[n])
  }

  /** The first loop of `parseNamedArguments`: each name to its position, a later one overriding. */
  method SlotPositions(params: seq<string>) returns (slotOf: map<string, nat>)
    ensures IsSlotMap(slotOf, params)
  {
    slotOf := map[];
    var j := 0;
    while j < |params|
      invariant 0 <= j <= |params|
      invariant forall k :: 0 <= k < j ==> params[k] in slotOf
      invariant forall n :: n in slotOf ==>
        slotOf[n] < j && params[slotOf[n]] == n && forall m :: slotOf[n] < m < j ==> params[m] != n
    {
      slotOf := slotOf[params[j] := j];
      j := j + 1;
    }
  }

  /** Every slot holds what the pairs so far name for it, every other position is a hole. */
  function Placed(params: seq<string>, pairs: seq<(string, Arg)>): (r: seq<Option<Arg>>)
    ensures |r| == |params|
    ensures forall k :: 0 <= k < |params| ==>
      r[k] == if IsSlot(params, k) then FindNamed(pairs, params[k]) else None
  {
    seq(|params|, k requires 0 <= k < |params| =>
      if IsSlot(params, k) then FindNamed(pairs, params[k]) else None)
  }

  /**
   * The second loop: every token naming a parameter writes its value at that
   * name's position, a later token overwriting an earlier one.
   */
  method PlaceValues(tokens: seq<string>, params: seq<string>, slotOf: map<string, nat>)
    returns (parsed: seq<Option<Arg>>)
    requires IsSlotMap(slotOf, params)
    ensures |parsed| == |params|
    ensures forall k :: 0 <= k < |params| ==>
      parsed[k] == if IsSlot(params, k) then FindNamed(NamedPairs(tokens), params[k]) else None
  {
    // The array starts with every position a hole.
    parsed := seq(|params|, k => None);
    ghost var pairs := NamedPairs(tokens);
    ghost var done: seq<(string, Arg)> := [];
    PlacedNone(params);
    var i := 0;
    while i < |tokens|
      invariant 0 <= i <= |tokens| && done == pairs[..i]
      invariant parsed == Placed(params, done)
    {
      var name, value := TokenName(tokens[i]), TokenValue(tokens[i]);
      assert pairs[i] == (name, value);
      PlaceStep(params, slotOf, done, pairs[i]);
      if name in slotOf {
        parsed := parsed[slotOf[name] := Some(value)];
      }
      PrefixStep(pairs, i);
      done := done + [pairs[i]];
      i := i + 1;
    }
    assert done == pairs;
  }

  /** Before any token, every position is a hole. */
  lemma PlacedNone(params: seq<string>)
    ensures seq(|params|, k => None) == Placed(params, [])
  {
  }

  /** One token of the second loop keeps every slot at the last value named for it. */
  lemma PlaceStep(params: seq<string>, slotOf: map<string, nat>, pairs: seq<(string, Arg)>, p: (string, Arg))
    requires IsSlotMap(slotOf, params)
    ensures Placed(params, pairs + [p])
         == if p.0 in slotOf then Placed(params, pairs)[slotOf[p.0] := Some(p.1)] else Placed(params, pairs)
  {
    var before, after := Placed(params, pairs), Placed(params, pairs + [p]);
    var next := if p.0 in slotOf then before[slotOf[p.0] := Some(p.1)] else before;
    forall k | 0 <= k < |params| ensures next[k] == after[k] {
      FindNamedAppend(pairs, p, params[k]);
      if IsSlot(params, k) && params[k] == p.0 {
        assert slotOf[p.0] == k;
      }
    }
  }

  lemma FindNamedAppend(pairs: seq<(string, Arg)>, p: (string, Arg), name: string)
    ensures FindNamed(pairs + [p], name) == if p.0 == name then Some(p.1) else FindNamed(pairs, name)
  {
    assert (pairs + [p])[..|pairs|] == pairs;
  }

  /** The third loop: the position of every parameter name that holds null or nothing gets null. */
  method FillNulls(placed: seq<Option<Arg>>, params: seq<string>, slotOf: map<string, nat>)
    returns (parsed: seq<Option<Arg>>)
    requires IsSlotMap(slotOf, params) && |placed| == |params|
    ensures |parsed| == |params|
    ensures forall k :: 0 <= k < |params| ==>
      parsed[k] == if IsSlot(params, k) then Some(Filled(placed[k])) else placed[k]
  {
    parsed := placed;
    var remaining := slotOf.Keys;
    while remaining != {}
      invariant remaining <= slotOf.Keys
      invariant |parsed| == |params|
      invariant forall k :: 0 <= k < |params| ==>
        parsed[k] == if IsSlot(params, k) && params[k] !in remaining then Some(Filled(placed[k])) else placed[k]
      decreases |remaining|
    {
      var name :| name in remaining;
      var k := slotOf[name];
      if parsed[k] == None || parsed[k] == Some(Null) {
        parsed := parsed[k := Some(Null)];
      }
      remaining := remaining - {name};
    }
  }

  /** `parseNamedArguments`, with the parameter names `introspect` would report given explicitly. */
  method ParseNamedArguments(tokens: seq<string>, params: seq<string>) returns (parsed: seq<Option<Arg>>)
    ensures parsed == NamedSlots(tokens, params)
  {
    var slotOf := SlotPositions(params);
    var placed := PlaceValues(tokens, params, slotOf);
    parsed := FillNulls(placed, params, slotOf);
  }

  /** The regular expressions `^\[.*\]$` and `^\{.*\}$`: `.` matches no line terminator. */
  predicate IsNamedEnvelope(s: string)
  {
    |s| >= 2 && ((s[0] == '[' && s[|s| - 1] == ']') || (s[0] == '{' && s[|s| - 1] == '}'))
    && forall k :: 1 <= k < |s| - 1 ==> !IsLineTerminator(s[k])
  }

  /** The loop body of `generateArgumentsArray`: `null` in either form, or the value with its spaces back. */
  function Restore(a: Arg): Arg
  {
    match a
    case Null => Null
    case Str(v) => if v == "null" then Null else Str(ReplaceAll(v, SpaceReplacement, " "))
  }

  /** `forEach` over the array: holes are skipped, every entry restored. */
  function Collect(entries: seq<Option<Arg>>): seq<Arg>
  {
    if entries == [] then []
    else
      var last := match entries[|entries| - 1] case None => [] case Some(v) => [Restore(v)];
      Collect(entries[..|entries| - 1]) + last
  }

  /** The words as array entries: `forEach` then gives one argument per word, in order, with none skipped. */
  function Positional(tokens: seq<string>): (r: seq<Option<Arg>>)
    ensures |r| == |tokens| && forall k :: 0 <= k < |r| ==> r[k] == Some(Str(tokens[k]))
    ensures |Collect(r)| == |tokens|
    ensures forall k :: 0 <= k < |tokens| ==> Collect(r)[k] == Restore(Str(tokens[k]))
  {
    var r := seq(|tokens|, k requires 0 <= k < |tokens| => Some(Str(tokens[k])));
    CollectPresent(r);
    r
  }

  /** The argument text cut into words, and whether it used the named form. */
  datatype Tokenized = Tokenized(named: bool, tokens: seq<string>)

  /** The first steps of `generateArgumentsArray`: trim, transform the quotes, unwrap, split on spaces. */
  function Tokenize(argumentString: string): Tokenized
  {
    TokensOf(QuoteTransformed(Trim(argumentString)))
  }

  /** The words of a transformed argument text, and whether it is in the named form. */
  function TokensOf(t: string): Tokenized
  {
    Tokenized(IsNamedEnvelope(t), Split(Trim(Unwrap(t)), ' '))
  }

  /** The text between the brackets of the named form; any other text as it is. */
  function Unwrap(t: string): (r: string)
    ensures IsNamedEnvelope(t) ==> r == t[1..|t| - 1]
    ensures !IsNamedEnvelope(t) ==> r == t
    ensures IsNamedEnvelope(t) ==> [t[0]] + r + [t[|t| - 1]] == t
    ensures IsNamedEnvelope(t) ==> forall k :: 0 <= k < |r| ==> !IsLineTerminator(r[k])
  {
    if IsNamedEnvelope(t) then
      assert [t[0]] + t[1..|t| - 1] + [t[|t| - 1]] == t;
      t[1..|t| - 1]
    else t
  }

  /** The array `generateArgumentsArray` loops over: positional words, or the named slots. */
  function InitialEntries(argumentString: string, params: seq<string>): seq<Option<Arg>>
  {
    EntriesOf(Tokenize(argumentString), params)
  }

  function EntriesOf(tk: Tokenized, params: seq<string>): seq<Option<Arg>>
  {
    if tk.named then NamedSlots(tk.tokens, params) else Positional(tk.tokens)
  }

  /** What `generateArgumentsArray` returns for an argument text and the command's parameter names. */
  function ArgumentsOf(argumentString: string, params: seq<string>): (r: seq<Arg>)
    ensures !Tokenize(argumentString).named ==> |r| == |Tokenize(argumentString).tokens|
    ensures Tokenize(argumentString).named ==> |r| <= |params|
  {
    CollectLength(InitialEntries(argumentString, params));
    Collect(InitialEntries(argumentString, params))
  }

  /** `forEach` visits each entry at most once. */
  lemma {:induction false} CollectLength(entries: seq<Option<Arg>>)
    ensures |Collect(entries)| <= |entries|
  {
    if entries != [] {
      CollectLength(entries[..|entries| - 1]);
    }
  }

  /** The `forEach` at the end of `generateArgumentsArray`. */
  method RestoreEach(initial: seq<Option<Arg>>) returns (args: seq<Arg>)
    ensures args == Collect(initial)
  {
    args := [];
    var i := 0;
    while i < |initial|
      invariant 0 <= i <= |initial|
      invariant args == Collect(initial[..i])
    {
      assert initial[..i + 1][..i] == initial[..i];
      match initial[i] {
        case None =>
        case Some(v) =>
          args := args + [Restore(v)];
      }
      i := i + 1;
    }
    assert initial[..|initial|] == initial;
  }

  /** `generateArgumentsArray`. */
  method GenerateArgumentsArray(argumentString: string, params: seq<string>) returns (args: seq<Arg>)
    ensures args == ArgumentsOf(argumentString, params)
  {
    var s := Trim(argumentString);
    s := TransformQuotedValues(s);
    var named := IsNamedEnvelope(s);
    // The named form drops its brackets.
    var body := if named then s[1..|s| - 1] else s;
    assert body == Unwrap(s);
    var tokens := Split(Trim(body), ' ');
    ghost var tk := Tokenized(named, tokens);
    assert Tokenize(argumentString) == tk;
    var initial;
    if named {
      initial := ParseNamedArguments(tokens, params);
      assert initial == EntriesOf(tk, params);
    } else {
      initial := Positional(tokens);
      assert initial == EntriesOf(tk, params);
    }
    args := RestoreEach(initial);
  }

  lemma {:induction false} CollectPresent(entries: seq<Option<Arg>>)
    requires forall k :: 0 <= k < |entries| ==> entries[k].Some?
    ensures |Collect(entries)| == |entries|
    ensures forall k :: 0 <= k < |entries| ==> Collect(entries)[k] == Restore(entries[k].value)
  {
    if entries != [] {
      CollectPresent(entries[..|entries| - 1]);
    }
  }

  lemma {:induction false} JoinEnds(ps: seq<string>, sep: string)
    requires |ps| >= 1 && forall k :: 0 <= k < |ps| ==> ps[k] != []
    ensures var j := Join(ps, sep); |j| > 0 && j[0] == ps[0][0] && j[|j| - 1] == ps[|ps| - 1][|ps[|ps| - 1]| - 1]
  {
    if |ps| > 1 {
      JoinEnds(ps[1..], sep);
      var rest := Join(ps[1..], sep);
      assert Join(ps, sep) == ps[0] + sep + rest;
      assert ps[1..][|ps[1..]| - 1] == ps[|ps| - 1];
      assert (ps[0] + sep + rest)[0] == ps[0][0];
      assert (ps[0] + sep + rest)[|ps[0] + sep + rest| - 1] == rest[|rest| - 1];
    } else {
      assert Join(ps, sep) == ps[0];
    }
  }

  lemma {:induction false} JoinKeeps(ps: seq<string>, sep: string, P: char -> bool)
    requires forall k :: 0 <= k < |sep| ==> P(sep[k])
    requires forall k, i :: 0 <= k < |ps| && 0 <= i < |ps[k]| ==> P(ps[k][i])
    ensures forall i :: 0 <= i < |Join(ps, sep)| ==> P(Join(ps, sep)[i])
  {
    if |ps| > 1 {
      JoinKeeps(ps[1..], sep, P);
      var j := Join(ps[1..], sep);
      assert Join(ps, sep) == ps[0] + sep + j;
      forall i | 0 <= i < |Join(ps, sep)| ensures P(Join(ps, sep)[i]) {
        if i < |ps[0]| {
        } else if i < |ps[0]| + |sep| {
          assert Join(ps, sep)[i] == sep[i - |ps[0]|];
        } else {
          assert Join(ps, sep)[i] == j[i - |ps[0]| - |sep|];
        }
      }
    }
  }

  /** A word as it may stand between spaces on the command line, with nothing to transform. */
  predicate PlainToken(t: string)
  {
    t != [] && NoSpace(t) && '"' !in t && '@' !in t
  }

  predicate PlainChar(c: char)
  {
    !IsSpace(c) && c != '"' && c != '@'
  }

  lemma PlainTokensJoin(ts: seq<string>)
    requires forall k :: 0 <= k < |ts| ==> PlainToken(ts[k])
    ensures var j := Join(ts, " ");
      '"' !in j && '@' !in j && forall i :: 0 <= i < |j| ==> !IsLineTerminator(j[i])
  {
    var P := (c: char) => c == ' ' || PlainChar(c);
    forall k, i | 0 <= k < |ts| && 0 <= i < |ts[k]| ensures P(ts[k][i]) {
      assert ts[k][i] in ts[k];
    }
    JoinKeeps(ts, " ", P);
  }

  lemma PlainTokensSplit(ts: seq<string>)
    requires |ts| >= 1 && forall k :: 0 <= k < |ts| ==> PlainToken(ts[k])
    ensures var j := Join(ts, " "); Trim(j) == j && Split(j, ' ') == ts
  {
    var j := Join(ts, " ");
    JoinEnds(ts, " ");
    assert ts[0][0] in ts[0] && ts[|ts| - 1][|ts[|ts| - 1]| - 1] in ts[|ts| - 1];
    TrimOfUnspaced(j);
    forall k | 0 <= k < |ts| ensures ' ' !in ts[k] {
      assert NoSpace(ts[k]);
    }
    SplitJoin(ts, ' ');
  }

  /** `Tokenize` on a text whose trimmed, transformed form is `t` and not bracketed. */
  lemma TokenizeUnnamed(s: string, t: string)
    requires QuoteTransformed(Trim(s)) == t && !IsNamedEnvelope(t) && Trim(t) == t
    ensures Tokenize(s) == Tokenized(false, Split(t, ' '))
  {
  }

  /** `Tokenize` on a text whose trimmed, transformed form is the bracketed `t`. */
  lemma TokenizeNamed(s: string, t: string)
    requires QuoteTransformed(Trim(s)) == t && IsNamedEnvelope(t)
    ensures Tokenize(s) == Tokenized(true, Split(Trim(t[1..|t| - 1]), ' '))
  {
  }

  lemma PositionalTokens(ts: seq<string>)
    requires |ts| >= 1 && forall k :: 0 <= k < |ts| ==> PlainToken(ts[k])
    requires ts[0] != [] && ts[0][0] != '[' && ts[0][0] != '{'
    ensures Tokenize(Join(ts, " ")) == Tokenized(false, ts)
  {
    var j := Join(ts, " ");
    PlainTokensSplit(ts);
    PlainTokensJoin(ts);
    QuoteFreeUnchanged(j);
    JoinEnds(ts, " ");
    assert !IsNamedEnvelope(j);
    TokenizeUnnamed(j, j);
  }

  /**
   * Space-separated words reach the command as they were typed, one argument
   * each, the word `null` as a true null.
   */
  lemma PositionalArguments(ts: seq<string>, params: seq<string>)
    requires |ts| >= 1 && forall k :: 0 <= k < |ts| ==> PlainToken(ts[k])
    requires ts[0] != [] && ts[0][0] != '[' && ts[0][0] != '{'
    ensures var r := ArgumentsOf(Join(ts, " "), params);
      |r| == |ts| && forall k :: 0 <= k < |ts| ==> r[k] == if ts[k] == "null" then Null else Str(ts[k])
  {
    PositionalTokens(ts);
    assert InitialEntries(Join(ts, " "), params) == Positional(ts);
    PlainRestored(ts);
  }

  /** Plain words are restored as they are, `null` as null. */
  lemma PlainRestored(ts: seq<string>)
    requires forall k :: 0 <= k < |ts| ==> PlainToken(ts[k])
    ensures var r := Collect(Positional(ts));
      |r| == |ts| && forall k :: 0 <= k < |ts| ==> r[k] == if ts[k] == "null" then Null else Str(ts[k])
  {
    CollectPresent(Positional(ts));
    forall k | 0 <= k < |ts| ensures Restore(Str(ts[k])) == if ts[k] == "null" then Null else Str(ts[k]) {
      RestorePlain(ts[k]);
    }
  }

  /** A word without the sentinel's `@` is restored as it is, `null` as null. */
  lemma RestorePlain(t: string)
    requires '@' !in t
    ensures Restore(Str(t)) == if t == "null" then Null else Str(t)
  {
    ReplaceAllUnmarked(t, SpaceReplacement, " ");
  }

  /** A quoted value is its own trimmed form. */
  lemma QuotedTrimmed(v: string)
    ensures var s := "\"" + v + "\""; Trim(s) == s
  {
    var s := "\"" + v + "\"";
    TrimOfUnspaced(s);
  }

  /** A quoted value, transformed, becomes its text with the whitespace hidden. */
  lemma QuotedValue(v: string)
    requires '"' !in v
    ensures var s := "\"" + v + "\""; QuoteTransformed(s) == HideSpaces(v)
  {
    var s := "\"" + v + "\"";
    assert s == "" + "\"" + v + "\"" + "";
    QuotedSegment("", v, "");
    QuoteFreeUnchanged("");
  }

  lemma HiddenUnbracketed(v: string)
    requires v == [] || (v[0] != '[' && v[0] != '{')
    ensures !IsNamedEnvelope(HideSpaces(v))
  {
  }

  /** A text with its whitespace hidden is one word, its own trimmed form. */
  lemma HiddenWord(v: string)
    ensures var h := HideSpaces(v); Trim(h) == h && Split(h, ' ') == [h]
  {
    var h := HideSpaces(v);
    HideSpacesShape(v);
    TrimOfUnspaced(h);
    assert ' ' !in h by {
      assert NoSpace(h);
    }
    IndexOfAbsent(h, ' ', 0);
  }

  /** A quoted value, trimmed and transformed, is its text with the whitespace hidden. */
  lemma QuotedText(v: string)
    requires '"' !in v
    ensures var s := "\"" + v + "\""; QuoteTransformed(Trim(s)) == HideSpaces(v)
  {
    QuotedTrimmed(v);
    QuotedValue(v);
  }

  /** ... and that is one word, not in the named form. */
  lemma HiddenPlainWord(v: string)
    requires v == [] || (v[0] != '[' && v[0] != '{')
    ensures var h := HideSpaces(v); !IsNamedEnvelope(h) && Trim(h) == h && Split(h, ' ') == [h]
  {
    HiddenUnbracketed(v);
    HiddenWord(v);
  }

  lemma QuotedTokens(v: string)
    requires '"' !in v && (v == [] || (v[0] != '[' && v[0] != '{'))
    ensures Tokenize("\"" + v + "\"") == Tokenized(false, [HideSpaces(v)])
  {
    QuotedText(v);
    HiddenPlainWord(v);
    TokenizeUnnamed("\"" + v + "\"", HideSpaces(v));
  }

  /**
   * A double-quoted value reaches the command as one argument with its spaces
   * kept (`"C:\My Documents\backups"`).
   */
  lemma QuotedArgument(v: string, params: seq<string>)
    requires '"' !in v && '@' !in v && OnlyPlainSpaces(v) && v != "null"
    requires v == [] || (v[0] != '[' && v[0] != '{')
    ensures ArgumentsOf("\"" + v + "\"", params) == [Str(v)]
  {
    QuotedTokens(v);
    assert InitialEntries("\"" + v + "\"", params) == Positional([HideSpaces(v)]);
    HiddenRestored(v);
  }

  /** The one word of a quoted value is restored to the value. */
  lemma HiddenRestored(v: string)
    requires '@' !in v && OnlyPlainSpaces(v) && v != "null"
    ensures Collect(Positional([HideSpaces(v)])) == [Str(v)]
  {
    var h := HideSpaces(v);
    CollectPresent(Positional([h]));
    HiddenSpacesRestore(v);
    HideSpacesShape(v);
    assert h != "null" by {
      if NoSpace(v) {
        assert h == v;
      } else {
        assert '@' in h;
      }
    }
  }

  /** A text without line breaks, put between brackets, is in the named form. */
  lemma Bracketed(j: string)
    requires '"' !in j && forall i :: 0 <= i < |j| ==> !IsLineTerminator(j[i])
    ensures var s := "[" + j + "]"; IsNamedEnvelope(s) && s[1..|s| - 1] == j && Trim(s) == s && '"' !in s
  {
    var s := "[" + j + "]";
    forall k | 1 <= k < |s| - 1 ensures !IsLineTerminator(s[k]) {
      assert s[k] == j[k - 1];
    }
    assert s[1..|s| - 1] == j;
    TrimOfUnspaced(s);
  }

  lemma NamedTokensOf(s: string, j: string, ts: seq<string>)
    requires IsNamedEnvelope(s) && s[1..|s| - 1] == j && Trim(s) == s && '"' !in s
    requires Trim(j) == j && Split(j, ' ') == ts
    ensures Tokenize(s) == Tokenized(true, ts)
  {
    QuoteFreeUnchanged(s);
    TokenizeNamed(s, s);
  }

  lemma NamedTokens(ts: seq<string>)
    requires |ts| >= 1 && forall k :: 0 <= k < |ts| ==> PlainToken(ts[k])
    ensures Tokenize("[" + Join(ts, " ") + "]") == Tokenized(true, ts)
  {
    var j := Join(ts, " ");
    PlainTokensJoin(ts);
    Bracketed(j);
    PlainTokensSplit(ts);
    NamedTokensOf("[" + j + "]", j, ts);
  }

  /**
   * A bracketed list of `name:value` tokens, against distinct parameter names,
   * gives one argument per parameter, in the parameters' order: the value of
   * the last token naming it, null when none does.
   */
  lemma NamedArguments(ts: seq<string>, params: seq<string>)
    requires |ts| >= 1 && forall k :: 0 <= k < |ts| ==> PlainToken(ts[k])
    requires Distinct(params)
    ensures var r := ArgumentsOf("[" + Join(ts, " ") + "]", params);
      |r| == |params|
      && forall k :: 0 <= k < |params| ==> r[k] == Restore(Filled(FindNamed(NamedPairs(ts), params[k])))
  {
    var s := "[" + Join(ts, " ") + "]";
    NamedTokens(ts);
    var slots := NamedSlots(ts, params);
    assert InitialEntries(s, params) == slots;
    DistinctSlots(params);
    CollectPresent(slots);
    forall k | 0 <= k < |params|
      ensures Collect(slots)[k] == Restore(Filled(FindNamed(NamedPairs(ts), params[k])))
    {
      assert slots[k] == Some(Filled(FindNamed(NamedPairs(ts), params[k])));
    }
  }

  /** With distinct names every position is a slot: the named form leaves no hole. */
  lemma DistinctSlots(params: seq<string>)
    requires Distinct(params)
    ensures forall k :: 0 <= k < |params| ==> IsSlot(params, k)
  {
  }

  /** Pairs of a concatenation of tokens are the concatenation of their pairs. */
  lemma NamedPairsAppend(a: seq<string>, b: seq<string>)
    ensures NamedPairs(a + b) == NamedPairs(a) + NamedPairs(b)
  {
  }

  /** Swapping two tokens that name different parameters changes no lookup. */
  lemma SwappedTokens(a: seq<string>, t1: string, t2: string, b: seq<string>, name: string)
    requires TokenName(t1) != TokenName(t2)
    ensures FindNamed(NamedPairs(a + [t1, t2] + b), name) == FindNamed(NamedPairs(a + [t2, t1] + b), name)
  {
    NamedPairsAppend(a + [t1, t2], b);
    NamedPairsAppend(a, [t1, t2]);
    NamedPairsAppend(a + [t2, t1], b);
    NamedPairsAppend(a, [t2, t1]);
    var p1, p2 := NamedPair(t1), NamedPair(t2);
    assert NamedPairs([t1, t2]) == [p1, p2] && NamedPairs([t2, t1]) == [p2, p1];
    FindNamedSwap(NamedPairs(a), p1, p2, NamedPairs(b), name);
  }

  lemma PlainSwapped(a: seq<string>, t1: string, t2: string, b: seq<string>)
    requires (forall k :: 0 <= k < |a| ==> PlainToken(a[k])) && (forall k :: 0 <= k < |b| ==> PlainToken(b[k]))
    requires PlainToken(t1) && PlainToken(t2)
    ensures var ts, us := a + [t1, t2] + b, a + [t2, t1] + b;
      |ts| >= 2 && |us| == |ts| && forall k :: 0 <= k < |ts| ==> PlainToken(ts[k]) && PlainToken(us[k])
  {
    var ts, us := a + [t1, t2] + b, a + [t2, t1] + b;
    forall k | 0 <= k < |ts| ensures PlainToken(ts[k]) && PlainToken(us[k]) {
      if k >= |a| + 2 {
        assert ts[k] == b[k - |a| - 2] && us[k] == b[k - |a| - 2];
      } else if k < |a| {
        assert ts[k] == a[k] && us[k] == a[k];
      }
    }
  }

  /**
   * In the named form, two neighbouring tokens naming different parameters can
   * change places without changing the arguments the command receives.
   */
  lemma NamedOrderIrrelevant(a: seq<string>, t1: string, t2: string, b: seq<string>, params: seq<string>)
    requires (forall k :: 0 <= k < |a| ==> PlainToken(a[k])) && (forall k :: 0 <= k < |b| ==> PlainToken(b[k]))
    requires PlainToken(t1) && PlainToken(t2) && TokenName(t1) != TokenName(t2)
    requires Distinct(params)
    ensures ArgumentsOf("[" + Join(a + [t1, t2] + b, " ") + "]", params)
         == ArgumentsOf("[" + Join(a + [t2, t1] + b, " ") + "]", params)
  {
    var ts, us := a + [t1, t2] + b, a + [t2, t1] + b;
    PlainSwapped(a, t1, t2, b);
    NamedArguments(ts, params);
    NamedArguments(us, params);
    forall k | 0 <= k < |params|
      ensures FindNamed(NamedPairs(ts), params[k]) == FindNamed(NamedPairs(us), params[k])
    {
      SwappedTokens(a, t1, t2, b, params[k]);
    }
  }

  /** `generateArgumentsArray` with `transformQuotedValues` as written. */
  function ArgumentsAsWritten(argumentString: string, params: seq<string>): (r: seq<Arg>)
    ensures var tk := TokensOf(TransformQuotedValuesAsWritten(Trim(argumentString)));
      (!tk.named ==> |r| == |tk.tokens|) && (tk.named ==> |r| <= |params|)
  {
    CollectLength(EntriesOf(TokensOf(TransformQuotedValuesAsWritten(Trim(argumentString))), params));
    Collect(EntriesOf(TokensOf(TransformQuotedValuesAsWritten(Trim(argumentString))), params))
  }

  /** The text `"" " " x`, with the whitespace character `w` in place of the spaces. */
  function Straddled(w: char, x: char): string
  {
    EmptyThenSpaced(w) + [w, x]
  }

  lemma WordUnquoted(w: char, x: char)
    requires IsSpace(w) && PlainChar(x)
    ensures QuoteMatches([w, x]) == []
  {
    IndexOfAbsent([w, x], '"', 0);
  }

  lemma SpacedTailMatch(w: char, x: char)
    requires IsSpace(w) && PlainChar(x)
    ensures QuoteMatches([w, '"', w, '"', w, x]) == [['"', w, '"']]
  {
    assert [w, '"', w, '"', w, x] == [w] + "\"" + [w] + "\"" + [w, x];
    QuoteMatchesStep([w], [w], [w, x]);
    WordUnquoted(w, x);
    assert "\"" + [w] + "\"" == ['"', w, '"'];
  }

  lemma StraddledMatches(w: char, x: char)
    requires IsSpace(w) && PlainChar(x)
    ensures QuoteMatches(Straddled(w, x)) == [['"', '"'], ['"', w, '"']]
  {
    var t := [w, '"', w, '"', w, x];
    assert Straddled(w, x) == ['"', '"'] + t;
    EmptyPairFirstMatch(t);
    SpacedTailMatch(w, x);
  }

  /** The empty pair is its own hidden form and is found where it stands. */
  lemma StraddledEmptyPair(w: char, x: char)
    ensures ReplaceFirst(Straddled(w, x), ['"', '"'], HideSpaces(['"', '"'])) == Straddled(w, x)
  {
    var s, e := Straddled(w, x), ['"', '"'];
    assert HideSpaces(e) == e by {
      assert e[1..] == ['"'] && ['"'][1..] == [];
    }
    assert OccursAt(s, e, 0);
  }

  /** The quoted whitespace is first found at position 1, straddling the gap between the pairs. */
  lemma StraddledSpacePair(w: char, x: char)
    requires IsSpace(w)
    ensures ReplaceFirst(Straddled(w, x), ['"', w, '"'], HideSpaces(['"', w, '"']))
         == ['"', '"'] + SpaceReplacement + ['"', w, '"', w, x]
  {
    var s, m := Straddled(w, x), ['"', w, '"'];
    assert s[0..3][1] != m[1];
    assert !OccursAt(s, m, 0);
    assert s[1..4] == m;
    assert OccursAt(s, m, 1);
    HideSpacesCons('"', [w, '"']);
    HideSpacesCons(w, ['"']);
    HideSpacesCons('"', []);
    assert [w, '"'] == [w] + ['"'] && m == ['"'] + [w, '"'] && ['"'] == ['"'] + [];
    assert s[4..] == [w, '"', w, x];
  }

  lemma StraddledReplaced(w: char, x: char)
    requires IsSpace(w)
    ensures ReplaceEach(Straddled(w, x), [['"', '"'], ['"', w, '"']])
         == ['"', '"'] + SpaceReplacement + ['"', w, '"', w, x]
  {
    var e, m := ['"', '"'], ['"', w, '"'];
    StraddledEmptyPair(w, x);
    StraddledSpacePair(w, x);
    var s, ms := Straddled(w, x), [e, m];
    assert ms[1..] == [m] && [m][1..] == [];
    assert ReplaceEach(s, ms) == ReplaceEach(s, [m]);
    assert ReplaceEach(s, [m]) == ReplaceFirst(s, m, HideSpaces(m));
  }

  lemma StraddledWordQuotesRemoved(w: char, x: char)
    requires IsSpace(w) && PlainChar(x)
    ensures RemoveAll(['"', '"'] + SpaceReplacement + ['"', w, '"', w, x], '"') == SpaceReplacement + [w, w, x]
  {
    var a := ['"', '"'] + SpaceReplacement + ['"', w, '"'];
    assert ['"', '"'] + SpaceReplacement + ['"', w, '"', w, x] == a + [w, x];
    RemoveAllAppend(a, [w, x], '"');
    StraddledQuotesRemoved(w);
    RemoveAllAbsent([w, x], '"');
  }

  /** As written, the text transforms to the sentinel, two whitespace characters and the word. */
  lemma StraddledAsWritten(w: char, x: char)
    requires IsSpace(w) && PlainChar(x)
    ensures TransformQuotedValuesAsWritten(Trim(Straddled(w, x))) == SpaceReplacement + [w, w, x]
  {
    StraddledTrimmed(w, x);
    StraddledMatches(w, x);
    StraddledReplaced(w, x);
    StraddledWordQuotesRemoved(w, x);
  }

  lemma SpacedTailTransformed(w: char, x: char)
    requires IsSpace(w) && PlainChar(x)
    ensures QuoteTransformed([w, '"', w, '"', w, x]) == [w] + SpaceReplacement + [w, x]
  {
    assert [w, '"', w, '"', w, x] == [w] + "\"" + [w] + "\"" + [w, x];
    QuotedSegment([w], [w], [w, x]);
    HideOneSpace(w);
    QuoteFreeUnchanged([w, x]);
  }

  lemma StraddledTrimmed(w: char, x: char)
    requires PlainChar(x)
    ensures Trim(Straddled(w, x)) == Straddled(w, x)
  {
    TrimOfUnspaced(Straddled(w, x));
  }

  /** Hidden in place, the text transforms to the whitespace, the sentinel, the whitespace and the word. */
  lemma StraddledInPlace(w: char, x: char)
    requires IsSpace(w) && PlainChar(x)
    ensures QuoteTransformed(Trim(Straddled(w, x))) == [w] + SpaceReplacement + [w, x]
  {
    var s, t := Straddled(w, x), [w, '"', w, '"', w, x];
    StraddledTrimmed(w, x);
    assert s == ['"', '"'] + t;
    EmptyPairFirst(t);
    SpacedTailTransformed(w, x);
  }

  /** The sentinel stands for one space; the empty word stays empty. */
  lemma RestoreSentinel()
    ensures Restore(Str(SpaceReplacement)) == Str(" ")
    ensures Restore(Str("")) == Str("")
  {
    assert SpaceReplacement + [] == SpaceReplacement;
    ReplaceAllPrefix([], SpaceReplacement, " ");
    ReplaceAllShort([], SpaceReplacement, " ");
  }

  /** Split on the spaces, the as-written text is three words... */
  lemma StraddledWordsAsWritten(w: char, x: char)
    requires w == ' ' && PlainChar(x)
    ensures TokensOf(SpaceReplacement + [w, w, x]) == Tokenized(false, [SpaceReplacement, [], [x]])
  {
    var t := SpaceReplacement + [w, w, x];
    assert !IsNamedEnvelope(t);
    TrimOfUnspaced(t);
    JoinCons([], [[x]], [w]);
    JoinCons(SpaceReplacement, [[], [x]], [w]);
    assert t == Join([SpaceReplacement, [], [x]], [w]);
    assert w !in SpaceReplacement;
    SplitJoin([SpaceReplacement, [], [x]], w);
  }

  /** ... and the in-place one two. */
  lemma StraddledWordsInPlace(w: char, x: char)
    requires w == ' ' && PlainChar(x)
    ensures TokensOf([w] + SpaceReplacement + [w, x]) == Tokenized(false, [SpaceReplacement, [x]])
  {
    var u, v := [w] + SpaceReplacement + [w, x], SpaceReplacement + [w, x];
    assert u == [w] + v;
    assert !IsNamedEnvelope(u) by {
      assert u[0] == w;
    }
    assert Unwrap(u) == u;
    TrimLeadingSpace(w, v);
    SentinelThenWord(w, x);
    assert Split(Trim(Unwrap(u)), ' ') == [SpaceReplacement, [x]];
  }

  lemma SentinelThenWord(w: char, x: char)
    requires w == ' ' && PlainChar(x)
    ensures Split(SpaceReplacement + [w, x], ' ') == [SpaceReplacement, [x]]
  {
    JoinCons(SpaceReplacement, [[x]], [w]);
    assert SpaceReplacement + [w, x] == Join([SpaceReplacement, [x]], [w]);
    assert w !in SpaceReplacement;
    SplitJoin([SpaceReplacement, [x]], w);
  }

  /** The words restored: the sentinel is a space, the empty word stays, the plain word is kept. */
  lemma StraddledRestored(x: char)
    requires PlainChar(x)
    ensures Collect(Positional([SpaceReplacement, [], [x]])) == [Str(" "), Str(""), Str([x])]
    ensures Collect(Positional([SpaceReplacement, [x]])) == [Str(" "), Str([x])]
  {
    CollectPresent(Positional([SpaceReplacement, [], [x]]));
    CollectPresent(Positional([SpaceReplacement, [x]]));
    RestoreSentinel();
    RestorePlain([x]);
  }

  lemma StraddledArgumentsAsWritten(w: char, x: char, params: seq<string>)
    requires w == ' ' && PlainChar(x)
    ensures ArgumentsAsWritten(Straddled(w, x), params) == [Str(" "), Str(""), Str([x])]
  {
    var ws := [SpaceReplacement, [], [x]];
    StraddledAsWritten(w, x);
    StraddledWordsAsWritten(w, x);
    assert EntriesOf(TokensOf(TransformQuotedValuesAsWritten(Trim(Straddled(w, x)))), params) == Positional(ws);
    StraddledRestored(x);
  }

  lemma StraddledArgumentsInPlace(w: char, x: char, params: seq<string>)
    requires w == ' ' && PlainChar(x)
    ensures ArgumentsOf(Straddled(w, x), params) == [Str(" "), Str([x])]
  {
    var ws := [SpaceReplacement, [x]];
    StraddledInPlace(w, x);
    StraddledWordsInPlace(w, x);
    assert InitialEntries(Straddled(w, x), params) == Positional(ws);
    StraddledRestored(x);
  }

  /**
   * On `"" " " x` the source gives the command three arguments, a space, an
   * empty string and the word, where hiding in place gives the two that were
   * typed: a space and the word.
   */
  lemma StraddledArguments(w: char, x: char, params: seq<string>)
    requires w == ' ' && PlainChar(x)
    ensures ArgumentsAsWritten(Straddled(w, x), params) == [Str(" "), Str(""), Str([x])]
    ensures ArgumentsOf(Straddled(w, x), params) == [Str(" "), Str([x])]
  {
    StraddledArgumentsAsWritten(w, x, params);
    StraddledArgumentsInPlace(w, x, params);
  }
}
