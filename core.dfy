/**
 * lib/core.js, the helpers besides argument parsing: the prompt text, regular
 * expression escaping, the loose reading of Boolean settings, key sorting, the
 * rendered command signature and the Windows terminal prefix.
 */
module Core {
  import opened Wrappers
  import opened Strings
  import Output

  /**
   * The prompt. `source` is the source alias, or None when no source is set
   * (the source location is then `{}` and its alias undefined).
   */
  function GenerateCommandPrompt(source: Option<string>, target: string): (r: string)
    ensures |r| == (if source.Some? then 12 + |source.value| else 0) + 13 + |target|
    ensures r[|r| - (13 + |target|)..] == "target -> " + target + " >>"
    ensures source.Some? <==> r[..10] == "source -> "
    ensures source.Some? ==> r[..12 + |source.value|] == "source -> " + source.value + ", "
  {
    var sourcePart := if source.Some? then "source -> " + source.value + ", " else "";
    var r := sourcePart + "target -> " + target + " >>";
    assert r[..|sourcePart|] == sourcePart;
    assert r[|sourcePart|..] == "target -> " + target + " >>";
    if source.None? then
      assert r[..10] == "target -> ";
      r
    else
      assert r[..10] == sourcePart[..10];
      r
  }

  /** The characters `escapeRegExp` puts a backslash in front of. */
  predicate IsRegExpSpecial(c: char)
  {
    c in "-[]/{}()*+?.\\^$|"
  }

  function CountSpecial(s: string): nat
  {
    if s == [] then 0 else (if IsRegExpSpecial(s[0]) then 1 else 0) + CountSpecial(s[1..])
  }

  /** Reads a regular-expression literal back: a backslash stands for the character after it. */
  function Unescape(r: string): string
    decreases |r|
  {
    if r == [] then []
    else if r[0] == '\\' && |r| >= 2 then [r[1]] + Unescape(r[2..])
    else [r[0]] + Unescape(r[1..])
  }

  /**
   * `escapeRegExp`: every special character gets a backslash in front; reading
   * the result back as a literal gives the input again.
   */
  function EscapeRegExp(s: string): (r: string)
    ensures |r| == |s| + CountSpecial(s)
    ensures Unescape(r) == s
  {
    if s == [] then []
    else if IsRegExpSpecial(s[0]) then ['\\', s[0]] + EscapeRegExp(s[1..])
    else [s[0]] + EscapeRegExp(s[1..])
  }

  /** Escaping works character by character: a special character gets one backslash, any other stays. */
  lemma EscapeRegExpChar(c: char)
    ensures EscapeRegExp([c]) == if IsRegExpSpecial(c) then ['\\', c] else [c]
  {
    assert [c][1..] == [];
  }

  /** Escaping a concatenation escapes each part. */
  lemma {:induction false} EscapeRegExpAppend(a: string, b: string)
    ensures EscapeRegExp(a + b) == EscapeRegExp(a) + EscapeRegExp(b)
  {
    if a != [] {
      assert (a + b)[0] == a[0];
      assert (a + b)[1..] == a[1..] + b;
      EscapeRegExpAppend(a[1..], b);
    } else {
      assert a + b == b;
    }
  }

  /** The JavaScript values `isBoolean` and `booleanValue` are given. */
  datatype Value = Bool(b: bool) | Num(n: real) | Text(s: string)

  predicate IsDigit(c: char)
  {
    '0' <= c <= '9'
  }

  predicate AllDigits(s: string)
  {
    forall i :: 0 <= i < |s| ==> IsDigit(s[i])
  }

  function DigitsValue(s: string): nat
    requires AllDigits(s)
  {
    if s == [] then 0 else DigitsValue(s[..|s| - 1]) * 10 + (s[|s| - 1] as int - '0' as int)
  }

  /** The value of the digits after a decimal point. */
  function FractionValue(s: string): real
    requires AllDigits(s)
  {
    if s == [] then 0.0 else ((s[0] as int - '0' as int) as real + FractionValue(s[1..])) / 10.0
  }

  /** An unsigned decimal numeral `ddd`, `ddd.`, `ddd.ddd` or `.ddd`, and its value. */
  function UnsignedDecimal(s: string): Option<real>
  {
    var dot := IndexOfFrom(s, '.', 0);
    var whole := s[..dot];
    var fraction := if dot < |s| then s[dot + 1..] else "";
    if AllDigits(whole) && AllDigits(fraction) && |whole| + |fraction| > 0
    then Some(DigitsValue(whole) as real + FractionValue(fraction))
    else None
  }

  /**
   * JavaScript's ToNumber on a string, for the decimal forms: blank is 0, an
   * optional sign, then a decimal numeral. None stands for NaN.
   */
  function NumberOfText(s: string): Option<real>
  {
    var t := Trim(s);
    if t == [] then Some(0.0)
    else if t[0] == '-' then
      match UnsignedDecimal(t[1..])
      case Some(v) => Some(-v)
      case None => None
    else if t[0] == '+' then UnsignedDecimal(t[1..])
    else UnsignedDecimal(t)
  }

  /** The words `isBoolean` accepts after trimming (the regular expressions of lines 40-51). */
  predicate IsBooleanWord(t: string)
  {
    t in {"true", "True", "false", "False", "yes", "Yes", "no", "No", "y", "Y", "n", "N", "1", "0"}
  }

  /** The words `booleanValue` reads as true after trimming. */
  predicate IsTrueWord(t: string)
  {
    t in {"true", "True", "yes", "Yes", "y", "Y", "1"}
  }

  /**
   * `isBoolean`: loose equality with 0 or 1 first (a Boolean always passes,
   * a number only when it is 0 or 1, a string when it reads as the number 0
   * or 1), then the Boolean words of a trimmed string.
   */
  function IsBoolean(v: Value): (r: bool)
    ensures v.Bool? ==> r
    ensures v.Text? && Trim(v.s) == [] ==> r
  {
    match v
    case Bool(_) => true
    case Num(n) => n == 0.0 || n == 1.0
    case Text(s) =>
      NumberOfText(s) == Some(0.0) || NumberOfText(s) == Some(1.0) || IsBooleanWord(Trim(s))
  }

  /** `booleanValue`: only what `isBoolean` accepts can read as true, and a blank setting reads as false. */
  function BooleanValue(v: Value): (r: bool)
    ensures r ==> IsBoolean(v)
    ensures v.Text? && Trim(v.s) == [] ==> !r
  {
    match v
    case Bool(b) => b
    case Num(n) => n == 1.0
    case Text(s) => IsTrueWord(Trim(s))
  }

  /** Everything `booleanValue` reads as true is a Boolean for `isBoolean`. */
  lemma TrueValuesAreBooleans(v: Value)
    requires BooleanValue(v)
    ensures IsBoolean(v)
    ensures v.Text? ==> IsTrueWord(Trim(v.s))
  {
  }

  /** An unsigned, untrimmable text is read by `UnsignedDecimal` alone. */
  lemma UnsignedNumberOfText(s: string)
    requires s != [] && !IsSpace(s[0]) && !IsSpace(s[|s| - 1])
    requires s[0] != '-' && s[0] != '+'
    ensures NumberOfText(s) == UnsignedDecimal(s)
  {
    TrimOfUnspaced(s);
  }

  lemma DigitDecimal(c: char)
    requires IsDigit(c)
    ensures UnsignedDecimal([c]) == Some((c as int - '0' as int) as real)
  {
    var s := [c];
    assert IndexOfFrom(s, '.', 0) == 1;
    assert s[..1] == s;
    assert AllDigits(s);
    assert s[..|s| - 1] == [];
    assert DigitsValue(s) == c as int - '0' as int;
    assert AllDigits("") && FractionValue("") == 0.0;
  }

  /** A one-digit numeral reads as its digit. */
  lemma DigitNumeral(c: char)
    requires IsDigit(c)
    ensures NumberOfText([c]) == Some((c as int - '0' as int) as real)
  {
    UnsignedNumberOfText([c]);
    DigitDecimal(c);
  }

  lemma LetterDecimal(c: char)
    requires !IsDigit(c) && c != '.'
    ensures UnsignedDecimal([c]) == None
  {
    var s := [c];
    assert IndexOfFrom(s, '.', 0) == 1;
    assert s[..1] == s;
    assert !IsDigit(s[0]);
  }

  lemma LetterUnsigned(c: char)
    requires 'A' <= c <= 'Z' || 'a' <= c <= 'z'
    ensures NumberOfText([c]) == UnsignedDecimal([c])
  {
    assert !IsSpace(c);
    UnsignedNumberOfText([c]);
  }

  /** A one-letter word is no number. */
  lemma LetterIsNaN(c: char)
    requires 'A' <= c <= 'Z' || 'a' <= c <= 'z'
    ensures NumberOfText([c]) == None
  {
    LetterUnsigned(c);
    LetterDecimal(c);
  }

  /**
   * One-digit settings, as in the isBoolean and booleanValue test tables:
   * only "0" and "1" are Booleans, and only "1" is true.
   */
  lemma DigitTextBoolean(c: char)
    requires IsDigit(c)
    ensures IsBoolean(Text([c])) <==> c == '0' || c == '1'
    ensures BooleanValue(Text([c])) <==> c == '1'
  {
    DigitNumeral(c);
    TrimOfUnspaced([c]);
  }

  /**
   * One-letter settings: "y", "Y", "n" and "N" are Booleans (any other letter,
   * such as "T", is not), and only "y" and "Y" are true.
   */
  lemma LetterTextBoolean(c: char)
    requires 'A' <= c <= 'Z' || 'a' <= c <= 'z'
    ensures IsBoolean(Text([c])) <==> c in "yYnN"
    ensures BooleanValue(Text([c])) <==> c in "yY"
  {
    LetterIsNaN(c);
    assert !IsSpace(c);
    TrimOfUnspaced([c]);
  }

  /** An object's properties as a list of key/value pairs in enumeration order. */
  predicate DistinctKeys<V>(entries: seq<(string, V)>)
  {
    forall i, j :: 0 <= i < j < |entries| ==> entries[i].0 != entries[j].0
  }

  predicate SortedByKey<V>(entries: seq<(string, V)>)
  {
    forall i, j :: 0 <= i < j < |entries| ==> LessEq(entries[i].0, entries[j].0)
  }

  function InsertByKey<V>(e: (string, V), sorted: seq<(string, V)>): seq<(string, V)>
  {
    if sorted == [] || LessEq(e.0, sorted[0].0) then [e] + sorted
    else [sorted[0]] + InsertByKey(e, sorted[1..])
  }

  /** A pair whose key is no larger than the first of a sorted listing can go in front of it. */
  lemma PrependByKey<V>(e: (string, V), sorted: seq<(string, V)>)
    requires SortedByKey(sorted)
    requires sorted == [] || LessEq(e.0, sorted[0].0)
    ensures SortedByKey([e] + sorted)
  {
    var r := [e] + sorted;
    forall i, j | 0 <= i < j < |r| ensures LessEq(r[i].0, r[j].0) {
      if i > 0 {
        assert r[i] == sorted[i - 1] && r[j] == sorted[j - 1];
      } else if j > 1 {
        assert r[j] == sorted[j - 1];
        LessEqTransitive(e.0, sorted[0].0, sorted[j - 1].0);
      }
    }
  }

  lemma {:induction false} InsertByKeySorted<V>(e: (string, V), sorted: seq<(string, V)>)
    requires SortedByKey(sorted)
    ensures SortedByKey(InsertByKey(e, sorted))
    ensures multiset(InsertByKey(e, sorted)) == multiset(sorted) + multiset{e}
  {
    var r := InsertByKey(e, sorted);
    if sorted == [] || LessEq(e.0, sorted[0].0) {
      PrependByKey(e, sorted);
    } else {
      LessEqTotal(e.0, sorted[0].0);
      var rest := InsertByKey(e, sorted[1..]);
      InsertByKeySorted(e, sorted[1..]);
      assert sorted == [sorted[0]] + sorted[1..];
      assert rest[0] == e || rest[0] == sorted[1];
      assert r == [sorted[0]] + rest;
      PrependByKey(sorted[0], rest);
    }
  }

  /**
   * `sortObjectProperties`: the same key/value pairs, ordered by key as
   * lodash's `sortBy` with the identity orders strings.
   */
  function SortObjectProperties<V(==)>(entries: seq<(string, V)>): (r: seq<(string, V)>)
    ensures SortedByKey(r)
    ensures multiset(r) == multiset(entries)
  {
    if entries == [] then []
    else
      var rest := SortObjectProperties(entries[1..]);
      InsertByKeySorted(entries[0], rest);
      assert entries == [entries[0]] + entries[1..];
      InsertByKey(entries[0], rest)
  }

  /** The keys end up in one order only: sorting two listings of the same object agrees. */
  lemma {:induction false} SortedListingIsUnique<V>(a: seq<(string, V)>, b: seq<(string, V)>)
    requires multiset(a) == multiset(b)
    requires DistinctKeys(a)
    ensures SortObjectProperties(a) == SortObjectProperties(b)
  {
    var ra, rb := SortObjectProperties(a), SortObjectProperties(b);
    DistinctKeysTransfer(a, ra);
    SortedSameElementsEqual(ra, rb);
  }

  /** Two sorted listings of the same pairs, keys distinct, start with the same pair. */
  lemma SortedHeadsAgree<V>(ra: seq<(string, V)>, rb: seq<(string, V)>)
    requires SortedByKey(ra) && SortedByKey(rb)
    requires multiset(ra) == multiset(rb)
    requires DistinctKeys(ra)
    requires ra != []
    ensures rb != [] && ra[0] == rb[0]
  {
    assert ra[0] in multiset(rb);
    assert rb[0] in multiset(ra);
    var i :| 0 <= i < |ra| && ra[i] == rb[0];
    var j :| 0 <= j < |rb| && rb[j] == ra[0];
    if j > 0 {
      assert LessEq(rb[0].0, rb[j].0);
    } else {
      LessEqReflexive(ra[0].0);
    }
    if i > 0 {
      assert LessEq(ra[0].0, ra[i].0);
      LessEqAntisymmetric(ra[0].0, rb[0].0);
      assert false;
    }
  }

  lemma SortedTail<V>(entries: seq<(string, V)>)
    requires SortedByKey(entries) && entries != []
    ensures SortedByKey(entries[1..])
  {
    var t := entries[1..];
    forall i, j | 0 <= i < j < |t| ensures LessEq(t[i].0, t[j].0) {
      assert t[i] == entries[i + 1] && t[j] == entries[j + 1];
    }
  }

  lemma DistinctTail<V>(entries: seq<(string, V)>)
    requires DistinctKeys(entries) && entries != []
    ensures DistinctKeys(entries[1..])
  {
    var t := entries[1..];
    forall i, j | 0 <= i < j < |t| ensures t[i].0 != t[j].0 {
      assert t[i] == entries[i + 1] && t[j] == entries[j + 1];
    }
  }

  lemma {:induction false} SortedSameElementsEqual<V>(ra: seq<(string, V)>, rb: seq<(string, V)>)
    requires SortedByKey(ra) && SortedByKey(rb)
    requires multiset(ra) == multiset(rb)
    requires DistinctKeys(ra)
    ensures ra == rb
    decreases |ra|
  {
    if ra == [] {
      assert |multiset(rb)| == 0;
    } else {
      SortedHeadsAgree(ra, rb);
      var ta, tb := ra[1..], rb[1..];
      assert ra == [ra[0]] + ta;
      assert rb == [rb[0]] + tb;
      assert multiset(ta) == multiset(ra) - multiset{ra[0]};
      assert multiset(tb) == multiset(rb) - multiset{rb[0]};
      SortedTail(ra);
      SortedTail(rb);
      DistinctTail(ra);
      SortedSameElementsEqual(ta, tb);
    }
  }

  lemma OtherOccurrence<T>(s: seq<T>, i: nat)
    requires i < |s| && multiset(s)[s[i]] >= 2
    ensures exists j :: 0 <= j < |s| && j != i && s[j] == s[i]
  {
    assert s == s[..i] + [s[i]] + s[i + 1..];
    assert multiset(s) == multiset(s[..i]) + multiset{s[i]} + multiset(s[i + 1..]);
    if s[i] in s[..i] {
      var j :| 0 <= j < i && s[..i][j] == s[i];
      assert s[j] == s[i];
    } else {
      assert s[i] in multiset(s[i + 1..]);
      var j :| 0 <= j < |s[i + 1..]| && s[i + 1..][j] == s[i];
      assert s[i + 1 + j] == s[i];
    }
  }

  /** Listings holding the same pairs agree on whether their keys are distinct. */
  lemma DistinctKeysTransfer<V>(a: seq<(string, V)>, b: seq<(string, V)>)
    requires multiset(a) == multiset(b) && DistinctKeys(a)
    ensures DistinctKeys(b)
  {
    forall i, j | 0 <= i < j < |b| ensures b[i].0 != b[j].0 {
      assert b[i] in multiset(a);
      var i' :| 0 <= i' < |a| && a[i'] == b[i];
      assert b[j] in multiset(a);
      var j' :| 0 <= j' < |a| && a[j'] == b[j];
      if i' == j' {
        assert b == b[..i] + [b[i]] + b[i + 1..j] + [b[j]] + b[j + 1..];
        assert multiset(b)[b[i]] >= 2;
        OtherOccurrence(a, i');
        assert false;
      }
    }
  }

  /**
   * The keys a JavaScript object treats as array indices: canonical decimal
   * numerals below 2^32 - 1. Listing an object with `for…in` gives these keys
   * first, in ascending numeric order, and then the other keys in the order
   * they were added.
   */
  predicate IsIndexKey(k: string)
  {
    k != [] && AllDigits(k) && (k[0] != '0' || |k| == 1) && DigitsValue(k) < 4294967295
  }

  function IndexValue(k: string): nat
  {
    if AllDigits(k) then DigitsValue(k) else 0
  }

  /** The pairs whose keys are array indices (`want`) or are not (`!want`), in their order. */
  function IndexPairs<V>(entries: seq<(string, V)>, want: bool): (r: seq<(string, V)>)
    ensures forall i :: 0 <= i < |r| ==> IsIndexKey(r[i].0) == want
    ensures forall i :: 0 <= i < |r| ==> r[i] in entries
  {
    if entries == [] then []
    else
      var rest := IndexPairs(entries[1..], want);
      assert forall i :: 0 <= i < |rest| ==> rest[i] in entries by {
        forall i | 0 <= i < |rest| ensures rest[i] in entries {
          var k :| 0 <= k < |entries[1..]| && entries[1..][k] == rest[i];
          assert entries[k + 1] == rest[i];
        }
      }
      (if IsIndexKey(entries[0].0) == want then [entries[0]] else []) + rest
  }

  /** Splitting a listing into index keys and other keys loses and adds nothing. */
  lemma {:induction false} IndexPairsPartition<V>(entries: seq<(string, V)>)
    ensures multiset(IndexPairs(entries, true)) + multiset(IndexPairs(entries, false)) == multiset(entries)
  {
    if entries != [] {
      IndexPairsPartition(entries[1..]);
      assert entries == [entries[0]] + entries[1..];
    }
  }

  /** Keeping some of the pairs of a listing ordered by key leaves it ordered by key. */
  lemma {:induction false} IndexPairsSorted<V>(entries: seq<(string, V)>, want: bool)
    requires SortedByKey(entries)
    ensures SortedByKey(IndexPairs(entries, want))
  {
    if entries != [] {
      var rest := IndexPairs(entries[1..], want);
      IndexPairsSorted(entries[1..], want);
      if IsIndexKey(entries[0].0) == want {
        var r := [entries[0]] + rest;
        forall i, j | 0 <= i < j < |r| ensures LessEq(r[i].0, r[j].0) {
          if i == 0 {
            var k :| 0 <= k < |entries[1..]| && entries[1..][k] == rest[j - 1];
            assert entries[k + 1] == r[j];
          } else {
            assert r[i] == rest[i - 1] && r[j] == rest[j - 1];
          }
        }
      }
    }
  }

  predicate SortedByIndex<V>(entries: seq<(string, V)>)
  {
    forall i, j :: 0 <= i < j < |entries| ==> IndexValue(entries[i].0) <= IndexValue(entries[j].0)
  }

  function InsertByIndex<V>(e: (string, V), sorted: seq<(string, V)>): seq<(string, V)>
  {
    if sorted == [] || IndexValue(e.0) <= IndexValue(sorted[0].0) then [e] + sorted
    else [sorted[0]] + InsertByIndex(e, sorted[1..])
  }

  /** A pair no larger than the first of a sorted listing can go in front of it. */
  lemma PrependByIndex<V>(e: (string, V), sorted: seq<(string, V)>)
    requires SortedByIndex(sorted)
    requires sorted == [] || IndexValue(e.0) <= IndexValue(sorted[0].0)
    ensures SortedByIndex([e] + sorted)
  {
    var r := [e] + sorted;
    forall i, j | 0 <= i < j < |r| ensures IndexValue(r[i].0) <= IndexValue(r[j].0) {
      if i > 0 {
        assert r[i] == sorted[i - 1] && r[j] == sorted[j - 1];
      } else if j > 1 {
        assert r[j] == sorted[j - 1];
        assert IndexValue(sorted[0].0) <= IndexValue(sorted[j - 1].0);
      }
    }
  }

  lemma {:induction false} InsertByIndexSorted<V>(e: (string, V), sorted: seq<(string, V)>)
    requires SortedByIndex(sorted)
    ensures SortedByIndex(InsertByIndex(e, sorted))
    ensures multiset(InsertByIndex(e, sorted)) == multiset(sorted) + multiset{e}
  {
    var r := InsertByIndex(e, sorted);
    if sorted == [] || IndexValue(e.0) <= IndexValue(sorted[0].0) {
      PrependByIndex(e, sorted);
    } else {
      var rest := InsertByIndex(e, sorted[1..]);
      InsertByIndexSorted(e, sorted[1..]);
      assert sorted == [sorted[0]] + sorted[1..];
      assert rest[0] == e || rest[0] == sorted[1];
      assert r == [sorted[0]] + rest;
      PrependByIndex(sorted[0], rest);
    }
  }

  /** The index keys in ascending numeric order. */
  function SortByIndex<V>(entries: seq<(string, V)>): (r: seq<(string, V)>)
    ensures SortedByIndex(r)
    ensures multiset(r) == multiset(entries)
  {
    if entries == [] then []
    else
      var rest := SortByIndex(entries[1..]);
      InsertByIndexSorted(entries[0], rest);
      assert entries == [entries[0]] + entries[1..];
      InsertByIndex(entries[0], rest)
  }

  /**
   * The order in which `for…in` lists an object that was built by adding the
   * pairs of `entries` in turn: index keys first, ascending by value, then the
   * other keys in the order they were added.
   */
  function ForInOrder<V>(entries: seq<(string, V)>): (r: seq<(string, V)>)
    ensures multiset(r) == multiset(entries)
    ensures forall i :: 0 <= i < |r| ==> (IsIndexKey(r[i].0) <==> i < |IndexPairs(entries, true)|)
  {
    var front, back := SortByIndex(IndexPairs(entries, true)), IndexPairs(entries, false);
    IndexPairsPartition(entries);
    assert forall i :: 0 <= i < |front| ==> IsIndexKey(front[i].0) by {
      forall i | 0 <= i < |front| ensures IsIndexKey(front[i].0) {
        assert front[i] in multiset(IndexPairs(entries, true));
        var k :| 0 <= k < |IndexPairs(entries, true)| && IndexPairs(entries, true)[k] == front[i];
      }
    }
    assert |front| == |IndexPairs(entries, true)| by {
      assert |multiset(front)| == |multiset(IndexPairs(entries, true))|;
    }
    front + back
  }

  /**
   * How the callers of `sortObjectProperties` see its result when they list it
   * with `for…in`: the same pairs, the index keys first in ascending numeric
   * order, then every other key in ascending string order.
   */
  lemma SortedObjectListing<V>(entries: seq<(string, V)>)
    ensures var sorted := SortObjectProperties(entries);
      var r, n := ForInOrder(sorted), |IndexPairs(sorted, true)|;
      && multiset(r) == multiset(entries)
      && n <= |r|
      && (forall i :: 0 <= i < |r| ==> (IsIndexKey(r[i].0) <==> i < n))
      && SortedByIndex(r[..n])
      && SortedByKey(r[n..])
  {
    var sorted := SortObjectProperties(entries);
    var r, n := ForInOrder(sorted), |IndexPairs(sorted, true)|;
    var front := SortByIndex(IndexPairs(sorted, true));
    assert |multiset(front)| == n;
    assert r[..n] == front;
    assert r[n..] == IndexPairs(sorted, false);
    IndexPairsSorted(sorted, false);
  }

  /** `renderSignature`, with the parameter names that `introspect` would report given explicitly. */
  function RenderSignature(name: string, params: seq<string>): (r: string)
    ensures |r| >= |name| + 2 && r[..|name|] == name
  {
    if |params| > 0 then name + "( " + Join(params, ", ") + " )" else name + "()"
  }

  /** Each parameter after the first as it stands after the comma in the rendered list. */
  function Spaced(ps: seq<string>): seq<string>
  {
    if ps == [] then [] else [" " + ps[0]] + Spaced(ps[1..])
  }

  function Unspaced(ps: seq<string>): seq<string>
  {
    if ps == [] then [] else [if ps[0] != [] then ps[0][1..] else ps[0]] + Unspaced(ps[1..])
  }

  /** Reads the parameter list back out of a rendered signature of command `name`. */
  function SignatureParameters(sig: string, name: string): seq<string>
  {
    if sig == name + "()" || |sig| < |name| + 4 then []
    else
      var pieces := Split(sig[|name| + 2..|sig| - 2], ',');
      [pieces[0]] + Unspaced(pieces[1..])
  }

  lemma {:induction false} JoinCommaSpace(ps: seq<string>)
    requires |ps| >= 1
    ensures Join(ps, ", ") == Join([ps[0]] + Spaced(ps[1..]), ",")
    ensures |Spaced(ps[1..])| == |ps| - 1
    ensures forall k :: 0 <= k < |ps| - 1 ==> Spaced(ps[1..])[k] == " " + ps[k + 1]
  {
    if |ps| > 1 {
      JoinCommaSpace(ps[1..]);
      assert ps[1..][1..] == ps[2..];
      var sp := Spaced(ps[1..]);
      assert sp == [" " + ps[1]] + Spaced(ps[2..]);
      calc {
        Join([ps[0]] + sp, ",");
        ps[0] + "," + Join(sp, ",");
        { assert sp[1..] == Spaced(ps[2..]); }
        ps[0] + "," + (if |sp| == 1 then sp[0] else sp[0] + "," + Join(Spaced(ps[2..]), ","));
        { assert Join(ps[1..], ", ") == Join([ps[1]] + Spaced(ps[2..]), ","); }
        ps[0] + ", " + Join(ps[1..], ", ");
      }
    }
  }

  lemma {:induction false} UnspacedSpaced(ps: seq<string>)
    ensures Unspaced(Spaced(ps)) == ps
  {
    if ps != [] {
      assert (" " + ps[0])[1..] == ps[0];
      UnspacedSpaced(ps[1..]);
    }
  }

  /**
   * The rendered signature names the command first and lists exactly the
   * declared parameters, in order, when no parameter name holds a comma.
   */
  lemma RenderedSignatureParameters(name: string, params: seq<string>)
    requires forall k :: 0 <= k < |params| ==> ',' !in params[k]
    ensures SignatureParameters(RenderSignature(name, params), name) == params
  {
    var sig := RenderSignature(name, params);
    if |params| > 0 {
      JoinCommaSpace(params);
      var pieces := [params[0]] + Spaced(params[1..]);
      forall k | 0 <= k < |pieces| ensures ',' !in pieces[k] {
        if k > 0 {
          assert pieces[k] == " " + params[k];
        }
      }
      SplitJoin(pieces, ',');
      assert sig[|name| + 2..|sig| - 2] == Join(params, ", ");
      assert sig != name + "()" by {
        assert |sig| != |name + "()"|;
      }
      assert pieces[1..] == Spaced(params[1..]);
      UnspacedSpaced(params[1..]);
      assert params == [params[0]] + params[1..];
    }
  }

  /**
   * The position of the first match of `/\S{1}\:/` at or after `from`: a
   * non-whitespace character followed by a colon.
   */
  function DriveTokenFrom(p: string, from: nat): (r: Option<nat>)
    requires from <= |p|
    ensures r.Some? ==> from <= r.value && r.value + 1 < |p| && !IsSpace(p[r.value]) && p[r.value + 1] == ':'
    ensures forall k :: from <= k && k + 1 < |p| && (r.None? || k < r.value) ==> IsSpace(p[k]) || p[k + 1] != ':'
    decreases |p| - from
  {
    if from + 1 >= |p| then None
    else if !IsSpace(p[from]) && p[from + 1] == ':' then Some(from)
    else DriveTokenFrom(p, from + 1)
  }

  function DriveToken(p: string): Option<nat>
  {
    DriveTokenFrom(p, 0)
  }

  /** `p.replace(/\S{1}\:/, '')`: the first drive token taken out. */
  function RemoveDriveToken(p: string): (r: string)
    ensures DriveToken(p).None? ==> r == p
    ensures DriveToken(p).Some? ==> var k := DriveToken(p).value;
      |r| == |p| - 2 && r[..k] + p[k..k + 2] + r[k..] == p
  {
    match DriveToken(p)
    case None => p
    case Some(k) => p[..k] + p[k + 2..]
  }

  /** `createTerminalExecutionPrefix`, with `os.platform()` passed in. */
  function CreateTerminalExecutionPrefix(path: string, title: string, platform: string): (r: Result<string>)
    ensures r.Err? <==> platform != "win32"
    ensures r.Err? ==> r.message == Output.ThrowError("Currently only executes on Windows operating systems.")
    ensures r.Ok? ==> var head := "start \"" + title + "\" cmd /k \"";
      |r.value| >= |head| && r.value[..|head|] == head
      && (DriveToken(path).Some? ==>
            var k := DriveToken(path).value;
            r.value[|head|..] == path[k..k + 2] + " & cd " + RemoveDriveToken(path))
      && (DriveToken(path).None? ==> r.value[|head|..] == "cd " + path)
  {
    if platform == "win32" then
      var head := "start \"" + title + "\" cmd /k \"";
      var tail := match DriveToken(path)
        case Some(k) => path[k..k + 2] + " & cd " + RemoveDriveToken(path)
        case None => "cd " + path;
      assert (head + tail)[..|head|] == head && (head + tail)[|head|..] == tail;
      Ok(head + tail)
    else
      Err(Output.ThrowError("Currently only executes on Windows operating systems."))
  }

  /**
   * A path that starts with a drive token: the terminal first switches to that
   * drive, then changes to the rest of the path ("C:\\filePath" gives
   * `C: & cd \\filePath`).
   */
  lemma TerminalPrefixSwitchesDrive(drive: char, rest: string, title: string)
    requires !IsSpace(drive)
    ensures CreateTerminalExecutionPrefix([drive, ':'] + rest, title, "win32")
            == Ok("start \"" + title + "\" cmd /k \"" + [drive, ':'] + " & cd " + rest)
  {
    var p := [drive, ':'] + rest;
    assert DriveToken(p) == Some(0);
    assert p[0..2] == [drive, ':'] && p[..0] + p[2..] == rest;
    var head := "start \"" + title + "\" cmd /k \"";
    assert head + ([drive, ':'] + " & cd " + rest) == head + [drive, ':'] + " & cd " + rest;
  }

  /** A path without any colon (a network path) is changed to directly. */
  lemma TerminalPrefixWithoutDrive(path: string, title: string)
    requires ':' !in path
    ensures CreateTerminalExecutionPrefix(path, title, "win32")
            == Ok("start \"" + title + "\" cmd /k \"cd " + path)
  {
    assert DriveToken(path) == None;
    var head := "start \"" + title + "\" cmd /k \"";
    assert head + ("cd " + path) == "start \"" + title + "\" cmd /k \"cd " + path;
  }
}
