/**
 * The in-place edits the alias commands make to a JSON object used as a
 * dictionary and to the arrays stored in it: the copy-then-delete of a key,
 * `indexOf` and a one-element `splice`.
 */
module Tables {

  /**
   * `m[to] = m[from]; delete m[from];` as the rename commands write it: the
   * copy comes first, so when `from == to` the delete removes the key.
   */
  function MoveKey<V>(m: map<string, V>, from: string, to: string): (r: map<string, V>)
    requires from in m
    ensures r.Keys == (m.Keys + {to}) - {from}
    ensures from != to ==> r[to] == m[from]
  {
    m[to := m[from]] - {from}
  }

  /** Renaming to a different name moves the value and leaves every other key alone. */
  lemma MoveKeyMoves<V>(m: map<string, V>, from: string, to: string)
    requires from in m && from != to
    ensures to in MoveKey(m, from, to) && MoveKey(m, from, to)[to] == m[from]
    ensures from !in MoveKey(m, from, to)
    ensures forall k :: k != from && k != to ==> (k in MoveKey(m, from, to) <==> k in m)
    ensures forall k :: k != from && k != to && k in m ==> MoveKey(m, from, to)[k] == m[k]
  {
  }

  /** Renaming a key to itself deletes it: the value is gone afterwards. */
  lemma MoveKeyToItself<V>(m: map<string, V>, k: string)
    requires k in m
    ensures MoveKey(m, k, k) == m - {k}
    ensures k !in MoveKey(m, k, k)
    ensures |MoveKey(m, k, k).Keys| == |m.Keys| - 1
  {
    assert MoveKey(m, k, k).Keys == m.Keys - {k};
  }

  /** Renaming to a free name and back restores the table. */
  lemma MoveKeyBack<V>(m: map<string, V>, from: string, to: string)
    requires from in m && to !in m
    ensures to in MoveKey(m, from, to)
    ensures MoveKey(MoveKey(m, from, to), to, from) == m
  {
    var once := MoveKey(m, from, to);
    var twice := MoveKey(once, to, from);
    assert twice.Keys == m.Keys;
    assert forall k :: k in m ==> twice[k] == m[k];
  }

  /** `xs.indexOf(x)`: the first position holding `x`, or -1. */
  function IndexOf<T(==)>(xs: seq<T>, x: T): (r: int)
    ensures -1 <= r < |xs|
    ensures r == -1 <==> x !in xs
    ensures r >= 0 ==> xs[r] == x && x !in xs[..r]
  {
    if xs == [] then -1
    else if xs[0] == x then 0
    else
      var i := IndexOf(xs[1..], x);
      assert xs[1..][..if i < 0 then 0 else i] == xs[1..if i < 0 then 1 else i + 1];
      if i == -1 then -1 else i + 1
  }

  /** `xs.splice(i, 1)`: the element at `i` taken out. */
  function RemoveAt<T>(xs: seq<T>, i: nat): (r: seq<T>)
    requires i < |xs|
    ensures |r| == |xs| - 1
    ensures forall k :: 0 <= k < i ==> r[k] == xs[k]
    ensures forall k :: i <= k < |r| ==> r[k] == xs[k + 1]
  {
    xs[..i] + xs[i + 1..]
  }

  /** Splicing out an element removes exactly one copy of it. */
  lemma RemoveAtMultiset<T>(xs: seq<T>, i: nat)
    requires i < |xs|
    ensures multiset(RemoveAt(xs, i)) == multiset(xs) - multiset{xs[i]}
  {
    assert xs == xs[..i] + [xs[i]] + xs[i + 1..];
  }

  /** Appending a new element and splicing out its first occurrence gives the list back. */
  lemma AppendThenRemove<T>(xs: seq<T>, x: T)
    requires x !in xs
    ensures IndexOf(xs + [x], x) == |xs|
    ensures RemoveAt(xs + [x], IndexOf(xs + [x], x)) == xs
  {
    var ys := xs + [x];
    assert ys[|xs|] == x;
    assert ys[..|xs|] == xs;
    assert forall k :: 0 <= k < |xs| ==> ys[k] == xs[k] && ys[k] != x;
  }

  /** Replacing the first occurrence of `x` by `y` and then the first `y` by `x` gives the list back, when `y` was absent. */
  lemma ReplaceBack<T>(xs: seq<T>, x: T, y: T)
    requires x in xs && y !in xs
    ensures var i := IndexOf(xs, x);
      IndexOf(xs[i := y], y) == i && xs[i := y][i := x] == xs
  {
    var i := IndexOf(xs, x);
    var ys := xs[i := y];
    assert ys[i] == y;
    assert forall k :: 0 <= k < i ==> ys[k] == xs[k] && ys[k] != y;
  }
}
