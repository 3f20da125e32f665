/**
 * lib/watchers.js: the module-level list of file watchers, appended to as
 * watchers are created and closed one by one, in registration order, when the
 * shell exits.
 */
module Watchers {

  /**
   * A watch object: what identifies it, whether `close()` has been called on
   * it, and whether its `close()` throws. The list holds objects with a
   * `close()` like `fs.FSWatcher`'s; the model records its effect in `closed`.
   */
  datatype Watcher = Watcher(name: string, closed: bool, closeThrows: bool)

  /** The position of the first watcher whose `close()` throws, or the length when none does. */
  function FirstThrowing(ws: seq<Watcher>): (r: nat)
    ensures r <= |ws|
    ensures r < |ws| ==> ws[r].closeThrows
    ensures forall i :: 0 <= i < r ==> !ws[i].closeThrows
  {
    if ws == [] then 0 else if ws[0].closeThrows then 0 else 1 + FirstThrowing(ws[1..])
  }

  /** A watcher after its `close()` has run to completion. */
  function Closed(w: Watcher): Watcher
  {
    w.(closed := true)
  }

  /**
   * The list after `close()` has completed on its first `n` watchers, the
   * others untouched.
   */
  function ClosedUpTo(ws: seq<Watcher>, n: nat): (r: seq<Watcher>)
    requires n <= |ws|
  {
    seq(|ws|, i requires 0 <= i < |ws| => if i < n then Closed(ws[i]) else ws[i])
  }

  /** The names of the watchers, in order: whom `close()` was called on. */
  function Names(ws: seq<Watcher>): (r: seq<string>)
    ensures |r| == |ws|
  {
    seq(|ws|, i requires 0 <= i < |ws| => ws[i].name)
  }

  /**
   * Closing keeps the list: same length, same watchers in the same order, and
   * every watcher before position `n` closed.
   */
  lemma ClosedUpToKeepsList(ws: seq<Watcher>, n: nat)
    requires n <= |ws|
    ensures |ClosedUpTo(ws, n)| == |ws|
    ensures Names(ClosedUpTo(ws, n)) == Names(ws)
    ensures forall i :: 0 <= i < n ==> ClosedUpTo(ws, n)[i].closed
    ensures forall i :: n <= i < |ws| ==> ClosedUpTo(ws, n)[i] == ws[i]
  {
  }

  /** When no `close()` throws, closing all leaves every watcher closed. */
  lemma {:induction false} NoThrowClosesAll(ws: seq<Watcher>)
    requires forall i :: 0 <= i < |ws| ==> !ws[i].closeThrows
    ensures FirstThrowing(ws) == |ws|
    ensures forall i :: 0 <= i < |ws| ==> ClosedUpTo(ws, FirstThrowing(ws))[i].closed
  {
    if ws != [] {
      NoThrowClosesAll(ws[1..]);
    }
  }

  /** The registry: the one `watchers` array of the module. */
  class Registry {
    var watchers: seq<Watcher>

    /** The module starts with an empty list. */
    constructor()
      ensures watchers == []
    {
      watchers := [];
    }

    /** `getWatchers`: the current list. */
    method GetWatchers() returns (ws: seq<Watcher>)
      ensures ws == watchers
    {
      ws := watchers;
    }

    /** `registerWatcher`: the watcher is pushed at the end, earlier entries kept. */
    method RegisterWatcher(watcher: Watcher)
      modifies this
      ensures watchers == old(watchers) + [watcher]
    {
      watchers := watchers + [watcher];
    }

    /**
     * `closeAllWatchers`: `close()` is called on each watcher in registration
     * order; nothing catches a throwing `close()`, so the first one that throws
     * ends the loop with an error and the later watchers are not called.
     * `called` lists the watchers `close()` was called on.
     */
    method CloseAllWatchers() returns (called: seq<string>, threw: bool)
      modifies this
      ensures var f := FirstThrowing(old(watchers));
        && threw == (f < |old(watchers)|)
        && watchers == ClosedUpTo(old(watchers), f)
        && called == Names(old(watchers)[..if threw then f + 1 else f])
    {
      ghost var ws := watchers;
      var i := 0;
      called := [];
      threw := false;
      while i < |watchers|
        invariant |watchers| == |ws| && 0 <= i <= |ws|
        invariant forall j :: 0 <= j < i ==> !ws[j].closeThrows
        invariant watchers == ClosedUpTo(ws, i)
        invariant called == Names(ws[..i])
      {
        called := called + [watchers[i].name];
        assert ws[..i + 1] == ws[..i] + [ws[i]];
        if watchers[i].closeThrows {
          threw := true;
          return;
        }
        watchers := watchers[i := Closed(watchers[i])];
        i := i + 1;
      }
    }
  }
}
