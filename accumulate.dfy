/**
  How the parallel steps of the scale test collect what their goroutines
  return: every worker appends its own list to a shared package-level list,
  and the workers finish in some order. Workers are numbered in the order
  they are started; the completion order is a permutation of those numbers.
 */
module Accumulate {
  import opened Partition

  /** The worker numbers 0 .. k-1 in the order the workers are started. */
  function Range(k: nat): seq<nat>
  {
    seq(k, i => i)
  }

  /** The list worker w contributes; a number with no worker contributes nothing. */
  function PieceOf(w: nat, pieces: seq<seq<string>>): seq<string>
  {
    if w < |pieces| then pieces[w] else []
  }

  /** The shared list after the workers in ws have appended their lists, in that order. */
  function Gathered(ws: seq<nat>, pieces: seq<seq<string>>): seq<string>
  {
    if ws == [] then [] else Gathered(ws[..|ws| - 1], pieces) + PieceOf(ws[|ws| - 1], pieces)
  }

  /** Workers finishing in the order they were started append the lists in order. */
  lemma {:induction false} GatheredPrefixInOrder(pieces: seq<seq<string>>, k: nat)
    requires k <= |pieces|
    ensures Gathered(Range(k), pieces) == Flatten(pieces[..k])
  {
    if k > 0 {
      assert Range(k)[..k - 1] == Range(k - 1);
      assert pieces[..k][..k - 1] == pieces[..k - 1];
      GatheredPrefixInOrder(pieces, k - 1);
    }
  }

  /** Gathering two runs of workers one after the other appends their results. */
  lemma {:induction false} GatheredAppend(a: seq<nat>, b: seq<nat>, pieces: seq<seq<string>>)
    ensures Gathered(a + b, pieces) == Gathered(a, pieces) + Gathered(b, pieces)
    decreases |b|
  {
    if b == [] {
      assert a + b == a;
    } else {
      var front := b[..|b| - 1];
      GatheredAppend(a, front, pieces);
      assert (a + b)[..|a + b| - 1] == a + front;
      assert (a + b)[|a + b| - 1] == b[|b| - 1];
    }
  }

  /** Taking one worker out of a completion order removes exactly its list from the result, as a multiset. */
  lemma GatheredRemove(ws: seq<nat>, i: nat, pieces: seq<seq<string>>)
    requires i < |ws|
    ensures multiset(Gathered(ws, pieces))
            == multiset(Gathered(ws[..i] + ws[i + 1..], pieces)) + multiset(PieceOf(ws[i], pieces))
  {
    var before := ws[..i];
    var after := ws[i + 1..];
    assert ws == (before + [ws[i]]) + after;
    assert Gathered([ws[i]], pieces) == PieceOf(ws[i], pieces) by {
      assert [ws[i]][..0] == [];
    }
    GatheredAppend(before + [ws[i]], after, pieces);
    GatheredAppend(before, [ws[i]], pieces);
    GatheredAppend(before, after, pieces);
  }

  /** The result of a completion order does not depend on the order, up to permutation. */
  lemma {:induction false} GatheredPermutation(a: seq<nat>, b: seq<nat>, pieces: seq<seq<string>>)
    requires multiset(a) == multiset(b)
    ensures multiset(Gathered(a, pieces)) == multiset(Gathered(b, pieces))
    decreases |a|
  {
    if a == [] {
      assert |multiset(b)| == 0;
    } else {
      var x := a[|a| - 1];
      assert a == a[..|a| - 1] + [x];
      assert x in multiset(b);
      var i :| 0 <= i < |b| && b[i] == x;
      assert b == b[..i] + [x] + b[i + 1..];
      var rest := b[..i] + b[i + 1..];
      assert multiset(b) == multiset(rest) + multiset{x};
      assert multiset(a) == multiset(a[..|a| - 1]) + multiset{x};
      assert multiset(rest) == multiset(b) - multiset{x};
      assert multiset(a[..|a| - 1]) == multiset(a) - multiset{x};
      GatheredPermutation(a[..|a| - 1], rest, pieces);
      GatheredRemove(b, i, pieces);
    }
  }

  /** One more worker finishing appends its list. */
  lemma GatheredSnoc(ws: seq<nat>, k: nat, pieces: seq<seq<string>>)
    requires k < |ws|
    ensures Gathered(ws[..k + 1], pieces) == Gathered(ws[..k], pieces) + PieceOf(ws[k], pieces)
  {
    assert ws[..k + 1][..k] == ws[..k];
  }

  /** Some worker among those in ws reported an error. */
  predicate AnyFailed(ws: seq<nat>, failedAt: seq<bool>)
  {
    exists j :: 0 <= j < |ws| && ws[j] < |failedAt| && failedAt[ws[j]]
  }

  /** One more worker finishing adds its own error, if any. */
  lemma AnyFailedSnoc(ws: seq<nat>, k: nat, failedAt: seq<bool>)
    requires k < |ws|
    ensures AnyFailed(ws[..k + 1], failedAt) <==> AnyFailed(ws[..k], failedAt) || (ws[k] < |failedAt| && failedAt[ws[k]])
  {
    var next := ws[..k + 1];
    if AnyFailed(next, failedAt) && !(ws[k] < |failedAt| && failedAt[ws[k]]) {
      var j :| 0 <= j < |next| && next[j] < |failedAt| && failedAt[next[j]];
      assert j < k && ws[..k][j] == next[j];
    }
    if AnyFailed(ws[..k], failedAt) {
      var j :| 0 <= j < k && ws[..k][j] < |failedAt| && failedAt[ws[..k][j]];
      assert next[j] == ws[..k][j];
    }
    if ws[k] < |failedAt| && failedAt[ws[k]] {
      assert next[k] == ws[k];
    }
  }

  /** Two families of lists with the same lengths gather to lists of the same length. */
  lemma {:induction false} GatheredSameLength(ws: seq<nat>, p: seq<seq<string>>, q: seq<seq<string>>)
    requires |p| == |q|
    requires forall w :: 0 <= w < |p| ==> |p[w]| == |q[w]|
    ensures |Gathered(ws, p)| == |Gathered(ws, q)|
  {
    if ws != [] {
      GatheredSameLength(ws[..|ws| - 1], p, q);
    }
  }

  /** A completion order of g workers: every worker finishes exactly once. */
  predicate IsCompletionOrder(order: seq<nat>, g: nat)
  {
    multiset(order) == multiset(Range(g))
  }

  /** A completion order has one entry per worker, each a worker number. */
  lemma CompletionOrderBounds(order: seq<nat>, g: nat)
    requires IsCompletionOrder(order, g)
    ensures |order| == g
    ensures forall j :: 0 <= j < |order| ==> order[j] < g
  {
    assert |multiset(order)| == |multiset(Range(g))|;
    forall j | 0 <= j < |order| ensures order[j] < g {
      assert order[j] in multiset(Range(g));
    }
  }

  /** With per-worker lists of the planned block sizes, the lists in start order hold n names in all. */
  lemma {:induction false} FlattenBlockSizes(pieces: seq<seq<string>>, n: nat, g: nat, k: nat)
    requires g > 0 && |pieces| == g && k <= g
    requires forall w :: 0 <= w < g ==> |pieces[w]| == BlockSize(n, g, w)
    ensures |Flatten(pieces[..k])| == StartOf(n, g, k)
  {
    if k > 0 {
      assert pieces[..k][..k - 1] == pieces[..k - 1];
      FlattenBlockSizes(pieces, n, g, k - 1);
    }
  }

  /**
    When every worker appends its planned number of names, the shared list
    ends with exactly n names whatever order the workers finish in, and it
    holds the same names as appending them in start order.
   */
  lemma ParallelAppendCount(pieces: seq<seq<string>>, n: nat, g: nat, order: seq<nat>)
    requires g > 0 && |pieces| == g
    requires forall w :: 0 <= w < g ==> |pieces[w]| == BlockSize(n, g, w)
    requires IsCompletionOrder(order, g)
    ensures multiset(Gathered(order, pieces)) == multiset(Flatten(pieces))
    ensures |Gathered(order, pieces)| == n
  {
    GatheredPermutation(order, Range(g), pieces);
    GatheredPrefixInOrder(pieces, g);
    assert pieces[..g] == pieces;
    FlattenBlockSizes(pieces, n, g, g);
    BlocksCoverTotal(n, g);
    assert |multiset(Gathered(order, pieces))| == |multiset(Flatten(pieces))|;
  }

  /** If a worker with a non-empty block appends nothing and none appends more than planned, the list is short. */
  lemma ParallelAppendShort(pieces: seq<seq<string>>, n: nat, g: nat, order: seq<nat>, failed: nat)
    requires g > 0 && |pieces| == g
    requires forall w :: 0 <= w < g ==> |pieces[w]| <= BlockSize(n, g, w)
    requires failed < g && BlockSize(n, g, failed) > 0 && pieces[failed] == []
    requires IsCompletionOrder(order, g)
    ensures |Gathered(order, pieces)| < n
  {
    GatheredPermutation(order, Range(g), pieces);
    GatheredPrefixInOrder(pieces, g);
    assert pieces[..g] == pieces;
    FlattenShort(pieces, n, g, failed, g);
    BlocksCoverTotal(n, g);
    assert |multiset(Gathered(order, pieces))| == |multiset(Flatten(pieces))|;
  }

  /** The in-order form of ParallelAppendShort, for the first k workers. */
  lemma {:induction false} FlattenShort(pieces: seq<seq<string>>, n: nat, g: nat, failed: nat, k: nat)
    requires g > 0 && |pieces| == g && k <= g
    requires forall w :: 0 <= w < g ==> |pieces[w]| <= BlockSize(n, g, w)
    requires failed < g && BlockSize(n, g, failed) > 0 && pieces[failed] == []
    ensures |Flatten(pieces[..k])| <= StartOf(n, g, k)
    ensures failed < k ==> |Flatten(pieces[..k])| < StartOf(n, g, k)
  {
    if k > 0 {
      assert pieces[..k][..k - 1] == pieces[..k - 1];
      FlattenShort(pieces, n, g, failed, k - 1);
    }
  }
}
