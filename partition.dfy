/**
  How CreateIngressesParallel and DeleteIngressesParallel split n ingresses
  across g goroutines: every worker gets n / g items and the first n % g
  workers get one more; nextStartInd accumulates the sizes handed out so far.
 */
module Partition {
  import opened Wrappers

  /** One worker's share: `size` items starting at index `start`. */
  datatype Block = Block(size: nat, start: nat)

  /** The number of items worker i (counted from 0) receives. */
  function BlockSize(n: nat, g: nat, i: nat): nat
    requires g > 0
  {
    if i + 1 <= n % g then n / g + 1 else n / g
  }

  /** The value of nextStartInd when worker i is started. */
  function StartOf(n: nat, g: nat, i: nat): nat
    requires g > 0
  {
    if i == 0 then 0 else StartOf(n, g, i - 1) + BlockSize(n, g, i - 1)
  }

  /** The sum of the sizes of a list of blocks. */
  function TotalSize(blocks: seq<Block>): nat
  {
    if blocks == [] then 0 else TotalSize(blocks[..|blocks| - 1]) + blocks[|blocks| - 1].size
  }

  /** The lists of a list of lists, joined in order. */
  function Flatten(parts: seq<seq<string>>): seq<string>
  {
    if parts == [] then [] else Flatten(parts[..|parts| - 1]) + parts[|parts| - 1]
  }

  /** nextStartInd in closed form: i full blocks plus one extra item per remainder worker seen. */
  lemma {:induction false} StartClosedForm(n: nat, g: nat, i: nat)
    requires 0 < g && i <= g
    ensures StartOf(n, g, i) == i * (n / g) + (if i <= n % g then i else n % g)
  {
    if i > 0 {
      StartClosedForm(n, g, i - 1);
      assert (i - 1) * (n / g) + n / g == i * (n / g);
    }
  }

  /** After the last worker nextStartInd equals n: the blocks hand out every item. */
  lemma BlocksCoverTotal(n: nat, g: nat)
    requires g > 0
    ensures StartOf(n, g, g) == n
  {
    StartClosedForm(n, g, g);
    assert g * (n / g) + n % g == n;
  }

  /** Start indices never decrease. */
  lemma {:induction false} StartMonotone(n: nat, g: nat, i: nat, j: nat)
    requires g > 0 && i <= j
    ensures StartOf(n, g, i) <= StartOf(n, g, j)
    decreases j
  {
    if i < j {
      StartMonotone(n, g, i, j - 1);
    }
  }

  /** Two different workers get disjoint index ranges. */
  lemma BlocksDisjoint(n: nat, g: nat, i: nat, j: nat)
    requires g > 0 && i < j
    ensures StartOf(n, g, i) + BlockSize(n, g, i) <= StartOf(n, g, j)
  {
    StartMonotone(n, g, i + 1, j);
  }

  /** Every index below n lies in the range of some worker. */
  lemma {:induction false} IndexCovered(n: nat, g: nat, k: nat, i: nat)
    requires 0 < g && i < g
    requires StartOf(n, g, i) <= k < n
    ensures exists w :: i <= w < g && StartOf(n, g, w) <= k < StartOf(n, g, w) + BlockSize(n, g, w)
    decreases g - i
  {
    if StartOf(n, g, i + 1) <= k {
      BlocksCoverTotal(n, g);
      if i + 1 == g {
        assert false;
      }
      IndexCovered(n, g, k, i + 1);
    }
  }

  /**
    The loop at lines 344-353 of CreateIngressesParallel (the same in its
    secure and multi-host branches): the (size, start) pair given to each worker.
   */
  method PlanBlocks(n: nat, g: nat) returns (blocks: seq<Block>)
    requires g > 0
    ensures |blocks| == g
    ensures forall i :: 0 <= i < g ==> blocks[i].size == n / g || blocks[i].size == n / g + 1
    ensures forall i :: 0 <= i < g ==> (blocks[i].size == n / g + 1 <==> i < n % g)
    ensures blocks[0].start == 0
    ensures forall i :: 0 <= i < g - 1 ==> blocks[i + 1].start == blocks[i].start + blocks[i].size
    ensures blocks[g - 1].start + blocks[g - 1].size == n
    ensures TotalSize(blocks) == n
    ensures forall i :: 0 <= i < g ==> blocks[i] == Block(BlockSize(n, g, i), StartOf(n, g, i))
  {
    var blockSize: nat := n / g;
    var remIng: nat := n % g;
    var nextStartInd := 0;
    blocks := [];
    for i := 0 to g
      invariant |blocks| == i
      invariant nextStartInd == StartOf(n, g, i)
      invariant TotalSize(blocks) == nextStartInd
      invariant forall k {:trigger blocks[k]} :: 0 <= k < i ==> blocks[k] == Block(BlockSize(n, g, k), StartOf(n, g, k))
    {
      ghost var before := blocks;
      if i + 1 <= remIng {
        blocks := blocks + [Block(blockSize + 1, nextStartInd)];
        nextStartInd := nextStartInd + blockSize + 1;
      } else {
        blocks := blocks + [Block(blockSize, nextStartInd)];
        nextStartInd := nextStartInd + blockSize;
      }
      assert blocks[i] == Block(BlockSize(n, g, i), StartOf(n, g, i));
      assert nextStartInd == StartOf(n, g, i + 1);
      assert blocks[..|blocks| - 1] == before;
    }
    BlockShape(n, g, blocks);
  }

  /** What the per-worker (size, start) pairs say about the split as a whole. */
  lemma BlockShape(n: nat, g: nat, blocks: seq<Block>)
    requires g > 0 && |blocks| == g
    requires forall i :: 0 <= i < g ==> blocks[i] == Block(BlockSize(n, g, i), StartOf(n, g, i))
    ensures forall i :: 0 <= i < g ==> blocks[i].size == n / g || blocks[i].size == n / g + 1
    ensures forall i :: 0 <= i < g ==> (blocks[i].size == n / g + 1 <==> i < n % g)
    ensures blocks[0].start == 0
    ensures forall i :: 0 <= i < g - 1 ==> blocks[i + 1].start == blocks[i].start + blocks[i].size
    ensures blocks[g - 1].start + blocks[g - 1].size == n
  {
    BlocksCoverTotal(n, g);
    assert StartOf(n, g, g) == StartOf(n, g, g - 1) + BlockSize(n, g, g - 1);
  }

  /** The slice ingressesCreated[start:start+size] handed to deleting worker w. */
  function DeletionSlice(created: seq<string>, n: nat, g: nat, w: nat): (slice: seq<string>)
    requires 0 < g && w < g && n <= |created|
    ensures |slice| == BlockSize(n, g, w)
  {
    BlocksCoverTotal(n, g);
    StartMonotone(n, g, w + 1, g);
    created[StartOf(n, g, w)..StartOf(n, g, w) + BlockSize(n, g, w)]
  }

  /** The slices of the first k deleting workers, in start order. */
  function DeletionSlices(created: seq<string>, n: nat, g: nat, k: nat): (slices: seq<seq<string>>)
    requires 0 < g && k <= g && n <= |created|
    ensures |slices| == k
  {
    if k == 0 then [] else DeletionSlices(created, n, g, k - 1) + [DeletionSlice(created, n, g, k - 1)]
  }

  /** Entry w of DeletionSlices is worker w's slice. */
  lemma {:induction false} DeletionSlicesAt(created: seq<string>, n: nat, g: nat, k: nat)
    requires 0 < g && k <= g && n <= |created|
    ensures forall w :: 0 <= w < k ==> DeletionSlices(created, n, g, k)[w] == DeletionSlice(created, n, g, w)
  {
    if k > 0 {
      DeletionSlicesAt(created, n, g, k - 1);
    }
  }

  /** The slices of the first k workers, joined in order, are the first StartOf(n, g, k) names. */
  lemma {:induction false} DeletionSlicesJoin(created: seq<string>, n: nat, g: nat, k: nat)
    requires 0 < g && k <= g && n <= |created|
    ensures StartOf(n, g, k) <= n
    ensures Flatten(DeletionSlices(created, n, g, k)) == created[..StartOf(n, g, k)]
  {
    BlocksCoverTotal(n, g);
    StartMonotone(n, g, k, g);
    if k > 0 {
      var from := StartOf(n, g, k - 1);
      var to := StartOf(n, g, k);
      var prev := DeletionSlices(created, n, g, k - 1);
      var last := DeletionSlice(created, n, g, k - 1);
      assert Flatten(prev) == created[..from] by {
        DeletionSlicesJoin(created, n, g, k - 1);
      }
      assert DeletionSlices(created, n, g, k) == prev + [last];
      assert Flatten(prev + [last]) == Flatten(prev) + last by {
        assert (prev + [last])[..k - 1] == prev;
      }
      assert created[..to] == created[..from] + last by {
        PrefixJoin(created, from, to);
      }
    }
  }

  /** A prefix of a list is a shorter prefix followed by the slice between them. */
  lemma PrefixJoin(s: seq<string>, i: nat, j: nat)
    requires i <= j <= |s|
    ensures s[..j] == s[..i] + s[i..j]
  {
  }

  /** Lists of lists with the same part lengths and the same concatenation are equal. */
  lemma {:induction false} FlattenDetermined(a: seq<seq<string>>, b: seq<seq<string>>)
    requires |a| == |b|
    requires forall i :: 0 <= i < |a| ==> |a[i]| == |b[i]|
    requires Flatten(a) == Flatten(b)
    ensures a == b
  {
    if a != [] {
      var last := |a| - 1;
      var fa := Flatten(a[..last]);
      var fb := Flatten(b[..last]);
      assert |fa| == |fb|;
      assert fa == Flatten(a)[..|fa|];
      assert fb == Flatten(b)[..|fb|];
      assert a[last] == Flatten(a)[|fa|..];
      assert b[last] == Flatten(b)[|fb|..];
      FlattenDetermined(a[..last], b[..last]);
      assert a == a[..last] + [a[last]];
      assert b == b[..last] + [b[last]];
    }
  }

  /**
    The loop at lines 403-412 of DeleteIngressesParallel: the slice of
    ingressesCreated each deleting worker receives. A slice past the end of
    the list is a Go runtime panic, returned here as None.
   */
  method DeletionBatches(created: seq<string>, n: nat, g: nat) returns (batches: Option<seq<seq<string>>>)
    requires g > 0
    ensures batches.Some? <==> n <= |created|
    ensures batches.Some? ==> |batches.value| == g
    ensures batches.Some? ==> forall i :: 0 <= i < g ==> |batches.value[i]| == BlockSize(n, g, i)
    ensures batches.Some? ==> forall i :: 0 <= i < g ==> batches.value[i] == DeletionSlice(created, n, g, i)
    ensures batches.Some? ==> Flatten(batches.value) == created[..n]
  {
    var blockSize: nat := n / g;
    var remIng: nat := n % g;
    var nextStartInd := 0;
    var parts: seq<seq<string>> := [];
    for i := 0 to g
      invariant |parts| == i
      invariant nextStartInd == StartOf(n, g, i) <= |created|
      invariant forall k :: 0 <= k < i ==> |parts[k]| == BlockSize(n, g, k)
      invariant Flatten(parts) == created[..nextStartInd]
    {
      var size := if i + 1 <= remIng then blockSize + 1 else blockSize;
      if nextStartInd + size > |created| {
        StartMonotone(n, g, i + 1, g);
        BlocksCoverTotal(n, g);
        return None;
      }
      var slice := created[nextStartInd..nextStartInd + size];
      assert created[..nextStartInd + size] == created[..nextStartInd] + slice;
      parts := parts + [slice];
      assert parts[..|parts| - 1] == parts[..i];
      nextStartInd := nextStartInd + size;
    }
    BlocksCoverTotal(n, g);
    DeletionSlicesJoin(created, n, g, g);
    DeletionSlicesAt(created, n, g, g);
    FlattenDetermined(parts, DeletionSlices(created, n, g, g));
    batches := Some(parts);
  }
}
