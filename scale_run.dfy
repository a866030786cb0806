/**
  The package-level state of tests/scaletest/scale_test.go and the four steps
  that change it: CreateIngressesParallel, DeleteIngressesParallel,
  CreateIngressesSerial and DeleteIngressesSerial, plus SetupForTesting.
  The lib calls that create and delete ingresses are passed in as functions;
  what the controller reports at poll j is observe(j).
 */
module ScaleRun {
  import opened Wrappers
  import opened Partition
  import opened Names
  import opened Verification
  import opened Polling
  import opened Accumulate

  /** What a lib create call returns: the ingresses and host names, and whether it reported an error. */
  datatype CreateResult = CreateResult(out: Accumulators, failed: bool)

  /** What lib.DeleteIngress returns: the deleted ingresses, and whether it reported an error. */
  datatype DeleteResult = DeleteResult(deleted: seq<string>, failed: bool)

  /** One of the lists a create call returns. */
  datatype Field = Ingresses | HostNames | SecureHostNames | InsecureHostNames

  function Select(acc: Accumulators, field: Field): seq<string>
  {
    match field
    case Ingresses => acc.created
    case HostNames => acc.hostNames
    case SecureHostNames => acc.secureHostNames
    case InsecureHostNames => acc.insecureHostNames
  }

  /** The create call each creating worker makes, with the (size, start) pair the partition gives it. */
  function Launched(create: (nat, nat) -> CreateResult, n: nat, g: nat): seq<CreateResult>
    requires g > 0
  {
    seq(g, w requires 0 <= w < g => create(BlockSize(n, g, w), StartOf(n, g, w)))
  }

  /**
    What each creating worker appends to one shared list: nothing when its
    create call failed (t.Fatalf ends that goroutine before the append).
   */
  function CreationPieces(calls: seq<CreateResult>, field: Field): seq<seq<string>>
  {
    seq(|calls|, w requires 0 <= w < |calls| => if calls[w].failed then [] else Select(calls[w].out, field))
  }

  /** The delete call each deleting worker makes on its slice of ingressesCreated. */
  function DeletionCalls(delete: seq<string> -> DeleteResult, created: seq<string>, n: nat, g: nat): seq<DeleteResult>
    requires g > 0 && n <= |created|
  {
    seq(g, w requires 0 <= w < g => delete(DeletionSlice(created, n, g, w)))
  }

  /** The delete call on each batch. */
  function CallsOn(delete: seq<string> -> DeleteResult, batches: seq<seq<string>>): seq<DeleteResult>
  {
    seq(|batches|, w requires 0 <= w < |batches| => delete(batches[w]))
  }

  /** What each deleting worker appends to ingressesDeleted. */
  function DeletionPieces(calls: seq<DeleteResult>): seq<seq<string>>
  {
    seq(|calls|, w requires 0 <= w < |calls| => if calls[w].failed then [] else calls[w].deleted)
  }

  /** Creating worker w appends the given list of its result, unless its call failed; a number with no worker appends nothing. */
  lemma CreationPieceOf(calls: seq<CreateResult>, field: Field, w: nat)
    ensures PieceOf(w, CreationPieces(calls, field))
            == if w < |calls| && !calls[w].failed then Select(calls[w].out, field) else []
  {
  }

  /** Deleting worker w appends what its call deleted, unless the call failed. */
  lemma DeletionWorkerResult(delete: seq<string> -> DeleteResult, batches: seq<seq<string>>, w: nat)
    requires w < |batches|
    ensures var r := delete(batches[w]);
      && PieceOf(w, DeletionPieces(CallsOn(delete, batches))) == (if r.failed then [] else r.deleted)
      && DeleteFailures(CallsOn(delete, batches))[w] == r.failed
  {
  }

  /** Which creating workers' calls reported an error. */
  function CreateFailures(calls: seq<CreateResult>): seq<bool>
  {
    seq(|calls|, w requires 0 <= w < |calls| => calls[w].failed)
  }

  /** Which deleting workers' calls reported an error. */
  function DeleteFailures(calls: seq<DeleteResult>): seq<bool>
  {
    seq(|calls|, w requires 0 <= w < |calls| => calls[w].failed)
  }

  /** One creating worker's append: its ingresses, then the host lists of the ingress type. */
  function AppendResult(kind: IngressKind, acc: Accumulators, result: CreateResult): Accumulators
  {
    if result.failed then acc
    else if kind == MultiHost then
      acc.(created := acc.created + result.out.created,
           secureHostNames := acc.secureHostNames + result.out.secureHostNames,
           insecureHostNames := acc.insecureHostNames + result.out.insecureHostNames)
    else
      acc.(created := acc.created + result.out.created, hostNames := acc.hostNames + result.out.hostNames)
  }

  /** The lists after the workers in ws have appended, in that order. */
  function AfterWorkers(kind: IngressKind, acc: Accumulators, ws: seq<nat>, calls: seq<CreateResult>): Accumulators
  {
    if ws == [] then acc
    else
      var prev := AfterWorkers(kind, acc, ws[..|ws| - 1], calls);
      var w := ws[|ws| - 1];
      if w < |calls| then AppendResult(kind, prev, calls[w]) else prev
  }

  /** One more creating worker finishing applies its append. */
  lemma AfterWorkersSnoc(kind: IngressKind, acc: Accumulators, ws: seq<nat>, k: nat, calls: seq<CreateResult>)
    requires k < |ws| && ws[k] < |calls|
    ensures AfterWorkers(kind, acc, ws[..k + 1], calls) == AppendResult(kind, AfterWorkers(kind, acc, ws[..k], calls), calls[ws[k]])
  {
    assert ws[..k + 1][..k] == ws[..k];
  }

  /** Whether a creating worker of this ingress type appends to the given list. */
  predicate Tracks(kind: IngressKind, field: Field)
  {
    match field
    case Ingresses => true
    case HostNames => kind != MultiHost
    case SecureHostNames => kind == MultiHost
    case InsecureHostNames => kind == MultiHost
  }

  /** Each list grows by the gathered lists of its field when the ingress type appends to it, and is kept otherwise. */
  lemma {:induction false} AfterWorkersField(kind: IngressKind, acc: Accumulators, ws: seq<nat>, calls: seq<CreateResult>, field: Field)
    ensures Select(AfterWorkers(kind, acc, ws, calls), field)
            == Select(acc, field) + (if Tracks(kind, field) then Gathered(ws, CreationPieces(calls, field)) else [])
  {
    if ws != [] {
      var init := ws[..|ws| - 1];
      var w := ws[|ws| - 1];
      AfterWorkersField(kind, acc, init, calls, field);
      var pieces := CreationPieces(calls, field);
      assert Gathered(ws, pieces) == Gathered(init, pieces) + PieceOf(w, pieces);
      CreationPieceOf(calls, field, w);
    }
  }

  /**
    The four lists after the workers in ws: ingress names always grow,
    ingressHostNames for plain and TLS ingresses, the two host lists for
    multi-host ones.
   */
  lemma AfterWorkersGathered(kind: IngressKind, acc: Accumulators, ws: seq<nat>, calls: seq<CreateResult>)
    ensures AfterWorkers(kind, acc, ws, calls) == Accumulators(
      acc.created + Gathered(ws, CreationPieces(calls, Ingresses)),
      acc.hostNames + (if kind != MultiHost then Gathered(ws, CreationPieces(calls, HostNames)) else []),
      acc.secureHostNames + (if kind == MultiHost then Gathered(ws, CreationPieces(calls, SecureHostNames)) else []),
      acc.insecureHostNames + (if kind == MultiHost then Gathered(ws, CreationPieces(calls, InsecureHostNames)) else []))
  {
    AfterWorkersField(kind, acc, ws, calls, Ingresses);
    AfterWorkersField(kind, acc, ws, calls, HostNames);
    AfterWorkersField(kind, acc, ws, calls, SecureHostNames);
    AfterWorkersField(kind, acc, ws, calls, InsecureHostNames);
  }

  /**
    When every creating worker succeeds and creates exactly its block, the
    workers record exactly n ingresses whatever order they finish in, so the
    HaveLen(numOfIng) expectation holds; the names are those of the blocks
    in start order.
   */
  lemma ParallelCreationCount(create: (nat, nat) -> CreateResult, n: nat, g: nat, order: seq<nat>)
    requires g > 0 && IsCompletionOrder(order, g)
    requires forall w :: 0 <= w < g ==>
      var r := create(BlockSize(n, g, w), StartOf(n, g, w)); !r.failed && |r.out.created| == BlockSize(n, g, w)
    ensures var pieces := CreationPieces(Launched(create, n, g), Ingresses);
      && |Gathered(order, pieces)| == n
      && multiset(Gathered(order, pieces)) == multiset(Flatten(pieces))
  {
    ParallelAppendCount(CreationPieces(Launched(create, n, g), Ingresses), n, g, order);
  }

  /**
    A creating worker with a non-empty block whose call fails appends
    nothing; if no worker creates more than its block, the count falls short
    of n and the HaveLen(numOfIng) expectation fails.
   */
  lemma ParallelCreationShort(create: (nat, nat) -> CreateResult, n: nat, g: nat, order: seq<nat>, w: nat)
    requires g > 0 && IsCompletionOrder(order, g)
    requires forall v :: 0 <= v < g ==> |create(BlockSize(n, g, v), StartOf(n, g, v)).out.created| <= BlockSize(n, g, v)
    requires w < g && BlockSize(n, g, w) > 0 && create(BlockSize(n, g, w), StartOf(n, g, w)).failed
    ensures |Gathered(order, CreationPieces(Launched(create, n, g), Ingresses))| < n
  {
    ParallelAppendShort(CreationPieces(Launched(create, n, g), Ingresses), n, g, order, w);
  }

  /**
    When every deleting worker deletes exactly its slice, ingressesDeleted
    ends as a permutation of the first n created ingresses, so its length is n.
   */
  lemma ParallelDeletionCoversPrefix(delete: seq<string> -> DeleteResult, created: seq<string>, n: nat, g: nat, order: seq<nat>)
    requires g > 0 && n <= |created| && IsCompletionOrder(order, g)
    requires forall w :: 0 <= w < g ==>
      var r := delete(DeletionSlice(created, n, g, w)); !r.failed && r.deleted == DeletionSlice(created, n, g, w)
    ensures var deleted := Gathered(order, DeletionPieces(DeletionCalls(delete, created, n, g)));
      && multiset(deleted) == multiset(created[..n])
      && |deleted| == n
  {
    var pieces := DeletionPieces(DeletionCalls(delete, created, n, g));
    var slices := DeletionSlices(created, n, g, g);
    DeletionSlicesAt(created, n, g, g);
    assert pieces == slices;
    DeletionSlicesJoin(created, n, g, g);
    BlocksCoverTotal(n, g);
    ParallelAppendCount(pieces, n, g, order);
  }

  /**
    CreateIngressesParallel clears ingressesCreated but not the host-name
    lists. When those still hold names from an earlier run and every
    successful worker returns one host per ingress, plain and TLS runs end
    with more host names than ingresses.
   */
  lemma RepeatedParallelRunMisaligns(kind: IngressKind, previous: Accumulators, order: seq<nat>, calls: seq<CreateResult>)
    requires kind == Insecure || kind == Secure
    requires |previous.hostNames| > 0
    requires forall w :: 0 <= w < |calls| ==> |calls[w].out.hostNames| == |calls[w].out.created|
    ensures var after := AfterWorkers(kind, previous.(created := []), order, calls);
      |after.hostNames| > |after.created|
  {
    AfterWorkersGathered(kind, previous.(created := []), order, calls);
    GatheredSameLength(order, CreationPieces(calls, HostNames), CreationPieces(calls, Ingresses));
  }

  /**
    With more host names than ingresses, the pool-name loop of a plain or
    TLS run indexes past the end of ingressesCreated: once the pool count
    check passes, Verify panics.
   */
  lemma MisalignedHostsPanic(run: Run, snap: Snapshot)
    requires run.kind == Insecure || run.kind == Secure
    requires |run.acc.hostNames| > |run.acc.created|
    requires |snap.pools| >= PoolLowerBound(run)
    ensures PoolVerification(run, snap) == Panic
    ensures Verify(run, snap) == Panic
  {
  }

  /** How a create or delete step ends. */
  datatype StepOutcome =
    | Polled(poll: PollOutcome)   // creation: the count matched and the poll loop ran
    | CountMismatch(count: nat)   // the HaveLen(numOfIng) expectation failed
    | CallFailed                  // a serial lib call reported an error: t.Fatalf
    | SlicePanic                  // a deletion slice went past the end of ingressesCreated
    | DeletedAll                  // deletion: the count matched; the wait for the pool count follows

  /** The package-level variables the steps read and write. */
  class ScaleTest {
    var ingressType: IngressKind
    const clusterName: string
    const namespace: string
    const numGoRoutines: nat
    var ingressesCreated: seq<string>
    var ingressesDeleted: seq<string>
    var ingressHostNames: seq<string>
    var ingressSecureHostNames: seq<string>
    var ingressInsecureHostNames: seq<string>
    var initial: Baseline
    /** Whether a worker goroutine called t.Fatalf: the test is marked failed but the step goes on. */
    var failed: bool

    /**
      The state after Setup, which rejects a non-positive goroutine count, with
      ingressType read from the string a test case assigns (INSECURE, SECURE or
      MULTIHOST, or any other string).
     */
    constructor (ingressTypeName: string, cluster: string, ns: string, goRoutines: nat)
      requires goRoutines > 0
      ensures ingressType == KindOf(ingressTypeName) && clusterName == cluster && namespace == ns && numGoRoutines == goRoutines
      ensures ingressesCreated == [] && ingressesDeleted == []
      ensures ingressHostNames == [] && ingressSecureHostNames == [] && ingressInsecureHostNames == []
      ensures initial == Baseline(0, 0, 0) && !failed
    {
      ingressType := KindOf(ingressTypeName);
      clusterName := cluster;
      namespace := ns;
      numGoRoutines := goRoutines;
      ingressesCreated := [];
      ingressesDeleted := [];
      ingressHostNames := [];
      ingressSecureHostNames := [];
      ingressInsecureHostNames := [];
      initial := Baseline(0, 0, 0);
      failed := false;
    }

    /** The globals as the verification functions read them. */
    function CurrentRun(): Run
      reads this
    {
      Run(ingressType, clusterName, namespace,
          Accumulators(ingressesCreated, ingressHostNames, ingressSecureHostNames, ingressInsecureHostNames),
          initial)
    }

    /** The four lists the creation steps fill. */
    function Lists(): Accumulators
      reads this
    {
      Accumulators(ingressesCreated, ingressHostNames, ingressSecureHostNames, ingressInsecureHostNames)
    }

    /** One creating worker's appends to the globals; a worker whose call failed calls t.Fatalf instead. */
    method AppendWorkerResult(result: CreateResult)
      modifies this
      ensures Lists() == AppendResult(ingressType, old(Lists()), result)
      ensures failed == (old(failed) || result.failed)
      ensures ingressType == old(ingressType) && initial == old(initial) && ingressesDeleted == old(ingressesDeleted)
    {
      if result.failed {
        failed := true;
      } else {
        ingressesCreated := ingressesCreated + result.out.created;
        if ingressType == MultiHost {
          ingressSecureHostNames := ingressSecureHostNames + result.out.secureHostNames;
          ingressInsecureHostNames := ingressInsecureHostNames + result.out.insecureHostNames;
        } else {
          ingressHostNames := ingressHostNames + result.out.hostNames;
        }
      }
    }

    /** SetupForTesting: record the sizes of the three lists as the baseline. */
    method SetupForTesting(snap: Snapshot)
      modifies this
      ensures initial == CaptureBaseline(snap)
      ensures ingressType == old(ingressType) && failed == old(failed)
      ensures ingressesCreated == old(ingressesCreated) && ingressesDeleted == old(ingressesDeleted)
      ensures ingressHostNames == old(ingressHostNames)
      ensures ingressSecureHostNames == old(ingressSecureHostNames)
      ensures ingressInsecureHostNames == old(ingressInsecureHostNames)
    {
      initial := CaptureBaseline(snap);
    }

    /**
      The poll loop that ends both creation steps, with the increment read
      from testPollInterval and the bound testCaseTimeOut: at most 120 calls
      of Verify on the current globals.
     */
    method AwaitConvergence(observe: nat -> Snapshot) returns (poll: PollOutcome)
      ensures PollReport(CurrentRun(), observe, poll, 120)
    {
      DefaultPollBudget();
      poll := PollUntilVerified(CurrentRun(), observe, WaitTimeIncrement(TestPollInterval), TestCaseTimeOut);
    }

    /**
      CreateIngressesParallel: only ingressesCreated is reset; each worker
      creates its block and appends its ingresses and host names, the workers
      finishing in `order`. No worker is started for an unrecognised type.
     */
    method CreateIngressesParallel(n: nat, create: (nat, nat) -> CreateResult, order: seq<nat>, observe: nat -> Snapshot)
      returns (outcome: StepOutcome)
      requires numGoRoutines > 0
      requires IsCompletionOrder(order, numGoRoutines)
      modifies this
      ensures ingressType == old(ingressType) && initial == old(initial) && ingressesDeleted == old(ingressesDeleted)
      ensures var calls := Launched(create, n, numGoRoutines);
        var started := ingressType != Unrecognised;
        && ingressesCreated == (if started then Gathered(order, CreationPieces(calls, Ingresses)) else [])
        && ingressHostNames == old(ingressHostNames)
             + (if started && ingressType != MultiHost then Gathered(order, CreationPieces(calls, HostNames)) else [])
        && ingressSecureHostNames == old(ingressSecureHostNames)
             + (if ingressType == MultiHost then Gathered(order, CreationPieces(calls, SecureHostNames)) else [])
        && ingressInsecureHostNames == old(ingressInsecureHostNames)
             + (if ingressType == MultiHost then Gathered(order, CreationPieces(calls, InsecureHostNames)) else [])
        && failed == (old(failed) || (started && AnyFailed(order, CreateFailures(calls))))
      ensures outcome.CountMismatch? || outcome.Polled?
      ensures outcome.CountMismatch? <==> |ingressesCreated| != n
      ensures outcome.CountMismatch? ==> outcome.count == |ingressesCreated|
      ensures outcome.Polled? ==> PollReport(CurrentRun(), observe, outcome.poll, 120)
    {
      ingressesCreated := [];
      ghost var start := Lists();
      if ingressType != Unrecognised {
        StartCreationWorkers(n, create, order);
      }
      AfterWorkersGathered(ingressType, start, if ingressType != Unrecognised then order else [], Launched(create, n, numGoRoutines));
      outcome := ExpectCountThenPoll(n, observe);
    }

    /**
      The worker loop of CreateIngressesParallel: worker i gets the i-th
      (size, start) pair of the partition, and the workers append their
      results in the order they finish.
     */
    method StartCreationWorkers(n: nat, create: (nat, nat) -> CreateResult, order: seq<nat>)
      requires numGoRoutines > 0
      requires IsCompletionOrder(order, numGoRoutines)
      modifies this
      ensures Lists() == AfterWorkers(ingressType, old(Lists()), order, Launched(create, n, numGoRoutines))
      ensures failed == (old(failed) || AnyFailed(order, CreateFailures(Launched(create, n, numGoRoutines))))
      ensures ingressType == old(ingressType) && initial == old(initial) && ingressesDeleted == old(ingressesDeleted)
    {
      var blocks := PlanBlocks(n, numGoRoutines);
      ghost var calls := Launched(create, n, numGoRoutines);
      RunCreationWorkers(create, blocks, order, calls);
    }

    /** The workers of StartCreationWorkers, given their planned blocks and the calls they make. */
    method RunCreationWorkers(create: (nat, nat) -> CreateResult, blocks: seq<Block>, order: seq<nat>, ghost calls: seq<CreateResult>)
      requires IsCompletionOrder(order, |blocks|) && |calls| == |blocks|
      requires forall w :: 0 <= w < |blocks| ==> create(blocks[w].size, blocks[w].start) == calls[w]
      modifies this
      ensures Lists() == AfterWorkers(ingressType, old(Lists()), order, calls)
      ensures failed == (old(failed) || AnyFailed(order, CreateFailures(calls)))
      ensures ingressType == old(ingressType) && initial == old(initial) && ingressesDeleted == old(ingressesDeleted)
    {
      ghost var start := Lists();
      ghost var failures := CreateFailures(calls);
      ghost var failedBefore := failed;
      CompletionOrderBounds(order, |blocks|);
      for k := 0 to |order|
        invariant Lists() == AfterWorkers(ingressType, start, order[..k], calls)
        invariant failed == (failedBefore || AnyFailed(order[..k], failures))
        invariant ingressType == old(ingressType) && initial == old(initial) && ingressesDeleted == old(ingressesDeleted)
      {
        var w := order[k];
        var result := create(blocks[w].size, blocks[w].start);
        AfterWorkersSnoc(ingressType, start, order, k, calls);
        AnyFailedSnoc(order, k, failures);
        AppendWorkerResult(result);
      }
      assert order[..|order|] == order;
    }

    /**
      What both creation steps do once the ingresses exist: expect
      ingressesCreated to have numOfIng entries, then poll Verify.
     */
    method ExpectCountThenPoll(n: nat, observe: nat -> Snapshot) returns (outcome: StepOutcome)
      ensures outcome.CountMismatch? || outcome.Polled?
      ensures outcome.CountMismatch? <==> |ingressesCreated| != n
      ensures outcome.CountMismatch? ==> outcome.count == |ingressesCreated|
      ensures outcome.Polled? ==> PollReport(CurrentRun(), observe, outcome.poll, 120)
    {
      if |ingressesCreated| != n {
        return CountMismatch(|ingressesCreated|);
      }
      var poll := AwaitConvergence(observe);
      outcome := Polled(poll);
    }

    /**
      DeleteIngressesParallel: ingressesDeleted is reset and each worker
      deletes its slice of ingressesCreated and appends what was deleted.
      The wait for the pool count to return to the baseline is not modelled.
     */
    method DeleteIngressesParallel(n: nat, delete: seq<string> -> DeleteResult, order: seq<nat>)
      returns (outcome: StepOutcome)
      requires numGoRoutines > 0
      requires IsCompletionOrder(order, numGoRoutines)
      modifies this
      ensures ingressType == old(ingressType) && initial == old(initial)
      ensures ingressesCreated == old(ingressesCreated)
      ensures ingressHostNames == old(ingressHostNames)
      ensures ingressSecureHostNames == old(ingressSecureHostNames)
      ensures ingressInsecureHostNames == old(ingressInsecureHostNames)
      ensures outcome.SlicePanic? <==> n > |ingressesCreated|
      ensures outcome.SlicePanic? ==> ingressesDeleted == [] && failed == old(failed)
      ensures !outcome.SlicePanic? ==>
        var calls := DeletionCalls(delete, ingressesCreated, n, numGoRoutines);
        && ingressesDeleted == Gathered(order, DeletionPieces(calls))
        && failed == (old(failed) || AnyFailed(order, DeleteFailures(calls)))
        && (outcome.CountMismatch? || outcome.DeletedAll?)
        && (outcome.CountMismatch? <==> |ingressesDeleted| != n)
        && (outcome.CountMismatch? ==> outcome.count == |ingressesDeleted|)
    {
      ingressesDeleted := [];
      var batches := DeletionBatches(ingressesCreated, n, numGoRoutines);
      if batches.None? {
        return SlicePanic;
      }
      assert CallsOn(delete, batches.value) == DeletionCalls(delete, ingressesCreated, n, numGoRoutines);
      StartDeletionWorkers(delete, order, batches.value);
      if |ingressesDeleted| != n {
        return CountMismatch(|ingressesDeleted|);
      }
      outcome := DeletedAll;
    }

    /** One deleting worker's append; a worker whose call failed calls t.Fatalf instead. */
    method AppendDeletion(result: DeleteResult)
      modifies this
      ensures ingressesDeleted == old(ingressesDeleted) + (if result.failed then [] else result.deleted)
      ensures failed == (old(failed) || result.failed)
      ensures ingressType == old(ingressType) && initial == old(initial) && Lists() == old(Lists())
    {
      if result.failed {
        failed := true;
      } else {
        ingressesDeleted := ingressesDeleted + result.deleted;
      }
    }

    /** The worker loop of DeleteIngressesParallel: worker i deletes batches[i] and appends the result. */
    method StartDeletionWorkers(delete: seq<string> -> DeleteResult, order: seq<nat>, batches: seq<seq<string>>)
      requires IsCompletionOrder(order, |batches|)
      modifies this
      ensures ingressType == old(ingressType) && initial == old(initial) && Lists() == old(Lists())
      ensures ingressesDeleted == old(ingressesDeleted) + Gathered(order, DeletionPieces(CallsOn(delete, batches)))
      ensures failed == (old(failed) || AnyFailed(order, DeleteFailures(CallsOn(delete, batches))))
    {
      ghost var pieces := DeletionPieces(CallsOn(delete, batches));
      ghost var failures := DeleteFailures(CallsOn(delete, batches));
      forall w | 0 <= w < |batches|
        ensures var r := delete(batches[w]); PieceOf(w, pieces) == (if r.failed then [] else r.deleted) && failures[w] == r.failed
      {
        DeletionWorkerResult(delete, batches, w);
      }
      RunDeletionWorkers(delete, order, batches, pieces, failures);
    }

    /** The workers of StartDeletionWorkers, given what each one appends and whether its call fails. */
    method RunDeletionWorkers(delete: seq<string> -> DeleteResult, order: seq<nat>, batches: seq<seq<string>>,
                              ghost pieces: seq<seq<string>>, ghost failures: seq<bool>)
      requires IsCompletionOrder(order, |batches|) && |failures| == |batches|
      requires forall w :: 0 <= w < |batches| ==>
        var r := delete(batches[w]); PieceOf(w, pieces) == (if r.failed then [] else r.deleted) && failures[w] == r.failed
      modifies this
      ensures ingressType == old(ingressType) && initial == old(initial) && Lists() == old(Lists())
      ensures ingressesDeleted == old(ingressesDeleted) + Gathered(order, pieces)
      ensures failed == (old(failed) || AnyFailed(order, failures))
    {
      ghost var deletedBefore := ingressesDeleted;
      ghost var failedBefore := failed;
      ghost var lists := Lists();
      CompletionOrderBounds(order, |batches|);
      for k := 0 to |order|
        invariant ingressesDeleted == deletedBefore + Gathered(order[..k], pieces)
        invariant failed == (failedBefore || AnyFailed(order[..k], failures))
        invariant ingressType == old(ingressType) && initial == old(initial) && Lists() == lists
      {
        var w := order[k];
        var result := delete(batches[w]);
        GatheredSnoc(order, k, pieces);
        AnyFailedSnoc(order, k, failures);
        AppendDeletion(result);
      }
      assert order[..|order|] == order;
    }

    /**
      CreateIngressesSerial: one create call whose lists replace the globals
      (also when it reports an error, before t.Fatalf). For an unrecognised
      type nothing is assigned and the count check sees the previous list.
     */
    method CreateIngressesSerial(n: nat, create: nat -> CreateResult, observe: nat -> Snapshot)
      returns (outcome: StepOutcome)
      modifies this
      ensures ingressType == old(ingressType) && initial == old(initial)
      ensures ingressesDeleted == old(ingressesDeleted) && failed == old(failed)
      ensures var r := create(n).out;
        && (ingressType == Insecure || ingressType == Secure ==>
              ingressesCreated == r.created && ingressHostNames == r.hostNames
              && ingressSecureHostNames == old(ingressSecureHostNames)
              && ingressInsecureHostNames == old(ingressInsecureHostNames))
        && (ingressType == MultiHost ==>
              ingressesCreated == r.created && ingressHostNames == old(ingressHostNames)
              && ingressSecureHostNames == r.secureHostNames && ingressInsecureHostNames == r.insecureHostNames)
        && (ingressType == Unrecognised ==>
              ingressesCreated == old(ingressesCreated) && ingressHostNames == old(ingressHostNames)
              && ingressSecureHostNames == old(ingressSecureHostNames)
              && ingressInsecureHostNames == old(ingressInsecureHostNames))
      ensures outcome.CallFailed? <==> ingressType != Unrecognised && create(n).failed
      ensures !outcome.CallFailed? ==> (outcome.CountMismatch? <==> |ingressesCreated| != n)
      ensures outcome.CountMismatch? ==> outcome.count == |ingressesCreated|
      ensures outcome.CallFailed? || outcome.CountMismatch? || outcome.Polled?
      ensures outcome.Polled? ==> PollReport(CurrentRun(), observe, outcome.poll, 120)
    {
      if ingressType != Unrecognised {
        var result := create(n);
        ingressesCreated := result.out.created;
        if ingressType == MultiHost {
          ingressSecureHostNames := result.out.secureHostNames;
          ingressInsecureHostNames := result.out.insecureHostNames;
        } else {
          ingressHostNames := result.out.hostNames;
        }
        if result.failed {
          return CallFailed;
        }
      }
      outcome := ExpectCountThenPoll(n, observe);
    }

    /**
      DeleteIngressesSerial: one delete call on all of ingressesCreated. Its
      result is bound with `:=`, which declares a new local variable, so the
      global ingressesDeleted is left as it was.
     */
    method DeleteIngressesSerial(n: nat, delete: seq<string> -> DeleteResult) returns (outcome: StepOutcome)
      ensures delete(ingressesCreated).failed ==> outcome == CallFailed
      ensures !delete(ingressesCreated).failed ==>
        outcome == (if |delete(ingressesCreated).deleted| == n then DeletedAll
                    else CountMismatch(|delete(ingressesCreated).deleted|))
    {
      var result := delete(ingressesCreated);
      if result.failed {
        return CallFailed;
      }
      if |result.deleted| != n {
        return CountMismatch(|result.deleted|);
      }
      outcome := DeletedAll;
    }
  }
}
