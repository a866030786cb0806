/**
  The convergence checks of the scale test: PoolVerification,
  VSVerification, DNSARecordsVerification and Verify in
  tests/scaletest/scale_test.go. What the controller reports is passed in as a
  Snapshot instead of being fetched.
 */
module Verification {
  import opened Wrappers
  import opened Diff
  import opened Names

  /** One poll's view of the controller: pool names, virtual-service names and DNS A-record FQDNs. */
  datatype Snapshot = Snapshot(pools: seq<string>, virtualServices: seq<string>, fqdns: seq<string>)

  /** initialNumOfPools, initialNumOfVSes and initialNumOfFQDN, recorded before any churn. */
  datatype Baseline = Baseline(pools: nat, virtualServices: nat, fqdns: nat)

  /** The globals the checks read. */
  datatype Run = Run(kind: IngressKind, cluster: string, namespace: string, acc: Accumulators, baseline: Baseline)

  /** The outcome of a check: it holds, it does not, or the test panicked on an index out of range. */
  datatype Check = Pass | Fail | Panic

  /** SetupForTesting: the baseline is the size of each list before the run. */
  function CaptureBaseline(snap: Snapshot): Baseline
  {
    Baseline(|snap.pools|, |snap.virtualServices|, |snap.fqdns|)
  }

  /** The fewest pools PoolVerification accepts before it compares names. */
  function PoolLowerBound(run: Run): nat
  {
    if run.kind == MultiHost then 2 * |run.acc.created| + run.baseline.pools
    else |run.acc.created| + run.baseline.pools
  }

  /** PoolVerification: a count check, then the size of the name difference against the baseline. */
  function PoolVerification(run: Run, snap: Snapshot): (r: Check)
    ensures |snap.pools| < PoolLowerBound(run) ==> r == Fail
    ensures r == Panic ==> ExpectedPoolList(run.kind, run.cluster, run.namespace, run.acc).None?
  {
    if run.kind == MultiHost && |snap.pools| < 2 * |run.acc.created| + run.baseline.pools then Fail
    else if |snap.pools| < |run.acc.created| + run.baseline.pools then Fail
    else
      match ExpectedPoolList(run.kind, run.cluster, run.namespace, run.acc)
      case None => Panic
      case Some(expected) =>
        if DiffCount(expected, snap.pools) == run.baseline.pools then Pass else Fail
  }

  /**
    VSVerification: the size of the difference against the virtual-service
    baseline. When the controller lists no virtual service twice, this is the
    number of expected names missing plus the number of observed names not
    expected.
   */
  function VSVerification(run: Run, snap: Snapshot): (ok: bool)
    ensures var expected := ExpectedVirtualServiceList(run.kind, run.cluster, run.acc.created);
      NoDuplicates(snap.virtualServices) ==>
        (ok <==> |(Elems(expected) - Elems(snap.virtualServices)) + (Elems(snap.virtualServices) - Elems(expected))|
                 == run.baseline.virtualServices)
  {
    var expected := ExpectedVirtualServiceList(run.kind, run.cluster, run.acc.created);
    DiffCountOfDistinct(expected, snap.virtualServices);
    DiffCount(expected, snap.virtualServices) == run.baseline.virtualServices
  }

  /**
    DNSARecordsVerification: note that the observed FQDNs are the first
    argument of the difference. For duplicate-free host names this counts the
    hosts without a record plus the records of no expected host.
   */
  function DNSARecordsVerification(run: Run, snap: Snapshot, hostNames: seq<string>): (ok: bool)
    ensures NoDuplicates(hostNames) ==>
      (ok <==> |(Elems(snap.fqdns) - Elems(hostNames)) + (Elems(hostNames) - Elems(snap.fqdns))| == run.baseline.fqdns)
  {
    DiffCountOfDistinct(snap.fqdns, hostNames);
    DiffCount(snap.fqdns, hostNames) == run.baseline.fqdns
  }

  /** The host names Verify hands to the DNS check. */
  function DnsHostNames(run: Run): seq<string>
  {
    if run.kind == MultiHost then run.acc.secureHostNames + run.acc.insecureHostNames
    else run.acc.hostNames
  }

  /**
    Verify: the checks each ingress kind needs, evaluated left to right and
    short-circuiting. It passes exactly when the kind is known and the pool
    check, the virtual-service check (not for plain ingresses) and the DNS
    check all pass; it panics exactly when the pool check panics.
   */
  function Verify(run: Run, snap: Snapshot): (r: Check)
    ensures run.kind == Unrecognised ==> r == Fail
    ensures r == Pass <==>
      && run.kind != Unrecognised
      && PoolVerification(run, snap) == Pass
      && (run.kind == Insecure || VSVerification(run, snap))
      && DNSARecordsVerification(run, snap, DnsHostNames(run))
    ensures r == Panic <==> run.kind != Unrecognised && PoolVerification(run, snap) == Panic
  {
    match run.kind
    case Secure =>
      var pool := PoolVerification(run, snap);
      if pool != Pass then pool
      else if VSVerification(run, snap) && DNSARecordsVerification(run, snap, run.acc.hostNames) then Pass
      else Fail
    case MultiHost =>
      var pool := PoolVerification(run, snap);
      if pool != Pass then pool
      else if VSVerification(run, snap) && DNSARecordsVerification(run, snap, DnsHostNames(run)) then Pass
      else Fail
    case Insecure =>
      var pool := PoolVerification(run, snap);
      if pool != Pass then pool
      else if DNSARecordsVerification(run, snap, run.acc.hostNames) then Pass
      else Fail
    case Unrecognised => Fail
  }

  /** The accumulators line up: one host (two for multi-host) per created ingress. */
  predicate Aligned(run: Run)
  {
    match run.kind
    case Insecure => |run.acc.hostNames| == |run.acc.created|
    case Secure => |run.acc.hostNames| == |run.acc.created|
    case MultiHost =>
      |run.acc.secureHostNames| == |run.acc.created| && |run.acc.insecureHostNames| == |run.acc.created|
    case Unrecognised => false
  }

  /** Aligned accumulators never make the pool-list loop panic. */
  lemma AlignedPoolListDefined(run: Run)
    requires Aligned(run)
    ensures ExpectedPoolList(run.kind, run.cluster, run.namespace, run.acc).Some?
  {
  }

  /** An observed list holds exactly the expected names plus pre-existing, unrelated, distinct ones. */
  predicate Reflects(observed: seq<string>, expected: seq<string>, extra: seq<string>)
  {
    && NoDuplicates(extra)
    && (forall x :: x in extra ==> x !in expected)
    && multiset(observed) == multiset(expected + extra)
  }

  /**
    A snapshot that reflects every derived object of this run plus the
    baseline objects is accepted: Verify converges.
   */
  lemma ExactSnapshotConverges(run: Run, snap: Snapshot, oldPools: seq<string>, oldVirtualServices: seq<string>, oldFqdns: seq<string>)
    requires Aligned(run)
    requires |oldPools| == run.baseline.pools
    requires |oldVirtualServices| == run.baseline.virtualServices
    requires |oldFqdns| == run.baseline.fqdns
    requires ExpectedPoolList(run.kind, run.cluster, run.namespace, run.acc).Some?
    requires Reflects(snap.pools, ExpectedPoolList(run.kind, run.cluster, run.namespace, run.acc).value, oldPools)
    requires Reflects(snap.virtualServices, ExpectedVirtualServiceList(run.kind, run.cluster, run.acc.created), oldVirtualServices)
    requires Reflects(snap.fqdns, DnsHostNames(run), oldFqdns)
    ensures Verify(run, snap) == Pass
  {
    var expected := ExpectedPoolList(run.kind, run.cluster, run.namespace, run.acc).value;
    ExpectedPoolListLength(run.kind, run.cluster, run.namespace, run.acc);
    assert |snap.pools| == |expected| + |oldPools| by {
      assert |multiset(snap.pools)| == |multiset(expected + oldPools)|;
    }
    DiffOfExactSnapshot(expected, oldPools, snap.pools);
    assert PoolVerification(run, snap) == Pass;
    DiffOfExactSnapshot(ExpectedVirtualServiceList(run.kind, run.cluster, run.acc.created), oldVirtualServices, snap.virtualServices);
    DiffOfExactSnapshotObservedFirst(DnsHostNames(run), oldFqdns, snap.fqdns);
  }

  /**
    The baseline SetupForTesting records before the run is what makes a later
    exact snapshot converge: when each list the controller reports holds this
    run's derived objects plus exactly the objects seen at setup, Verify
    passes.
   */
  lemma ConvergesAgainstCapturedBaseline(run: Run, before: Snapshot, snap: Snapshot)
    requires Aligned(run)
    requires run.baseline == CaptureBaseline(before)
    requires ExpectedPoolList(run.kind, run.cluster, run.namespace, run.acc).Some?
    requires Reflects(snap.pools, ExpectedPoolList(run.kind, run.cluster, run.namespace, run.acc).value, before.pools)
    requires Reflects(snap.virtualServices, ExpectedVirtualServiceList(run.kind, run.cluster, run.acc.created), before.virtualServices)
    requires Reflects(snap.fqdns, DnsHostNames(run), before.fqdns)
    ensures Verify(run, snap) == Pass
  {
    ExactSnapshotConverges(run, snap, before.pools, before.virtualServices, before.fqdns);
  }

  /**
    With a zero baseline, one expected pool replaced by a stray one makes the
    difference 2, so the pool check fails.
   */
  lemma MisnamedPoolFails(run: Run, snap: Snapshot, k: nat, stray: string)
    requires Aligned(run) && run.baseline.pools == 0
    requires ExpectedPoolList(run.kind, run.cluster, run.namespace, run.acc).Some?
    requires var expected := ExpectedPoolList(run.kind, run.cluster, run.namespace, run.acc).value;
      NoDuplicates(expected) && k < |expected| && stray !in expected && snap.pools == expected[k := stray]
    ensures PoolVerification(run, snap) == Fail
    ensures Verify(run, snap) == Fail
  {
    var expected := ExpectedPoolList(run.kind, run.cluster, run.namespace, run.acc).value;
    DiffOfMisnamedEntry(expected, k, stray);
  }

  /**
    For duplicate-free lists the pool check is sound: when it passes, every
    expected pool is among the observed ones, and exactly baseline-many
    observed pools are not expected.
   */
  lemma PoolPassMeansAllExpectedPresent(run: Run, snap: Snapshot)
    requires ExpectedPoolList(run.kind, run.cluster, run.namespace, run.acc).Some?
    requires NoDuplicates(ExpectedPoolList(run.kind, run.cluster, run.namespace, run.acc).value)
    requires NoDuplicates(snap.pools)
    requires PoolVerification(run, snap) == Pass
    ensures forall e :: e in ExpectedPoolList(run.kind, run.cluster, run.namespace, run.acc).value ==> e in snap.pools
    ensures |Elems(snap.pools) - Elems(ExpectedPoolList(run.kind, run.cluster, run.namespace, run.acc).value)| == run.baseline.pools
  {
    var expected := ExpectedPoolList(run.kind, run.cluster, run.namespace, run.acc).value;
    ExpectedPoolListLength(run.kind, run.cluster, run.namespace, run.acc);
    DistinctCardinality(expected);
    DistinctCardinality(snap.pools);
    DiffIsSymmetricDifference(expected, snap.pools);
    SymmetricDifferenceAtBound(Elems(expected), Elems(snap.pools), run.baseline.pools);
    forall e | e in expected ensures e in snap.pools {
      assert e in Elems(expected);
    }
  }

  /**
    The virtual-service check has no count check: a run whose one virtual
    service never appeared still passes when one pre-existing virtual service
    disappeared meanwhile.
   */
  lemma VirtualServiceCheckMissesCompensatingLoss(run: Run, snap: Snapshot, ingress: string)
    requires run.acc.created == [ingress]
    requires run.baseline.virtualServices == 1 && snap.virtualServices == []
    ensures VSVerification(run, snap)
  {
    var expected := ExpectedVirtualServiceList(run.kind, run.cluster, run.acc.created);
    var name := VirtualServiceName(run.cluster, ingress, run.kind == MultiHost);
    assert expected == [name];
    assert DiffSet(expected, []) == {name} by {
      assert name in expected + [];
    }
  }

  /**
    Neither has the DNS check: a host with no A record passes when one
    pre-existing record disappeared meanwhile.
   */
  lemma DnsCheckMissesCompensatingLoss(run: Run, snap: Snapshot, host: string)
    requires run.baseline.fqdns == 1 && snap.fqdns == []
    ensures DNSARecordsVerification(run, snap, [host])
  {
    assert DiffSet([], [host]) == {host} by {
      assert host in [] + [host];
    }
  }
}
