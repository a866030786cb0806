# Scale-test convergence model

A Dafny model of the decision logic in the ingress scale test,
`tests/scaletest/scale_test.go`. The test creates and deletes many ingresses
and waits until the load-balancer controller has the pools, virtual services
and DNS A records it expects. The model covers:

- **The name-list difference.** `DiffOfLists` in module `Diff` builds a
  frequency map: keys of the first list start at 1, and every occurrence in
  the second list adds 1. It returns the keys whose count is exactly 1.
- **The work split.** Module `Partition` splits `numOfIng` ingresses over
  `numGoRoutines` workers, both for creation, as (size, start) pairs, and for
  deletion, as slices of `ingressesCreated`.
- **How workers' results are collected.** Module `Accumulate` covers the
  shared lists that every goroutine appends to, in the order the goroutines
  finish.
- **The expected names.** Module `Names` gives the pool and virtual-service
  names the test expects the controller to derive.
- **The convergence checks.** Module `Verification` has `PoolVerification`,
  `VSVerification`, `DNSARecordsVerification` and `Verify`.
- **The poll loop.** Module `Polling` covers the bounded loop after creation,
  with its increment parsed from `"15s"` by `strconv.Atoi`.
- **The package-level state.** Class `ScaleRun.ScaleTest` holds the globals
  and the steps that change them: `SetupForTesting`, the parallel and serial
  creation steps, and the parallel and serial deletion steps.

Decisions the model makes:

- What the controller reports is a `Snapshot` value passed in, not fetched.
  The polls see the snapshots `observe(0)`, `observe(1)`, and so on.
- The lib calls that create and delete ingresses are passed in as functions.
- The goroutines' completion order is a parameter: any permutation of the
  worker numbers.
- A Go runtime panic is an explicit outcome. These panics are:
  - an index out of range in the pool-name loop (`Check.Panic`);
  - a deletion slice that ends past the end of `ingressesCreated`
    (`StepOutcome.SlicePanic`). The model compares the slice end with the
    list's length; Go compares it with the capacity (see "Left out").

  One panic is a precondition instead: `Polling.WaitTimeIncrement` requires
  a non-empty interval, where slicing an empty one at line 384 would panic.
  The interval is the constant `"15s"`, so this case never arises.

Two facts about `DiffOfLists` that a reader might not expect:

- **The difference is not symmetric.** A name that is absent from the first
  list and occurs two or more times in the second is dropped. So
  `([], [x, x])` gives 0 while `([x, x], [])` gives 1
  (`Diff.DiffCountNotSymmetric`). For two duplicate-free lists the
  difference and its size do not depend on the argument order
  (`Diff.DiffCountSymmetric`).
- **A misnamed pool makes the difference 2.** The missing expected name and
  the stray observed one both count (`Diff.DiffOfMisnamedEntry`). The check
  fails either way (`Verification.MisnamedPoolFails`).

Consequences of the code as written, proved about the model:

- **The pool check is sound.** When the lists are duplicate-free, a passing
  pool check means every expected pool is present.
- **The virtual-service and DNS checks are not.** They have no count check,
  so a missing object is masked when a pre-existing object disappears at the
  same time.
- **A second parallel creation in the same process panics.**
  `CreateIngressesParallel` resets `ingressesCreated` but not the host-name
  lists. In a second parallel creation, a plain or TLS run therefore ends
  with more host names than ingresses, and its pool check panics once the
  pool count is reached. Nothing in the file runs parallel creation twice:
  the tests that would are commented out.
- **The serial deletion leaves the global alone.** `DeleteIngressesSerial`
  binds its result with `:=` (line 466), which declares a new local
  variable. The global `ingressesDeleted` is left unchanged.

## Model

| member | source | states |
|---|---|---|
| Diff.DiffOfLists | tests/scaletest/scale_test.go:170-187 | The result has no duplicates. x is in it iff x is in list1 and not in list2, or x is not in list1 and occurs exactly once in list2. Its elements and its length are those of the key set DiffSet. |
| Diff.CountOccurrences | tests/scaletest/scale_test.go:171-178 | The map's keys are the names of both lists. Each key holds 1 if it is in list1, plus its number of occurrences in list2. |
| Diff.KeysWithCountOne | tests/scaletest/scale_test.go:179-185 | The result has no duplicates and holds exactly the keys whose count is 1. |
| Diff.DiffMembership | tests/scaletest/scale_test.go:170-187 | Both directions of the membership rule for the key set whose final map count is 1. |
| Diff.DiffOfListWithItself | tests/scaletest/scale_test.go:170-187 | A list against itself, duplicates included, has an empty difference of size 0. |
| Diff.DiffIsSymmetricDifference | tests/scaletest/scale_test.go:170-187 | When the second list is duplicate-free, the difference is the set symmetric difference of the two lists. |
| Diff.DiffCountSymmetric | tests/scaletest/scale_test.go:170-187 | For two duplicate-free lists, the difference and its size do not depend on the argument order. |
| Diff.DiffCountNotSymmetric | tests/scaletest/scale_test.go:170-187 | Without that condition the size is not symmetric: ([], [x, x]) gives 0 and ([x, x], []) gives 1. |
| Diff.DiffOfExactSnapshot | tests/scaletest/scale_test.go:220-224 | The expected names against a list holding exactly them plus distinct unrelated pre-existing names give those pre-existing names, so the size is the baseline. |
| Diff.DiffOfExactSnapshotObservedFirst | tests/scaletest/scale_test.go:227-235 | The same with the observed list first, as the DNS check calls it. |
| Diff.DiffOfMisnamedEntry | tests/scaletest/scale_test.go:170-187 | Replacing one expected name by a stray one gives exactly {missing, stray}, of size 2. |
| Diff.SymmetricDifferenceAtBound | tests/scaletest/scale_test.go:192-196 | An observed set at least b larger than the expected set, whose symmetric difference with it has size b, contains every expected name. |
| Partition.PlanBlocks | tests/scaletest/scale_test.go:322-377 | There are g blocks, each of size n/g or n/g+1, and the extra item goes to exactly the first n%g workers. The first block starts at 0, the blocks are contiguous, the last one ends at n, the sizes sum to n, and block i is (BlockSize, StartOf). |
| Partition.BlockShape | tests/scaletest/scale_test.go:344-353 | The (size, start) pairs of every worker give the size bounds, the remainder rule, start 0, contiguity and a final end of n. |
| Partition.StartClosedForm | tests/scaletest/scale_test.go:344-353 | nextStartInd before worker i is i*(n/g) + min(i, n%g). |
| Partition.BlocksCoverTotal | tests/scaletest/scale_test.go:344-353 | After the last worker, nextStartInd equals n. |
| Partition.BlocksDisjoint | tests/scaletest/scale_test.go:344-353 | Two different workers get disjoint index ranges. |
| Partition.IndexCovered | tests/scaletest/scale_test.go:344-353 | Every index below n lies in the range of some worker. |
| Partition.DeletionBatches | tests/scaletest/scale_test.go:396-412 | The model's slicing panics (None) iff n > len(ingressesCreated); Go bounds the slice by the capacity instead (see Left out). Otherwise there are g slices, slice i is ingressesCreated[start_i : start_i + size_i], and together they are ingressesCreated[0:n]. |
| Partition.DeletionSlicesJoin | tests/scaletest/scale_test.go:403-412 | The slices of the first k workers, joined, are the first StartOf(k) names. |
| Partition.FlattenDetermined | tests/scaletest/scale_test.go:403-412 | Slices with the same lengths and the same concatenation are equal, so the deletion slices are determined by the partition. |
| Accumulate.GatheredPermutation | tests/scaletest/scale_test.go:282-320 | Whatever order the workers finish in, the shared list holds the same names, as a multiset. |
| Accumulate.GatheredPrefixInOrder | tests/scaletest/scale_test.go:282-290 | Workers finishing in start order append their lists in order. |
| Accumulate.ParallelAppendCount | tests/scaletest/scale_test.go:344-380 | If every worker appends its planned number of names, the shared list has exactly n names in any completion order, the same names as in start order. |
| Accumulate.ParallelAppendShort | tests/scaletest/scale_test.go:344-380 | If a worker with a non-empty block appends nothing and none appends more than planned, the list is shorter than n. |
| Accumulate.CompletionOrderBounds | tests/scaletest/scale_test.go:344-353 | A completion order lists g worker numbers, each below g. |
| Names.KindOf | tests/scaletest/scale_test.go:33-36 | Each kind corresponds to exactly one constant string: "insecure", "secure" or "multi-host". Every other string is unrecognised. |
| Names.BuildPoolList | tests/scaletest/scale_test.go:197-216 | The loop builds ExpectedPoolList: the pool list, or None when it indexes past ingressesCreated or ingressInsecureHostNames. |
| Names.PoolPrefixShape | tests/scaletest/scale_test.go:197-216 | After m iterations the pool list has m entries (2m for multi-host), entry by entry following its kind's template. |
| Names.ExpectedPoolListShape | tests/scaletest/scale_test.go:197-216 | The list has one entry per host name for plain and TLS ingresses and two per multi-host ingress. Each entry follows its kind's template: cluster--host-ns-ing, cluster--ns-host-ing, or both in that order. |
| Names.ExpectedPoolListLength | tests/scaletest/scale_test.go:197-216 | The length is the loop bound, doubled for multi-host. |
| Names.BuildVirtualServiceList | tests/scaletest/scale_test.go:242-250 | The loop builds ExpectedVirtualServiceList, one name per created ingress. |
| Names.ExpectedVirtualServiceListShape | tests/scaletest/scale_test.go:242-250 | One name per ingress. Each starts with cluster--ingress and ends in .avi.internal, and in -secure.avi.internal for multi-host. |
| Names.ExpectedVirtualServiceListDistinct | tests/scaletest/scale_test.go:242-250 | Distinct ingresses give distinct virtual-service names. |
| Verification.ConvergesAgainstCapturedBaseline | tests/scaletest/scale_test.go:132-139 | If the baseline is the one captured from a snapshot before the run, and every list later reported holds this run's derived objects plus exactly the objects of that earlier snapshot, Verify passes. |
| Verification.VSVerification | tests/scaletest/scale_test.go:237-259 | When the controller lists no virtual service twice, the check passes iff the expected names missing plus the observed names not expected number exactly the virtual-service baseline. |
| Verification.DNSARecordsVerification | tests/scaletest/scale_test.go:227-235 | For duplicate-free host names, the check passes iff the hosts without a record plus the records of no expected host number exactly the FQDN baseline. |
| Verification.Verify | tests/scaletest/scale_test.go:261-280 | An unknown type fails. Verify passes iff the type is known and the pool check, the virtual-service check (not for plain ingresses) and the DNS check on the type's host names all pass. It panics iff the pool check panics. |
| Verification.PoolVerification | tests/scaletest/scale_test.go:189-225 | Below the lower bound (len(created)+baseline, or 2*len(created)+baseline for multi-host) the check fails. It panics only when the pool-name loop indexes out of range. |
| Verification.AlignedPoolListDefined | tests/scaletest/scale_test.go:197-216 | With one host name (two for multi-host) per created ingress, the pool-name loop never panics. |
| Verification.ExactSnapshotConverges | tests/scaletest/scale_test.go:189-280 | A snapshot holding exactly this run's derived objects plus the baseline objects makes Verify pass. |
| Verification.MisnamedPoolFails | tests/scaletest/scale_test.go:189-225 | With a zero baseline, one expected pool replaced by a stray name makes the pool check and Verify fail. |
| Verification.PoolPassMeansAllExpectedPresent | tests/scaletest/scale_test.go:189-225 | For duplicate-free lists, a passing pool check means every expected pool is observed and exactly baseline-many observed pools are unexpected. |
| Verification.VirtualServiceCheckMissesCompensatingLoss | tests/scaletest/scale_test.go:237-259 | A missing virtual service passes when a pre-existing one disappeared, since there is no count check. |
| Verification.DnsCheckMissesCompensatingLoss | tests/scaletest/scale_test.go:227-235 | A missing A record passes when a pre-existing one disappeared. |
| Polling.AtoiOfDecimal | tests/scaletest/scale_test.go:384 | Atoi reads back the decimal rendering of any natural number. |
| Polling.IncrementOfInterval | tests/scaletest/scale_test.go:384 | An interval written as a number and a one-letter unit gives that number as the increment. |
| Polling.WaitTimeIncrement | tests/scaletest/scale_test.go:384 | An interval whose part before the last character is a digit string gives the value of those digits. A non-zero increment means Atoi read that part successfully. |
| Polling.UnreadableIntervalStalls | tests/scaletest/scale_test.go:384-391 | If Atoi fails, the increment is 0 and waitTime never reaches the timeout. |
| Polling.WaitBelowTimeout | tests/scaletest/scale_test.go:385 | After p polls, waitTime is below the timeout iff p < ceil(timeout/incr). |
| Polling.DefaultPollBudget | tests/scaletest/scale_test.go:383-391 | "15s" (line 65) gives an increment of 15, and with testCaseTimeOut 1800 (line 64) the loop calls Verify at most 120 times. |
| Polling.PollUntil | tests/scaletest/scale_test.go:385-391 | For any check made at each poll: it stops at the first check that passes (or panics) and makes at most ceil(timeout/incr) checks. Every earlier check failed. A timeout means exactly that many checks, all failing. |
| Polling.PollUntilVerified | tests/scaletest/scale_test.go:383-392 | It stops at the first Verify that passes (or panics) and makes at most ceil(timeout/incr) calls. Every earlier call failed. A timeout means exactly that many calls, all failing. |
| ScaleRun.AfterWorkersGathered | tests/scaletest/scale_test.go:282-311 | Each worker's result appends its ingresses, and the host names of its kind: hostNames for plain and TLS, the two host lists for multi-host. |
| ScaleRun.ParallelCreationCount | tests/scaletest/scale_test.go:322-380 | If every worker succeeds with its block, ingressesCreated ends with exactly numOfIng names in any completion order, so HaveLen holds. |
| ScaleRun.ParallelCreationShort | tests/scaletest/scale_test.go:282-380 | A failed worker with a non-empty block makes ingressesCreated shorter than numOfIng. |
| ScaleRun.ParallelDeletionCoversPrefix | tests/scaletest/scale_test.go:396-414 | If every worker deletes exactly its slice, ingressesDeleted is a permutation of ingressesCreated[0:n] and has length n. |
| ScaleRun.RepeatedParallelRunMisaligns | tests/scaletest/scale_test.go:288-323 | With host names left from an earlier run, a plain or TLS parallel creation ends with more host names than ingresses. |
| ScaleRun.MisalignedHostsPanic | tests/scaletest/scale_test.go:192-206 | With more host names than ingresses, a plain or TLS Verify panics once the pool count check passes. |
| ScaleRun.ScaleTest.constructor | tests/scaletest/scale_test.go:40-91 | The ingress type is the kind KindOf reads from the test's type string. After Setup every list is empty, the baselines are 0 and numGoRoutines is positive. |
| ScaleRun.ScaleTest.AppendWorkerResult | tests/scaletest/scale_test.go:282-311 | A failed call marks the test failed and appends nothing. Otherwise the ingresses are appended, then hostNames for plain and TLS ingresses or the two host lists for multi-host. The baseline, the type and ingressesDeleted are unchanged. |
| ScaleRun.ScaleTest.AppendDeletion | tests/scaletest/scale_test.go:313-320 | A failed call marks the test failed and appends nothing. Otherwise the deleted ingresses are appended to ingressesDeleted, and the four creation lists are unchanged. |
| ScaleRun.ScaleTest.SetupForTesting | tests/scaletest/scale_test.go:132-139 | The baseline becomes CaptureBaseline of the snapshot, and nothing else changes. |
| ScaleRun.ScaleTest.AwaitConvergence | tests/scaletest/scale_test.go:382-392 | With the default interval and timeout the loop makes at most 120 calls of Verify on the current globals. It stops at the first call that passes or panics, every earlier call failed, and a timeout means 120 failing calls. |
| ScaleRun.ScaleTest.StartCreationWorkers | tests/scaletest/scale_test.go:344-377 | The lists become AfterWorkers of the launched calls in completion order. The test is marked failed iff some call failed. |
| ScaleRun.ScaleTest.RunCreationWorkers | tests/scaletest/scale_test.go:344-377 | Given calls that match the planned blocks, the lists become AfterWorkers of those calls in completion order, and the test is marked failed iff some call failed. |
| ScaleRun.ScaleTest.CreateIngressesParallel | tests/scaletest/scale_test.go:322-393 | It resets only ingressesCreated and appends the gathered worker results by kind. The count mismatches iff len(ingressesCreated) != numOfIng. Otherwise the poll loop runs with the full poll report: at most 120 calls, stopping at the first pass or panic, every earlier call failing. |
| ScaleRun.ScaleTest.ExpectCountThenPoll | tests/scaletest/scale_test.go:380-392 | The count mismatches iff len(ingressesCreated) != numOfIng, and reports that length. Otherwise the poll loop runs with the full poll report of AwaitConvergence. |
| ScaleRun.ScaleTest.DeleteIngressesParallel | tests/scaletest/scale_test.go:395-415 | It resets ingressesDeleted. In the model it panics iff n > len(ingressesCreated) (Go compares with the capacity; see Left out). Otherwise ingressesDeleted gathers the workers' deletions, and the count check follows. The other globals are unchanged. |
| ScaleRun.ScaleTest.StartDeletionWorkers | tests/scaletest/scale_test.go:313-413 | ingressesDeleted grows by the gathered deletions. The test is marked failed iff some delete failed. |
| ScaleRun.ScaleTest.RunDeletionWorkers | tests/scaletest/scale_test.go:403-413 | Given what each worker appends and whether its call fails, ingressesDeleted grows by those lists in completion order, the test is marked failed iff some call failed, and the creation lists are unchanged. |
| ScaleRun.ScaleTest.CreateIngressesSerial | tests/scaletest/scale_test.go:424-461 | One call's lists replace the globals of the kind; nothing is assigned for an unknown type. A failed call ends the step. Otherwise the count check follows, then the poll loop with the full poll report of AwaitConvergence. |
| ScaleRun.ScaleTest.DeleteIngressesSerial | tests/scaletest/scale_test.go:463-471 | One delete call on all of ingressesCreated. The count is checked on the local result, and the global ingressesDeleted is not touched. |

## Left out

- Setup and Cleanup (lines 72-130) parse `os.Args`, read a JSON file, set environment variables and create cluster resources. All of this is I/O. The constructor keeps only the guarantee that `numGoRoutines > 0`.
- Every `lib.*` call (fetching pools, virtual services and FQDNs; creating, deleting and listing ingresses) is a network client. Creation and deletion calls are passed in as functions, and fetched lists as snapshots.
- Goroutines, `sync.WaitGroup` and the mutex are not modelled. The unsynchronised appends in the worker functions can lose or interleave elements. The model assumes each worker's appends happen together, in some completion order.
- The reboot branches (lines 332-343) call `wg.Add(1)` with no matching `Done`. They are not modelled, and neither are `Reboot`, `ParallelReboot` and `RebootAko` (SSH and pod deletion).
- HybridCreation, HybridDeletion and HybridExecution (lines 480-528) are sleep-driven churn whose result depends on scheduling.
- The `gomega.Eventually` wait for the pool count after deletion (lines 417-420, 473-476) is library timing. The deletion steps end at `DeletedAll`.
- `time.Sleep` between polls is not modelled, nor is the fact that each check fetches its list at a different moment within one poll. One snapshot stands for one poll.
- ScaleRun.ScaleTest.DeleteIngressesParallel: on a slice past the end, Go panics only when that worker is reached. Workers already started may still delete ingresses, and the model does not record their deletions.
- ScaleRun.ScaleTest.CreateIngressesSerial: a failing lib call may return partial lists. The model assigns whatever the call returns and then ends the step.
- Polling.Atoi: Go's `strconv.Atoi` rejects values outside the 64-bit range, and the model's Atoi does not.
- `numOfIng` is a natural number in the model. In Go it is an `int`. Division truncates toward zero, so for -numGoRoutines < numOfIng < 0 every block has size 0, every deletion slice is `[0:0]`, and the HaveLen check fails without a panic. Only numOfIng <= -numGoRoutines gives a negative slice bound and panics.
- Go slice capacity and aliasing of `append` results are not modelled; lists are values.
- Partition.DeletionBatches: the model returns None (a panic) whenever a slice ends past len(ingressesCreated). Go checks a slice's end against cap, and the appends at line 288 can leave spare capacity. A slice that ends past len but within cap does not panic; it hands the worker empty or stale names.
- ScaleRun.ScaleTest.DeleteIngressesParallel: for the same reason the model reports `SlicePanic` where Go would hand those workers empty or stale names and go on to the count check.
- internal/client/v1alpha1/clientset/versioned/typed/ako/v1alpha1/albinfrasettings.go and internal/apis/ako/v1alpha1/aviinfrasetting.go are not part of this model. They hold generated REST client code and plain type declarations.
