/**
  The names the scale test expects the controller to derive from the
  ingresses it created (PoolVerification and VSVerification in
  tests/scaletest/scale_test.go).
 */
module Names {
  import opened Wrappers
  import opened Diff

  /** The value of the global ingressType. */
  datatype IngressKind = Insecure | Secure | MultiHost | Unrecognised

  /** The constants INSECURE, SECURE and MULTIHOST; any other string matches none of them. */
  function KindOf(ingressType: string): (kind: IngressKind)
    ensures kind == Insecure <==> ingressType == "insecure"
    ensures kind == Secure <==> ingressType == "secure"
    ensures kind == MultiHost <==> ingressType == "multi-host"
  {
    if ingressType == "insecure" then Insecure
    else if ingressType == "secure" then Secure
    else if ingressType == "multi-host" then MultiHost
    else Unrecognised
  }

  /**
    The global lists the creation paths fill: the ingress names, the host of
    each plain or TLS ingress, and the two hosts of each multi-host ingress.
   */
  datatype Accumulators = Accumulators(
    created: seq<string>,
    hostNames: seq<string>,
    secureHostNames: seq<string>,
    insecureHostNames: seq<string>)

  /** Pool of a plain ingress: cluster--host-namespace-ingress. */
  function InsecurePoolName(cluster: string, host: string, namespace: string, ingress: string): string
  {
    cluster + "--" + host + "-" + namespace + "-" + ingress
  }

  /** Pool of a TLS ingress: cluster--namespace-host-ingress. */
  function SecurePoolName(cluster: string, namespace: string, host: string, ingress: string): string
  {
    cluster + "--" + namespace + "-" + host + "-" + ingress
  }

  /** The suffix of a virtual-service name. */
  function VirtualServiceSuffix(multiHost: bool): string
  {
    if multiHost then "-secure.avi.internal" else ".avi.internal"
  }

  /** Virtual service of an ingress: cluster--ingress.avi.internal, or -secure.avi.internal for multi-host. */
  function VirtualServiceName(cluster: string, ingress: string, multiHost: bool): string
  {
    cluster + "--" + ingress + VirtualServiceSuffix(multiHost)
  }

  predicate EndsWith(s: string, suffix: string)
  {
    |suffix| <= |s| && s[|s| - |suffix|..] == suffix
  }

  /** How many iterations the pool-list loop of the given kind runs. */
  function PoolLoopBound(kind: IngressKind, acc: Accumulators): nat
  {
    match kind
    case Insecure => |acc.hostNames|
    case Secure => |acc.hostNames|
    case MultiHost => |acc.secureHostNames|
    case Unrecognised => 0
  }

  /** The first m iterations of the pool-list loop read only indices that exist. */
  predicate PoolPrefixInRange(kind: IngressKind, acc: Accumulators, m: nat)
  {
    && m <= PoolLoopBound(kind, acc)
    && m <= |acc.created|
    && (kind == MultiHost ==> m <= |acc.insecureHostNames|)
  }

  /** The pools ingress i contributes: one, or two (secure then insecure) for multi-host. */
  function PoolEntries(kind: IngressKind, cluster: string, namespace: string, acc: Accumulators, i: nat): seq<string>
    requires PoolPrefixInRange(kind, acc, i + 1)
  {
    match kind
    case Insecure => [InsecurePoolName(cluster, acc.hostNames[i], namespace, acc.created[i])]
    case Secure => [SecurePoolName(cluster, namespace, acc.hostNames[i], acc.created[i])]
    case MultiHost =>
      [SecurePoolName(cluster, namespace, acc.secureHostNames[i], acc.created[i]),
       InsecurePoolName(cluster, acc.insecureHostNames[i], namespace, acc.created[i])]
    case Unrecognised => []
  }

  /** ingressPoolList after the first m iterations. */
  function PoolPrefix(kind: IngressKind, cluster: string, namespace: string, acc: Accumulators, m: nat): seq<string>
    requires PoolPrefixInRange(kind, acc, m)
  {
    if m == 0 then [] else PoolPrefix(kind, cluster, namespace, acc, m - 1) + PoolEntries(kind, cluster, namespace, acc, m - 1)
  }

  /**
    ingressPoolList as PoolVerification builds it; None when the loop indexes
    past the end of ingressesCreated or ingressInsecureHostNames (a Go panic).
   */
  function ExpectedPoolList(kind: IngressKind, cluster: string, namespace: string, acc: Accumulators): Option<seq<string>>
  {
    var bound := PoolLoopBound(kind, acc);
    if PoolPrefixInRange(kind, acc, bound) then Some(PoolPrefix(kind, cluster, namespace, acc, bound)) else None
  }

  /** The pool list has one entry per iteration, two for multi-host. */
  lemma {:induction false} PoolPrefixLength(kind: IngressKind, cluster: string, namespace: string, acc: Accumulators, m: nat)
    requires PoolPrefixInRange(kind, acc, m)
    ensures |PoolPrefix(kind, cluster, namespace, acc, m)| == if kind == MultiHost then 2 * m else m
  {
    if m > 0 {
      PoolPrefixLength(kind, cluster, namespace, acc, m - 1);
    }
  }

  /** Entry i of a plain ingress's pool list names host i and ingress i. */
  lemma {:induction false} InsecurePoolPrefix(cluster: string, namespace: string, acc: Accumulators, m: nat)
    requires PoolPrefixInRange(Insecure, acc, m)
    ensures |PoolPrefix(Insecure, cluster, namespace, acc, m)| == m
    ensures forall i :: 0 <= i < m ==>
      PoolPrefix(Insecure, cluster, namespace, acc, m)[i] == InsecurePoolName(cluster, acc.hostNames[i], namespace, acc.created[i])
  {
    if m > 0 {
      InsecurePoolPrefix(cluster, namespace, acc, m - 1);
    }
  }

  /** Entry i of a TLS ingress's pool list names host i and ingress i. */
  lemma {:induction false} SecurePoolPrefix(cluster: string, namespace: string, acc: Accumulators, m: nat)
    requires PoolPrefixInRange(Secure, acc, m)
    ensures |PoolPrefix(Secure, cluster, namespace, acc, m)| == m
    ensures forall i :: 0 <= i < m ==>
      PoolPrefix(Secure, cluster, namespace, acc, m)[i] == SecurePoolName(cluster, namespace, acc.hostNames[i], acc.created[i])
  {
    if m > 0 {
      SecurePoolPrefix(cluster, namespace, acc, m - 1);
    }
  }

  /** Entries 2i and 2i+1 of a multi-host pool list are the secure and the insecure pool of ingress i. */
  lemma {:induction false} MultiHostPoolPrefix(cluster: string, namespace: string, acc: Accumulators, m: nat)
    requires PoolPrefixInRange(MultiHost, acc, m)
    ensures |PoolPrefix(MultiHost, cluster, namespace, acc, m)| == 2 * m
    ensures forall i :: 0 <= i < m ==>
      && PoolPrefix(MultiHost, cluster, namespace, acc, m)[2 * i]
           == SecurePoolName(cluster, namespace, acc.secureHostNames[i], acc.created[i])
      && PoolPrefix(MultiHost, cluster, namespace, acc, m)[2 * i + 1]
           == InsecurePoolName(cluster, acc.insecureHostNames[i], namespace, acc.created[i])
  {
    if m > 0 {
      MultiHostPoolPrefix(cluster, namespace, acc, m - 1);
      var prev := PoolPrefix(MultiHost, cluster, namespace, acc, m - 1);
      var p := prev + PoolEntries(MultiHost, cluster, namespace, acc, m - 1);
      assert PoolPrefix(MultiHost, cluster, namespace, acc, m) == p;
      forall i | 0 <= i < m - 1 ensures p[2 * i] == prev[2 * i] && p[2 * i + 1] == prev[2 * i + 1] {
      }
    }
  }

  /** Entry by entry, the pool list follows its kind's template. */
  lemma PoolPrefixShape(kind: IngressKind, cluster: string, namespace: string, acc: Accumulators, m: nat)
    requires PoolPrefixInRange(kind, acc, m)
    ensures var p := PoolPrefix(kind, cluster, namespace, acc, m);
      && |p| == (if kind == MultiHost then 2 * m else m)
      && (kind == Insecure ==> forall i :: 0 <= i < m ==> p[i] == InsecurePoolName(cluster, acc.hostNames[i], namespace, acc.created[i]))
      && (kind == Secure ==> forall i :: 0 <= i < m ==> p[i] == SecurePoolName(cluster, namespace, acc.hostNames[i], acc.created[i]))
      && (kind == MultiHost ==> forall i :: 0 <= i < m ==>
            && p[2 * i] == SecurePoolName(cluster, namespace, acc.secureHostNames[i], acc.created[i])
            && p[2 * i + 1] == InsecurePoolName(cluster, acc.insecureHostNames[i], namespace, acc.created[i]))
  {
    PoolPrefixLength(kind, cluster, namespace, acc, m);
    match kind
    case Insecure => InsecurePoolPrefix(cluster, namespace, acc, m);
    case Secure => SecurePoolPrefix(cluster, namespace, acc, m);
    case MultiHost => MultiHostPoolPrefix(cluster, namespace, acc, m);
    case Unrecognised =>
  }

  /**
    When no index is out of range the expected pool list has one entry per
    host name (two per multi-host ingress), each following its kind's template.
   */
  lemma ExpectedPoolListShape(kind: IngressKind, cluster: string, namespace: string, acc: Accumulators)
    requires ExpectedPoolList(kind, cluster, namespace, acc).Some?
    ensures var p := ExpectedPoolList(kind, cluster, namespace, acc).value;
      && (kind == Insecure || kind == Secure ==> |p| == |acc.hostNames|)
      && (kind == MultiHost ==> |p| == 2 * |acc.secureHostNames|)
      && (kind == Unrecognised ==> p == [])
      && (kind == Insecure ==> forall i :: 0 <= i < |p| ==> p[i] == InsecurePoolName(cluster, acc.hostNames[i], namespace, acc.created[i]))
      && (kind == Secure ==> forall i :: 0 <= i < |p| ==> p[i] == SecurePoolName(cluster, namespace, acc.hostNames[i], acc.created[i]))
      && (kind == MultiHost ==> forall i :: 0 <= i < |acc.secureHostNames| ==>
            && p[2 * i] == SecurePoolName(cluster, namespace, acc.secureHostNames[i], acc.created[i])
            && p[2 * i + 1] == InsecurePoolName(cluster, acc.insecureHostNames[i], namespace, acc.created[i]))
  {
    PoolPrefixShape(kind, cluster, namespace, acc, PoolLoopBound(kind, acc));
  }

  /** The expected pool list has one entry per loop iteration, two for multi-host. */
  lemma ExpectedPoolListLength(kind: IngressKind, cluster: string, namespace: string, acc: Accumulators)
    requires ExpectedPoolList(kind, cluster, namespace, acc).Some?
    ensures |ExpectedPoolList(kind, cluster, namespace, acc).value|
      == if kind == MultiHost then 2 * PoolLoopBound(kind, acc) else PoolLoopBound(kind, acc)
  {
    PoolPrefixShape(kind, cluster, namespace, acc, PoolLoopBound(kind, acc));
  }

  /** The loops at lines 197-216 of PoolVerification. */
  method BuildPoolList(kind: IngressKind, cluster: string, namespace: string, acc: Accumulators)
    returns (pools: Option<seq<string>>)
    ensures pools == ExpectedPoolList(kind, cluster, namespace, acc)
  {
    var ingressPoolList: seq<string> := [];
    if kind == Insecure || kind == Secure {
      for i := 0 to |acc.hostNames|
        invariant PoolPrefixInRange(kind, acc, i)
        invariant ingressPoolList == PoolPrefix(kind, cluster, namespace, acc, i)
      {
        if i >= |acc.created| {
          return None;
        }
        var ingressPoolName := if kind == Insecure
          then InsecurePoolName(cluster, acc.hostNames[i], namespace, acc.created[i])
          else SecurePoolName(cluster, namespace, acc.hostNames[i], acc.created[i]);
        ingressPoolList := ingressPoolList + [ingressPoolName];
      }
    } else if kind == MultiHost {
      for i := 0 to |acc.secureHostNames|
        invariant PoolPrefixInRange(kind, acc, i)
        invariant ingressPoolList == PoolPrefix(kind, cluster, namespace, acc, i)
      {
        if i >= |acc.created| || i >= |acc.insecureHostNames| {
          return None;
        }
        var ingressPoolName := SecurePoolName(cluster, namespace, acc.secureHostNames[i], acc.created[i]);
        ingressPoolList := ingressPoolList + [ingressPoolName];
        ingressPoolName := InsecurePoolName(cluster, acc.insecureHostNames[i], namespace, acc.created[i]);
        ingressPoolList := ingressPoolList + [ingressPoolName];
      }
    }
    pools := Some(ingressPoolList);
  }

  /** ingressVSList as VSVerification builds it: one name per created ingress. */
  function ExpectedVirtualServiceList(kind: IngressKind, cluster: string, created: seq<string>): seq<string>
  {
    seq(|created|, i requires 0 <= i < |created| => VirtualServiceName(cluster, created[i], kind == MultiHost))
  }

  /** The loop at lines 242-250 of VSVerification. */
  method BuildVirtualServiceList(kind: IngressKind, cluster: string, created: seq<string>) returns (names: seq<string>)
    ensures names == ExpectedVirtualServiceList(kind, cluster, created)
  {
    names := [];
    for i := 0 to |created|
      invariant |names| == i
      invariant forall k :: 0 <= k < i ==> names[k] == VirtualServiceName(cluster, created[k], kind == MultiHost)
    {
      if kind != MultiHost {
        names := names + [cluster + "--" + created[i] + ".avi.internal"];
      } else {
        names := names + [cluster + "--" + created[i] + "-secure.avi.internal"];
      }
    }
  }

  /** A list that ends with a suffix still does after something is put in front of it. */
  lemma EndsWithPrepend(head: string, s: string, suffix: string)
    requires EndsWith(s, suffix)
    ensures EndsWith(head + s, suffix)
  {
    assert (head + s)[|head + s| - |suffix|..] == s[|s| - |suffix|..];
  }

  /** Both virtual-service suffixes end in .avi.internal. */
  lemma VirtualServiceSuffixShape(multiHost: bool)
    ensures EndsWith(VirtualServiceSuffix(multiHost), ".avi.internal")
    ensures multiHost ==> VirtualServiceSuffix(multiHost) == "-secure" + ".avi.internal"
  {
    var tail := ".avi.internal";
    assert tail[|tail| - |tail|..] == tail;
    if multiHost {
      assert "-secure.avi.internal" == "-secure" + tail;
      EndsWithPrepend("-secure", tail, tail);
    }
  }

  /** One virtual-service name: the cluster and the ingress, then the kind's suffix. */
  lemma VirtualServiceNameShape(cluster: string, ingress: string, multiHost: bool)
    ensures var name := VirtualServiceName(cluster, ingress, multiHost);
      && name[..|cluster| + 2 + |ingress|] == cluster + "--" + ingress
      && EndsWith(name, ".avi.internal")
      && (multiHost ==> EndsWith(name, "-secure.avi.internal"))
  {
    var head := cluster + "--" + ingress;
    var suffix := VirtualServiceSuffix(multiHost);
    assert (head + suffix)[..|head|] == head;
    VirtualServiceSuffixShape(multiHost);
    EndsWithPrepend(head, suffix, ".avi.internal");
    if multiHost {
      assert suffix[|suffix| - |suffix|..] == suffix;
      EndsWithPrepend(head, suffix, suffix);
    }
  }

  /**
    The expected virtual-service list has one name per created ingress; name i
    starts with the cluster and ingress i, and ends in .avi.internal, in
    -secure.avi.internal for multi-host.
   */
  lemma ExpectedVirtualServiceListShape(kind: IngressKind, cluster: string, created: seq<string>)
    ensures var names := ExpectedVirtualServiceList(kind, cluster, created);
      && |names| == |created|
      && forall i :: 0 <= i < |names| ==>
           && names[i][..|cluster| + 2 + |created[i]|] == cluster + "--" + created[i]
           && EndsWith(names[i], ".avi.internal")
           && (kind == MultiHost ==> EndsWith(names[i], "-secure.avi.internal"))
  {
    var names := ExpectedVirtualServiceList(kind, cluster, created);
    forall i | 0 <= i < |names|
      ensures names[i][..|cluster| + 2 + |created[i]|] == cluster + "--" + created[i]
      ensures EndsWith(names[i], ".avi.internal")
      ensures kind == MultiHost ==> EndsWith(names[i], "-secure.avi.internal")
    {
      VirtualServiceNameShape(cluster, created[i], kind == MultiHost);
    }
  }

  /** Different ingresses get different virtual-service names. */
  lemma VirtualServiceNameInjective(cluster: string, a: string, b: string, multiHost: bool)
    requires VirtualServiceName(cluster, a, multiHost) == VirtualServiceName(cluster, b, multiHost)
    ensures a == b
  {
    var prefix := cluster + "--";
    var suffix := VirtualServiceSuffix(multiHost);
    var name := VirtualServiceName(cluster, a, multiHost);
    assert name == prefix + a + suffix;
    assert name == prefix + b + suffix;
    assert |a| == |b|;
    assert a == name[|prefix|..|prefix| + |a|];
    assert b == name[|prefix|..|prefix| + |b|];
  }

  /** Distinct ingress names give a duplicate-free expected virtual-service list. */
  lemma ExpectedVirtualServiceListDistinct(kind: IngressKind, cluster: string, created: seq<string>)
    requires NoDuplicates(created)
    ensures NoDuplicates(ExpectedVirtualServiceList(kind, cluster, created))
  {
    var names := ExpectedVirtualServiceList(kind, cluster, created);
    forall i, j | 0 <= i < j < |names| ensures names[i] != names[j] {
      if names[i] == names[j] {
        VirtualServiceNameInjective(cluster, created[i], created[j], kind == MultiHost);
      }
    }
  }
}
