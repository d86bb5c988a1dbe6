/** Addresses, ports and peer lists of a generated devnet. */
module Devnet {
  import opened Words

  // ----- ports

  datatype Ports = Ports(rpc: int, p2p: int, api: int, grpc: int, grpcWeb: int, pprof: int, prometheus: int,
                         evmRpc: int, evmWs: int, proxyApp: int)

  const DEFAULT_PORTS := Ports(26657, 26656, 10337, 9900, 9091, 6060, 26660, 8545, 8546, 26658)

  function ShiftPorts(p: Ports, offset: int): Ports {
    Ports(p.rpc + 100 * offset, p.p2p + 100 * offset, p.api + 100 * offset, p.grpc + 100 * offset,
          p.grpcWeb + 100 * offset, p.pprof + 100 * offset, p.prometheus + 100 * offset,
          p.evmRpc + 100 * offset, p.evmWs + 100 * offset, p.proxyApp + 100 * offset)
  }

  function List(p: Ports): seq<int> {
    [p.rpc, p.p2p, p.api, p.grpc, p.grpcWeb, p.pprof, p.prometheus, p.evmRpc, p.evmWs, p.proxyApp]
  }

  /** The k-th port of node i. */
  function PortOf(i: nat, k: nat): int
    requires k < 10
  {
    List(ShiftPorts(DEFAULT_PORTS, i))[k]
  }

  /** The ports of validator i. */
  lemma PortTable(i: nat)
    ensures ShiftPorts(DEFAULT_PORTS, i)
            == Ports(26657 + 100 * i, 26656 + 100 * i, 10337 + 100 * i, 9900 + 100 * i, 9091 + 100 * i,
                     6060 + 100 * i, 26660 + 100 * i, 8545 + 100 * i, 8546 + 100 * i, 26658 + 100 * i)
  {
  }

  lemma PortForm(i: nat, k: nat)
    requires k < 10
    ensures PortOf(i, k) == List(DEFAULT_PORTS)[k] + 100 * i
  {
  }

  lemma SameResidue(a: int, b: int, i: int, j: int)
    requires a + 100 * i == b + 100 * j
    ensures a % 100 == b % 100 && 100 * (i - j) == b - a
  {
    assert a == b + 100 * (j - i);
  }

  /** Ports of two validators meet only where the defaults agree modulo 100: pprof and prometheus, 206 apart. */
  lemma PortClash(i: nat, k: nat, j: nat, m: nat)
    requires k < 10 && m < 10 && PortOf(i, k) == PortOf(j, m)
    ensures (i == j && k == m) || (k == 5 && m == 6 && i == j + 206) || (k == 6 && m == 5 && j == i + 206)
  {
    PortForm(i, k);
    PortForm(j, m);
    SameResidue(List(DEFAULT_PORTS)[k], List(DEFAULT_PORTS)[m], i, j);
  }

  /** Ports of a native devnet: validators are shifted, the sentry nodes behind them keep the defaults. */
  function NodePort(validators: nat, i: nat, k: nat): int
    requires k < 10
  {
    PortOf(if i < validators then i else 0, k)
  }

  ghost predicate PortsDistinct(validators: nat, sentries: nat) {
    var nodes := validators + sentries;
    forall i: nat, k: nat, j: nat, m: nat | i < nodes && j < nodes && k < 10 && m < 10 ::
      NodePort(validators, i, k) == NodePort(validators, j, m) ==> i == j && k == m
  }

  /**
   On one host, ports are pairwise distinct exactly for up to 206 validators without a sentry node, or for a single
   node.
   */
  lemma PortsDistinctExactly(validators: nat, sentries: nat)
    ensures PortsDistinct(validators, sentries) <==> validators <= 206 && (sentries == 0 || validators + sentries == 1)
  {
    if validators > 206 {
      assert NodePort(validators, 206, 5) == NodePort(validators, 0, 6);
    } else if sentries > 0 && validators + sentries > 1 {
      assert NodePort(validators, validators + sentries - 1, 0) == NodePort(validators, 0, 0);
    } else {
      forall i: nat, k: nat, j: nat, m: nat
        | i < validators + sentries && j < validators + sentries && k < 10 && m < 10
          && NodePort(validators, i, k) == NodePort(validators, j, m)
        ensures i == j && k == m
      {
        PortClash(if i < validators then i else 0, k, if j < validators then j else 0, m);
      }
    }
  }

  /** Up to 206 validators all of them are valid port numbers. */
  lemma PortsValid(validators: nat, i: nat, k: nat)
    requires validators <= 206 && k < 10
    ensures 0 < NodePort(validators, i, k) < 65536
  {
    PortForm(if i < validators then i else 0, k);
  }

  // ----- addresses

  /** The last octet is advanced past the gateway, wrapping like a byte. */
  method IpInSubnet(network: seq<byte>, offset: nat) returns (ip: array<byte>)
    requires |network| == 4
    ensures fresh(ip) && ip[..] == NodeIp(network, offset)
    ensures ip[..3] == network[..3] && ip[3] == (network[3] as int + offset + 1) % 256
  {
    ip := new byte[4](i requires 0 <= i < 4 => network[i]);
    assert ip[..] == network;
    ip[3] := Add8(ip[3], offset + 1);
  }

  function NodeIp(network: seq<byte>, offset: nat): seq<byte>
    requires |network| == 4
  {
    network[3 := Add8(network[3], offset + 1)]
  }

  /** Validators first, then sentry nodes: node k of the whole network is at offset k + 1. */
  function IpOfNode(network: seq<byte>, k: nat): seq<byte>
    requires |network| == 4
  {
    NodeIp(network, k + 1)
  }

  /** Only the last octet varies; the first node is two past the network's own address. */
  lemma NodeAddress(network: seq<byte>, k: nat)
    requires |network| == 4
    ensures var ip := IpOfNode(network, k);
            |ip| == 4 && ip[..3] == network[..3] && ip[3] == (network[3] as int + k + 2) % 256
  {
  }

  ghost predicate AddressesDistinct(network: seq<byte>, nodes: nat)
    requires |network| == 4
  {
    forall i: nat, j: nat :: i < j < nodes ==> IpOfNode(network, i) != IpOfNode(network, j)
  }

  lemma SameIp(network: seq<byte>, i: nat, j: nat)
    requires |network| == 4 && i < j
    ensures IpOfNode(network, i) == IpOfNode(network, j) <==> (j - i) % 256 == 0
  {
    var a, b := IpOfNode(network, i), IpOfNode(network, j);
    assert a == b <==> a[3] == b[3] by {
      assert a == b[3 := a[3]];
    }
    ModuloShift(network[3] as int + i + 2, j - i);
  }

  lemma ModuloShift(x: nat, d: nat)
    ensures x % 256 == (x + d) % 256 <==> d % 256 == 0
  {
  }

  /** Addresses in the subnet are pairwise distinct exactly for up to 256 nodes in total. */
  lemma AddressesDistinctExactly(network: seq<byte>, nodes: nat)
    requires |network| == 4
    ensures AddressesDistinct(network, nodes) <==> nodes <= 256
  {
    if nodes <= 256 {
      forall i: nat, j: nat | i < j < nodes ensures IpOfNode(network, i) != IpOfNode(network, j) {
        SameIp(network, i, j);
      }
    } else {
      SameIp(network, 0, 256);
      assert IpOfNode(network, 0) == IpOfNode(network, 256);
    }
  }

  // ----- peers

  function Without(list: seq<string>, value: string): seq<string> {
    if list == [] then []
    else Without(list[..|list| - 1], value) + if list[|list| - 1] != value then [list[|list| - 1]] else []
  }

  method FilterStringValue(list: seq<string>, filter: string) returns (kept: seq<string>)
    ensures kept == Without(list, filter)
    ensures forall v :: v in kept <==> v in list && v != filter
    ensures multiset(kept) == multiset(list)[filter := 0]
  {
    WithoutContents(list, filter);
    kept := [];
    for i := 0 to |list|
      invariant kept == Without(list[..i], filter)
    {
      assert list[..i + 1][..i] == list[..i];
      if list[i] != filter {
        kept := kept + [list[i]];
      }
    }
    assert list[..|list|] == list;
  }

  /** Every other value is kept, as often as it occurs. */
  lemma {:induction false} WithoutCounts(list: seq<string>, value: string, v: string)
    ensures multiset(Without(list, value))[v] == if v == value then 0 else multiset(list)[v]
  {
    if list != [] {
      var n := |list| - 1;
      WithoutCounts(list[..n], value, v);
      assert list == list[..n] + [list[n]];
      CountLast(list[..n], list[n], v);
      CountLast(Without(list[..n], value), list[n], v);
      assert list[n] == value ==> Without(list, value) == Without(list[..n], value);
    }
  }

  lemma CountLast(a: seq<string>, x: string, v: string)
    ensures multiset(a + [x])[v] == multiset(a)[v] + if v == x then 1 else 0
  {
    assert multiset(a + [x]) == multiset(a) + multiset{x};
  }

  lemma WithoutContents(list: seq<string>, value: string)
    ensures multiset(Without(list, value)) == multiset(list)[value := 0]
    ensures forall v :: v in Without(list, value) <==> v in list && v != value
  {
    var kept := Without(list, value);
    forall v ensures multiset(kept)[v] == multiset(list)[value := 0][v] && (v in kept <==> v in list && v != value) {
      WithoutCounts(list, value, v);
      assert v in kept <==> v in multiset(kept);
      assert v in list <==> v in multiset(list);
    }
  }

  lemma {:induction false} WithoutAbsent(list: seq<string>, value: string)
    requires value !in list
    ensures Without(list, value) == list
  {
    if list != [] {
      WithoutAbsent(list[..|list| - 1], value);
    }
  }

  /** With distinct peer strings a validator's peers are all the others, in order. */
  lemma {:induction false} PeersAreTheOthers(peers: seq<string>, i: nat)
    requires i < |peers| && forall j, k :: 0 <= j < k < |peers| ==> peers[j] != peers[k]
    ensures Without(peers, peers[i]) == peers[..i] + peers[i + 1..]
  {
    var n := |peers| - 1;
    if i == n {
      WithoutAbsent(peers[..n], peers[i]);
      assert peers[i + 1..] == [];
    } else {
      PeersAreTheOthers(peers[..n], i);
      assert peers[i + 1..] == peers[..n][i + 1..] + [peers[n]];
    }
  }
}
