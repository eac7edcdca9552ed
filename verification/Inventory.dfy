/**
 * Configured hosts and the checks they ask for (src/domain/host.rs, src/domain/tcp.rs and
 * the first half of `sync_epochs` in src/storage/sqlite/history/ingest.rs).
 */
module Inventory {
  import opened Prelude
  import opened History
  import opened Ingest

  datatype Module = Module(enabled: bool, interval: int, timeout: int)

  datatype TcpCheck = TcpCheck(id: string, port: int)

  datatype Host = Host(
    id: string,
    address: string,
    name: string,
    groups: seq<string>,
    icmp: Module,
    usage: Module,
    tcp: Module,
    tcpChecks: seq<TcpCheck>)
  {
    /** Durations are at least a millisecond and TCP check ids are unique. */
    predicate Valid() {
      && icmp.interval > 0 && icmp.timeout > 0
      && usage.interval > 0 && usage.timeout > 0
      && tcp.interval > 0 && tcp.timeout > 0
      && forall i, j :: 0 <= i < j < |tcpChecks| ==> tcpChecks[i].id != tcpChecks[j].id
    }
  }

  predicate ValidHosts(hosts: seq<Host>) {
    && (forall i :: 0 <= i < |hosts| ==> hosts[i].Valid())
    && (forall i, j :: 0 <= i < j < |hosts| ==> hosts[i].id != hosts[j].id)
  }

  function Freshness(interval: int, timeout: int): int {
    interval * 2 + timeout
  }

  function Want(host: Host, kind: string, check: string, m: Module, port: int): Wanted {
    var groups := set g | g in host.groups;
    Wanted(CheckKey(host.id, kind, check), host.name, groups,
           Signature(host.address, host.name, groups, m.interval, m.timeout, port),
           Freshness(m.interval, m.timeout))
  }

  function TcpWants(host: Host, n: nat): seq<Wanted>
    requires n <= |host.tcpChecks|
  {
    if n == 0 then []
    else TcpWants(host, n - 1) + [Want(host, "tcp", host.tcpChecks[n - 1].id, host.tcp, host.tcpChecks[n - 1].port)]
  }

  function HostWants(host: Host): seq<Wanted> {
    (if host.icmp.enabled then [Want(host, "icmp", "", host.icmp, 0)] else [])
    + (if host.usage.enabled then [Want(host, "usage", "", host.usage, 0)] else [])
    + (if host.tcp.enabled then TcpWants(host, |host.tcpChecks|) else [])
  }

  function Wants(hosts: seq<Host>): seq<Wanted> {
    if hosts == [] then [] else HostWants(hosts[0]) + Wants(hosts[1..])
  }

  predicate DistinctKeys(wanted: seq<Wanted>) {
    forall i, j :: 0 <= i < j < |wanted| ==> wanted[i].key != wanted[j].key
  }

  lemma {:induction false} TcpWantsDistinct(host: Host, n: nat)
    requires host.Valid() && n <= |host.tcpChecks|
    ensures |TcpWants(host, n)| == n && DistinctKeys(TcpWants(host, n))
    ensures forall i :: 0 <= i < n ==>
      TcpWants(host, n)[i].key == CheckKey(host.id, "tcp", host.tcpChecks[i].id) && TcpWants(host, n)[i].freshness > 0
  {
    if n > 0 {
      TcpWantsDistinct(host, n - 1);
    }
  }

  lemma HostWantsDistinct(host: Host)
    requires host.Valid()
    ensures DistinctKeys(HostWants(host))
    ensures forall w :: w in HostWants(host) ==> w.key.host == host.id && w.freshness > 0
  {
    TcpWantsDistinct(host, |host.tcpChecks|);
    var tcp := TcpWants(host, |host.tcpChecks|);
    assert forall w :: w in tcp ==> w.key.kind == "tcp" && w.key.host == host.id;
    assert "icmp"[0] != "usage"[0] && "icmp"[0] != "tcp"[0] && "usage"[0] != "tcp"[0];
  }

  /** One valid inventory never asks for the same check twice. */
  lemma {:induction false} WantsDistinct(hosts: seq<Host>)
    requires ValidHosts(hosts)
    ensures DistinctKeys(Wants(hosts))
    ensures forall w :: w in Wants(hosts) ==>
      w.freshness > 0 && exists i :: 0 <= i < |hosts| && w.key.host == hosts[i].id
  {
    if hosts != [] {
      HostWantsDistinct(hosts[0]);
      WantsDistinct(hosts[1..]);
      var first, rest := HostWants(hosts[0]), Wants(hosts[1..]);
      forall w | w in rest
        ensures w.key.host != hosts[0].id && exists i :: 0 <= i < |hosts| && w.key.host == hosts[i].id
      {
        var i :| 0 <= i < |hosts[1..]| && w.key.host == hosts[1..][i].id;
        assert hosts[1..][i] == hosts[i + 1];
      }
      forall i, j | 0 <= i < j < |first + rest|
        ensures (first + rest)[i].key != (first + rest)[j].key
      {
        if i < |first| <= j {
          assert first[i] in first && rest[j - |first|] in rest;
        }
      }
    }
  }
}
