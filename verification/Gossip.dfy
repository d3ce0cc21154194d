/** Gossiped node metrics: the receiver's version filter and the table it feeds.  Whatever the order of delivery and
    however often a message is repeated, every node ends up with the same tables. */
module Gossip {
  import opened Option

  datatype Metrics = Metrics(node: string, version: int, cpuUsage: real, ramFree: int, ramTotal: int)

  /** A packet is a report or cannot be decoded. */
  type Packet = Option<Metrics>

  /** Both tables of a receiver that has a network manager. */
  datatype Tables = Tables(versions: map<string, int>, metrics: map<string, Metrics>)

  const EMPTY_TABLES := Tables(map[], map[])

  // ---- the meaning of the filter ----------------------------------------------------------------

  function LastVersion(versions: map<string, int>, node: string): int {
    if node in versions then versions[node] else 0
  }

  predicate Stale(versions: map<string, int>, m: Metrics) {
    m.version <= LastVersion(versions, m.node)
  }

  function Receive(t: Tables, p: Packet): Tables {
    if p.None? || Stale(t.versions, p.value) then t
    else Tables(t.versions[p.value.node := p.value.version], t.metrics[p.value.node := p.value])
  }

  function Gossiped(packets: seq<Packet>): Tables {
    if packets == [] then EMPTY_TABLES
    else Receive(Gossiped(packets[..|packets| - 1]), packets[|packets| - 1])
  }

  // ---- what the tables hold ---------------------------------------------------------------------

  /** A report that some node can ever accept: the version that stands for "none yet" is 0. */
  ghost predicate Reported(packets: seq<Packet>, m: Metrics) {
    Some(m) in packets && 0 < m.version
  }

  /** The accepted report is one of the packets, and none of that node has a higher version. */
  ghost predicate IsLatest(packets: seq<Packet>, m: Metrics) {
    Reported(packets, m) && forall o :: Reported(packets, o) && o.node == m.node ==> o.version <= m.version
  }

  /** The two tables are in step, and hold for exactly the nodes with a positive report one of the latest. */
  ghost predicate Faithful(packets: seq<Packet>, t: Tables) {
    && t.versions.Keys == t.metrics.Keys
    && (forall n :: n in t.metrics ==>
      t.metrics[n].node == n && t.metrics[n].version == t.versions[n] && IsLatest(packets, t.metrics[n]))
    && (forall m :: Reported(packets, m) ==> m.node in t.metrics)
  }

  lemma {:induction false} TablesHoldTheLatest(packets: seq<Packet>)
    ensures Faithful(packets, Gossiped(packets))
  {
    if packets != [] {
      var front, p := packets[..|packets| - 1], packets[|packets| - 1];
      TablesHoldTheLatest(front);
      assert packets == front + [p];
      ReceiveKeepsFaith(front, Gossiped(front), p);
    }
  }

  lemma ReceiveKeepsFaith(packets: seq<Packet>, t: Tables, p: Packet)
    requires Faithful(packets, t)
    ensures Faithful(packets + [p], Receive(t, p))
  {
    var all, t' := packets + [p], Receive(t, p);
    assert forall m :: Reported(all, m) <==> Reported(packets, m) || (p == Some(m) && 0 < m.version);
    forall n | n in t'.metrics
      ensures t'.metrics[n].node == n && t'.metrics[n].version == t'.versions[n] && IsLatest(all, t'.metrics[n])
    {
      if p.Some? && p.value.node == n && p.value == t'.metrics[n] && !Stale(t.versions, p.value) {
        assert Reported(all, p.value);
      } else {
        assert IsLatest(packets, t.metrics[n]);
      }
    }
  }

  /** No node gives its highest version to two different reports. */
  ghost predicate OneLatest(packets: seq<Packet>) {
    forall m, o :: IsLatest(packets, m) && IsLatest(packets, o) && m.node == o.node ==> m == o
  }

  ghost predicate SameReports(a: seq<Packet>, b: seq<Packet>) {
    forall m :: Some(m) in a <==> Some(m) in b
  }

  /** Two receivers that got the same reports, in any orders, with any repetitions and any garbage in between, hold the
      same tables. */
  lemma DeliveriesConverge(a: seq<Packet>, b: seq<Packet>)
    requires OneLatest(a) && SameReports(a, b)
    ensures Gossiped(a) == Gossiped(b)
  {
    TablesHoldTheLatest(a);
    TablesHoldTheLatest(b);
    var s, t := Gossiped(a), Gossiped(b);
    assert forall m :: Reported(a, m) <==> Reported(b, m);
    forall n | n in s.metrics ensures n in t.metrics && t.metrics[n] == s.metrics[n] {
      assert Reported(b, s.metrics[n]);
      assert IsLatest(a, t.metrics[n]);
    }
    forall n | n in t.metrics ensures n in s.metrics { assert Reported(a, t.metrics[n]); }
    assert s.metrics == t.metrics;
    assert s.versions == t.versions;
  }

  /** The first report to arrive under a node's highest version is the one that stays. */
  lemma {:induction false} FirstLatestStays(m: Metrics, packets: seq<Packet>)
    requires 0 < m.version && forall o :: Some(o) in packets && o.node == m.node ==> o.version <= m.version
    ensures var t := Gossiped([Some(m)] + packets);
      m.node in t.metrics && t.metrics[m.node] == m && LastVersion(t.versions, m.node) == m.version
  {
    var all := [Some(m)] + packets;
    if packets == [] {
      assert all[..0] == [] && all[0] == Some(m);
      assert Gossiped(all) == Receive(EMPTY_TABLES, Some(m));
    } else {
      var front := packets[..|packets| - 1];
      assert all[..|all| - 1] == [Some(m)] + front;
      assert packets[|packets| - 1] in packets;
      FirstLatestStays(m, front);
    }
  }

  /** Convergence, exactly: the tables depend on the set of reports alone, if and only if no node ever gave its highest
      version to two different reports. */
  lemma ConvergesExactlyWhen(a: seq<Packet>)
    ensures OneLatest(a) <==> forall b, c :: SameReports(a, b) && SameReports(a, c) ==> Gossiped(b) == Gossiped(c)
  {
    if OneLatest(a) {
      forall b, c | SameReports(a, b) && SameReports(a, c) ensures Gossiped(b) == Gossiped(c) {
        DeliveriesConverge(a, b);
        DeliveriesConverge(a, c);
      }
    } else {
      var m, o :| IsLatest(a, m) && IsLatest(a, o) && m.node == o.node && m != o;
      assert Reported(a, m) && Reported(a, o);
      forall x | Some(x) in a && x.node == m.node ensures x.version <= m.version && x.version <= o.version {
        if 0 < x.version { assert Reported(a, x); }
      }
      FirstLatestStays(m, a);
      FirstLatestStays(o, a);
      assert SameReports(a, [Some(m)] + a) && SameReports(a, [Some(o)] + a);
    }
  }

  // ---- the two objects --------------------------------------------------------------------------

  class NetworkManager {
    var nodeMetrics: map<string, Metrics>

    constructor ()
      ensures nodeMetrics == map[]
    {
      nodeMetrics := map[];
    }

    method UpdateNodeMetrics(metrics: Metrics)
      modifies this
      ensures nodeMetrics == old(nodeMetrics)[metrics.node := metrics]
    {
      nodeMetrics := nodeMetrics[metrics.node := metrics];
    }

    method GetNodeMetrics(nodeID: string) returns (m: Option<Metrics>)
      ensures m.Some? <==> nodeID in nodeMetrics
      ensures m.Some? ==> m.value == nodeMetrics[nodeID]
    {
      return if nodeID in nodeMetrics then Some(nodeMetrics[nodeID]) else None;
    }
  }

  class MyDelegate {
    var nodeVersions: map<string, int>
    const netManager: NetworkManager?
    /** Every packet received so far. */
    ghost var received: seq<Packet>

    /** The version table is that of the packets received; so is the metrics table of the manager, if there is one. */
    ghost predicate Valid()
      reads this, netManager
    {
      nodeVersions == Gossiped(received).versions &&
      (netManager != null ==> netManager.nodeMetrics == Gossiped(received).metrics)
    }

    constructor (netManager: NetworkManager?)
      requires netManager != null ==> netManager.nodeMetrics == map[]
      ensures Valid() && received == [] && this.netManager == netManager
    {
      this.netManager, nodeVersions, received := netManager, map[], [];
    }

    method NotifyMsg(b: Packet)
      requires Valid()
      modifies this, netManager
      ensures Valid() && received == old(received) + [b]
    {
      received := received + [b];
      assert received[..|received| - 1] == old(received);
      if b.Some? {
        var metrics := b.value;
        var lastVersion := if metrics.node in nodeVersions then nodeVersions[metrics.node] else 0;
        if metrics.version <= lastVersion { return; }
        nodeVersions := nodeVersions[metrics.node := metrics.version];
        if netManager != null {
          netManager.UpdateNodeMetrics(metrics);
        }
      }
    }
  }
}
