/** What the agent reports about a pod, in terms of what it observed: addresses, readiness and fencing. */
module AgentRules {
  import opened Option
  import opened Pods
  import opened StateMachine
  import opened Collections
  import opened A = Agent
  import S = Scheduler

  /** A compare-and-swap from the version read to the next one. */
  function Update(p: Pod, v: Pod): Pods.Command {
    Cas("pod:" + p.id, v.(resourceVersion := p.resourceVersion + 1), p.resourceVersion)
  }

  /** The probe is of a known kind and there is an address to ask at: otherwise it cannot fail. */
  predicate Asked(probe: Option<Probe>, podIP: string) {
    probe.Some? && probe.value.kind in {"tcp", "http"} && podIP != ""
  }

  /** The record as it stands once the updates have been sent: the last one sent, or the fetched one. */
  function LastSent(p: Pod, reqs: seq<Request>): Pod {
    if reqs != [] && reqs[|reqs| - 1].cmd.Cas? then reqs[|reqs| - 1].cmd.value else p
  }

  /** A container that was stopped: the address at which it was started is reported unless it is known already, and
      so is that it runs. */
  lemma RestartsAreReported(nodeID: string, p: Pod, started: Option<string>, at: int)
    requires p.nodeID == nodeID && p.status in {Scheduled, Running}
    ensures var reqs := Reports(nodeID, p, Stopped(started), at);
      if p.image == "" || started.None? || (p.status == Running && p.podIP == started.value) then reqs == []
      else |reqs| == 1 && reqs[0].sentAt == at &&
           reqs[0].cmd == Update(p, p.(status := Running, podIP := started.value))
  {
  }

  /** A running container whose liveness probe fails: that it runs is reported if that is news, and nothing about its
      readiness. */
  lemma FailuresAreNotReported(nodeID: string, p: Pod, readyReply: bool, at: int)
    requires p.nodeID == nodeID && p.status in {Scheduled, Running}
    requires Asked(p.livenessProbe, p.podIP)
    ensures var reqs := Reports(nodeID, p, Up(false, readyReply), at);
      if p.status == Running then reqs == []
      else |reqs| == 1 && reqs[0].sentAt == at && reqs[0].cmd == Update(p, p.(status := Running))
  {
  }

  /** A running container whose liveness probe does not fail: once the updates are sent its record says Running, and
      ready exactly if no TCP or HTTP readiness probe with an address to ask fails.  There is one update for each of the
      two that changes, each expects the version that was fetched, and nothing else in the record changes. */
  lemma ReadinessIsReported(nodeID: string, p: Pod, liveReply: bool, readyReply: bool, at: int)
    requires p.nodeID == nodeID && p.status in {Scheduled, Running}
    requires Asked(p.livenessProbe, p.podIP) ==> liveReply
    ensures var reqs := Reports(nodeID, p, Up(liveReply, readyReply), at);
      var ready := LastSent(p, reqs).ready;
      && (ready <==> (Asked(p.readinessProbe, p.podIP) ==> readyReply))
      && LastSent(p, reqs).status == Running
      && |reqs| == (if p.status == Scheduled then 1 else 0) + (if ready != p.ready then 1 else 0)
      && (p.status == Scheduled ==> reqs[0].cmd == Update(p, p.(status := Running)))
      && (ready != p.ready ==> reqs[|reqs| - 1].cmd == Update(p, p.(status := Running, ready := ready)))
      && forall r :: r in reqs ==> r.sentAt == at
  {
  }

  /** Nothing is reported of other nodes' pods, of pods that are not assigned, or when the runtime gave no answer. */
  lemma OthersAreNotReported(nodeID: string, p: Pod, seen: Observation, at: int)
    requires p.nodeID != nodeID || p.status !in {Scheduled, Running} || seen == CheckFailed
    ensures Reports(nodeID, p, seen, at) == []
  {
  }

  ghost predicate AreReports(nodeID: string, pods: seq<Pod>, n: nat, seen: seq<Observation>, at: int,
    blocks: seq<seq<Request>>) {
    |blocks| == n <= |pods| == |seen| && forall i :: 0 <= i < n ==> blocks[i] == Reports(nodeID, pods[i], seen[i], at)
  }

  /** A pass of the agent sends its reports pod by pod, in the order of the list. */
  lemma {:induction false} ReportsInOrder(nodeID: string, pods: seq<Pod>, n: nat, seen: seq<Observation>, at: int)
    requires n <= |pods| == |seen|
    ensures exists blocks :: AreReports(nodeID, pods, n, seen, at, blocks) &&
              Observations(nodeID, pods, n, seen, at) == Concat(blocks)
  {
    hide Reports;
    if n == 0 {
      var none: seq<seq<Request>> := [];
      assert AreReports(nodeID, pods, n, seen, at, none) && Observations(nodeID, pods, n, seen, at) == Concat(none);
    } else {
      ReportsInOrder(nodeID, pods, n - 1, seen, at);
      var blocks :| AreReports(nodeID, pods, n - 1, seen, at, blocks) &&
        Observations(nodeID, pods, n - 1, seen, at) == Concat(blocks);
      var last := Reports(nodeID, pods[n - 1], seen[n - 1], at);
      ConcatMore(blocks, last);
      assert AreReports(nodeID, pods, n, seen, at, blocks + [last]);
    }
  }

  ghost predicate AreFencings(nodeID: string, pods: seq<Pod>, n: nat, at: int, due: seq<nat>, reqs: seq<Request>) {
    Ascending(due, n) &&
    (forall i: nat :: i in due <==> i < n && i < |pods| && pods[i].nodeID == nodeID && pods[i].isStateful) &&
    |reqs| == |due| &&
    forall k :: 0 <= k < |due| ==> due[k] < |pods| && Fences(pods[due[k]], at, reqs[k])
  }

  ghost predicate Fences(p: Pod, at: int, r: Request) {
    r.cmd == Update(p, p.(status := Pods.Fenced)) && r.sentAt == at
  }

  /** Fencing writes Fenced into the record of each stateful pod of the node, once, in the order of the list. */
  lemma {:induction false} FencingsExactly(nodeID: string, pods: seq<Pod>, n: nat, at: int)
    requires n <= |pods|
    ensures exists due: seq<nat> :: AreFencings(nodeID, pods, n, at, due, Fencings(nodeID, pods, n, at))
  {
    hide AreFencings, Fences;
    if n == 0 {
      NoFencings(nodeID, pods, at);
      assert Fencings(nodeID, pods, n, at) == [];
    } else {
      FencingsExactly(nodeID, pods, n - 1, at);
      var p, earlier := pods[n - 1], Fencings(nodeID, pods, n - 1, at);
      var due: seq<nat> :| AreFencings(nodeID, pods, n - 1, at, due, earlier);
      var last := if p.nodeID == nodeID && p.isStateful then [S.UpdateRequest(A.Fenced(p), Fencing(p), at)] else [];
      assert last != [] ==> Fences(p, at, last[0]) by { FencedPod(p, at); }
      var more := OneMoreFencing(nodeID, pods, n - 1, at, due, earlier, last);
      assert AreFencings(nodeID, pods, n, at, more, Fencings(nodeID, pods, n, at));
    }
  }

  lemma FencedPod(p: Pod, at: int)
    ensures Fences(p, at, S.UpdateRequest(A.Fenced(p), Fencing(p), at))
  {
  }

  lemma NoFencings(nodeID: string, pods: seq<Pod>, at: int)
    ensures exists due: seq<nat> :: AreFencings(nodeID, pods, 0, at, due, [])
  {
    var due: seq<nat> := [];
    assert AreFencings(nodeID, pods, 0, at, due, []);
  }

  lemma OneMoreFencing(nodeID: string, pods: seq<Pod>, n: nat, at: int, due: seq<nat>, reqs: seq<Request>,
          last: seq<Request>) returns (more: seq<nat>)
    requires n < |pods| && AreFencings(nodeID, pods, n, at, due, reqs)
    requires if pods[n].nodeID == nodeID && pods[n].isStateful then |last| == 1 && Fences(pods[n], at, last[0])
      else last == []
    ensures AreFencings(nodeID, pods, n + 1, at, more, reqs + last)
  {
    AscendingMore(due, n);
    hide Ascending, Fences;
    more := if pods[n].nodeID == nodeID && pods[n].isStateful then due + [n] else due;
  }
}
