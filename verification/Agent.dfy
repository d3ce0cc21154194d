/** The node agent: reports what its containers do, and fences stateful pods when the quorum is lost. */
module Agent {
  import opened Option
  import opened Pods
  import opened Collections
  import S = Scheduler

  /** A probe that is not configured, cannot be sent yet, or is of no known kind counts as passed. */
  function CheckHealth(probe: Option<Probe>, podIP: string, reply: bool): bool {
    probe.None? || podIP == "" || (probe.value.kind != "tcp" && probe.value.kind != "http") || reply
  }

  function AsRunning(p: Pod): Pod {
    if p.status == Scheduled then p.(status := Running) else p
  }

  /** The updates the agent sends about one pod; all of them expect the version it fetched. */
  function Reports(nodeID: string, p: Pod, seen: Observation, at: int): seq<Request> {
    if p.nodeID != nodeID || !p.Assigned() then []
    else match seen
      case CheckFailed => []
      case Stopped(started) =>
        if p.image == "" || started.None? then []
        else
          var q := AsRunning(p).(podIP := started.value);
          if q == p then [] else [S.UpdateRequest(q, Report(p, seen), at)]
      case Up(liveReply, readyReply) =>
        var q := AsRunning(p);
        var ready := CheckHealth(p.readinessProbe, p.podIP, readyReply);
        (if q == p then [] else [S.UpdateRequest(q, Report(p, seen), at)]) +
        (if CheckHealth(p.livenessProbe, p.podIP, liveReply) && ready != p.ready
         then [S.UpdateRequest(q.(ready := ready), Report(p, seen), at)] else [])
  }

  function Observations(nodeID: string, pods: seq<Pod>, n: nat, seen: seq<Observation>, at: int): seq<Request>
    requires n <= |pods| == |seen|
  {
    if n == 0 then [] else
      Observations(nodeID, pods, n - 1, seen, at) + Reports(nodeID, pods[n - 1], seen[n - 1], at)
  }

  function Fenced(p: Pod): Pod {
    p.(status := Pods.Fenced)
  }

  /** Fencing marks every stateful pod of the node, whatever its status. */
  function Fencings(nodeID: string, pods: seq<Pod>, n: nat, at: int): seq<Request>
    requires n <= |pods|
  {
    if n == 0 then [] else
      var p := pods[n - 1];
      Fencings(nodeID, pods, n - 1, at) +
      if p.nodeID == nodeID && p.isStateful then [S.UpdateRequest(Fenced(p), Fencing(p), at)] else []
  }

  class Agent {
    const nodeID: string
    const scheduler: S.Scheduler

    constructor (scheduler: S.Scheduler)
      ensures this.scheduler == scheduler && nodeID == scheduler.node.nodeID
    {
      this.scheduler, this.nodeID := scheduler, scheduler.node.nodeID;
    }

    method ReconcilePod(p: Pod, seen: Observation, at: int)
      requires p.nodeID == nodeID
      modifies scheduler`outbox
      ensures scheduler.outbox == old(scheduler.outbox) + Reports(nodeID, p, seen, at)
    {
      var pod := p;
      if pod.status == Pods.Fenced { return; }
      if pod.status == Scheduled || pod.status == Running {
        match seen {
          case CheckFailed =>
          case Stopped(started) =>
            if pod.image == "" || started.None? { return; }
            var needsUpdate := false;
            if pod.status == Scheduled {
              pod := pod.(status := Running);
              needsUpdate := true;
            }
            if pod.podIP != started.value {
              pod := pod.(podIP := started.value);
              needsUpdate := true;
            }
            if needsUpdate {
              scheduler.UpdatePod(pod, Report(p, seen), at);
            }
          case Up(liveReply, readyReply) =>
            if pod.status == Scheduled {
              pod := pod.(status := Running);
              scheduler.UpdatePod(pod, Report(p, seen), at);
            }
            if !CheckHealth(pod.livenessProbe, pod.podIP, liveReply) { return; }
            var readinessOK := CheckHealth(pod.readinessProbe, pod.podIP, readyReply);
            if readinessOK != pod.ready {
              pod := pod.(ready := readinessOK);
              scheduler.UpdatePod(pod, Report(p, seen), at);
            }
        }
      }
    }

    method Reconcile(pods: seq<Pod>, seen: seq<Observation>, at: int)
      requires |seen| == |pods|
      modifies scheduler`outbox
      ensures scheduler.outbox == old(scheduler.outbox) + Observations(nodeID, pods, |pods|, seen, at)
    {
      for i := 0 to |pods|
        invariant scheduler.outbox == old(scheduler.outbox) + Observations(nodeID, pods, i, seen, at)
      {
        AppendAssociative(old(scheduler.outbox), Observations(nodeID, pods, i, seen, at),
          Reports(nodeID, pods[i], seen[i], at));
        if pods[i].nodeID == nodeID {
          ReconcilePod(pods[i], seen[i], at);
        }
      }
    }

    method FenceStatefulPods(pods: seq<Pod>, at: int)
      modifies scheduler`outbox
      ensures scheduler.outbox == old(scheduler.outbox) + Fencings(nodeID, pods, |pods|, at)
    {
      for i := 0 to |pods|
        invariant scheduler.outbox == old(scheduler.outbox) + Fencings(nodeID, pods, i, at)
      {
        var pod := pods[i];
        if pod.nodeID == nodeID && pod.isStateful {
          pod := pod.(status := Pods.Fenced);
          scheduler.UpdatePod(pod, Fencing(pods[i]), at);
        }
      }
    }
  }
}
