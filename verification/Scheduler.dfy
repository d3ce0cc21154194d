/** The scheduling loops of one node: rolling-update sweep, standby promotion, claim, lease renewal.
    Each loop is proved against the sequence of requests it must send. */
module Scheduler {
  import opened Option
  import opened Names
  import opened StateMachine
  import opened Pods
  import opened Collections

  /** What a node knows about itself. */
  datatype Node = Node(nodeID: string, arch: string, freeRAM: int)

  // ---- what the loops look for ------------------------------------------------------------------

  /** One dependency is met by an Active pod of that app that has started, or is healthy if that is asked. */
  predicate Meets(p: Pod, app: string, condition: string) {
    p.app == app && p.role == Active &&
    if condition == "service_healthy" then p.status == Running && p.ready else p.Assigned()
  }

  predicate DependenciesMet(pods: seq<Pod>, dependsOn: map<string, string>) {
    forall app :: app in dependsOn ==> exists p :: p in pods && Meets(p, app, dependsOn[app])
  }

  /** The architecture and memory filter; the 90% rule in whole numbers. */
  predicate Fits(node: Node, p: Pod) {
    (p.arch == "" || p.arch == node.arch) && 10 * p.ramReq <= 9 * node.freeRAM
  }

  predicate Eligible(node: Node, pods: seq<Pod>, p: Pod, now: int) {
    p.Needy(now) && DependenciesMet(pods, p.dependsOn) && Fits(node, p)
  }

  /** A pod of this app whose holder is taken for dead: its lease has run out, and the oracle, if there is one,
      does not call its node alive, unless the pod is fenced. */
  predicate ConfirmedDead(p: Pod, app: string, now: int, oracle: Oracle) {
    p.app == app && p.role == Active && 0 < p.leaseExpiresAt < now &&
    (oracle.Some? && p.nodeID in oracle.value ==> p.status == Fenced)
  }

  predicate LocalStandby(node: Node, p: Pod) {
    p.nodeID == node.nodeID && p.role == Standby && p.Assigned()
  }

  predicate Superseded(pods: seq<Pod>, p: Pod) {
    p.updateToPodID != "" &&
    var i := IndexOf(pods, p.updateToPodID);
    i < |pods| && TakenOver(pods[i])
  }

  /** Where the pod with this ID is listed. */
  function IndexOf(pods: seq<Pod>, id: string): nat {
    FirstIndex(pods, (q: Pod) => q.id == id)
  }

  /** The pod at this position is the first one listed under the ID. */
  ghost predicate FirstUnderID(pods: seq<Pod>, id: string, k: nat) {
    k < |pods| && pods[k].id == id && forall j :: 0 <= j < k ==> pods[j].id != id
  }

  lemma OneFirst(pods: seq<Pod>, id: string, found: nat)
    requires found <= |pods| && (found < |pods| ==> pods[found].id == id)
    requires forall j :: 0 <= j < found ==> pods[j].id != id
    ensures forall k: nat :: FirstUnderID(pods, id, k) ==> k == found < |pods|
  {
  }

  /** A replacement has taken over when it runs, and is ready if it has a readiness probe. */
  predicate TakenOver(p: Pod) {
    p.status == Running && (p.readinessProbe.None? || p.ready)
  }

  /** The first position with a property, or the length if there is none. */
  function FirstIndex<T>(s: seq<T>, p: T -> bool): (i: nat)
    ensures i <= |s|
    ensures i < |s| ==> p(s[i])
    ensures forall j :: 0 <= j < i ==> !p(s[j])
  {
    if s == [] || p(s[0]) then 0 else
      var i := FirstIndex(s[1..], p);
      assert forall j :: 1 <= j < 1 + i ==> s[j] == s[1..][j - 1];
      1 + i
  }

  lemma FirstIndexUnique<T>(s: seq<T>, p: T -> bool, i: nat)
    requires i <= |s| && (i < |s| ==> p(s[i])) && forall j :: 0 <= j < i ==> !p(s[j])
    ensures FirstIndex(s, p) == i
  {
  }

  // ---- the requests each loop sends -------------------------------------------------------------

  function LockRequest(node: Node, p: Pod, at: int, why: Reason): Request {
    Request(Cas(p.Key(), Locked(p, node.nodeID, at), p.resourceVersion), why, at)
  }

  function UpdateRequest(p: Pod, why: Reason, at: int): Request {
    Request(Cas(p.Key(), Bumped(p), p.resourceVersion), why, at)
  }

  function NewStandby(standby: Pod, nano: nat): Pod {
    EMPTY_POD.(id := ReplacementName(standby.app, nano), status := Pending, role := Standby,
      app := standby.app, cpuReq := standby.cpuReq, ramReq := standby.ramReq, arch := standby.arch)
  }

  function ReplacementRequest(standby: Pod, nano: nat, at: int): Request {
    var p := NewStandby(standby, nano);
    Request(Cas(p.Key(), p, 0), Replacement(standby, nano), at)
  }

  function SweepRequest(p: Pod, successor: Pod, at: int): Request {
    Request(Del(p.Key()), Sweep(p, successor), at)
  }

  /** Deletes for the superseded pods among the first `n`, in order. */
  function Sweeps(pods: seq<Pod>, n: nat, at: int): seq<Request>
    requires n <= |pods|
  {
    if n == 0 then [] else
      Sweeps(pods, n - 1, at) + SweepOf(pods, pods[n - 1], at)
  }

  function SweepOf(pods: seq<Pod>, p: Pod, at: int): seq<Request> {
    if Superseded(pods, p)
    then [SweepRequest(p, pods[IndexOf(pods, p.updateToPodID)], at)]
    else []
  }

  /** The first local standby with a dead Active of its app is promoted, and a replacement ordered. */
  function Promotions(node: Node, pods: seq<Pod>, now: int, oracle: Oracle, at: int, nano: nat): seq<Request> {
    var i := PromotableIndex(node, pods, now, oracle);
    if i == |pods| then [] else
      var victim := pods[VictimIndex(pods, pods[i].app, now, oracle)];
      PromotionRequests(node, pods[i], victim, now, oracle, at, nano)
  }

  function PromotionRequests(node: Node, p: Pod, victim: Pod, now: int, oracle: Oracle, at: int,
          nano: nat): seq<Request> {
    [LockRequest(node, Promoted(p), at, Promotion(p, victim, now, oracle)), ReplacementRequest(p, nano, at)]
  }

  function Promoted(p: Pod): Pod {
    p.(role := Active, status := Running)
  }

  /** Where the first dead Active pod of an app is listed. */
  function VictimIndex(pods: seq<Pod>, app: string, now: int, oracle: Oracle): (i: nat)
    ensures i <= |pods|
    ensures i < |pods| ==> ConfirmedDead(pods[i], app, now, oracle)
  {
    FirstIndex(pods, (q: Pod) => ConfirmedDead(q, app, now, oracle))
  }

  /** Where the first local standby is listed that has such a victim. */
  function PromotableIndex(node: Node, pods: seq<Pod>, now: int, oracle: Oracle): (i: nat)
    ensures i <= |pods|
    ensures i < |pods| ==> LocalStandby(node, pods[i]) && VictimIndex(pods, pods[i].app, now, oracle) < |pods|
  {
    FirstIndex(pods, (p: Pod) => LocalStandby(node, p) && VictimIndex(pods, p.app, now, oracle) < |pods|)
  }

  /** At most one claim a cycle: the first eligible pod in key order. */
  function Claims(node: Node, pods: seq<Pod>, now: int, at: int): seq<Request> {
    var i := FirstIndex(pods, (p: Pod) => Eligible(node, pods, p, now));
    if i == |pods| then [] else [LockRequest(node, pods[i], at, Claim(pods[i], now))]
  }

  /** One scheduling cycle: `now` is read after the fetch, `promoteAt` and `claimAt` when the locks are sent. */
  function Reconciliation(node: Node, pods: seq<Pod>, now: int, oracle: Oracle, promoteAt: int, nano: nat,
          claimAt: int): seq<Request> {
    Sweeps(pods, |pods|, now) + Promotions(node, pods, now, oracle, promoteAt, nano) + Claims(node, pods, now, claimAt)
  }

  /** Renewals for the first `n` pods: own, assigned, and running if container state can be checked. */
  function Renewals(node: Node, pods: seq<Pod>, n: nat, running: Option<seq<bool>>, times: seq<int>): seq<Request>
    requires n <= |pods| == |times| && (running.Some? ==> |running.value| == |pods|)
  {
    if n == 0 then [] else
      var p := pods[n - 1];
      Renewals(node, pods, n - 1, running, times) +
      RenewalOf(node, p, running.Some? ==> running.value[n - 1], times[n - 1])
  }

  function RenewalOf(node: Node, p: Pod, running: bool, at: int): seq<Request> {
    if p.nodeID == node.nodeID && p.Assigned() && running then [LockRequest(node, p, at, Renewal(p))] else []
  }

  // ---- the loops --------------------------------------------------------------------------------

  class Scheduler {
    const node: Node
    /** Everything posted to the apply endpoint so far. */
    var outbox: seq<Request>

    constructor (node: Node)
      ensures this.node == node && outbox == []
    {
      this.node, outbox := node, [];
    }

    method TryLockPod(p: Pod, at: int, why: Reason)
      modifies this`outbox
      ensures outbox == old(outbox) + [LockRequest(node, p, at, why)]
      ensures outbox == old(outbox) + [Request(Cas("pod:" + p.id,
        p.(status := if p.status in {Pending, Blank} then Scheduled else p.status, nodeID := node.nodeID,
           resourceVersion := p.resourceVersion + 1, leaseExpiresAt := at + 15), p.resourceVersion), why, at)]
    {
      var pod := p;
      var expectedVersion := pod.resourceVersion;
      if pod.status == Pending || pod.status == Blank {
        pod := pod.(status := Scheduled);
      }
      pod := pod.(nodeID := node.nodeID);
      pod := pod.(resourceVersion := pod.resourceVersion + 1);
      pod := pod.(leaseExpiresAt := at + LEASE);
      outbox := outbox + [Request(Cas(PodKey(pod.id), pod, expectedVersion), why, at)];
    }

    method UpdatePod(p: Pod, why: Reason, at: int)
      modifies this`outbox
      ensures outbox == old(outbox) + [UpdateRequest(p, why, at)]
      ensures outbox == old(outbox) +
        [Request(Cas("pod:" + p.id, p.(resourceVersion := p.resourceVersion + 1), p.resourceVersion), why, at)]
    {
      var pod := p;
      var expectedVersion := pod.resourceVersion;
      pod := pod.(resourceVersion := pod.resourceVersion + 1);
      outbox := outbox + [Request(Cas(PodKey(pod.id), pod, expectedVersion), why, at)];
    }

    method DeletePod(p: Pod, successor: Pod, at: int)
      modifies this`outbox
      ensures outbox == old(outbox) + [SweepRequest(p, successor, at)]
      ensures outbox == old(outbox) + [Request(Del("pod:" + p.id), Sweep(p, successor), at)]
    {
      outbox := outbox + [Request(Del(PodKey(p.id)), Sweep(p, successor), at)];
    }

    /** A blank standby with the promoted one's app, requirements and architecture, and no dependencies. */
    method CreateNewStandbyPod(standby: Pod, nano: nat, at: int)
      modifies this`outbox
      ensures outbox == old(outbox) + [ReplacementRequest(standby, nano, at)]
    {
      var newPod := EMPTY_POD.(id := ReplacementName(standby.app, nano), status := Pending, role := Standby,
        app := standby.app, cpuReq := standby.cpuReq, ramReq := standby.ramReq, arch := standby.arch,
        resourceVersion := 0);
      outbox := outbox + [Request(Cas(PodKey(newPod.id), newPod, 0), Replacement(standby, nano), at)];
    }

    method CheckDependencies(pods: seq<Pod>, dependsOn: map<string, string>) returns (met: bool)
      ensures met <==> DependenciesMet(pods, dependsOn)
      ensures met <==> forall app :: app in dependsOn ==>
        exists p :: p in pods && p.app == app && p.role == Active && p.status in {Scheduled, Running} &&
          (dependsOn[app] == "service_healthy" ==> p.status == Running && p.ready)
    {
      var todo := dependsOn.Keys;
      while todo != {}
        invariant todo <= dependsOn.Keys
        invariant forall app :: app in dependsOn && app !in todo ==>
          exists p :: p in pods && Meets(p, app, dependsOn[app])
        decreases todo
      {
        var depApp :| depApp in todo;
        var condition := dependsOn[depApp];
        met := false;
        for i := 0 to |pods|
          invariant !met && forall j :: 0 <= j < i ==> !Meets(pods[j], depApp, condition)
        {
          var p := pods[i];
          if p.app == depApp && p.role == Active {
            if condition == "service_healthy" {
              if p.status == Running && p.ready { met := true; }
            } else if p.status == Running || p.status == Scheduled {
              met := true;
            }
          }
          if met {
            assert p in pods && Meets(p, depApp, condition);
            break;
          }
        }
        if !met { return false; }
        todo := todo - {depApp};
      }
      return true;
    }

    method ReconcileStandby(pods: seq<Pod>, now: int, oracle: Oracle, at: int, nano: nat)
      modifies this`outbox
      ensures outbox == old(outbox) + Promotions(node, pods, now, oracle, at, nano)
    {
      ghost var promotable := (p: Pod) => LocalStandby(node, p) && VictimIndex(pods, p.app, now, oracle) < |pods|;
      for i := 0 to |pods|
        invariant outbox == old(outbox)
        invariant forall j :: 0 <= j < i ==> !promotable(pods[j])
      {
        var localPod := pods[i];
        if localPod.nodeID == node.nodeID && localPod.role == Standby &&
          (localPod.status == Scheduled || localPod.status == Running) {
          var promoted := PromoteIfDead(pods, localPod, now, oracle, at, nano);
          if promoted {
            FirstIndexUnique(pods, promotable, i);
            return;
          }
        }
      }
      FirstIndexUnique(pods, promotable, |pods|);
    }

    /** The inner loop: looks for a dead Active pod of the standby's app and, if there is one, promotes the standby. */
    method PromoteIfDead(pods: seq<Pod>, localPod: Pod, now: int, oracle: Oracle, at: int, nano: nat)
      returns (promoted: bool)
      modifies this`outbox
      ensures var k := VictimIndex(pods, localPod.app, now, oracle);
        && promoted == (k < |pods|)
        && outbox == if k == |pods| then old(outbox) else
             old(outbox) + PromotionRequests(node, localPod, pods[k], now, oracle, at, nano)
    {
      ghost var dead := (q: Pod) => ConfirmedDead(q, localPod.app, now, oracle);
      for k := 0 to |pods|
        invariant outbox == old(outbox)
        invariant forall j :: 0 <= j < k ==> !dead(pods[j])
      {
        var otherPod := pods[k];
        if otherPod.app == localPod.app && otherPod.role == Active {
          var confirmedDead := otherPod.leaseExpiresAt > 0 && otherPod.leaseExpiresAt < now;
          if confirmedDead && oracle.Some? {
            if otherPod.nodeID in oracle.value && otherPod.status != Fenced {
              confirmedDead := false;
            }
          }
          if confirmedDead {
            FirstIndexUnique(pods, dead, k);
            Promote(localPod, otherPod, now, oracle, at, nano);
            return true;
          }
        }
      }
      FirstIndexUnique(pods, dead, |pods|);
      return false;
    }

    /** The promotion itself: two messages, of which the log may accept both, one or neither. */
    method Promote(standby: Pod, victim: Pod, now: int, oracle: Oracle, at: int, nano: nat)
      modifies this`outbox
      ensures outbox == old(outbox) + PromotionRequests(node, standby, victim, now, oracle, at, nano)
    {
      var localPod := standby;
      localPod := localPod.(role := Active);
      localPod := localPod.(status := Running);
      TryLockPod(localPod, at, Promotion(standby, victim, now, oracle));
      CreateNewStandbyPod(standby, nano, at);
    }

    /** One scheduling cycle: rolling updates, then standby promotion, then at most one claim. */
    method Reconcile(pods: seq<Pod>, now: int, oracle: Oracle, promoteAt: int, nano: nat, claimAt: int)
      modifies this`outbox
      ensures outbox == old(outbox) + Reconciliation(node, pods, now, oracle, promoteAt, nano, claimAt)
    {
      AppendAssociative(outbox, Sweeps(pods, |pods|, now), Promotions(node, pods, now, oracle, promoteAt, nano));
      AppendAssociative(outbox, Sweeps(pods, |pods|, now) + Promotions(node, pods, now, oracle, promoteAt, nano),
                        Claims(node, pods, now, claimAt));
      SweepSuperseded(pods, now);
      ReconcileStandby(pods, now, oracle, promoteAt, nano);
      ClaimFirst(pods, now, claimAt);
    }

    /** The rolling-update loop that opens a cycle. */
    method SweepSuperseded(pods: seq<Pod>, now: int)
      modifies this`outbox
      ensures outbox == old(outbox) + Sweeps(pods, |pods|, now)
    {
      for i := 0 to |pods|
        invariant outbox == old(outbox) + Sweeps(pods, i, now)
      {
        AppendAssociative(old(outbox), Sweeps(pods, i, now), SweepOf(pods, pods[i], now));
        SweepPod(pods, pods[i], now);
      }
    }

    method SweepPod(pods: seq<Pod>, oldPod: Pod, now: int)
      modifies this`outbox
      ensures outbox == old(outbox) + SweepOf(pods, oldPod, now)
      ensures oldPod.updateToPodID == "" || (forall q :: q in pods ==> q.id != oldPod.updateToPodID) ==>
        outbox == old(outbox)
      ensures forall k: nat :: oldPod.updateToPodID != "" && FirstUnderID(pods, oldPod.updateToPodID, k) ==>
        outbox == old(outbox) + if pods[k].status == Running && (pods[k].readinessProbe.Some? ==> pods[k].ready)
          then [Request(Del("pod:" + oldPod.id), Sweep(oldPod, pods[k]), now)] else []
    {
      if oldPod.updateToPodID != "" {
        ghost var isNew := (q: Pod) => q.id == oldPod.updateToPodID;
        var newPod := None;
        ghost var found: nat := |pods|;
        for k := 0 to |pods|
          invariant newPod == None && found == |pods| && outbox == old(outbox)
          invariant forall j :: 0 <= j < k ==> !isNew(pods[j])
        {
          if pods[k].id == oldPod.updateToPodID {
            newPod := Some(pods[k]);
            found := k;
            FirstIndexUnique(pods, isNew, k);
            break;
          }
        }
        if newPod == None { FirstIndexUnique(pods, isNew, |pods|); }
        OneFirst(pods, oldPod.updateToPodID, found);
        if newPod.Some? && newPod.value.status == Running {
          if newPod.value.readinessProbe.None? || newPod.value.ready {
            DeletePod(oldPod, newPod.value, now);
          }
        }
      }
    }

    /** The claim loop that closes a cycle. */
    method ClaimFirst(pods: seq<Pod>, now: int, claimAt: int)
      modifies this`outbox
      ensures outbox == old(outbox) + Claims(node, pods, now, claimAt)
    {
      ghost var eligible := (p: Pod) => Eligible(node, pods, p, now);
      for i := 0 to |pods|
        invariant outbox == old(outbox)
        invariant forall j :: 0 <= j < i ==> !eligible(pods[j])
      {
        var pod := pods[i];
        var isPending := pod.status == Pending;
        var isExpired := (pod.status == Scheduled || pod.status == Running) && pod.leaseExpiresAt > 0 &&
          pod.leaseExpiresAt < now;
        if !isPending && !isExpired { continue; }
        if |pod.dependsOn| > 0 {
          var met := CheckDependencies(pods, pod.dependsOn);
          if !met { continue; }
        }
        if pod.arch != "" && pod.arch != node.arch { continue; }
        if 10 * pod.ramReq > 9 * node.freeRAM { continue; }
        FirstIndexUnique(pods, eligible, i);
        TryLockPod(pod, claimAt, Claim(pod, now));
        return;
      }
      FirstIndexUnique(pods, eligible, |pods|);
    }

    method RenewLeases(pods: seq<Pod>, running: Option<seq<bool>>, times: seq<int>)
      requires |times| == |pods| && (running.Some? ==> |running.value| == |pods|)
      modifies this`outbox
      ensures outbox == old(outbox) + Renewals(node, pods, |pods|, running, times)
    {
      for i := 0 to |pods|
        invariant outbox == old(outbox) + Renewals(node, pods, i, running, times)
      {
        var pod := pods[i];
        AppendAssociative(old(outbox), Renewals(node, pods, i, running, times),
                          RenewalOf(node, pod, running.Some? ==> running.value[i], times[i]));
        if pod.nodeID == node.nodeID && (pod.status == Scheduled || pod.status == Running) {
          if running.Some? {
            if !running.value[i] { continue; }
          }
          TryLockPod(pod, times[i], Renewal(pod));
        }
      }
    }
  }
}
