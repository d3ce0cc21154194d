/** What the scheduler's loops send, in terms of the fields of the records they list: the deletes of a rolling update,
    the promotion of a standby, the claim and the renewals. */
module SchedulerRules {
  import opened Option
  import opened Names
  import opened Pods
  import opened StateMachine
  import opened Collections
  import opened Scheduler

  // ---- what the loops look for --------------------------------------------------------------------

  /** Pod `i` is marked for the pod listed first under that ID, which runs, and is ready if it has a readiness probe. */
  ghost predicate Replaced(pods: seq<Pod>, i: nat) {
    i < |pods| && pods[i].updateToPodID != "" &&
    exists j: nat :: FirstUnderID(pods, pods[i].updateToPodID, j) &&
      pods[j].status == Running && (pods[j].readinessProbe.Some? ==> pods[j].ready)
  }

  /** Pending, or assigned under a positive lease that has run out; each app it depends on has an Active pod that has
      started, or runs and is ready if health is asked for; of the node's architecture if it names one; and within 90%
      of the node's memory. */
  ghost predicate Claimable(node: Node, pods: seq<Pod>, i: nat, now: int) {
    i < |pods| && var p := pods[i];
    (p.status == Pending || (p.status in {Scheduled, Running} && 0 < p.leaseExpiresAt < now)) &&
    (forall app :: app in p.dependsOn ==>
      exists q :: q in pods && q.app == app && q.role == Active && q.status in {Scheduled, Running} &&
        (p.dependsOn[app] == "service_healthy" ==> q.status == Running && q.ready)) &&
    p.arch in {"", node.arch} && p.ramReq as real <= 0.9 * node.freeRAM as real
  }

  /** An Active pod of the app under a positive lease that has run out, which is Fenced or on a node that nobody calls
      alive. */
  ghost predicate Dead(pods: seq<Pod>, app: string, k: nat, now: int, oracle: Oracle) {
    k < |pods| && pods[k].app == app && pods[k].role == Active && 0 < pods[k].leaseExpiresAt < now &&
    (pods[k].status == Fenced || oracle.None? || pods[k].nodeID !in oracle.value)
  }

  /** A standby that the node itself holds, with a dead pod of its app. */
  ghost predicate Promotable(node: Node, pods: seq<Pod>, i: nat, now: int, oracle: Oracle) {
    i < |pods| && pods[i].nodeID == node.nodeID && pods[i].role == Standby && pods[i].status in {Scheduled, Running} &&
    exists k: nat :: Dead(pods, pods[i].app, k, now, oracle)
  }

  // ---- what they send -----------------------------------------------------------------------------

  /** A compare-and-swap from the version read to the next one, for this node, with a lease of 15 seconds. */
  function Lock(node: Node, p: Pod, status: Status, role: Role, at: int): Pods.Command {
    Cas("pod:" + p.id, p.(status := status, role := role, nodeID := node.nodeID,
                          resourceVersion := p.resourceVersion + 1, leaseExpiresAt := at + 15),
        p.resourceVersion)
  }

  /** The creation of a replacement: blank but for a new ID, the app and what the standby asks of a node. */
  function Creation(standby: Pod, nano: nat): Pods.Command {
    var id := "pod-" + standby.app + "-standby-" + Decimal(nano);
    Cas("pod:" + id, Pod(id, "", "", Pending, "", 0, 0, "", standby.cpuReq, standby.ramReq, standby.arch, [], [],
                         standby.app, Standby, "", false, None, None, false, "", false, map[], [], ""), 0)
  }

  lemma SweepRule(pods: seq<Pod>, i: nat, at: int)
    requires i < |pods|
    ensures var reqs := SweepOf(pods, pods[i], at);
      if Replaced(pods, i) then |reqs| == 1 && reqs[0].cmd == Del("pod:" + pods[i].id) && reqs[0].sentAt == at
      else reqs == []
  {
    var p := pods[i];
    var k := IndexOf(pods, p.updateToPodID);
    if Replaced(pods, i) {
      var j: nat :| FirstUnderID(pods, p.updateToPodID, j) && pods[j].status == Running &&
        (pods[j].readinessProbe.Some? ==> pods[j].ready);
      FirstIndexUnique(pods, (q: Pod) => q.id == p.updateToPodID, j);
      assert k == j by { assert !(k < j) && !(j < k); }
    } else if Superseded(pods, p) {
      assert FirstUnderID(pods, p.updateToPodID, k);
    }
  }

  /** One delete for each position at which a pod is replaced, in the order of the list. */
  ghost predicate AreSweeps(pods: seq<Pod>, n: nat, at: int, due: seq<nat>, reqs: seq<Request>) {
    Ascending(due, n) && (forall i: nat :: i in due <==> i < n && Replaced(pods, i)) && |reqs| == |due| &&
    forall k :: 0 <= k < |due| ==>
      due[k] < |pods| && reqs[k].cmd == Del("pod:" + pods[due[k]].id) && reqs[k].sentAt == at
  }

  /** A cycle deletes the pods that have been replaced, each once, in the order of the list. */
  lemma {:induction false} SweepsExactly(pods: seq<Pod>, n: nat, at: int)
    requires n <= |pods|
    ensures exists due: seq<nat> :: AreSweeps(pods, n, at, due, Sweeps(pods, n, at))
  {
    hide AreSweeps, Replaced, SweepOf;
    if n == 0 {
      NoSweeps(pods, at);
      assert Sweeps(pods, n, at) == [];
    } else {
      SweepsExactly(pods, n - 1, at);
      var due: seq<nat> :| AreSweeps(pods, n - 1, at, due, Sweeps(pods, n - 1, at));
      SweepRule(pods, n - 1, at);
      var more := OneMoreSweep(pods, n - 1, at, due, Sweeps(pods, n - 1, at), SweepOf(pods, pods[n - 1], at));
      assert AreSweeps(pods, n, at, more, Sweeps(pods, n, at));
    }
  }

  lemma NoSweeps(pods: seq<Pod>, at: int)
    ensures exists due: seq<nat> :: AreSweeps(pods, 0, at, due, [])
  {
    hide Replaced;
    var due: seq<nat> := [];
    assert AreSweeps(pods, 0, at, due, []);
  }

  lemma OneMoreSweep(pods: seq<Pod>, n: nat, at: int, due: seq<nat>, reqs: seq<Request>, last: seq<Request>)
          returns (more: seq<nat>)
    requires n < |pods| && AreSweeps(pods, n, at, due, reqs)
    requires if Replaced(pods, n) then |last| == 1 && last[0].cmd == Del("pod:" + pods[n].id) && last[0].sentAt == at
      else last == []
    ensures AreSweeps(pods, n + 1, at, more, reqs + last)
  {
    AscendingMore(due, n);
    hide Ascending, Replaced;
    more := if Replaced(pods, n) then due + [n] else due;
  }

  lemma EligibleRule(node: Node, pods: seq<Pod>, i: nat, now: int)
    requires i < |pods|
    ensures Eligible(node, pods, pods[i], now) <==> Claimable(node, pods, i, now)
  {
    var p := pods[i];
    assert Fits(node, p) <==> p.arch in {"", node.arch} && p.ramReq as real <= 0.9 * node.freeRAM as real;
    forall app | app in p.dependsOn
      ensures (exists q :: q in pods && Meets(q, app, p.dependsOn[app])) <==>
        (exists q :: q in pods && q.app == app && q.role == Active && q.status in {Scheduled, Running} &&
          (p.dependsOn[app] == "service_healthy" ==> q.status == Running && q.ready))
    {
      assert forall q :: Meets(q, app, p.dependsOn[app]) <==>
        q.app == app && q.role == Active && q.status in {Scheduled, Running} &&
          (p.dependsOn[app] == "service_healthy" ==> q.status == Running && q.ready);
    }
  }

  ghost predicate FirstClaimable(node: Node, pods: seq<Pod>, i: nat, now: int) {
    Claimable(node, pods, i, now) && forall j: nat :: j < i ==> !Claimable(node, pods, j, now)
  }

  /** The status a claimed pod gets: one that is assigned already keeps its own. */
  function Placed(p: Pod): Status {
    if p.status == Pending then Scheduled else p.status
  }

  /** A cycle claims the first pod in the list that can be claimed, and no other. */
  ghost predicate AreClaims(node: Node, pods: seq<Pod>, now: int, at: int, reqs: seq<Request>) {
    (forall i: nat :: FirstClaimable(node, pods, i, now) ==>
      |reqs| == 1 && reqs[0].sentAt == at && reqs[0].cmd == Lock(node, pods[i], Placed(pods[i]), pods[i].role, at)) &&
    ((forall i: nat :: !Claimable(node, pods, i, now)) ==> reqs == [])
  }

  lemma ClaimsExactly(node: Node, pods: seq<Pod>, now: int, at: int)
    ensures AreClaims(node, pods, now, at, Claims(node, pods, now, at))
  {
    var i := FirstIndex(pods, (p: Pod) => Eligible(node, pods, p, now));
    forall j: nat | j < |pods| ensures Eligible(node, pods, pods[j], now) <==> Claimable(node, pods, j, now) {
      EligibleRule(node, pods, j, now);
    }
    assert forall j: nat :: j < i ==> !Claimable(node, pods, j, now);
    assert i < |pods| ==> Claimable(node, pods, i, now) && pods[i].status != Blank;
    OneClaimable(node, pods, now, i);
    hide Eligible, Claimable, FirstClaimable;
  }

  lemma OneClaimable(node: Node, pods: seq<Pod>, now: int, i: nat)
    requires i <= |pods| && (i < |pods| ==> Claimable(node, pods, i, now))
    requires forall j: nat :: j < i ==> !Claimable(node, pods, j, now)
    ensures forall k: nat :: FirstClaimable(node, pods, k, now) ==> k == i < |pods|
  {
    assert forall k: nat :: Claimable(node, pods, k, now) ==> k < |pods|;
    hide Claimable;
  }

  lemma VictimRule(pods: seq<Pod>, app: string, now: int, oracle: Oracle)
    ensures var k := VictimIndex(pods, app, now, oracle);
      && (k < |pods| <==> exists d: nat :: Dead(pods, app, d, now, oracle))
      && (k < |pods| ==> Dead(pods, app, k, now, oracle))
  {
    var k := VictimIndex(pods, app, now, oracle);
    assert k < |pods| ==> Dead(pods, app, k, now, oracle);
    if d: nat :| Dead(pods, app, d, now, oracle) {
      assert ConfirmedDead(pods[d], app, now, oracle);
      assert k <= d;
    }
  }

  ghost predicate FirstPromotable(node: Node, pods: seq<Pod>, i: nat, now: int, oracle: Oracle) {
    Promotable(node, pods, i, now, oracle) && forall j: nat :: j < i ==> !Promotable(node, pods, j, now, oracle)
  }

  /** The first pod in the list that can be promoted is, and a replacement is ordered for it; no other is. */
  ghost predicate ArePromotions(node: Node, pods: seq<Pod>, now: int, oracle: Oracle, at: int, nano: nat,
    reqs: seq<Request>) {
    (forall i: nat :: FirstPromotable(node, pods, i, now, oracle) ==>
      |reqs| == 2 && reqs[0].cmd == Lock(node, pods[i], Running, Active, at) &&
      reqs[1].cmd == Creation(pods[i], nano) && reqs[0].sentAt == reqs[1].sentAt == at) &&
    ((forall i: nat :: !Promotable(node, pods, i, now, oracle)) ==> reqs == [])
  }

  lemma PromotionsExactly(node: Node, pods: seq<Pod>, now: int, oracle: Oracle, at: int, nano: nat)
    ensures ArePromotions(node, pods, now, oracle, at, nano, Promotions(node, pods, now, oracle, at, nano))
  {
    var i := PromotableIndex(node, pods, now, oracle);
    PromotableRule(node, pods, now, oracle);
    hide Promotable, FirstPromotable, PromotableIndex, VictimIndex, ReplacementRequest, Creation;
    if i < |pods| { CreationRule(pods[i], nano, at); }
  }

  lemma CreationRule(standby: Pod, nano: nat, at: int)
    ensures var r := ReplacementRequest(standby, nano, at); r.cmd == Creation(standby, nano) && r.sentAt == at
  {
    assert ReplacementName(standby.app, nano) == "pod-" + standby.app + "-standby-" + Decimal(nano);
  }

  lemma PromotableRule(node: Node, pods: seq<Pod>, now: int, oracle: Oracle)
    ensures var i := PromotableIndex(node, pods, now, oracle);
      && (forall k: nat :: FirstPromotable(node, pods, k, now, oracle) ==> k == i < |pods|)
      && ((forall k: nat :: !Promotable(node, pods, k, now, oracle)) ==> i == |pods|)
  {
    var i := PromotableIndex(node, pods, now, oracle);
    forall j: nat | j < |pods|
      ensures LocalStandby(node, pods[j]) && VictimIndex(pods, pods[j].app, now, oracle) < |pods| <==>
        Promotable(node, pods, j, now, oracle)
    {
      VictimRule(pods, pods[j].app, now, oracle);
    }
    assert forall j: nat :: j < i ==> !Promotable(node, pods, j, now, oracle);
    assert i < |pods| ==> Promotable(node, pods, i, now, oracle);
    assert forall j: nat :: Promotable(node, pods, j, now, oracle) ==> j < |pods|;
    hide Promotable;
  }

  /** Renewals are due for the node's own assigned pods whose container runs, if that can be asked. */
  ghost predicate Renewable(node: Node, pods: seq<Pod>, i: nat, running: Option<seq<bool>>) {
    i < |pods| && pods[i].nodeID == node.nodeID && pods[i].status in {Scheduled, Running} &&
    (running.Some? ==> i < |running.value| && running.value[i])
  }

  ghost predicate AreRenewals(node: Node, pods: seq<Pod>, n: nat, running: Option<seq<bool>>, times: seq<int>,
    due: seq<nat>, reqs: seq<Request>) {
    Ascending(due, n) && (forall i: nat :: i in due <==> i < n && Renewable(node, pods, i, running)) &&
      |reqs| == |due| &&
    forall k :: 0 <= k < |due| ==>
      due[k] < |pods| && due[k] < |times| && Renews(node, pods[due[k]], times[due[k]], reqs[k])
  }

  ghost predicate Renews(node: Node, p: Pod, at: int, r: Request) {
    r.cmd == Lock(node, p, p.status, p.role, at) && r.sentAt == at
  }

  lemma RenewalRule(node: Node, pods: seq<Pod>, i: nat, running: Option<seq<bool>>, times: seq<int>)
    requires i < |pods| == |times| && (running.Some? ==> |running.value| == |pods|)
    ensures var reqs := RenewalOf(node, pods[i], running.Some? ==> running.value[i], times[i]);
      if Renewable(node, pods, i, running) then |reqs| == 1 && Renews(node, pods[i], times[i], reqs[0]) else reqs == []
  {
  }

  /** A pass renews each of these, once, in the order of the list. */
  lemma {:induction false} RenewalsExactly(node: Node, pods: seq<Pod>, n: nat, running: Option<seq<bool>>,
          times: seq<int>)
    requires n <= |pods| == |times| && (running.Some? ==> |running.value| == |pods|)
    ensures exists due: seq<nat> ::
      AreRenewals(node, pods, n, running, times, due, Renewals(node, pods, n, running, times))
  {
    if n == 0 {
      var none: seq<nat> := [];
      assert AreRenewals(node, pods, n, running, times, none, Renewals(node, pods, n, running, times));
    } else {
      RenewalsExactly(node, pods, n - 1, running, times);
      var earlier := Renewals(node, pods, n - 1, running, times);
      var due: seq<nat> :| AreRenewals(node, pods, n - 1, running, times, due, earlier);
      hide AreRenewals, RenewalOf, Renewable, Renews;
      RenewalRule(node, pods, n - 1, running, times);
      var more := OneMoreRenewal(node, pods, n - 1, running, times, due, earlier,
        RenewalOf(node, pods[n - 1], running.Some? ==> running.value[n - 1], times[n - 1]));
      assert AreRenewals(node, pods, n, running, times, more, Renewals(node, pods, n, running, times));
    }
  }

  lemma OneMoreRenewal(node: Node, pods: seq<Pod>, n: nat, running: Option<seq<bool>>, times: seq<int>, due: seq<nat>,
          reqs: seq<Request>, last: seq<Request>) returns (more: seq<nat>)
    requires n < |pods| == |times| && AreRenewals(node, pods, n, running, times, due, reqs)
    requires if Renewable(node, pods, n, running) then |last| == 1 && Renews(node, pods[n], times[n], last[0])
      else last == []
    ensures AreRenewals(node, pods, n + 1, running, times, more, reqs + last)
  {
    AscendingMore(due, n);
    hide Ascending, Renewable, Renews;
    more := if Renewable(node, pods, n, running) then due + [n] else due;
  }

  // ---- a whole cycle --------------------------------------------------------------------------------

  /** A scheduling cycle sends its deletes, then its promotion with the order for a replacement, then its claim. */
  lemma CycleSends(node: Node, pods: seq<Pod>, now: int, oracle: Oracle, promoteAt: int, nano: nat, claimAt: int)
    ensures exists due: seq<nat>, sweeps, promotions, claims ::
      && Reconciliation(node, pods, now, oracle, promoteAt, nano, claimAt) == sweeps + promotions + claims
      && AreSweeps(pods, |pods|, now, due, sweeps)
      && ArePromotions(node, pods, now, oracle, promoteAt, nano, promotions)
      && AreClaims(node, pods, now, claimAt, claims)
  {
    hide Sweeps, Promotions, Claims, AreSweeps, ArePromotions, AreClaims;
    SweepsExactly(pods, |pods|, now);
    PromotionsExactly(node, pods, now, oracle, promoteAt, nano);
    ClaimsExactly(node, pods, now, claimAt);
    var due: seq<nat> :| AreSweeps(pods, |pods|, now, due, Sweeps(pods, |pods|, now));
  }

  /** A cycle sends a delete under an ID exactly when a pod listed under it has been replaced. */
  lemma DeletesExactly(node: Node, pods: seq<Pod>, now: int, oracle: Oracle, promoteAt: int, nano: nat, claimAt: int,
          id: string)
    ensures (exists r ::
      r in Reconciliation(node, pods, now, oracle, promoteAt, nano, claimAt) && DeletesID(r, id)) <==>
      (exists i: nat :: Replaced(pods, i) && pods[i].id == id)
  {
    var sweeps, promotions, claims := Sweeps(pods, |pods|, now), Promotions(node, pods, now, oracle, promoteAt, nano),
      Claims(node, pods, now, claimAt);
    assert forall r :: r in promotions || r in claims ==> r.cmd.Cas?;
    SweptExactly(pods, now, id);
    hide Sweeps, Promotions, Claims, Replaced;
  }

  lemma SweptExactly(pods: seq<Pod>, at: int, id: string)
    ensures (exists r :: r in Sweeps(pods, |pods|, at) && DeletesID(r, id)) <==>
      (exists i: nat :: Replaced(pods, i) && pods[i].id == id)
  {
    SweepsExactly(pods, |pods|, at);
    var sweeps := Sweeps(pods, |pods|, at);
    hide Sweeps;
    var due: seq<nat> :| AreSweeps(pods, |pods|, at, due, sweeps);
    if r :| r in sweeps && DeletesID(r, id) {
      var k :| 0 <= k < |sweeps| && sweeps[k] == r;
      SameTail("pod:", id, pods[due[k]].id);
      assert due[k] in due;
    }
    if i: nat :| Replaced(pods, i) && pods[i].id == id {
      assert i in due;
      var k :| 0 <= k < |due| && due[k] == i;
      assert sweeps[k] in sweeps && DeletesID(sweeps[k], id);
    }
  }

  ghost predicate DeletesID(r: Request, id: string) {
    r.cmd == Del("pod:" + id)
  }

  lemma SameTail(prefix: string, a: string, b: string)
    requires prefix + a == prefix + b
    ensures a == b
  {
    assert a == (prefix + a)[|prefix|..] && b == (prefix + b)[|prefix|..];
  }
}
