/** What a posted compose file stores, in terms of the listed and the parsed records: which replicas are rolled out,
    rewritten or deployed, and every field of what is stored for them. */
module DiffRules {
  import opened Names
  import opened Pods
  import opened StateMachine
  import opened Collections
  import opened ComposeDiff

  /** The last pod listed under the base ID, among those not marked for replacement. */
  ghost predicate Current(pods: seq<Pod>, base: string, q: Pod) {
    exists k :: 0 <= k < |pods| && pods[k] == q && q.baseID == base && q.updateToPodID == "" &&
      forall j :: k < j < |pods| ==> pods[j].baseID != base || pods[j].updateToPodID != ""
  }

  lemma OneCurrent(pods: seq<Pod>, base: string, q: Pod, r: Pod)
    requires Current(pods, base, q) && Current(pods, base, r)
    ensures q == r
  {
  }

  /** The table of existing pods holds for each base ID its current pod, if it has one. */
  lemma {:induction false} TableHoldsCurrent(pods: seq<Pod>, n: nat, base: string)
    requires n <= |pods|
    ensures base in ExistingByBase(pods, n) ==> Current(pods[..n], base, ExistingByBase(pods, n)[base])
    ensures base !in ExistingByBase(pods, n) ==> forall q :: !Current(pods[..n], base, q)
  {
    if n > 0 {
      TableHoldsCurrent(pods, n - 1, base);
      CurrentStep(pods[..n - 1], pods[n - 1], base);
      assert pods[..n] == pods[..n - 1] + [pods[n - 1]];
    }
  }

  lemma CurrentStep(pods: seq<Pod>, last: Pod, base: string)
    ensures last.baseID == base && last.updateToPodID == "" ==> Current(pods + [last], base, last)
    ensures last.baseID != base || last.updateToPodID != "" ==>
      forall q :: Current(pods + [last], base, q) <==> Current(pods, base, q)
  {
    var more := pods + [last];
    assert more[|pods|] == last;
    if last.baseID != base || last.updateToPodID != "" {
      forall q ensures Current(more, base, q) <==> Current(pods, base, q) {
        if Current(pods, base, q) {
          var k :| 0 <= k < |pods| && pods[k] == q && forall j :: k < j < |pods| ==>
            pods[j].baseID != base || pods[j].updateToPodID != "";
          assert more[k] == q;
        }
        if Current(more, base, q) {
          var k :| 0 <= k < |more| && more[k] == q && forall j :: k < j < |more| ==>
            more[j].baseID != base || more[j].updateToPodID != "";
          assert k < |pods| && pods[k] == q;
          assert forall j :: k < j < |pods| ==> pods[j] == more[j];
        }
      }
    }
  }

  /** The replica's current pod in this project has another image. */
  ghost predicate RollsOut(pods: seq<Pod>, p: Pod, project: string) {
    exists q :: Current(pods, p.baseID, q) && q.project == project && q.image != p.image
  }

  predicate Stores(r: Request, v: Pod, at: int) {
    r.cmd == Set("pod:" + v.id, v) && r.sentAt == at
  }

  /** A rollout: a mark on the current pod and, unless the log refuses that, the parsed pod under a new ID. */
  predicate RolledOut(q: Pod, p: Pod, project: string, nano: nat, markFails: bool, at: int, reqs: seq<Request>) {
    var id := p.baseID + "-" + Decimal(nano);
    |reqs| == (if markFails then 1 else 2) && Stores(reqs[0], q.(updateToPodID := id), at) &&
    (!markFails ==> Stores(reqs[1], p.(id := id, project := project), at))
  }

  /** A rewrite: the parsed pod in place of the current one, whose ID, status, node, readiness and version it takes. */
  predicate Rewritten(q: Pod, p: Pod, project: string, at: int, reqs: seq<Request>) {
    |reqs| == 1 &&
    Stores(reqs[0], p.(project := project, id := q.id, status := q.status, nodeID := q.nodeID, ready := q.ready,
                       resourceVersion := q.resourceVersion), at)
  }

  /** A deployment: the parsed pod. */
  predicate Deployed(p: Pod, project: string, at: int, reqs: seq<Request>) {
    |reqs| == 1 && Stores(reqs[0], p.(project := project), at)
  }

  /** What is stored for one replica: it is rolled out if its current pod in the posted project has another image,
      rewritten if that has the same image, and deployed if there is none.  In each case the stored record is in the
      posted project and has every other field as parsed. */
  ghost predicate IsChange(pods: seq<Pod>, p: Pod, project: string, nano: nat, markFails: bool, at: int,
    reqs: seq<Request>) {
    (forall q :: Current(pods, p.baseID, q) && q.project == project ==>
      if q.image != p.image then RolledOut(q, p, project, nano, markFails, at, reqs)
      else Rewritten(q, p, project, at, reqs)) &&
    ((forall q :: Current(pods, p.baseID, q) ==> q.project != project) ==> Deployed(p, project, at, reqs))
  }

  lemma RecordsExactly(existing: map<string, Pod>, p: Pod, project: string, nano: nat, markFails: bool, at: int)
    ensures var reqs := Changes(existing, p, project, nano, markFails, at);
      if p.baseID in existing && existing[p.baseID].project == project then
        if existing[p.baseID].image != p.image then
          RolledOut(existing[p.baseID], p, project, nano, markFails, at, reqs)
        else Rewritten(existing[p.baseID], p, project, at, reqs)
      else Deployed(p, project, at, reqs)
  {
  }

  /** The table answers for the current pod. */
  lemma TableRule(pods: seq<Pod>, base: string)
    ensures var existing := ExistingByBase(pods, |pods|);
      if base in existing then Current(pods, base, existing[base]) && forall q :: Current(pods, base, q) ==>
        q == existing[base]
      else forall q :: !Current(pods, base, q)
  {
    TableHoldsCurrent(pods, |pods|, base);
    assert pods[..|pods|] == pods;
    var existing := ExistingByBase(pods, |pods|);
    forall q | base in existing && Current(pods, base, q) ensures q == existing[base] {
      OneCurrent(pods, base, q, existing[base]);
    }
  }

  lemma RolloutRule(pods: seq<Pod>, p: Pod, project: string)
    ensures Replaces(ExistingByBase(pods, |pods|), p, project) <==> RollsOut(pods, p, project)
  {
    TableRule(pods, p.baseID);
    hide ExistingByBase, Current;
  }

  lemma ChangesExactly(pods: seq<Pod>, p: Pod, project: string, nano: nat, markFails: bool, at: int)
    ensures IsChange(pods, p, project, nano, markFails, at,
                     Changes(ExistingByBase(pods, |pods|), p, project, nano, markFails, at))
  {
    var existing := ExistingByBase(pods, |pods|);
    TableRule(pods, p.baseID);
    RecordsExactly(existing, p, project, nano, markFails, at);
    hide ExistingByBase, Current, Changes, RolledOut, Rewritten, Deployed;
  }

  /** A block of requests for each replica, up to the first whose mark the log refuses. */
  ghost predicate AreChanges(pods: seq<Pod>, parsed: seq<Pod>, n: nat, project: string, nanos: seq<nat>,
    markFails: seq<bool>, at: int, blocks: seq<seq<Request>>) {
    |blocks| <= n <= |parsed| == |nanos| == |markFails| &&
    (forall i :: 0 <= i < |blocks| ==> IsChange(pods, parsed[i], project, nanos[i], markFails[i], at, blocks[i])) &&
    (forall i :: 0 <= i < |blocks| - 1 ==> !(markFails[i] && RollsOut(pods, parsed[i], project))) &&
    (|blocks| < n ==> 0 < |blocks| && markFails[|blocks| - 1] && RollsOut(pods, parsed[|blocks| - 1], project))
  }

  lemma {:induction false} DiffExactly(pods: seq<Pod>, parsed: seq<Pod>, n: nat, project: string, nanos: seq<nat>,
          markFails: seq<bool>, at: int) returns (blocks: seq<seq<Request>>)
    requires n <= |parsed| == |nanos| == |markFails|
    ensures AreChanges(pods, parsed, n, project, nanos, markFails, at, blocks)
    ensures Diff(ExistingByBase(pods, |pods|), parsed, n, project, nanos, markFails, at) == Concat(blocks)
  {
    hide AreChanges, IsChange, Stopped, ExistingByBase, Aborted, Changes, Diff, Concat;
    if n == 0 {
      blocks := [];
      NoChanges(pods, parsed, project, nanos, markFails, at);
    } else {
      var earlier := DiffExactly(pods, parsed, n - 1, project, nanos, markFails, at);
      var existing := ExistingByBase(pods, |pods|);
      var last := Changes(existing, parsed[n - 1], project, nanos[n - 1], markFails[n - 1], at);
      blocks := if Aborted(existing, parsed, n - 1, project, markFails) then earlier else earlier + [last];
      AbortsAtRollout(pods, parsed, n - 1, project, markFails);
      ChangesExactly(pods, parsed[n - 1], project, nanos[n - 1], markFails[n - 1], at);
      OneMoreChange(pods, parsed, n - 1, project, nanos, markFails, at, earlier, last);
      DiffStep(existing, parsed, n, project, nanos, markFails, at);
      ConcatMore(earlier, last);
    }
  }

  lemma NoChanges(pods: seq<Pod>, parsed: seq<Pod>, project: string, nanos: seq<nat>, markFails: seq<bool>, at: int)
    requires |parsed| == |nanos| == |markFails|
    ensures AreChanges(pods, parsed, 0, project, nanos, markFails, at, [])
    ensures Diff(ExistingByBase(pods, |pods|), parsed, 0, project, nanos, markFails, at) == Concat<Request>([])
  {
  }

  lemma DiffStep(existing: map<string, Pod>, parsed: seq<Pod>, n: nat, project: string, nanos: seq<nat>,
          markFails: seq<bool>, at: int)
    requires 0 < n <= |parsed| == |nanos| == |markFails|
    ensures var earlier := Diff(existing, parsed, n - 1, project, nanos, markFails, at);
      Diff(existing, parsed, n, project, nanos, markFails, at) ==
        if Aborted(existing, parsed, n - 1, project, markFails) then earlier
        else earlier + Changes(existing, parsed[n - 1], project, nanos[n - 1], markFails[n - 1], at)
  {
  }

  lemma OneMoreChange(pods: seq<Pod>, parsed: seq<Pod>, n: nat, project: string, nanos: seq<nat>, markFails: seq<bool>,
          at: int, blocks: seq<seq<Request>>, last: seq<Request>)
    requires n < |parsed| && AreChanges(pods, parsed, n, project, nanos, markFails, at, blocks)
    requires IsChange(pods, parsed[n], project, nanos[n], markFails[n], at, last)
    ensures Stopped(pods, parsed, n, project, markFails) ==>
      AreChanges(pods, parsed, n + 1, project, nanos, markFails, at, blocks)
    ensures !Stopped(pods, parsed, n, project, markFails) ==>
      AreChanges(pods, parsed, n + 1, project, nanos, markFails, at, blocks + [last])
  {
    hide IsChange, RollsOut;
  }

  ghost predicate Stopped(pods: seq<Pod>, parsed: seq<Pod>, n: nat, project: string, markFails: seq<bool>)
    requires n <= |parsed| == |markFails|
  {
    exists i :: 0 <= i < n && markFails[i] && RollsOut(pods, parsed[i], project)
  }

  lemma AbortsAtRollout(pods: seq<Pod>, parsed: seq<Pod>, n: nat, project: string, markFails: seq<bool>)
    requires n <= |parsed| == |markFails|
    ensures Aborted(ExistingByBase(pods, |pods|), parsed, n, project, markFails) <==>
      Stopped(pods, parsed, n, project, markFails)
  {
    hide ExistingByBase, RollsOut, Replaces;
    forall i | 0 <= i < n
      ensures Replaces(ExistingByBase(pods, |pods|), parsed[i], project) <==> RollsOut(pods, parsed[i], project)
    {
      RolloutRule(pods, parsed[i], project);
    }
  }

  /** A posted file changes the replicas it asks for one by one, in its own order, and stops after the first mark that
      the log refuses. */
  lemma DeployExactly(pods: seq<Pod>, parsed: seq<Pod>, project: string, nanos: seq<nat>, markFails: seq<bool>, at: int)
    requires |parsed| == |nanos| == |markFails|
    ensures exists blocks :: AreChanges(pods, parsed, |parsed|, project, nanos, markFails, at, blocks) &&
              Deploy(pods, parsed, project, nanos, markFails, at) == Concat(blocks)
  {
    var blocks := DiffExactly(pods, parsed, |parsed|, project, nanos, markFails, at);
  }
}
