/** Readiness over whole runs: no pod is ready that has not been observed to be, so an app that asks for the health of
    another starts only after a probe of that app has passed. */
module Readiness {
  import opened Option
  import opened Names
  import opened Pods
  import opened Cluster
  import opened Invariant
  import opened Leases
  import opened StartOrder

  /** An agent that holds the pod has seen its container running, with no probe failing. */
  ghost predicate FindsReady(node: string, p: Pod, seen: Observation) {
    && p.nodeID == node && p.status in {Scheduled, Running} && seen.Up?
    && (p.livenessProbe.Some? && p.livenessProbe.value.kind in {"tcp", "http"} && p.podIP != "" ==> seen.liveReply)
    && (p.readinessProbe.Some? && p.readinessProbe.value.kind in {"tcp", "http"} && p.podIP != "" ==> seen.readyReply)
  }

  /** The report of such an agent, committed at this position, which the log accepts and which says that the pod is
      ready. */
  ghost predicate FoundReady(w: World, key: string, i: nat) {
    i < |w.log| && var f := w.log[i].flight;
    && f.req.why.Report? && FindsReady(f.node, f.req.why.seen, f.req.why.observed)
    && f.req.cmd.Cas? && f.req.cmd.key == key && f.req.cmd.value.ready
    && Look(At(w, i + 1), key) == Some(f.req.cmd.value)
  }

  /** The pod was ready at the start, or has been found so among the first `n` entries. */
  ghost predicate ReadyForReason(w: World, key: string, n: nat) {
    (key in w.init && w.init[key].ready) || exists i: nat :: i < n && FoundReady(w, key, i)
  }

  /** A ready record in a message: its sender has read a ready record of the pod, or is an agent that finds it ready. */
  lemma ReadyJustified(pods: seq<Pod>, node: string, r: Request)
    requires Justified(pods, node, r) && (r.cmd.Set? || r.cmd.Cas?) && r.cmd.value.ready
    ensures
      || (exists p :: p in pods && p.ready && p.Key() == r.cmd.key)
      || (r.why.Report? && r.cmd.Cas? && FindsReady(node, r.why.seen, r.why.observed))
  {
    hide S.DependenciesMet, S.ConfirmedDead, IsBaseName, NamesApp, RollingName, ReplacementName;
  }

  lemma ReadySent(w: World, f: Flight)
    requires Reachable(w) && f in w.issued && (f.req.cmd.Set? || f.req.cmd.Cas?) && f.req.cmd.value.ready
    ensures f.view <= |w.log|
    ensures
      || (f.req.cmd.key in At(w, f.view) && At(w, f.view)[f.req.cmd.key].ready)
      || (f.req.why.Report? && f.req.cmd.Cas? && FindsReady(f.node, f.req.why.seen, f.req.why.observed))
  {
    FlightFacts(w, f);
    hide Justified, Reachable, Listing, StoreAt, FindsReady;
    var pods := Listing(At(w, f.view));
    ReadyJustified(pods, f.node, f.req);
    if p :| p in pods && p.ready && p.Key() == f.req.cmd.key { Listed(w, f.view, p); }
  }

  /** Whatever is ready at some position was ready at the start or has been found so at an earlier one. */
  lemma {:induction false} ReadyWasFound(w: World, key: string, n: nat)
    requires Reachable(w) && n <= |w.log| && key in At(w, n) && At(w, n)[key].ready
    ensures ReadyForReason(w, key, n)
    decreases n
  {
    hide Reachable, StoreAt;
    if n == 0 {
      StoreAtStart(w.init, w.log);
    } else {
      StepOfKey(w, key, n - 1);
      var f := w.log[n - 1].flight;
      if Look(At(w, n), key) == Look(At(w, n - 1), key) {
        ReadyWasFound(w, key, n - 1);
      } else {
        ReadySent(w, f);
        if key in At(w, f.view) && At(w, f.view)[key].ready {
          ReadyWasFound(w, key, f.view);
        } else {
          assert FoundReady(w, key, n - 1);
        }
      }
    }
  }

  /** An app that asks for the health of another starts strictly after an agent has found a pod of the other app ready,
      unless such a pod was ready at the start. */
  lemma StartsAfterHealth(w: World, key: string, app: string, dependency: string, n: nat)
    requires Reachable(w) && Unplaced(w.init, {app}) && n <= |w.log| && Started(w, key, app, n)
    requires forall p :: Original(w, app, p, n) ==>
      dependency in p.dependsOn && p.dependsOn[dependency] == "service_healthy"
    ensures exists k, m: nat :: m < n && Healthy(w, k, dependency, m) && ReadyForReason(w, k, m)
  {
    hide Reachable, Unplaced, Original, StoreAt;
    StartsAfterCondition(w, key, app, dependency, "service_healthy", n);
    var m: nat, k :| m < n && Provides(w, k, dependency, "service_healthy", m);
    ReadyWasFound(w, k, m);
    assert Healthy(w, k, dependency, m);
  }

  /** An Active pod of the app that runs and is ready. */
  ghost predicate Healthy(w: World, key: string, app: string, m: nat) {
    m <= |w.log| && key in At(w, m) &&
    var p := At(w, m)[key]; p.app == app && p.role == Active && p.status == Running && p.ready
  }
}
