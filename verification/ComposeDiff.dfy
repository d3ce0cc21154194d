/** How a posted compose file changes the cluster: per replica a new pod, a rewrite in place, or a rolling update. */
module ComposeDiff {
  import opened Names
  import opened Pods
  import opened StateMachine
  import opened Collections

  /** What the compose parser produces for one replica. */
  ghost predicate FreshlyParsed(p: Pod) {
    p.id == p.baseID && NamesApp(p.baseID, p.app) && p.status == Pending && p.nodeID == "" &&
    p.resourceVersion == 0 && p.leaseExpiresAt == 0 && p.updateToPodID == "" && !p.ready
  }

  /** Per base ID the last listed pod that is not already being replaced. */
  function ExistingByBase(pods: seq<Pod>, n: nat): map<string, Pod>
    requires n <= |pods|
  {
    if n == 0 then map[]
    else if pods[n - 1].updateToPodID == "" then ExistingByBase(pods, n - 1)[pods[n - 1].baseID := pods[n - 1]]
    else ExistingByBase(pods, n - 1)
  }

  predicate Replaces(existing: map<string, Pod>, p: Pod, project: string) {
    p.baseID in existing && existing[p.baseID].project == project && existing[p.baseID].image != p.image
  }

  predicate Keeps(existing: map<string, Pod>, p: Pod, project: string) {
    p.baseID in existing && existing[p.baseID].project == project && existing[p.baseID].image == p.image
  }

  function SetRequest(p: Pod, why: Reason, at: int): Request {
    Request(Set(p.Key(), p), why, at)
  }

  function MarkRequest(outdated: Pod, parsed: Pod, nano: nat, at: int): Request {
    SetRequest(outdated.(updateToPodID := RollingName(parsed.baseID, nano)), Mark(outdated, parsed, nano), at)
  }

  /** The record stored for a parsed replica. */
  function PutRequest(existing: map<string, Pod>, parsed: Pod, project: string, nano: nat, at: int): Request {
    var p := parsed.(project := project);
    if Replaces(existing, p, project) then
      SetRequest(p.(id := RollingName(p.baseID, nano)), Rollout(existing[p.baseID], parsed, nano), at)
    else if Keeps(existing, p, project) then
      var current := existing[p.baseID];
      SetRequest(p.(id := current.id, status := current.status, nodeID := current.nodeID, ready := current.ready,
               resourceVersion := current.resourceVersion), Rewrite(current, parsed), at)
    else
      SetRequest(p, Deployment(parsed), at)
  }

  /** A rewrite is a plain `set` that keeps the version but not the lease: afterwards the version no longer tells which
      record is stored, and an assigned pod holds a lease of 0, which never runs out, so no other node can claim it. */
  lemma RewriteForgetsLease(existing: map<string, Pod>, parsed: Pod, project: string, nano: nat, at: int, now: int)
    requires FreshlyParsed(parsed) && Keeps(existing, parsed, project)
    ensures var current, c := existing[parsed.baseID], PutRequest(existing, parsed, project, nano, at).cmd;
      && c.Set? && c.key == current.Key() && c.value.resourceVersion == current.resourceVersion
      && (current.leaseExpiresAt != 0 ==> c.value != current)
      && (current.Assigned() ==> !c.value.Needy(now))
  {
  }

  /** The handler gives up when the log refuses a mark; what the log does with that mark later is open. */
  predicate Aborts(existing: map<string, Pod>, parsed: Pod, project: string, markFails: bool) {
    Replaces(existing, parsed, project) && markFails
  }

  /** The requests for one parsed replica. */
  function Changes(existing: map<string, Pod>, parsed: Pod, project: string, nano: nat, markFails: bool,
          at: int): seq<Request> {
    if Replaces(existing, parsed, project) then
      [MarkRequest(existing[parsed.baseID], parsed, nano, at)] +
      if markFails then [] else [PutRequest(existing, parsed, project, nano, at)]
    else
      [PutRequest(existing, parsed, project, nano, at)]
  }

  /** Whether the handler has given up by the time it reaches position `n`. */
  predicate Aborted(existing: map<string, Pod>, parsed: seq<Pod>, n: nat, project: string, markFails: seq<bool>)
    requires n <= |parsed| == |markFails|
  {
    exists i :: 0 <= i < n && Aborts(existing, parsed[i], project, markFails[i])
  }

  /** The requests for the first `n` parsed pods. */
  function Diff(existing: map<string, Pod>, parsed: seq<Pod>, n: nat, project: string, nanos: seq<nat>,
          markFails: seq<bool>, at: int): seq<Request>
    requires n <= |parsed| == |nanos| == |markFails|
  {
    if n == 0 then []
    else if Aborted(existing, parsed, n - 1, project, markFails) then
      Diff(existing, parsed, n - 1, project, nanos, markFails, at)
    else
      Diff(existing, parsed, n - 1, project, nanos, markFails, at) +
      Changes(existing, parsed[n - 1], project, nanos[n - 1], markFails[n - 1], at)
  }

  lemma NothingAfterAbort(existing: map<string, Pod>, parsed: seq<Pod>, m: nat, n: nat, project: string,
          nanos: seq<nat>, markFails: seq<bool>, at: int)
    requires m <= n <= |parsed| == |nanos| == |markFails| && Aborted(existing, parsed, m, project, markFails)
    ensures Diff(existing, parsed, n, project, nanos, markFails, at) ==
      Diff(existing, parsed, m, project, nanos, markFails, at)
  {
  }

  function Deploy(pods: seq<Pod>, parsed: seq<Pod>, project: string, nanos: seq<nat>, markFails: seq<bool>,
          at: int): seq<Request>
    requires |parsed| == |nanos| == |markFails|
  {
    Diff(ExistingByBase(pods, |pods|), parsed, |parsed|, project, nanos, markFails, at)
  }

  class APIServer {
    /** Everything handed to the log so far. */
    var outbox: seq<Request>

    constructor ()
      ensures outbox == []
    {
      outbox := [];
    }

    method HandleCompose(pods: seq<Pod>, parsed: seq<Pod>, project: string, nanos: seq<nat>, markFails: seq<bool>,
            at: int)
      requires |parsed| == |nanos| == |markFails|
      modifies this`outbox
      ensures outbox == old(outbox) + Deploy(pods, parsed, project, nanos, markFails, at)
    {
      var existingByBase: map<string, Pod> := map[];
      for i := 0 to |pods|
        invariant existingByBase == ExistingByBase(pods, i)
      {
        var p := pods[i];
        if p.updateToPodID == "" {
          existingByBase := existingByBase[p.baseID := p];
        }
      }
      ApplyDiff(existingByBase, parsed, project, nanos, markFails, at);
    }

    /** The diff loop. */
    method ApplyDiff(existingByBase: map<string, Pod>, parsed: seq<Pod>, project: string, nanos: seq<nat>,
            markFails: seq<bool>, at: int)
      requires |parsed| == |nanos| == |markFails|
      modifies this`outbox
      ensures outbox == old(outbox) + Diff(existingByBase, parsed, |parsed|, project, nanos, markFails, at)
    {
      hide Changes, Replaces;
      for i := 0 to |parsed|
        invariant !Aborted(existingByBase, parsed, i, project, markFails)
        invariant outbox == old(outbox) + Diff(existingByBase, parsed, i, project, nanos, markFails, at)
      {
        AppendAssociative(old(outbox), Diff(existingByBase, parsed, i, project, nanos, markFails, at),
                          Changes(existingByBase, parsed[i], project, nanos[i], markFails[i], at));
        var aborted := Change(existingByBase, parsed[i], project, nanos[i], markFails[i], at);
        if aborted {
          NothingAfterAbort(existingByBase, parsed, i + 1, |parsed|, project, nanos, markFails, at);
          return;
        }
      }
    }

    /** One turn of the diff loop. */
    method Change(existingByBase: map<string, Pod>, parsed: Pod, project: string, nano: nat, markFails: bool,
            at: int) returns (aborted: bool)
      modifies this`outbox
      ensures outbox == old(outbox) + Changes(existingByBase, parsed, project, nano, markFails, at)
      ensures aborted == Aborts(existingByBase, parsed, project, markFails)
    {
      var newPod := parsed;
      newPod := newPod.(project := project);
      var why := Deployment(parsed);
      if newPod.baseID in existingByBase && existingByBase[newPod.baseID].project == project {
        var oldPod := existingByBase[newPod.baseID];
        if oldPod.image != newPod.image {
          why := Rollout(oldPod, parsed, nano);
          newPod := newPod.(id := RollingName(newPod.baseID, nano));
          var marked := oldPod.(updateToPodID := newPod.id);
          outbox := outbox + [SetRequest(marked, Mark(oldPod, parsed, nano), at)];
          if markFails { return true; }
        } else {
          why := Rewrite(oldPod, parsed);
          newPod := newPod.(id := oldPod.id);
          newPod := newPod.(status := oldPod.status);
          newPod := newPod.(nodeID := oldPod.nodeID);
          newPod := newPod.(ready := oldPod.ready);
          newPod := newPod.(resourceVersion := oldPod.resourceVersion);
        }
      }
      outbox := outbox + [SetRequest(newPod, why, at)];
      return false;
    }
  }
}
