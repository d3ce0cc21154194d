/** The greedy claim loop of a single live writer that also renews its leases: it terminates, and what it ends up
    claiming is the least fixed point of the dependency, architecture and memory rules, whatever order the pods are
    listed in and whenever its renewals come. */
module Confluence {
  import opened Option
  import opened Collections
  import opened Pods
  import opened StateMachine
  import opened Cluster
  import opened Invariant

  /** One pass of the renewal loop: the list that was fetched, and what it answers and when for each pod. */
  datatype Pass = Pass(pods: seq<Pod>, running: Option<seq<bool>>, times: seq<int>)

  /** One scheduling cycle: the list that was fetched, the time read after it, and the time of the claim; with the
      renewals that came before the claim was committed, and those that came after it. */
  datatype Cycle = Cycle(pods: seq<Pod>, now: int, during: seq<Pass>, at: int, later: seq<Pass>)

  /** A list of the stored pods, in any order. */
  ghost predicate Enumerates(pods: seq<Pod>, s: Pods.Store) {
    forall p :: p in pods <==> p.Key() in s && s[p.Key()] == p
  }

  /** The pods that are Pending or hold a lease that has run out. */
  function NeedyKeys(s: Pods.Store, now: int): set<string> {
    set k | k in s && s[k].Needy(now)
  }

  predicate Own(node: S.Node, p: Pod) {
    p.nodeID == node.nodeID && p.Assigned()
  }

  /** The same record but for its version and its lease. */
  predicate SameButLease(p: Pod, q: Pod) {
    q == p.(resourceVersion := q.resourceVersion, leaseExpiresAt := q.leaseExpiresAt)
  }

  // ---- what passes and cycles do ------------------------------------------------------------------

  /** The store once some requests have been committed in order. */
  function Committed(s: Pods.Store, reqs: seq<Request>): Pods.Store {
    if reqs == [] then s else Effect(Committed(s, reqs[..|reqs| - 1]), reqs[|reqs| - 1].cmd)
  }

  predicate Answered(p: Pass) {
    |p.times| == |p.pods| && (p.running.Some? ==> |p.running.value| == |p.pods|)
  }

  function PassEffect(node: S.Node, s: Pods.Store, p: Pass): Pods.Store
    requires Answered(p)
  {
    Committed(s, S.Renewals(node, p.pods, |p.pods|, p.running, p.times))
  }

  function PassesEffect(node: S.Node, s: Pods.Store, passes: seq<Pass>): Pods.Store
    requires forall p :: p in passes ==> Answered(p)
  {
    if passes == [] then s
    else
      assert forall p :: p in passes[..|passes| - 1] ==> p in passes;
      PassEffect(node, PassesEffect(node, s, passes[..|passes| - 1]), passes[|passes| - 1])
  }

  predicate AnsweredCycle(c: Cycle) {
    (forall p :: p in c.during ==> Answered(p)) && forall p :: p in c.later ==> Answered(p)
  }

  /** The claim of a cycle, if it sends one. */
  function ClaimEffect(node: S.Node, s: Pods.Store, c: Cycle): Pods.Store {
    var reqs := S.Claims(node, c.pods, c.now, c.at);
    if reqs == [] then s else Effect(s, reqs[0].cmd)
  }

  function CycleEffect(node: S.Node, s: Pods.Store, c: Cycle): Pods.Store
    requires AnsweredCycle(c)
  {
    PassesEffect(node, ClaimEffect(node, PassesEffect(node, s, c.during), c), c.later)
  }

  /** The key a cycle claims, if it sends a claim and the claim is accepted. */
  function ClaimOf(node: S.Node, s: Pods.Store, c: Cycle): set<string>
    requires AnsweredCycle(c)
  {
    var reqs := S.Claims(node, c.pods, c.now, c.at);
    if reqs != [] && Accepted(PassesEffect(node, s, c.during), reqs[0].cmd) then {reqs[0].cmd.key} else {}
  }

  ghost function StoreAfter(node: S.Node, s: Pods.Store, cycles: seq<Cycle>): Pods.Store
    requires forall c :: c in cycles ==> AnsweredCycle(c)
  {
    if cycles == [] then s
    else
      assert forall c :: c in cycles[..|cycles| - 1] ==> c in cycles;
      CycleEffect(node, StoreAfter(node, s, cycles[..|cycles| - 1]), cycles[|cycles| - 1])
  }

  /** All that the cycles claimed. */
  ghost function Claimed(node: S.Node, s: Pods.Store, cycles: seq<Cycle>): set<string>
    requires forall c :: c in cycles ==> AnsweredCycle(c)
  {
    if cycles == [] then {}
    else
      assert forall c :: c in cycles[..|cycles| - 1] ==> c in cycles;
      Claimed(node, s, cycles[..|cycles| - 1]) +
      ClaimOf(node, StoreAfter(node, s, cycles[..|cycles| - 1]), cycles[|cycles| - 1])
  }

  /** Each pass reads a fresh list, and renews at times not before `from`. */
  ghost predicate CalmPasses(node: S.Node, s: Pods.Store, passes: seq<Pass>, from: int)
    requires forall p :: p in passes ==> Answered(p)
  {
    passes == [] ||
    var front, p := passes[..|passes| - 1], passes[|passes| - 1];
    (forall q :: q in front ==> q in passes) &&
    CalmPasses(node, s, front, from) && Enumerates(p.pods, PassesEffect(node, s, front)) &&
    forall i :: 0 <= i < |p.times| ==> from <= p.times[i]
  }

  /** The list of a cycle and those of its passes are fresh. */
  ghost predicate CalmCycle(node: S.Node, s: Pods.Store, c: Cycle)
    requires AnsweredCycle(c)
  {
    Enumerates(c.pods, s) && c.now <= c.at && CalmPasses(node, s, c.during, c.now) &&
    CalmPasses(node, ClaimEffect(node, PassesEffect(node, s, c.during), c), c.later, c.now)
  }

  /** Each cycle is calm, and no lease runs out between one cycle and the next. */
  ghost predicate Calm(node: S.Node, s: Pods.Store, cycles: seq<Cycle>)
    requires forall c :: c in cycles ==> AnsweredCycle(c)
  {
    cycles == [] ||
    var n := |cycles| - 1;
    (forall c :: c in cycles[..n] ==> c in cycles) &&
    var c, before := cycles[n], StoreAfter(node, s, cycles[..n]);
    Calm(node, s, cycles[..n]) && CalmCycle(node, before, c) &&
    (n > 0 ==> NeedyKeys(before, c.now) == NeedyKeys(before, cycles[n - 1].now))
  }

  // ---- the rules as a fixed point ---------------------------------------------------------------

  /** A pod as dependency checks see it once the pods of `claimed` have been claimed. */
  function Seen(node: S.Node, s: Pods.Store, claimed: set<string>, key: string): Pod
    requires key in s
  {
    if key in claimed then Locked(s[key], node.nodeID, 0) else s[key]
  }

  /** The rules allow claiming this pod once the pods of `claimed` have been claimed. */
  ghost predicate Allowed(node: S.Node, s: Pods.Store, needy: set<string>, claimed: set<string>, key: string) {
    key in needy && key in s && S.Fits(node, s[key]) &&
    forall app :: app in s[key].dependsOn ==>
      exists q :: q in s && S.Meets(Seen(node, s, claimed, q), app, s[key].dependsOn[app])
  }

  ghost predicate Closed(node: S.Node, s: Pods.Store, needy: set<string>, claimed: set<string>) {
    forall k :: Allowed(node, s, needy, claimed, k) ==> k in claimed
  }

  ghost predicate LeastFixedPoint(node: S.Node, s: Pods.Store, needy: set<string>, claimed: set<string>) {
    Closed(node, s, needy, claimed) && (forall k :: k in claimed ==> Allowed(node, s, needy, claimed, k)) &&
    forall other :: Closed(node, s, needy, other) ==> claimed <= other
  }

  /** Where one set of claims gives a dependency check what it needs, so does another that shows it no less. */
  lemma AllowedCarriesOver(node: S.Node, s: Pods.Store, needy: set<string>, claimed: set<string>, more: set<string>,
          key: string)
    requires Allowed(node, s, needy, claimed, key)
    requires forall q :: q in s && q in claimed && q !in more ==> Own(node, s[q])
    ensures Allowed(node, s, needy, more, key)
  {
    forall app | app in s[key].dependsOn
      ensures exists q :: q in s && S.Meets(Seen(node, s, more, q), app, s[key].dependsOn[app])
    {
      var q :| q in s && S.Meets(Seen(node, s, claimed, q), app, s[key].dependsOn[app]);
      assert S.Meets(Seen(node, s, more, q), app, s[key].dependsOn[app]);
    }
  }

  // ---- renewals -----------------------------------------------------------------------------------

  /** What the node's own renewals, none before `from`, may have made of a record. */
  predicate Renewed(node: S.Node, from: int, p: Pod, q: Pod) {
    q == p ||
    (Own(node, p) && SameButLease(p, q) && from + LEASE <= q.leaseExpiresAt && p.resourceVersion < q.resourceVersion)
  }

  ghost predicate RenewedStore(node: S.Node, from: int, s: Pods.Store, t: Pods.Store) {
    t.Keys == s.Keys && forall k :: k in s ==> Renewed(node, from, s[k], t[k])
  }

  lemma OneRenewal(node: S.Node, s: Pods.Store, t: Pods.Store, p: Pod, at: int, from: int)
    requires Keyed(s) && RenewedStore(node, from, s, t) && from <= at && Own(node, p)
    requires p.Key() in s && s[p.Key()] == p
    ensures RenewedStore(node, from, s, Effect(t, S.LockRequest(node, p, at, Renewal(p)).cmd))
  {
  }

  lemma CommittedOne(s: Pods.Store, reqs: seq<Request>, r: Request)
    ensures Committed(s, reqs + [r]) == Effect(Committed(s, reqs), r.cmd)
  {
    assert (reqs + [r])[..|reqs|] == reqs;
  }

  lemma {:induction false} RenewalsRenew(node: S.Node, s: Pods.Store, p: Pass, n: nat, from: int)
    requires Keyed(s) && Answered(p) && n <= |p.pods| && Enumerates(p.pods, s)
    requires forall i :: 0 <= i < |p.times| ==> from <= p.times[i]
    ensures RenewedStore(node, from, s, Committed(s, S.Renewals(node, p.pods, n, p.running, p.times)))
  {
    hide RenewedStore, Effect, Keyed;
    if n == 0 {
      NothingRenewed(node, from, s);
    } else {
      RenewalsRenew(node, s, p, n - 1, from);
      var q, front := p.pods[n - 1], S.Renewals(node, p.pods, n - 1, p.running, p.times);
      assert q in p.pods;
      if S.RenewalOf(node, q, p.running.Some? ==> p.running.value[n - 1], p.times[n - 1]) == [] {
        assert S.Renewals(node, p.pods, n, p.running, p.times) == front;
      } else {
        var r := S.LockRequest(node, q, p.times[n - 1], Renewal(q));
        assert S.Renewals(node, p.pods, n, p.running, p.times) == front + [r];
        CommittedOne(s, front, r);
        OneRenewal(node, s, Committed(s, front), q, p.times[n - 1], from);
      }
    }
  }

  lemma NothingRenewed(node: S.Node, from: int, s: Pods.Store)
    ensures RenewedStore(node, from, s, s)
  {
  }

  lemma RenewedTwice(node: S.Node, from: int, s: Pods.Store, t: Pods.Store, u: Pods.Store)
    requires RenewedStore(node, from, s, t) && RenewedStore(node, from, t, u)
    ensures RenewedStore(node, from, s, u)
  {
    forall k | k in s ensures Renewed(node, from, s[k], u[k]) {
      assert Renewed(node, from, s[k], t[k]) && Renewed(node, from, t[k], u[k]);
    }
  }

  lemma RenewedIsKeyed(node: S.Node, from: int, s: Pods.Store, t: Pods.Store)
    requires Keyed(s) && RenewedStore(node, from, s, t)
    ensures Keyed(t)
  {
    forall k | k in t ensures t[k].Key() == k { assert Renewed(node, from, s[k], t[k]); }
  }

  /** Passes of the renewal loop do nothing but renew. */
  lemma {:induction false} PassesRenew(node: S.Node, s: Pods.Store, passes: seq<Pass>, from: int)
    requires Keyed(s) && (forall p :: p in passes ==> Answered(p)) && CalmPasses(node, s, passes, from)
    ensures RenewedStore(node, from, s, PassesEffect(node, s, passes)) && Keyed(PassesEffect(node, s, passes))
  {
    hide RenewedStore, Keyed, Enumerates, S.Renewals, Committed;
    if passes == [] {
      NothingRenewed(node, from, s);
    } else {
      var front, p := passes[..|passes| - 1], passes[|passes| - 1];
      PassesRenew(node, s, front, from);
      var t := PassesEffect(node, s, front);
      RenewalsRenew(node, t, p, |p.pods|, from);
      RenewedTwice(node, from, s, t, PassEffect(node, t, p));
      RenewedIsKeyed(node, from, s, PassEffect(node, t, p));
    }
  }

  // ---- what every run of cycles keeps -----------------------------------------------------------

  /** The claimed pods are locked by the node; of the others only those that were its own from the start have changed,
      and only their leases. */
  ghost predicate Outcome(node: S.Node, s0: Pods.Store, claimed: set<string>, s: Pods.Store) {
    s.Keys == s0.Keys && forall k :: k in s ==>
      SameButLease(Seen(node, s0, claimed, k), s[k]) && (k in claimed || Own(node, s0[k]) || s[k] == s0[k])
  }

  /** Of the needy pods those that are no longer so have been claimed, or were the node's own. */
  ghost predicate Progress(node: S.Node, s0: Pods.Store, needy: set<string>, claimed: set<string>, s: Pods.Store,
    now: int) {
    Outcome(node, s0, claimed, s) && claimed <= needy <= s0.Keys && NeedyKeys(s, now) <= needy - claimed &&
    forall k :: k in needy && k !in claimed && k !in NeedyKeys(s, now) ==> Own(node, s0[k])
  }

  /** The claims follow the rules, and no set closed under the rules misses one of them. */
  ghost predicate Derivable(node: S.Node, s: Pods.Store, needy: set<string>, claimed: set<string>) {
    (forall k :: k in claimed ==> Allowed(node, s, needy, claimed, k)) &&
    forall other :: Closed(node, s, needy, other) ==> claimed <= other
  }

  /** Nothing that the rules allow is needy any more. */
  ghost predicate Idle(node: S.Node, s0: Pods.Store, needy: set<string>, claimed: set<string>, s: Pods.Store,
    now: int) {
    forall k :: Allowed(node, s0, needy, claimed, k) ==> k !in NeedyKeys(s, now)
  }

  lemma OneMoreIsDerivable(node: S.Node, s: Pods.Store, needy: set<string>, claimed: set<string>, key: string)
    requires Derivable(node, s, needy, claimed) && Allowed(node, s, needy, claimed, key)
    ensures Derivable(node, s, needy, claimed + {key})
  {
    forall other | Closed(node, s, needy, other) ensures claimed + {key} <= other {
      AllowedCarriesOver(node, s, needy, claimed, other, key);
    }
    forall k | k in claimed + {key} ensures Allowed(node, s, needy, claimed + {key}, k) {
      AllowedCarriesOver(node, s, needy, claimed, claimed + {key}, k);
    }
  }

  /** A condition is met on the current list exactly when the rules say so on the initial store. */
  lemma ConditionAgrees(node: S.Node, s0: Pods.Store, claimed: set<string>, s: Pods.Store, pods: seq<Pod>, app: string,
          condition: string)
    requires Keyed(s0) && Outcome(node, s0, claimed, s) && Enumerates(pods, s)
    ensures (exists p :: p in pods && S.Meets(p, app, condition)) <==>
            (exists q :: q in s0 && S.Meets(Seen(node, s0, claimed, q), app, condition))
  {
    if p :| p in pods && S.Meets(p, app, condition) {
      assert S.Meets(Seen(node, s0, claimed, p.Key()), app, condition);
    }
    if q :| q in s0 && S.Meets(Seen(node, s0, claimed, q), app, condition) {
      assert s[q].Key() == q;
      assert s[q] in pods && S.Meets(s[q], app, condition);
    }
  }

  /** Dependency checks on the current list are the rules on the initial store. */
  lemma DependenciesAgree(node: S.Node, s0: Pods.Store, claimed: set<string>, s: Pods.Store, pods: seq<Pod>,
          dependsOn: map<string, string>)
    requires Keyed(s0) && Outcome(node, s0, claimed, s) && Enumerates(pods, s)
    ensures S.DependenciesMet(pods, dependsOn) <==>
      forall app :: app in dependsOn ==> exists q :: q in s0 && S.Meets(Seen(node, s0, claimed, q), app, dependsOn[app])
  {
    hide S.Meets, Seen, Outcome, Keyed, Enumerates;
    forall app | app in dependsOn
      ensures (exists p :: p in pods && S.Meets(p, app, dependsOn[app])) <==>
              (exists q :: q in s0 && S.Meets(Seen(node, s0, claimed, q), app, dependsOn[app]))
    {
      ConditionAgrees(node, s0, claimed, s, pods, app, dependsOn[app]);
    }
  }

  /** A listed pod is eligible exactly when the rules allow it and it is still needy. */
  lemma EligibleIsAllowed(node: S.Node, s0: Pods.Store, needy: set<string>, claimed: set<string>, s: Pods.Store,
          pods: seq<Pod>, now: int, key: string)
    requires Keyed(s0) && Progress(node, s0, needy, claimed, s, now) && Enumerates(pods, s) && key in s
    ensures S.Eligible(node, pods, s[key], now) <==> Allowed(node, s0, needy, claimed, key) && key in NeedyKeys(s, now)
  {
    DependenciesAgree(node, s0, claimed, s, pods, s0[key].dependsOn);
    hide S.DependenciesMet, Enumerates, S.Meets;
    assert SameButLease(Seen(node, s0, claimed, key), s[key]);
    assert s[key].dependsOn == s0[key].dependsOn && S.Fits(node, s[key]) == S.Fits(node, s0[key]);
    assert S.DependenciesMet(pods, s[key].dependsOn) == S.DependenciesMet(pods, s0[key].dependsOn);
    assert key in NeedyKeys(s, now) <==> s[key].Needy(now);
    assert key in NeedyKeys(s, now) ==> key in needy && key in s0;
  }

  /** Renewals keep what has been achieved. */
  lemma RenewalKeepsProgress(node: S.Node, s0: Pods.Store, needy: set<string>, claimed: set<string>, s: Pods.Store,
          t: Pods.Store, now: int)
    requires Progress(node, s0, needy, claimed, s, now) && RenewedStore(node, now, s, t)
    ensures Progress(node, s0, needy, claimed, t, now) && NeedyKeys(t, now) <= NeedyKeys(s, now)
    ensures forall k :: k in NeedyKeys(s, now) && k !in NeedyKeys(t, now) ==> k in s0 && Own(node, s0[k])
  {
    forall k | k in s
      ensures SameButLease(Seen(node, s0, claimed, k), t[k]) && (k in claimed || Own(node, s0[k]) || t[k] == s0[k])
      ensures t[k].Needy(now) ==> s[k].Needy(now)
      ensures s[k].Needy(now) && !t[k].Needy(now) ==> Own(node, s0[k])
    {
      assert Renewed(node, now, s[k], t[k]);
      assert k in claimed ==> k !in NeedyKeys(s, now);
    }
  }

  /** A cycle that sends no claim finds nothing needy that the rules allow. */
  lemma NoClaimMeansIdle(node: S.Node, s0: Pods.Store, needy: set<string>, claimed: set<string>, s: Pods.Store,
    c: Cycle)
    requires Keyed(s0) && Progress(node, s0, needy, claimed, s, c.now) && Enumerates(c.pods, s)
    requires S.Claims(node, c.pods, c.now, c.at) == []
    ensures Idle(node, s0, needy, claimed, s, c.now)
  {
    hide Allowed;
    forall k | Allowed(node, s0, needy, claimed, k) ensures k !in NeedyKeys(s, c.now) {
      if k in s {
        EligibleIsAllowed(node, s0, needy, claimed, s, c.pods, c.now, k);
        assert s[k].Key() == k;
        assert s[k] in c.pods ==> !S.Eligible(node, c.pods, s[k], c.now);
      }
    }
  }

  /** What a claiming cycle tries to claim: a needy pod that the rules allow. */
  lemma ClaimIsAllowed(node: S.Node, s0: Pods.Store, needy: set<string>, claimed: set<string>, s: Pods.Store, c: Cycle)
          returns (key: string)
    requires Keyed(s0) && Progress(node, s0, needy, claimed, s, c.now) && Enumerates(c.pods, s)
    requires S.Claims(node, c.pods, c.now, c.at) != []
    ensures key in NeedyKeys(s, c.now) && Allowed(node, s0, needy, claimed, key) && key != ""
    ensures S.Eligible(node, c.pods, s[key], c.now)
    ensures S.Claims(node, c.pods, c.now, c.at)[0].cmd ==
      Cas(key, Locked(s[key], node.nodeID, c.at), s[key].resourceVersion)
  {
    hide Allowed, Outcome;
    var req := S.Claims(node, c.pods, c.now, c.at)[0];
    key := req.cmd.key;
    var p := req.why.pod;
    assert p in c.pods && S.Eligible(node, c.pods, p, c.now);
    EligibleIsAllowed(node, s0, needy, claimed, s, c.pods, c.now, key);
  }

  lemma ClaimedKeepsProgress(node: S.Node, s0: Pods.Store, needy: set<string>, claimed: set<string>, t: Pods.Store,
          now: int, key: string, at: int)
    requires Progress(node, s0, needy, claimed, t, now) && key in NeedyKeys(t, now) && now <= at
    ensures var u := t[key := Locked(t[key], node.nodeID, at)];
      Progress(node, s0, needy, claimed + {key}, u, now) && NeedyKeys(u, now) == NeedyKeys(t, now) - {key}
  {
    var u := t[key := Locked(t[key], node.nodeID, at)];
    assert key !in claimed && SameButLease(s0[key], t[key]);
    assert SameButLease(Locked(s0[key], node.nodeID, 0), u[key]);
    assert NeedyKeys(u, now) == NeedyKeys(t, now) - {key};
  }

  /** The claim of a cycle: it is accepted, or a renewal has come first; either way the pod is needy no longer. */
  lemma ClaimStep(node: S.Node, s0: Pods.Store, needy: set<string>, claimed: set<string>, s: Pods.Store, t: Pods.Store,
          c: Cycle, key: string)
    requires Progress(node, s0, needy, claimed, t, c.now) && RenewedStore(node, c.now, s, t) && c.now <= c.at
    requires key in NeedyKeys(s, c.now) && key in needy && key !in claimed && key != ""
    requires S.Claims(node, c.pods, c.now, c.at) != []
    requires S.Claims(node, c.pods, c.now, c.at)[0].cmd ==
      Cas(key, Locked(s[key], node.nodeID, c.at), s[key].resourceVersion)
    ensures var cmd, u := S.Claims(node, c.pods, c.now, c.at)[0].cmd, ClaimEffect(node, t, c);
      && Progress(node, s0, needy, if Accepted(t, cmd) then claimed + {key} else claimed, u, c.now)
      && NeedyKeys(u, c.now) == NeedyKeys(t, c.now) - {key}
      && (!Accepted(t, cmd) ==> Own(node, s0[key]))
  {
    hide *;
    var cmd := S.Claims(node, c.pods, c.now, c.at)[0].cmd;
    ClaimFacts(node, s0, needy, claimed, s, t, c, key);
    if s[key] == t[key] {
      ClaimIsTaken(node, t, key, c.at);
      NeedyOnlyByRecord(s, t, c.now, key);
      ClaimedKeepsProgress(node, s0, needy, claimed, t, c.now, key, c.at);
    } else {
      RenewedIsCovered(node, s, t, c.now, key, cmd.value);
      RefusalChangesNothing(t, cmd);
      StillOwn(node, s0, claimed, s, t, c.now, key);
    }
  }

  lemma ClaimFacts(node: S.Node, s0: Pods.Store, needy: set<string>, claimed: set<string>, s: Pods.Store,
          t: Pods.Store, c: Cycle, key: string)
    requires Progress(node, s0, needy, claimed, t, c.now) && RenewedStore(node, c.now, s, t)
    requires key in NeedyKeys(s, c.now) && S.Claims(node, c.pods, c.now, c.at) != []
    ensures key in s && key in t && Outcome(node, s0, claimed, t)
    ensures ClaimEffect(node, t, c) == Effect(t, S.Claims(node, c.pods, c.now, c.at)[0].cmd)
  {
    hide S.Claims, Outcome, Renewed;
  }

  lemma ClaimIsTaken(node: S.Node, t: Pods.Store, key: string, at: int)
    requires key in t && key != ""
    ensures var v := Locked(t[key], node.nodeID, at);
      var cmd := Cas(key, v, t[key].resourceVersion);
      Accepted(t, cmd) && Effect(t, cmd) == t[key := v]
  {
  }

  lemma RefusalChangesNothing(t: Pods.Store, cmd: Pods.Command)
    requires cmd.Cas? && !Accepted(t, cmd)
    ensures Effect(t, cmd) == t
  {
  }

  lemma NeedyOnlyByRecord(s: Pods.Store, t: Pods.Store, now: int, key: string)
    requires key in s && key in t && s[key] == t[key]
    ensures key in NeedyKeys(s, now) <==> key in NeedyKeys(t, now)
  {
  }

  /** A needy pod that has been renewed was the node's own from the start. */
  lemma StillOwn(node: S.Node, s0: Pods.Store, claimed: set<string>, s: Pods.Store, t: Pods.Store, now: int,
          key: string)
    requires Outcome(node, s0, claimed, t) && RenewedStore(node, now, s, t)
    requires key in s && key !in claimed && s[key] != t[key]
    ensures Own(node, s0[key])
  {
    assert Renewed(node, now, s[key], t[key]);
    assert SameButLease(Seen(node, s0, claimed, key), t[key]);
  }

  /** What one cycle does: with nothing to claim it is idle and only renews; otherwise one more pod that the rules allow
      is needy no longer, because it is claimed or because it was the node's own and is renewed first. */
  ghost predicate Advance(node: S.Node, s0: Pods.Store, needy: set<string>, claimed: set<string>, s: Pods.Store,
          c: Cycle, claimed': set<string>, s': Pods.Store) {
    NeedyKeys(s', c.now) <= NeedyKeys(s, c.now) &&
    if S.Claims(node, c.pods, c.now, c.at) == [] then
      claimed' == claimed && Idle(node, s0, needy, claimed, s, c.now) && RenewedStore(node, c.now, s, s')
    else
      exists key :: TakesOne(node, s0, needy, claimed, s, c.now, claimed', s', key)
  }

  ghost predicate TakesOne(node: S.Node, s0: Pods.Store, needy: set<string>, claimed: set<string>, s: Pods.Store,
          now: int, claimed': set<string>, s': Pods.Store, key: string) {
    key in NeedyKeys(s, now) && key !in NeedyKeys(s', now) && key in s0 && Allowed(node, s0, needy, claimed, key) &&
    (claimed' == claimed + {key} || (claimed' == claimed && Own(node, s0[key]))) &&
    forall k :: k in NeedyKeys(s, now) && k !in NeedyKeys(s', now) && k != key ==> k in s0 && Own(node, s0[k])
  }

  lemma OneCycle(node: S.Node, s0: Pods.Store, needy: set<string>, claimed: set<string>, s: Pods.Store, c: Cycle)
    requires Keyed(s0) && Keyed(s) && Progress(node, s0, needy, claimed, s, c.now) && AnsweredCycle(c) &&
      CalmCycle(node, s, c)
    ensures var claimed', s' := claimed + ClaimOf(node, s, c), CycleEffect(node, s, c);
      Progress(node, s0, needy, claimed', s', c.now) && Keyed(s') &&
        Advance(node, s0, needy, claimed, s, c, claimed', s')
  {
    hide Progress, Enumerates, Keyed, Allowed, S.Claims, RenewedStore, Idle, NeedyKeys, Accepted, Effect;
    PassesRenew(node, s, c.during, c.now);
    var t := PassesEffect(node, s, c.during);
    RenewalKeepsProgress(node, s0, needy, claimed, s, t, c.now);
    var u, s' := ClaimEffect(node, t, c), CycleEffect(node, s, c);
    if S.Claims(node, c.pods, c.now, c.at) == [] {
      NoClaimMeansIdle(node, s0, needy, claimed, s, c);
      PassesRenew(node, u, c.later, c.now);
      RenewalKeepsProgress(node, s0, needy, claimed, u, s', c.now);
      RenewedTwice(node, c.now, s, t, s');
      assert claimed + ClaimOf(node, s, c) == claimed;
    } else {
      var key := ClaimIsAllowed(node, s0, needy, claimed, s, c);
      NeedyIsUnclaimed(node, s0, needy, claimed, s, c.now, key);
      ClaimStep(node, s0, needy, claimed, s, t, c, key);
      var claimed' := claimed + ClaimOf(node, s, c);
      assert claimed' == if Accepted(t, S.Claims(node, c.pods, c.now, c.at)[0].cmd) then claimed + {key} else claimed;
      OutcomeIsKeyed(node, s0, needy, claimed', u, c.now);
      PassesRenew(node, u, c.later, c.now);
      RenewalKeepsProgress(node, s0, needy, claimed', u, s', c.now);
      assert TakesOne(node, s0, needy, claimed, s, c.now, claimed', s', key);
    }
  }

  lemma NeedyIsUnclaimed(node: S.Node, s0: Pods.Store, needy: set<string>, claimed: set<string>, s: Pods.Store,
          now: int, key: string)
    requires Progress(node, s0, needy, claimed, s, now) && key in NeedyKeys(s, now)
    ensures key in needy && key !in claimed && key in s && key in s0
  {
  }

  lemma OutcomeIsKeyed(node: S.Node, s0: Pods.Store, needy: set<string>, claimed: set<string>, s: Pods.Store, now: int)
    requires Keyed(s0) && Progress(node, s0, needy, claimed, s, now)
    ensures Keyed(s)
  {
    forall k | k in s ensures s[k].Key() == k { assert SameButLease(Seen(node, s0, claimed, k), s[k]); }
  }

  /** After `n` cycles the claims follow the rules, and `n` pods are needy no longer or nothing is left to claim. */
  ghost predicate Settled(node: S.Node, s0: Pods.Store, needy: set<string>, claimed: set<string>, s: Pods.Store,
    now: int, n: nat) {
    Derivable(node, s0, needy, claimed) &&
    (n <= |needy - NeedyKeys(s, now)| || Idle(node, s0, needy, claimed, s, now))
  }

  lemma SettledStep(node: S.Node, s0: Pods.Store, needy: set<string>, claimed: set<string>, s: Pods.Store, c: Cycle,
          claimed': set<string>, s': Pods.Store, n: nat)
    requires Progress(node, s0, needy, claimed, s, c.now) && Settled(node, s0, needy, claimed, s, c.now, n)
    requires Advance(node, s0, needy, claimed, s, c, claimed', s')
    ensures Settled(node, s0, needy, claimed', s', c.now, n + 1)
  {
    hide Outcome, Allowed, S.Claims, RenewedStore, Derivable;
    if S.Claims(node, c.pods, c.now, c.at) != [] {
      var key :| TakesOne(node, s0, needy, claimed, s, c.now, claimed', s', key);
      OneMoreIsDerivable(node, s0, needy, claimed, key);
      SubsetSize(needy - NeedyKeys(s, c.now) + {key}, needy - NeedyKeys(s', c.now));
      assert |needy - NeedyKeys(s, c.now) + {key}| == |needy - NeedyKeys(s, c.now)| + 1;
    }
  }

  lemma StartsWithProgress(node: S.Node, s: Pods.Store, now: int)
    ensures Progress(node, s, NeedyKeys(s, now), {}, s, now) && Settled(node, s, NeedyKeys(s, now), {}, s, now, 0)
  {
  }

  /** What the last cycle finds. */
  lemma {:induction false} BeforeCycle(node: S.Node, s: Pods.Store, cycles: seq<Cycle>)
    requires Keyed(s) && cycles != [] && (forall c :: c in cycles ==> AnsweredCycle(c)) && Calm(node, s, cycles)
    ensures forall c :: c in cycles[..|cycles| - 1] ==> AnsweredCycle(c)
    ensures var n := |cycles| - 1;
      var c, needy, claimed, before := cycles[n], NeedyKeys(s, cycles[0].now), Claimed(node, s, cycles[..n]),
        StoreAfter(node, s, cycles[..n]);
      Keyed(before) && CalmCycle(node, before, c) && Progress(node, s, needy, claimed, before, c.now) &&
      Settled(node, s, needy, claimed, before, c.now, n)
    decreases |cycles|, 0
  {
    hide Keyed, CalmCycle, Progress, Settled, NeedyKeys, CycleEffect, ClaimOf;
    var n := |cycles| - 1;
    var front := cycles[..n];
    if n == 0 {
      StartsWithProgress(node, s, cycles[0].now);
    } else {
      assert front[0] == cycles[0] && front[|front| - 1] == cycles[n - 1];
      AfterCycle(node, s, front);
      SameNeedy(node, s, NeedyKeys(s, cycles[0].now), Claimed(node, s, front), StoreAfter(node, s, front),
                cycles[n - 1].now, cycles[n].now, n);
    }
  }

  lemma SameNeedy(node: S.Node, s0: Pods.Store, needy: set<string>, claimed: set<string>, s: Pods.Store,
          now: int, later: int, n: nat)
    requires Progress(node, s0, needy, claimed, s, now) && Settled(node, s0, needy, claimed, s, now, n)
    requires NeedyKeys(s, now) == NeedyKeys(s, later)
    ensures Progress(node, s0, needy, claimed, s, later) && Settled(node, s0, needy, claimed, s, later, n)
  {
    hide Outcome, Allowed, Derivable;
  }

  /** What the last cycle leaves. */
  lemma {:induction false} AfterCycle(node: S.Node, s: Pods.Store, cycles: seq<Cycle>)
    requires Keyed(s) && cycles != [] && (forall c :: c in cycles ==> AnsweredCycle(c)) && Calm(node, s, cycles)
    ensures var c, needy, claimed, after := cycles[|cycles| - 1], NeedyKeys(s, cycles[0].now), Claimed(node, s, cycles),
      StoreAfter(node, s, cycles);
      Keyed(after) && Progress(node, s, needy, claimed, after, c.now) &&
        Settled(node, s, needy, claimed, after, c.now, |cycles|)
    decreases |cycles|, 1
  {
    hide Keyed, CalmCycle, Progress, Settled, NeedyKeys, CycleEffect, ClaimOf, Advance, Calm;
    BeforeCycle(node, s, cycles);
    var n := |cycles| - 1;
    var c, needy, claimed, before := cycles[n], NeedyKeys(s, cycles[0].now), Claimed(node, s, cycles[..n]),
      StoreAfter(node, s, cycles[..n]);
    OneCycle(node, s, needy, claimed, before, c);
    SettledStep(node, s, needy, claimed, before, c, claimed + ClaimOf(node, before, c), CycleEffect(node, before, c),
      n);
  }

  // ---- the theorems -----------------------------------------------------------------------------

  /** A cycle that finds an eligible pod takes one from the needy, and besides only the node's own by renewing them; any
      other cycle only renews.  So if none of the needy pods is the node's own, their number falls by exactly one, or
      stays as it is. */
  lemma CycleLowersNeedyByOne(node: S.Node, s: Pods.Store, cycles: seq<Cycle>)
    requires Keyed(s) && cycles != [] && (forall c :: c in cycles ==> AnsweredCycle(c)) && Calm(node, s, cycles)
    ensures forall c :: c in cycles[..|cycles| - 1] ==> AnsweredCycle(c)
    ensures var n := |cycles| - 1;
      var c, before, after := cycles[n], StoreAfter(node, s, cycles[..n]), StoreAfter(node, s, cycles);
      var needy, left := NeedyKeys(before, c.now), NeedyKeys(after, c.now);
      && left <= needy
      && (if exists p :: p in c.pods && S.Eligible(node, c.pods, p, c.now)
          then exists key :: key in needy - left && forall k :: k in needy - left - {key} ==> Own(node, before[k])
          else RenewedStore(node, c.now, before, after))
      && ((forall k :: k in needy ==> !Own(node, before[k])) ==>
            |left| == if exists p :: p in c.pods && S.Eligible(node, c.pods, p, c.now) then |needy| - 1 else |needy|)
  {
    hide Keyed, CalmCycle, Settled, CycleEffect, ClaimOf, Calm, S.Claims, S.Eligible, Allowed, Idle;
    BeforeCycle(node, s, cycles);
    var n := |cycles| - 1;
    var c, needy0, claimed, before := cycles[n], NeedyKeys(s, cycles[0].now), Claimed(node, s, cycles[..n]),
      StoreAfter(node, s, cycles[..n]);
    var after := StoreAfter(node, s, cycles);
    OneCycle(node, s, needy0, claimed, before, c);
    ClaimsWhenEligible(node, c);
    LoweredByOne(node, s, needy0, claimed, before, c, claimed + ClaimOf(node, before, c), after);
  }

  lemma LoweredByOne(node: S.Node, s0: Pods.Store, needy0: set<string>, claimed: set<string>, s: Pods.Store, c: Cycle,
          claimed': set<string>, s': Pods.Store)
    requires Progress(node, s0, needy0, claimed, s, c.now) && Advance(node, s0, needy0, claimed, s, c, claimed', s')
    ensures var needy, left := NeedyKeys(s, c.now), NeedyKeys(s', c.now);
      var claims := S.Claims(node, c.pods, c.now, c.at) != [];
      && left <= needy
      && (if claims then exists key :: key in needy - left && forall k :: k in needy - left - {key} ==> Own(node, s[k])
          else RenewedStore(node, c.now, s, s'))
      && ((forall k :: k in needy ==> !Own(node, s[k])) ==> |left| == if claims then |needy| - 1 else |needy|)
  {
    hide S.Claims, Allowed, Idle, Own;
    var needy, left := NeedyKeys(s, c.now), NeedyKeys(s', c.now);
    forall k | k in needy && Own(node, s0[k]) ensures Own(node, s[k]) { StaysOwn(node, s0, claimed, s, k); }
    if S.Claims(node, c.pods, c.now, c.at) != [] {
      var key :| TakesOne(node, s0, needy0, claimed, s, c.now, claimed', s', key);
      hide TakesOne, Progress, Outcome, NeedyKeys;
      TakenIsOne(node, s0, needy0, claimed, s, c.now, claimed', s', key);
      assert key in needy - left;
      if forall k :: k in needy ==> !Own(node, s[k]) { assert left == needy - {key}; }
    } else if forall k :: k in needy ==> !Own(node, s[k]) {
      forall k | k in needy ensures k in left { assert Renewed(node, c.now, s[k], s'[k]); }
      assert left == needy;
    }
  }

  lemma TakenIsOne(node: S.Node, s0: Pods.Store, needy: set<string>, claimed: set<string>, s: Pods.Store, now: int,
          claimed': set<string>, s': Pods.Store, key: string)
    requires TakesOne(node, s0, needy, claimed, s, now, claimed', s', key)
    ensures key in NeedyKeys(s, now) && key !in NeedyKeys(s', now)
    ensures forall k :: k in NeedyKeys(s, now) && k !in NeedyKeys(s', now) && k != key ==> k in s0 && Own(node, s0[k])
  {
  }

  lemma StaysOwn(node: S.Node, s0: Pods.Store, claimed: set<string>, s: Pods.Store, k: string)
    requires Outcome(node, s0, claimed, s) && k in s && Own(node, s0[k])
    ensures Own(node, s[k])
  {
    assert SameButLease(Seen(node, s0, claimed, k), s[k]);
  }

  lemma ClaimsWhenEligible(node: S.Node, c: Cycle)
    ensures S.Claims(node, c.pods, c.now, c.at) != [] <==> exists p :: p in c.pods && S.Eligible(node, c.pods, p, c.now)
  {
    if S.Claims(node, c.pods, c.now, c.at) != [] {
      var p := S.Claims(node, c.pods, c.now, c.at)[0].why.pod;
      assert p in c.pods && S.Eligible(node, c.pods, p, c.now);
    }
  }

  /** Needy pods of the node's own that the rules would have let it claim. */
  ghost function Retaken(node: S.Node, s: Pods.Store, needy: set<string>, claimed: set<string>): set<string> {
    set k | k in needy && k in s && Own(node, s[k]) && Allowed(node, s, needy, claimed, k)
  }

  lemma IdleIsFixed(node: S.Node, s0: Pods.Store, needy: set<string>, claimed: set<string>, s: Pods.Store, now: int)
    requires Progress(node, s0, needy, claimed, s, now) && Derivable(node, s0, needy, claimed)
    requires Idle(node, s0, needy, claimed, s, now)
    ensures LeastFixedPoint(node, s0, needy, claimed + Retaken(node, s0, needy, claimed))
  {
    hide Outcome, Allowed;
    var all := claimed + Retaken(node, s0, needy, claimed);
    forall k | Allowed(node, s0, needy, all, k) ensures k in all {
      AllowedCarriesOver(node, s0, needy, all, claimed, k);
      AllowedIsNeedy(node, s0, needy, claimed, k);
    }
    forall k | k in all
      ensures Allowed(node, s0, needy, all, k) { AllowedCarriesOver(node, s0, needy, claimed, all, k); }
    forall other | Closed(node, s0, needy, other) ensures all <= other {
      forall k | k in Retaken(node, s0, needy, claimed) ensures k in other {
        AllowedCarriesOver(node, s0, needy, claimed, other, k);
      }
    }
  }

  lemma AllowedIsNeedy(node: S.Node, s: Pods.Store, needy: set<string>, claimed: set<string>, key: string)
    requires Allowed(node, s, needy, claimed, key)
    ensures key in needy && key in s
  {
  }

  /** After more cycles than there were needy pods nothing is left to claim: the claimed pods, together with those of
      the node's own that it could as well have claimed but may have renewed, are the least fixed point of the rules on
      the initial store.  The claimed pods are locked by the node, no other has changed but for leases of its own. */
  lemma GreedyReachesLeastFixedPoint(node: S.Node, s: Pods.Store, cycles: seq<Cycle>)
    requires Keyed(s) && cycles != [] && (forall c :: c in cycles ==> AnsweredCycle(c)) && Calm(node, s, cycles)
    requires |NeedyKeys(s, cycles[0].now)| < |cycles|
    ensures var needy, claimed := NeedyKeys(s, cycles[0].now), Claimed(node, s, cycles);
      && LeastFixedPoint(node, s, needy, claimed + Retaken(node, s, needy, claimed))
      && ((forall k :: k in needy ==> !Own(node, s[k])) ==> LeastFixedPoint(node, s, needy, claimed))
      && Outcome(node, s, claimed, StoreAfter(node, s, cycles))
  {
    hide Allowed, Calm, CalmCycle, LeastFixedPoint, Derivable, Idle, Outcome;
    var needy, claimed, after, now := NeedyKeys(s, cycles[0].now), Claimed(node, s, cycles),
      StoreAfter(node, s, cycles), cycles[|cycles| - 1].now;
    AfterCycle(node, s, cycles);
    SubsetSize(needy - NeedyKeys(after, now), needy);
    IdleIsFixed(node, s, needy, claimed, after, now);
    if forall k :: k in needy ==> !Own(node, s[k]) { assert claimed + Retaken(node, s, needy, claimed) == claimed; }
  }

  /** Confluence: two runs from the same store and the same needy pods, listing pods in any orders and at any times and
      renewing leases whenever they do, claim the same pods but for the node's own, and end with the same records but
      for versions and leases. */
  lemma GreedyIsConfluent(node: S.Node, s: Pods.Store, cycles: seq<Cycle>, others: seq<Cycle>)
    requires Keyed(s) && cycles != [] && (forall c :: c in cycles ==> AnsweredCycle(c)) && Calm(node, s, cycles)
    requires others != [] && (forall c :: c in others ==> AnsweredCycle(c)) && Calm(node, s, others)
    requires NeedyKeys(s, cycles[0].now) == NeedyKeys(s, others[0].now)
    requires |NeedyKeys(s, cycles[0].now)| < |cycles| && |NeedyKeys(s, cycles[0].now)| < |others|
    ensures forall k :: k in s && !Own(node, s[k]) ==>
      (k in Claimed(node, s, cycles) <==> k in Claimed(node, s, others))
    ensures var one, two := StoreAfter(node, s, cycles), StoreAfter(node, s, others);
      one.Keys == two.Keys == s.Keys && forall k :: k in s ==> SameButLease(one[k], two[k])
  {
    hide Allowed, Calm, LeastFixedPoint, NeedyKeys, Outcome, Keyed;
    GreedyReachesLeastFixedPoint(node, s, cycles);
    GreedyReachesLeastFixedPoint(node, s, others);
    var needy, a, b := NeedyKeys(s, cycles[0].now), Claimed(node, s, cycles), Claimed(node, s, others);
    LeastIsUnique(node, s, needy, a + Retaken(node, s, needy, a), b + Retaken(node, s, needy, b));
    forall k | k in s && !Own(node, s[k]) ensures k in a <==> k in b {
      assert k in a + Retaken(node, s, needy, a) <==> k in b + Retaken(node, s, needy, b);
    }
    SameOutcome(node, s, a, b, StoreAfter(node, s, cycles), StoreAfter(node, s, others));
  }

  lemma LeastIsUnique(node: S.Node, s: Pods.Store, needy: set<string>, a: set<string>, b: set<string>)
    requires LeastFixedPoint(node, s, needy, a) && LeastFixedPoint(node, s, needy, b)
    ensures a == b
  {
    hide Allowed, Closed;
  }

  lemma SameOutcome(node: S.Node, s: Pods.Store, a: set<string>, b: set<string>, one: Pods.Store, two: Pods.Store)
    requires Outcome(node, s, a, one) && Outcome(node, s, b, two)
    requires forall k :: k in s && !Own(node, s[k]) ==> (k in a <==> k in b)
    ensures one.Keys == two.Keys == s.Keys && forall k :: k in s ==> SameButLease(one[k], two[k])
  {
    forall k | k in s ensures SameButLease(one[k], two[k]) {
      hide SameButLease, Seen;
      assert SameButLease(Seen(node, s, a, k), one[k]) && SameButLease(Seen(node, s, b, k), two[k]);
      SeenAlike(node, s, a, b, k);
      SameThroughout(Seen(node, s, a, k), Seen(node, s, b, k), one[k], two[k]);
    }
  }

  lemma SeenAlike(node: S.Node, s: Pods.Store, a: set<string>, b: set<string>, k: string)
    requires k in s && (Own(node, s[k]) || (k in a <==> k in b))
    ensures SameButLease(Seen(node, s, a, k), Seen(node, s, b, k))
  {
  }

  lemma SameThroughout(p: Pod, q: Pod, p': Pod, q': Pod)
    requires SameButLease(p, q) && SameButLease(p, p') && SameButLease(q, q')
    ensures SameButLease(p', q')
  {
  }

  // ---- when the claims themselves are determined ------------------------------------------------------

  /** A finished run has claimed the least fixed point exactly when it has claimed all of the node's own pods that the
      rules allow: when no renewal took one of them first. */
  lemma ClaimsAreLeastExactlyWhen(node: S.Node, s: Pods.Store, cycles: seq<Cycle>)
    requires Keyed(s) && cycles != [] && (forall c :: c in cycles ==> AnsweredCycle(c)) && Calm(node, s, cycles)
    requires |NeedyKeys(s, cycles[0].now)| < |cycles|
    ensures var needy, claimed := NeedyKeys(s, cycles[0].now), Claimed(node, s, cycles);
      LeastFixedPoint(node, s, needy, claimed) <==> Retaken(node, s, needy, claimed) <= claimed
  {
    hide Allowed, Calm, LeastFixedPoint, Outcome, Keyed;
    GreedyReachesLeastFixedPoint(node, s, cycles);
    var needy, claimed := NeedyKeys(s, cycles[0].now), Claimed(node, s, cycles);
    if LeastFixedPoint(node, s, needy, claimed) {
      LeastIsUnique(node, s, needy, claimed, claimed + Retaken(node, s, needy, claimed));
    }
    if Retaken(node, s, needy, claimed) <= claimed {
      assert claimed + Retaken(node, s, needy, claimed) == claimed;
    }
  }

  /** A run from the store at that time, long enough to finish. */
  ghost predicate LongRun(node: S.Node, s: Pods.Store, now: int, cycles: seq<Cycle>) {
    cycles != [] && (forall c :: c in cycles ==> AnsweredCycle(c)) && Calm(node, s, cycles) && cycles[0].now == now &&
    |NeedyKeys(s, now)| < |cycles|
  }

  lemma ListingEnumerates(s: Pods.Store)
    requires Keyed(s)
    ensures Enumerates(Listing(s), s)
  {
    forall p ensures p in Listing(s) <==> p.Key() in s && s[p.Key()] == p { ListingMember(s, p); }
  }

  /** Some cycles, followed by `n` more at the same time without any renewals. */
  ghost function Extended(node: S.Node, s: Pods.Store, cycles: seq<Cycle>, now: int, n: nat): (r: seq<Cycle>)
    requires forall c :: c in cycles ==> AnsweredCycle(c)
    ensures |r| == |cycles| + n && r[..|cycles|] == cycles && forall c :: c in r ==> AnsweredCycle(c)
  {
    if n == 0 then cycles else
      var front := Extended(node, s, cycles, now, n - 1);
      front + [Cycle(Listing(StoreAfter(node, s, front)), now, [], now, [])]
  }

  ghost predicate CalmAt(node: S.Node, s: Pods.Store, cycles: seq<Cycle>, now: int) {
    (forall c :: c in cycles ==> AnsweredCycle(c)) && Calm(node, s, cycles) && Keyed(StoreAfter(node, s, cycles)) &&
    (cycles != [] ==> cycles[0].now == now && cycles[|cycles| - 1].now == now)
  }

  /** What one more cycle adds. */
  lemma OneMoreCycle(node: S.Node, s: Pods.Store, front: seq<Cycle>, c: Cycle)
    requires (forall d :: d in front ==> AnsweredCycle(d)) && AnsweredCycle(c)
    ensures forall d :: d in front + [c] ==> AnsweredCycle(d)
    ensures var before := StoreAfter(node, s, front);
      && StoreAfter(node, s, front + [c]) == CycleEffect(node, before, c)
      && Claimed(node, s, front + [c]) == Claimed(node, s, front) + ClaimOf(node, before, c)
      && (Calm(node, s, front) && CalmCycle(node, before, c) &&
          (front != [] ==> NeedyKeys(before, c.now) == NeedyKeys(before, front[|front| - 1].now)) ==>
            Calm(node, s, front + [c]))
  {
    hide CalmCycle, CycleEffect, ClaimOf, NeedyKeys;
    assert (front + [c])[..|front|] == front;
  }

  lemma PlainIsCalm(node: S.Node, s: Pods.Store, now: int)
    requires Keyed(s)
    ensures CalmCycle(node, s, Cycle(Listing(s), now, [], now, []))
  {
    ListingEnumerates(s);
    hide Enumerates, Keyed, Listing;
    assert CalmPasses(node, s, [], now);
  }

  lemma {:induction false} ExtendedIsCalm(node: S.Node, s: Pods.Store, cycles: seq<Cycle>, now: int, n: nat)
    requires Keyed(s) && CalmAt(node, s, cycles, now)
    ensures CalmAt(node, s, Extended(node, s, cycles, now, n), now)
  {
    hide Keyed, CycleEffect, NeedyKeys, StoreAfter, Claimed, Calm, CalmCycle, Listing, Progress, Settled;
    if n > 0 {
      ExtendedIsCalm(node, s, cycles, now, n - 1);
      var front := Extended(node, s, cycles, now, n - 1);
      var c := Cycle(Listing(StoreAfter(node, s, front)), now, [], now, []);
      PlainIsCalm(node, StoreAfter(node, s, front), now);
      OneMoreCycle(node, s, front, c);
      AfterCycle(node, s, front + [c]);
    }
  }

  /** Without renewals nothing changes but what is claimed. */
  lemma {:induction false} UnclaimedIsUntouched(node: S.Node, s: Pods.Store, now: int, n: nat, key: string)
    requires key in s && key !in Claimed(node, s, Extended(node, s, [], now, n))
    ensures var after := StoreAfter(node, s, Extended(node, s, [], now, n)); key in after && after[key] == s[key]
  {
    hide S.Claims;
    if n > 0 {
      var front, all := Extended(node, s, [], now, n - 1), Extended(node, s, [], now, n);
      assert all[..|all| - 1] == front;
      UnclaimedIsUntouched(node, s, now, n - 1, key);
      ClaimTouchesOne(node, StoreAfter(node, s, front), all[n - 1], key);
    }
  }

  lemma ClaimTouchesOne(node: S.Node, s: Pods.Store, c: Cycle, key: string)
    requires c.during == [] && c.later == [] && key in s && key !in ClaimOf(node, s, c)
    ensures key in CycleEffect(node, s, c) && CycleEffect(node, s, c)[key] == s[key]
  {
    if S.Claims(node, c.pods, c.now, c.at) != [] {
      assert S.Claims(node, c.pods, c.now, c.at)[0].cmd.Cas?;
    }
  }

  /** A cycle in which a renewal pass comes before the claim. */
  ghost function RenewingCycle(s: Pods.Store, now: int): Cycle {
    Cycle(Listing(s), now, [Pass(Listing(s), None, seq(|Listing(s)|, i => now))], now, [])
  }

  lemma {:induction false} OwnIsRenewed(node: S.Node, s: Pods.Store, p: Pass, n: nat, from: int, i: nat)
    requires Keyed(s) && Answered(p) && p.running == None && i < n <= |p.pods| && Enumerates(p.pods, s)
    requires (forall j :: 0 <= j < |p.times| ==> from <= p.times[j]) && Own(node, p.pods[i])
    ensures var t := Committed(s, S.Renewals(node, p.pods, n, p.running, p.times));
      p.pods[i].Key() in t && t[p.pods[i].Key()] != p.pods[i]
    decreases n
  {
    hide Keyed, Effect, RenewedStore, Committed, SameButLease;
    var q, front := p.pods[n - 1], S.Renewals(node, p.pods, n - 1, p.running, p.times);
    var own := p.pods[i];
    assert q in p.pods && own in p.pods;
    RenewalsRenew(node, s, p, n - 1, from);
    if Own(node, q) {
      var r := S.LockRequest(node, q, p.times[n - 1], Renewal(q));
      assert S.Renewals(node, p.pods, n, p.running, p.times) == front + [r];
      CommittedOne(s, front, r);
      if i < n - 1 { OwnIsRenewed(node, s, p, n - 1, from, i); }
      RenewalChanges(node, Committed(s, front), q, p.times[n - 1], s, own, from);
    } else {
      assert S.Renewals(node, p.pods, n, p.running, p.times) == front;
      OwnIsRenewed(node, s, p, n - 1, from, i);
    }
  }

  /** Renewing a pod changes its record, and leaves any other that has changed already changed. */
  lemma RenewalChanges(node: S.Node, t: Pods.Store, q: Pod, at: int, s: Pods.Store, own: Pod, from: int)
    requires Keyed(s) && RenewedStore(node, from, s, t) && q.Key() in s && s[q.Key()] == q
    requires own.Key() in s && s[own.Key()] == own && (own == q || t[own.Key()] != own)
    ensures var u := Effect(t, S.LockRequest(node, q, at, Renewal(q)).cmd); own.Key() in u && u[own.Key()] != own
  {
    assert Renewed(node, from, s[q.Key()], t[q.Key()]);
  }

  /** What a cycle does that has one pass before its claim and none after it. */
  lemma CycleOfOnePass(node: S.Node, s: Pods.Store, c: Cycle, p: Pass)
    requires c.during == [p] && c.later == [] && Answered(p)
    ensures AnsweredCycle(c)
    ensures var t, reqs := PassEffect(node, s, p), S.Claims(node, c.pods, c.now, c.at);
      && CycleEffect(node, s, c) == ClaimEffect(node, t, c)
      && ClaimOf(node, s, c) == if reqs != [] && Accepted(t, reqs[0].cmd) then {reqs[0].cmd.key} else {}
  {
    hide S.Claims, PassEffect, Accepted, Effect;
    OnePass(node, s, p);
  }

  /** After such a cycle a needy pod of the node's own is neither claimed nor needy. */
  lemma RenewingCycleRenews(node: S.Node, s: Pods.Store, now: int, key: string)
    requires Keyed(s) && key in NeedyKeys(s, now) && Own(node, s[key])
    ensures var c := RenewingCycle(s, now);
      AnsweredCycle(c) && key !in ClaimOf(node, s, c) && key !in NeedyKeys(CycleEffect(node, s, c), now)
  {
    var c := RenewingCycle(s, now);
    ListingEnumerates(s);
    var p := c.during[0];
    assert c.during == [p] && c.later == [] && c.now == c.at == now && c.pods == p.pods && Answered(p);
    assert key in s && p.running == None && forall i :: 0 <= i < |p.times| ==> now <= p.times[i];
    hide *;
    PassRenewsOwn(node, s, p, now, key);
    RenewalsRenew(node, s, p, |p.pods|, now);
    CycleOfOnePass(node, s, c, p);
    RefusedAfterPass(node, s, c, p, key);
  }

  lemma RefusedAfterPass(node: S.Node, s: Pods.Store, c: Cycle, p: Pass, key: string)
    requires Keyed(s) && Enumerates(c.pods, s) && Answered(p) && c.during == [p] && c.later == [] && c.now <= c.at
    requires RenewedStore(node, c.now, s, PassEffect(node, s, p)) && AnsweredCycle(c)
    requires key in s && key in PassEffect(node, s, p) && PassEffect(node, s, p)[key] != s[key]
    ensures key !in ClaimOf(node, s, c) && key !in NeedyKeys(CycleEffect(node, s, c), c.now)
  {
    var t, reqs := PassEffect(node, s, p), S.Claims(node, c.pods, c.now, c.at);
    assert reqs == [] ==> ClaimEffect(node, t, c) == t;
    hide *;
    CycleOfOnePass(node, s, c, p);
    RenewedIsCovered(node, s, t, c.now, key, s[key]);
    if reqs != [] { RenewedIsRefused(node, s, t, c, key); }
  }

  lemma PassRenewsOwn(node: S.Node, s: Pods.Store, p: Pass, now: int, key: string)
    requires Keyed(s) && Answered(p) && p.running == None && Enumerates(p.pods, s) && key in s && Own(node, s[key])
    requires forall j :: 0 <= j < |p.times| ==> now <= p.times[j]
    ensures key in PassEffect(node, s, p) && PassEffect(node, s, p)[key] != s[key]
  {
    hide S.Renewals, Committed;
    assert s[key].Key() == key;
    assert s[key] in p.pods;
    var i :| 0 <= i < |p.pods| && p.pods[i] == s[key];
    OwnIsRenewed(node, s, p, |p.pods|, now, i);
  }

  /** A claim of a pod that has been renewed is refused. */
  lemma RenewedIsRefused(node: S.Node, s: Pods.Store, t: Pods.Store, c: Cycle, key: string)
    requires Keyed(s) && Enumerates(c.pods, s) && RenewedStore(node, c.now, s, t) && c.now <= c.at
    requires S.Claims(node, c.pods, c.now, c.at) != [] && key in s && key in t && t[key] != s[key]
    ensures var cmd := S.Claims(node, c.pods, c.now, c.at)[0].cmd;
      && !(Accepted(t, cmd) && cmd.Cas? && cmd.key == key) && cmd.Cas?
      && key !in NeedyKeys(ClaimEffect(node, t, c), c.now)
  {
    hide *;
    var needy := NeedyKeys(s, c.now);
    StartsWithProgress(node, s, c.now);
    var k := ClaimIsAllowed(node, s, needy, {}, s, c);
    RenewalKeepsProgress(node, s, needy, {}, s, t, c.now);
    NeedyIsUnclaimed(node, s, needy, {}, s, c.now, k);
    ClaimStep(node, s, needy, {}, s, t, c, k);
    RenewedIsCovered(node, s, t, c.now, key, Locked(s[k], node.nodeID, c.at));
  }

  /** A renewed pod is not needy, and has moved on from the version that was read. */
  lemma RenewedIsCovered(node: S.Node, s: Pods.Store, t: Pods.Store, now: int, key: string, v: Pod)
    requires RenewedStore(node, now, s, t) && key in s && key in t && t[key] != s[key]
    ensures key !in NeedyKeys(t, now) && !Accepted(t, Cas(key, v, s[key].resourceVersion))
  {
    assert Renewed(node, now, s[key], t[key]);
  }

  lemma OnePass(node: S.Node, s: Pods.Store, p: Pass)
    requires Answered(p)
    ensures PassesEffect(node, s, [p]) == PassEffect(node, s, p)
  {
    assert [p][..0] == [];
  }

  lemma RenewingIsCalm(node: S.Node, s: Pods.Store, now: int)
    requires Keyed(s)
    ensures var c := RenewingCycle(s, now); AnsweredCycle(c) && CalmCycle(node, s, c) && c.now == now
  {
    var c := RenewingCycle(s, now);
    ListingEnumerates(s);
    hide Keyed, Enumerates, NeedyKeys, Listing, CycleEffect, S.Renewals, S.Claims, Progress, Settled;
    assert c.during[..0] == [];
    assert CalmPasses(node, s, [], now);
  }

  lemma RenewingCycleIsCalm(node: S.Node, s: Pods.Store, now: int)
    requires Keyed(s)
    ensures AnsweredCycle(RenewingCycle(s, now)) && CalmCycle(node, s, RenewingCycle(s, now))
    ensures CalmAt(node, s, [RenewingCycle(s, now)], now)
  {
    var c := RenewingCycle(s, now);
    RenewingIsCalm(node, s, now);
    hide Keyed, Enumerates, NeedyKeys, CycleEffect, StoreAfter, Claimed, CalmCycle, Calm, RenewingCycle, AnsweredCycle;
    StoreAtFirst(node, s);
    OneMoreCycle(node, s, [], c);
    assert [] + [c] == [c];
    AfterCycle(node, s, [c]);
  }

  lemma StoreAtFirst(node: S.Node, s: Pods.Store)
    ensures StoreAfter(node, s, []) == s && Claimed(node, s, []) == {} && Calm(node, s, [])
  {
  }

  /** What is neither claimed nor needy is never claimed any more. */
  lemma {:induction false} StaysUnclaimed(node: S.Node, s: Pods.Store, cycles: seq<Cycle>, now: int, n: nat,
    key: string)
    requires Keyed(s) && CalmAt(node, s, cycles, now) && cycles != []
    requires key !in Claimed(node, s, cycles) && key !in NeedyKeys(StoreAfter(node, s, cycles), now)
    ensures var all := Extended(node, s, cycles, now, n);
      key !in Claimed(node, s, all) && key !in NeedyKeys(StoreAfter(node, s, all), now)
  {
    hide Keyed, Calm, CalmCycle, Progress, Settled, CycleEffect, ClaimOf, NeedyKeys, StoreAfter, Claimed, Listing;
    if n > 0 {
      StaysUnclaimed(node, s, cycles, now, n - 1, key);
      ExtendedIsCalm(node, s, cycles, now, n);
      var front := Extended(node, s, cycles, now, n - 1);
      var c := Cycle(Listing(StoreAfter(node, s, front)), now, [], now, []);
      assert (front + [c])[..|front|] == front && (front + [c])[0] == cycles[0];
      BeforeCycle(node, s, front + [c]);
      OneMoreCycle(node, s, front, c);
      UnclaimedStep(node, s, NeedyKeys(s, now), Claimed(node, s, front), StoreAfter(node, s, front), c, key);
    }
  }

  lemma UnclaimedStep(node: S.Node, s0: Pods.Store, needy: set<string>, claimed: set<string>, s: Pods.Store, c: Cycle,
          key: string)
    requires Keyed(s0) && Keyed(s) && Progress(node, s0, needy, claimed, s, c.now) && AnsweredCycle(c) &&
      CalmCycle(node, s, c)
    requires key !in claimed && key !in NeedyKeys(s, c.now)
    ensures key !in claimed + ClaimOf(node, s, c) && key !in NeedyKeys(CycleEffect(node, s, c), c.now)
  {
    hide Keyed, CalmCycle, Progress, Allowed, Idle, CycleEffect, ClaimOf, NeedyKeys, S.Claims, RenewedStore;
    OneCycle(node, s0, needy, claimed, s, c);
  }

  lemma ExtendedIsLong(node: S.Node, s: Pods.Store, cycles: seq<Cycle>, now: int, n: nat)
    requires Keyed(s) && CalmAt(node, s, cycles, now) && |NeedyKeys(s, now)| < |cycles| + n
    ensures LongRun(node, s, now, Extended(node, s, cycles, now, n))
  {
    hide Keyed, Calm, StoreAfter, NeedyKeys;
    ExtendedIsCalm(node, s, cycles, now, n);
  }

  /** A run that renews first. */
  lemma RenewingRun(node: S.Node, s: Pods.Store, now: int, key: string)
    requires Keyed(s) && key in NeedyKeys(s, now) && Own(node, s[key])
    ensures exists b :: LongRun(node, s, now, b) && key !in Claimed(node, s, b)
  {
    var c := RenewingCycle(s, now);
    RenewingCycleIsCalm(node, s, now);
    RenewingCycleRenews(node, s, now, key);
    hide Keyed, Calm, CalmCycle, NeedyKeys, CycleEffect, ClaimOf, RenewingCycle, Own;
    StoreAtFirst(node, s);
    OneMoreCycle(node, s, [], c);
    assert [] + [c] == [c];
    var n := |NeedyKeys(s, now)|;
    ExtendedIsLong(node, s, [c], now, n);
    StaysUnclaimed(node, s, [c], now, n, key);
  }

  /** Where the fixed point holds a needy pod of the node's own, one long run claims it and another does not. */
  lemma OwnPodMakesRunsDiffer(node: S.Node, s: Pods.Store, now: int, all: set<string>, key: string)
    requires Keyed(s) && LeastFixedPoint(node, s, NeedyKeys(s, now), all) && key in all && key in s && Own(node, s[key])
    ensures exists a, b :: LongRun(node, s, now, a) && LongRun(node, s, now, b) &&
              key in Claimed(node, s, a) && key !in Claimed(node, s, b)
  {
    LeastIsNeedy(node, s, NeedyKeys(s, now), all, key);
    hide Keyed, Calm, LeastFixedPoint, NeedyKeys, LongRun, Extended;
    PlainRunClaims(node, s, now, all, key);
    RenewingRun(node, s, now, key);
  }

  lemma LeastIsNeedy(node: S.Node, s: Pods.Store, needy: set<string>, all: set<string>, key: string)
    requires LeastFixedPoint(node, s, needy, all) && key in all
    ensures key in needy
  {
    assert Allowed(node, s, needy, all, key);
  }

  /** A long run without renewals claims every pod of the fixed point. */
  lemma PlainRunClaims(node: S.Node, s: Pods.Store, now: int, all: set<string>, key: string)
    requires Keyed(s) && LeastFixedPoint(node, s, NeedyKeys(s, now), all) && key in all && key in s
    ensures exists a :: LongRun(node, s, now, a) && key in Claimed(node, s, a)
  {
    var needy := NeedyKeys(s, now);
    LeastIsNeedy(node, s, needy, all, key);
    StoreAtFirst(node, s);
    var n := |needy| + 1;
    var a := Extended(node, s, [], now, n);
    hide Keyed, Calm, LeastFixedPoint, Allowed, Outcome, StoreAfter, Claimed, Extended;
    ExtendedIsLong(node, s, [], now, n);
    ExtendedIsCalm(node, s, [], now, n);
    GreedyReachesLeastFixedPoint(node, s, a);
    LeastIsUnique(node, s, needy, all, Claimed(node, s, a) + Retaken(node, s, needy, Claimed(node, s, a)));
    if key !in Claimed(node, s, a) {
      UnclaimedIsUntouched(node, s, now, n, key);
      RetakenIsRenewed(node, s, now, a, key);
    }
  }

  /** A needy pod that the rules allow but a long run has not claimed is not needy at its end. */
  lemma RetakenIsRenewed(node: S.Node, s: Pods.Store, now: int, cycles: seq<Cycle>, key: string)
    requires Keyed(s) && LongRun(node, s, now, cycles) && cycles[|cycles| - 1].now == now
    requires Allowed(node, s, NeedyKeys(s, now), Claimed(node, s, cycles), key)
    ensures key !in NeedyKeys(StoreAfter(node, s, cycles), now)
  {
    hide Keyed, Calm, StoreAfter, Claimed, Allowed, Progress, NeedyKeys;
    AfterCycle(node, s, cycles);
    var needy, after := NeedyKeys(s, now), StoreAfter(node, s, cycles);
    SubsetSize(needy - NeedyKeys(after, now), needy);
  }

  /** All long runs claim the same pods exactly when the least fixed point holds no needy pod of the node's own. */
  lemma ClaimsAgreeExactlyWhen(node: S.Node, s: Pods.Store, now: int)
    requires Keyed(s)
    ensures (forall a, b :: LongRun(node, s, now, a) && LongRun(node, s, now, b) ==>
      Claimed(node, s, a) == Claimed(node, s, b))
      <==> (forall all, k :: LeastFixedPoint(node, s, NeedyKeys(s, now), all) && k in all && k in s ==>
        !Own(node, s[k]))
  {
    hide Keyed, Allowed, LeastFixedPoint, NeedyKeys, Own, Calm;
    if all, k :| LeastFixedPoint(node, s, NeedyKeys(s, now), all) && k in all && k in s && Own(node, s[k]) {
      OwnPodMakesRunsDiffer(node, s, now, all, k);
    } else {
      forall a, b | LongRun(node, s, now, a) && LongRun(node, s, now, b)
        ensures Claimed(node, s, a) == Claimed(node, s, b)
      {
        NothingRetaken(node, s, now, a);
        NothingRetaken(node, s, now, b);
        LeastIsUnique(node, s, NeedyKeys(s, now), Claimed(node, s, a), Claimed(node, s, b));
      }
    }
  }

  lemma NothingRetaken(node: S.Node, s: Pods.Store, now: int, cycles: seq<Cycle>)
    requires Keyed(s) && LongRun(node, s, now, cycles)
    requires forall all, k :: LeastFixedPoint(node, s, NeedyKeys(s, now), all) && k in all && k in s ==>
      !Own(node, s[k])
    ensures LeastFixedPoint(node, s, NeedyKeys(s, now), Claimed(node, s, cycles))
  {
    hide Keyed, Allowed, LeastFixedPoint, NeedyKeys, Own, Calm;
    GreedyReachesLeastFixedPoint(node, s, cycles);
    var needy, claimed := NeedyKeys(s, now), Claimed(node, s, cycles);
    assert forall k :: k in Retaken(node, s, needy, claimed) ==> k in claimed + Retaken(node, s, needy, claimed);
    assert claimed + Retaken(node, s, needy, claimed) == claimed;
  }

  // ---- examples -----------------------------------------------------------------------------------

  const NODE := S.Node("n1", "", 0)

  const MINE := EMPTY_POD.(id := "web-active-0", status := Running, nodeID := "n1", resourceVersion := 1,
    leaseExpiresAt := 10, app := "web", role := Active)

  const MINE_TOO := MINE.(id := "web-active-1")

  /** A node that was away for a while finds a pod of its own whose lease has run out.  It may claim the pod, or renew
      it before it comes to that. */
  lemma ClaimsCanDiffer()
    ensures exists s, now, a, b :: Keyed(s) && LongRun(NODE, s, now, a) && LongRun(NODE, s, now, b) &&
              Claimed(NODE, s, a) != Claimed(NODE, s, b)
  {
    var key := MINE.Key();
    var s: Pods.Store := map[key := MINE];
    MineIsLeast(s, key);
    hide *;
    OwnPodMakesRunsDiffer(NODE, s, 50, {key}, key);
    var a, b :| LongRun(NODE, s, 50, a) && LongRun(NODE, s, 50, b) && key in Claimed(NODE, s, a) &&
      key !in Claimed(NODE, s, b);
    assert Claimed(NODE, s, a) != Claimed(NODE, s, b);
  }

  lemma MineIsLeast(s: Pods.Store, key: string)
    requires s == map[key := MINE] && key == MINE.Key()
    ensures Keyed(s) && Own(NODE, MINE) && NeedyKeys(s, 50) == {key} && LeastFixedPoint(NODE, s, {key}, {key})
  {
    assert Allowed(NODE, s, {key}, {}, key) && Allowed(NODE, s, {key}, {key}, key);
    forall other | Closed(NODE, s, {key}, other) ensures {key} <= other {
      assert Allowed(NODE, s, {key}, other, key);
    }
  }

  ghost predicate TakesTwo(s: Pods.Store, c: Cycle) {
    Keyed(s) && AnsweredCycle(c) && CalmCycle(NODE, s, c) &&
    |NeedyKeys(CycleEffect(NODE, s, c), c.now)| == |NeedyKeys(s, c.now)| - 2
  }

  /** With two such pods one cycle can take both from the needy, by renewing them. */
  lemma OneCycleCanTakeTwo()
    ensures exists s, c :: TakesTwo(s, c)
  {
    var k, l := MINE.Key(), MINE_TOO.Key();
    assert k == "pod:web-active-0" && l == "pod:web-active-1";
    var s: Pods.Store := map[k := MINE, l := MINE_TOO];
    assert Keyed(s);
    assert NeedyKeys(s, 50) == {k, l};
    BothRenewed(s, 50, k, l);
  }

  lemma BothRenewed(s: Pods.Store, now: int, k: string, l: string)
    requires Keyed(s) && k != l && NeedyKeys(s, now) == {k, l} && k in s && l in s && Own(NODE, s[k]) && Own(NODE, s[l])
    ensures TakesTwo(s, RenewingCycle(s, now))
  {
    RenewingCycleIsCalm(NODE, s, now);
    NoneLeft(s, now, k, l);
    hide Keyed, CalmCycle, CycleEffect, NeedyKeys, RenewingCycle, AnsweredCycle;
    NowOf(s, now);
  }

  lemma NoneLeft(s: Pods.Store, now: int, k: string, l: string)
    requires Keyed(s) && NeedyKeys(s, now) == {k, l} && k in s && l in s && Own(NODE, s[k]) && Own(NODE, s[l])
    ensures var c := RenewingCycle(s, now); AnsweredCycle(c) && NeedyKeys(CycleEffect(NODE, s, c), now) == {}
  {
    hide *;
    var c := RenewingCycle(s, now);
    RenewingCycleIsCalm(NODE, s, now);
    RenewingCycleRenews(NODE, s, now, k);
    RenewingCycleRenews(NODE, s, now, l);
    NowOf(s, now);
    NeedyStays(NODE, s, c);
  }

  lemma NowOf(s: Pods.Store, now: int)
    ensures RenewingCycle(s, now).now == now
  {
  }

  lemma NeedyStays(node: S.Node, s: Pods.Store, c: Cycle)
    requires Keyed(s) && AnsweredCycle(c) && CalmCycle(node, s, c)
    ensures NeedyKeys(CycleEffect(node, s, c), c.now) <= NeedyKeys(s, c.now)
  {
    StartsWithProgress(node, s, c.now);
    hide Progress, Settled, Allowed, Idle, CalmCycle, Keyed, CycleEffect, ClaimOf, NeedyKeys;
    OneCycle(node, s, NeedyKeys(s, c.now), {}, s, c);
  }
}
