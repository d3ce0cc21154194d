/** Ownership over whole runs: versions identify records, live leases are not stolen, statuses only climb, and a dead
    node's pods become claimable in bounded time. */
module Leases {
  import opened Option
  import opened Names
  import opened Pods
  import opened Cluster
  import opened Invariant

  /** Whether a command may change a key other than by compare-and-swap. */
  predicate Overwrites(c: Pods.Command, key: string) {
    (c.Set? || c.Del?) && c.key == key
  }

  /** No `set` or `del` of the key is committed at positions from..to. */
  predicate CasOnly(w: World, key: string, from: nat, to: nat)
    requires to <= |w.log|
  {
    forall i :: from <= i < to ==> !Overwrites(w.log[i].Cmd(), key)
  }

  function At(w: World, n: nat): Pods.Store
    requires n <= |w.log|
  {
    StoreAt(w.init, w.log, n)
  }

  lemma StoreAtStart(init: Pods.Store, log: seq<Commit>)
    ensures StoreAt(init, log, 0) == init
  {
  }

  /** What stands under a key. */
  function Look(s: Pods.Store, key: string): Option<Pod> {
    if key in s then Some(s[key]) else None
  }

  /** A pod is on the list read after `n` entries if and only if it stands under its own key there. */
  lemma Listed(w: World, n: nat, p: Pod)
    requires Reachable(w) && n <= |w.log|
    ensures p in Listing(At(w, n)) <==> Look(At(w, n), p.Key()) == Some(p)
  {
    ReachableInv(w);
    StoreWellFormed(w, n);
    ListingMember(At(w, n), p);
  }

  /** What stood under a key at every position of the log. */
  ghost function History(w: World, key: string): (h: seq<Option<Pod>>)
    ensures |h| == |w.log| + 1
    ensures forall n :: 0 <= n <= |w.log| ==> h[n] == Look(At(w, n), key)
  {
    seq(|w.log| + 1, n requires 0 <= n <= |w.log| => Look(At(w, n), key))
  }

  /** A transitive relation between neighbours holds between any two positions. */
  lemma {:induction false} Chain(h: seq<Option<Pod>>, rel: (Option<Pod>, Option<Pod>) -> bool, i: nat, j: nat)
    requires i <= j < |h|
    requires forall p :: rel(p, p)
    requires forall p, q, r :: rel(p, q) && rel(q, r) ==> rel(p, r)
    requires forall n :: i <= n < j ==> rel(h[n], h[n + 1])
    ensures rel(h[i], h[j])
    decreases j
  {
    if i < j { Chain(h, rel, i, j - 1); }
  }

  /** The record that a bumping write was computed from. */
  function ReadRecord(why: Reason): Pod {
    match why
    case Claim(p, _) => p
    case Renewal(p) => p
    case Promotion(p, _, _, _) => p
    case Report(p, _) => p
    case Fencing(p) => p
    case _ => EMPTY_POD
  }

  /** How a bumping write by `node`, taking effect at time `at`, may change the record it replaces. */
  ghost predicate Advances(why: Reason, node: string, at: int, p: Pod, q: Pod) {
    q.resourceVersion == p.resourceVersion + 1 && q.id == p.id && q.baseID == p.baseID && q.app == p.app &&
    q.dependsOn == p.dependsOn &&
    match why
    case Claim(_, _) => p.Needy(at) && q.nodeID == node && q.role == p.role &&
      q.status == (if p.status == Pending then Scheduled else p.status)
    case Renewal(_) => p.Assigned() && q.nodeID == p.nodeID == node && q.role == p.role && q.status == p.status
    case Promotion(_, _, _, _) => p.Assigned() && p.role == Standby && q.nodeID == p.nodeID == node &&
      q.role == Active && q.status == Running
    case Report(_, _) => p.Assigned() && q.nodeID == p.nodeID == node && q.role == p.role && q.status == Running &&
      q.leaseExpiresAt == p.leaseExpiresAt
    case Fencing(_) => q.nodeID == p.nodeID == node && q.role == p.role && q.status == Fenced &&
      q.leaseExpiresAt == p.leaseExpiresAt
    case _ => false
  }

  /** Every compare-and-swap but the creation of a replacement writes the version after the one it read, and is an
      advance on the record it read at any time from its sending on. */
  lemma CasReads(w: World, f: Flight, at: int)
    requires Reachable(w) && f in w.issued && f.req.cmd.Cas? && !IsReplacement(f) && f.req.sentAt <= at
    ensures var c, p := f.req.cmd, ReadRecord(f.req.why);
      && f.view <= |w.log| && Look(At(w, f.view), c.key) == Some(p) && p.resourceVersion == c.expected >= 0
      && Advances(f.req.why, f.node, at, p, c.value)
  {
    FlightFacts(w, f);
    hide Reachable, Listing, StoreAt;
    Listed(w, f.view, ReadRecord(f.req.why));
    StoredVersions(w, f.view, f.req.cmd.key);
  }

  lemma FlightFacts(w: World, f: Flight)
    requires Reachable(w) && f in w.issued
    ensures f.view <= |w.log| && Justified(Listing(At(w, f.view)), f.node, f.req) && 0 < f.req.sentAt
    ensures f.node == "" <==> f.req.cmd.Set?
  {
    ReachableInv(w);
    assert FlightOK(w.init, w.log, f);
  }

  lemma StoredVersions(w: World, n: nat, key: string)
    requires Reachable(w) && n <= |w.log|
    ensures key in At(w, n) ==> At(w, n)[key].resourceVersion >= 0
  {
    ReachableInv(w);
    StoreWellFormed(w, n);
  }

  /** Such a compare-and-swap keeps the app and the dependencies of the record it read. */
  lemma CasKeepsShape(w: World, f: Flight)
    requires Reachable(w) && f in w.issued && f.req.cmd.Cas? && !IsReplacement(f)
    ensures var v := f.req.cmd.value;
      f.view <= |w.log| &&
        var p := Look(At(w, f.view), f.req.cmd.key); p.Some? && v.app == p.value.app && v.dependsOn == p.value.dependsOn
  {
    CasReads(w, f, f.req.sentAt);
  }

  /** What one log entry does to one key. */
  ghost predicate KeyStep(w: World, key: string, n: nat)
    requires n < |w.log|
  {
    var f, before, after := w.log[n].flight, Look(At(w, n), key), Look(At(w, n + 1), key);
    var c := f.req.cmd;
    f in w.issued && f.view <= n && f.req.sentAt <= w.log[n].at <= w.clock &&
    (after == before ||
      match c
      case Set(k, _) => k == key && after == Some(c.value)
      case Del(k) => k == key && after == None
      case Cas(k, _, _) =>
        k == key && after == Some(c.value) &&
        c.expected == (if before.Some? then before.value.resourceVersion else 0)
      case _ => false)
  }

  lemma StepOfKey(w: World, key: string, n: nat)
    requires Reachable(w) && n < |w.log|
    ensures KeyStep(w, key, n)
  {
    ReachableInv(w);
    assert CommitOK(w, n);
  }

  lemma ReplacementIsCas(w: World, f: Flight)
    requires Reachable(w) && f in w.issued && IsReplacement(f)
    ensures f.req.cmd.Cas? && f.req.cmd.key !in w.init
    ensures f.req.cmd.expected == f.req.cmd.value.resourceVersion == 0 && f.req.cmd.value.nodeID == ""
    ensures f.req.cmd.value.status == Pending && f.req.cmd.value.role == Standby
  {
    ReachableInv(w);
    assert FlightOK(w.init, w.log, f);
  }

  lemma ReplacementsAgree(w: World, f: Flight, g: Flight)
    requires Reachable(w) && f in w.issued && g in w.issued && IsReplacement(f) && IsReplacement(g) && SameKey(f, g)
    ensures f.req.cmd == g.req.cmd
  {
    ReachableInv(w);
  }

  /** Overwriting requests name pods of some base ID. */
  lemma PostedBase(w: World, g: Flight)
    requires Reachable(w) && g in w.issued && g.req.cmd.Set?
    ensures var v := g.req.cmd.value;
      g.req.cmd.key == v.Key() && IsBaseName(v.baseID) && (Misnamed(w.init, v.Key()) || v.baseID == BaseOf(v.id))
  {
    FlightFacts(w, g);
    ReachableInv(w);
    hide Listing, StoreAt, BaseOf, IsBaseName, NamesApp, Misnamed;
    assert FlightOK(w.init, w.log, g);
  }

  /** Replacements belong to none, and their keys are new. */
  lemma ReplacementBase(w: World, f: Flight)
    requires Reachable(w) && f in w.issued && IsReplacement(f)
    ensures f.req.cmd.Cas? && f.req.cmd.key == f.req.cmd.value.Key() && f.req.cmd.key !in w.init
    ensures BaseOf(f.req.cmd.value.id) == ""
  {
    ReachableInv(w);
    assert FlightOK(w.init, w.log, f);
    hide Listing, StoreAt, BaseOf, ReplacementName;
    var Replacement(p, nano) := f.req.why;
    BaseOfReplacementName(p.app, nano);
  }

  /** So no overwriting request is for the key of a replacement. */
  lemma ReplacementsAreNotSet(w: World, f: Flight, g: Flight)
    requires Reachable(w) && f in w.issued && g in w.issued && IsReplacement(f) && SameKey(f, g)
    ensures !g.req.cmd.Set?
  {
    hide Reachable, BaseOf, IsBaseName;
    ReplacementBase(w, f);
    if g.req.cmd.Set? {
      PostedBase(w, g);
      PodKeyInjective(g.req.cmd.value.id, f.req.cmd.value.id);
      if IsBaseName("") { BaseNameIsNotEmpty(""); }
    }
  }

  /** While a replacement's record shows version 0 it is the one that was created. */
  lemma {:induction false} ReplacementRecord(w: World, f: Flight, n: nat)
    requires Reachable(w) && f in w.issued && IsReplacement(f) && n <= |w.log|
    ensures f.req.cmd.Cas?
    ensures var r := Look(At(w, n), f.req.cmd.key); r.Some? && r.value.resourceVersion == 0 ==>
      r.value == f.req.cmd.value
  {
    ReplacementIsCas(w, f);
    if n > 0 {
      ReplacementRecord(w, f, n - 1);
      StepOfKey(w, f.req.cmd.key, n - 1);
      var g := w.log[n - 1].flight;
      if Look(At(w, n), f.req.cmd.key) != Look(At(w, n - 1), f.req.cmd.key) {
        ReplacementsAreNotSet(w, f, g);
        if g.req.cmd.Cas? {
          if IsReplacement(g) { ReplacementsAgree(w, f, g); } else { CasReads(w, g, g.req.sentAt); }
        }
      }
    }
  }

  /** A stored record stays, under a version that never goes down, and the same version means the same record. */
  ghost predicate Rises(p: Option<Pod>, q: Option<Pod>) {
    p.Some? ==> q.Some? && p.value.resourceVersion <= q.value.resourceVersion &&
                (p.value.resourceVersion == q.value.resourceVersion ==> p == q)
  }

  lemma VersionStep(w: World, key: string, n: nat)
    requires Reachable(w) && n < |w.log| && !Overwrites(w.log[n].Cmd(), key)
    ensures Rises(Look(At(w, n), key), Look(At(w, n + 1), key))
  {
    StepOfKey(w, key, n);
    var f := w.log[n].flight;
    if Look(At(w, n + 1), key) != Look(At(w, n), key) && Look(At(w, n), key).Some? {
      if IsReplacement(f) {
        ReplacementIsCas(w, f);
        ReplacementRecord(w, f, n);
      } else {
        CasReads(w, f, f.req.sentAt);
      }
    }
  }

  /** No ABA.  While a key is only compared-and-swapped its record stays, the version never goes down, and two
      positions that show the same version show the same record. */
  lemma VersionsIdentifyRecords(w: World, key: string, i: nat, j: nat)
    requires Reachable(w) && i <= j <= |w.log| && CasOnly(w, key, i, j)
    ensures Rises(Look(At(w, i), key), Look(At(w, j), key))
  {
    var h := History(w, key);
    forall n | i <= n < j ensures Rises(h[n], h[n + 1]) { VersionStep(w, key, n); }
    Chain(h, Rises, i, j);
  }

  /** Whether the log entry at `n` is a compare-and-swap that took effect, and nothing but compare-and-swaps came
      between the moment its sender read the key and the moment it took effect. */
  ghost predicate EffectiveCas(w: World, n: nat)
    requires n < |w.log|
  {
    var f := w.log[n].flight;
    f.req.cmd.Cas? && f.view <= n && CasOnly(w, f.req.cmd.key, f.view, n) && Accepted(At(w, n), f.req.cmd)
  }

  lemma AcceptedExpectation(w: World, n: nat)
    requires Reachable(w) && n < |w.log| && w.log[n].Cmd().Cas? && Accepted(At(w, n), w.log[n].Cmd())
    ensures var c, before := w.log[n].Cmd(), Look(At(w, n), w.log[n].Cmd().key);
      c.expected == (if before.Some? then before.value.resourceVersion else 0) &&
        Look(At(w, n + 1), c.key) == Some(c.value)
  {
  }

  /** Of the writes that expect a given version, at most one takes effect. */
  lemma AtMostOneWriteWins(w: World, i: nat, j: nat)
    requires Reachable(w) && i < j < |w.log|
    requires var c, d := w.log[i].Cmd(), w.log[j].Cmd();
      c.Cas? && d.Cas? && c.key == d.key && c.expected == d.expected && CasOnly(w, c.key, i, j)
    requires !IsReplacement(w.log[i].flight) && Accepted(At(w, i), w.log[i].Cmd())
    ensures !Accepted(At(w, j), w.log[j].Cmd())
  {
    var key := w.log[i].Cmd().key;
    StepOfKey(w, key, i);
    AcceptedExpectation(w, i);
    CasReads(w, w.log[i].flight, w.log[i].flight.req.sentAt);
    VersionsIdentifyRecords(w, key, i + 1, j);
    if Accepted(At(w, j), w.log[j].Cmd()) { AcceptedExpectation(w, j); }
  }

  /** What an effective compare-and-swap does: it creates a replacement, or rewrites an untouched one, or advances the
      very record its sender had read. */
  lemma EffectiveCasAdvances(w: World, n: nat)
    requires Reachable(w) && n < |w.log| && EffectiveCas(w, n)
    ensures var f := w.log[n].flight; var before := Look(At(w, n), f.req.cmd.key);
      && Look(At(w, n + 1), f.req.cmd.key) == Some(f.req.cmd.value)
      && if IsReplacement(f) then before == None || before == Some(f.req.cmd.value)
         else before == Some(ReadRecord(f.req.why)) &&
              Advances(f.req.why, f.node, w.log[n].at, before.value, f.req.cmd.value)
  {
    var f := w.log[n].flight;
    StepOfKey(w, f.req.cmd.key, n);
    AcceptedExpectation(w, n);
    if IsReplacement(f) {
      ReplacementIsCas(w, f);
      ReplacementRecord(w, f, n);
    } else {
      CasReads(w, f, w.log[n].at);
      VersionsIdentifyRecords(w, f.req.cmd.key, f.view, n);
    }
  }

  /** No live lease is stolen.  In every run, whatever is stale, late, repeated or lost: an effective write that moves
      a pod to another node is that node's claim, and finds the pod Pending, or held under a lease that has run out
      when the write takes effect.  A write that finds no pod creates an unowned replacement. */
  lemma NoLiveLeaseIsStolen(w: World, n: nat)
    requires Reachable(w) && n < |w.log| && EffectiveCas(w, n)
    ensures var f := w.log[n].flight;
      var before, after := Look(At(w, n), f.req.cmd.key), Look(At(w, n + 1), f.req.cmd.key);
      && after == Some(f.req.cmd.value)
      && (before == None ==> IsReplacement(f) && after.value.nodeID == "")
      && (before.Some? && after.value.nodeID != before.value.nodeID ==>
            f.req.why.Claim? && after.value.nodeID == f.node && before.value.Needy(w.log[n].at))
  {
    EffectiveCasAdvances(w, n);
    StepOfKey(w, w.log[n].Cmd().key, n);
    if IsReplacement(w.log[n].flight) { ReplacementIsCas(w, w.log[n].flight); }
  }

  // ---- statuses ---------------------------------------------------------------------------------

  function Rank(s: Status): nat {
    match s
    case Scheduled => 1
    case Running => 2
    case Fenced => 3
    case _ => 0
  }

  /** A stored record stays, under a status that never goes down; a fenced one stays fenced under its lease. */
  ghost predicate Climbs(p: Option<Pod>, q: Option<Pod>) {
    p.Some? ==> q.Some? && Rank(p.value.status) <= Rank(q.value.status) &&
                (p.value.status == Fenced ==>
                  q.value.status == Fenced && q.value.leaseExpiresAt == p.value.leaseExpiresAt)
  }

  /** But for a `set` that first stores it, the key is only compared-and-swapped among the first `to` entries. */
  predicate Steady(w: World, key: string, to: nat)
    requires to <= |w.log|
  {
    forall i :: 0 <= i < to && Overwrites(w.log[i].Cmd(), key) ==>
      w.log[i].Cmd().Set? && forall j :: 0 <= j <= i ==> key !in At(w, j)
  }

  /** On a steady key every accepted compare-and-swap is effective. */
  lemma SteadyCas(w: World, n: nat)
    requires Reachable(w) && n < |w.log| && w.log[n].Cmd().Cas? && Accepted(At(w, n), w.log[n].Cmd())
    requires Steady(w, w.log[n].Cmd().key, n + 1)
    ensures EffectiveCas(w, n)
  {
    hide StoreAt;
    var f, key := w.log[n].flight, w.log[n].Cmd().key;
    StepOfKey(w, key, n);
    if !IsReplacement(f) { CasReads(w, f, f.req.sentAt); }
    forall i | f.view <= i < n ensures !Overwrites(w.log[i].Cmd(), key) {
      if Overwrites(w.log[i].Cmd(), key) {
        assert key !in At(w, f.view);
        InLog(w, i);
        if IsReplacement(f) { ReplacementsAreNotSet(w, f, w.log[i].flight); }
      }
    }
  }

  lemma InLog(w: World, i: nat)
    requires Reachable(w) && i < |w.log|
    ensures w.log[i].flight in w.issued
  {
    ReachableInv(w);
    assert CommitOK(w, i);
  }

  /** What is stored under a steady key changes only by an effective compare-and-swap. */
  lemma ChangeIsEffective(w: World, key: string, n: nat)
    requires Reachable(w) && n < |w.log| && Steady(w, key, n + 1)
    requires Look(At(w, n), key).Some? && Look(At(w, n + 1), key) != Look(At(w, n), key)
    ensures EffectiveCas(w, n) && w.log[n].Cmd().key == key
  {
    StepOfKey(w, key, n);
    assert !Overwrites(w.log[n].Cmd(), key);
    SteadyCas(w, n);
  }

  lemma StatusStep(w: World, key: string, n: nat)
    requires Reachable(w) && n < |w.log| && Steady(w, key, n + 1)
    ensures Climbs(Look(At(w, n), key), Look(At(w, n + 1), key))
  {
    hide Reachable, Steady, EffectiveCas, StoreAt;
    if Look(At(w, n), key).Some? && Look(At(w, n + 1), key) != Look(At(w, n), key) {
      ChangeIsEffective(w, key, n);
      EffectiveCasAdvances(w, n);
    }
  }

  lemma SteadyBefore(w: World, key: string, from: nat, to: nat)
    requires from <= to <= |w.log| && Steady(w, key, to)
    ensures Steady(w, key, from)
  {
  }

  /** Statuses only climb Pending < Scheduled < Running < Fenced; Fenced is absorbing and freezes the lease. */
  lemma StatusOnlyClimbs(w: World, key: string, i: nat, j: nat)
    requires Reachable(w) && i <= j <= |w.log| && Steady(w, key, j)
    ensures Climbs(Look(At(w, i), key), Look(At(w, j), key))
  {
    hide Reachable, Steady;
    var h := History(w, key);
    forall n | i <= n < j ensures Climbs(h[n], h[n + 1]) {
      SteadyBefore(w, key, n + 1, j);
      StatusStep(w, key, n);
    }
    Chain(h, Climbs, i, j);
  }

  // ---- failover ---------------------------------------------------------------------------------

  /** The node has sent nothing that could be committed only after time `t`. */
  predicate SilentAfter(w: World, node: string, t: int) {
    forall f :: f in w.issued && f.node == node ==> f.req.sentAt <= t
  }

  /** A lease of the node has run out by t+15, and an assigned pod has a lease. */
  ghost predicate LeaseBound(p: Pod, node: string, t: int) {
    (p.nodeID == node ==> p.leaseExpiresAt <= t + 15 || p.leaseExpiresAt == 0) &&
      (p.Assigned() ==> 0 < p.leaseExpiresAt)
  }

  predicate Rewrites(r: Request, key: string) {
    r.why.Rewrite? && r.cmd.Set? && r.cmd.key == key
  }

  /** No compose file has rewritten the pod while it was assigned. */
  ghost predicate NotRewritten(w: World, key: string) {
    forall i :: 0 <= i < |w.log| && Rewrites(w.log[i].flight.req, key) ==> !w.log[i].Cmd().value.Assigned()
  }

  /** The record a compare-and-swap carries obeys the bound if the one it was computed from does. */
  lemma SentLease(w: World, f: Flight, node: string, t: int)
    requires Reachable(w) && f in w.issued && f.req.cmd.Cas? && !IsReplacement(f) && SilentAfter(w, node, t)
    requires LeaseBound(ReadRecord(f.req.why), node, t)
    ensures LeaseBound(f.req.cmd.value, node, t)
  {
    FlightFacts(w, f);
    hide Reachable, Listing, StoreAt, Posted, S.DependenciesMet, S.ConfirmedDead, ReplacementName;
  }

  /** What a posted record may be: as good as new, a rewrite, or a mark on what its sender had read. */
  lemma PostedRecord(w: World, f: Flight)
    requires Reachable(w) && f in w.issued && f.req.cmd.Set?
    ensures f.view <= |w.log| && f.req.cmd.value.Key() == f.req.cmd.key
    ensures var v := f.req.cmd.value;
      || (v.status == Pending && v.nodeID == "")
      || (f.req.why.Rewrite? && v.leaseExpiresAt == 0)
      || (f.req.why.Mark? && Look(At(w, f.view), f.req.cmd.key).Some? &&
          v == Look(At(w, f.view), f.req.cmd.key).value.(updateToPodID := v.updateToPodID))
  {
    FlightFacts(w, f);
    if f.req.why.Mark? { Listed(w, f.view, f.req.why.outdated); }
  }

  /** Leases granted by a node that falls silent at `t` run out by t+15, and an assigned pod always has a lease. */
  lemma {:induction false} StoredLeases(w: World, node: string, t: int, key: string, n: nat)
    requires Reachable(w) && NotRewritten(w, key) && (key in w.init ==> LeaseBound(w.init[key], node, t))
    requires node != "" && SilentAfter(w, node, t) && n <= |w.log|
    ensures Look(At(w, n), key).Some? ==> LeaseBound(Look(At(w, n), key).value, node, t)
    decreases n
  {
    hide Reachable, StoreAt, Advances, SilentAfter;
    if n == 0 {
      assert At(w, 0) == w.init by { StoreAtStart(w.init, w.log); }
    } else {
      StoredLeases(w, node, t, key, n - 1);
      StepOfKey(w, key, n - 1);
      var f := w.log[n - 1].flight;
      if Look(At(w, n), key) != Look(At(w, n - 1), key) && Look(At(w, n), key).Some? {
        StoredLeases(w, node, t, key, f.view);
        if f.req.cmd.Set? {
          PostedRecord(w, f);
        } else if IsReplacement(f) {
          ReplacementIsCas(w, f);
        } else {
          CasReads(w, f, f.req.sentAt);
          SentLease(w, f, node, t);
        }
      }
    }
  }

  /** Bounded failover.  If a node falls silent at time `t`, then at any time past t+15, however late its last messages
      are committed, every pod it still holds can be claimed by others, unless a compose file has rewritten the pod
      while it was assigned (and taken its lease away), or the pod had a longer lease, or none, at the start. */
  lemma BoundedFailover(w: World, node: string, t: int, key: string)
    requires Reachable(w) && NotRewritten(w, key) && (key in w.init ==> LeaseBound(w.init[key], node, t))
    requires node != "" && SilentAfter(w, node, t) && t + 15 < w.clock
    requires key in Now(w) && Now(w)[key].nodeID == node && Now(w)[key].Assigned()
    ensures Now(w)[key].Needy(w.clock)
  {
    StoredLeases(w, node, t, key, |w.log|);
    assert Look(At(w, |w.log|), key) == Some(Now(w)[key]);
  }

  // ---- rewrites ---------------------------------------------------------------------------------

  /** The `set` committed at position `n` rewrote this assigned pod with no change of image. */
  ghost predicate RewrittenAt(w: World, n: nat, p: Pod)
    requires n < |w.log|
  {
    w.log[n].flight.req.why.Rewrite? && w.log[n].Cmd().Set? && w.log[n].Cmd().value == p && p.Assigned()
  }

  /** Every compare-and-swap of the key committed at positions from..to was decided after the store at `from` had been
      read, and not by that node. */
  ghost predicate OthersDecideAfter(w: World, key: string, node: string, from: nat, to: nat)
    requires to <= |w.log|
  {
    forall i :: from <= i < to && w.log[i].Cmd().Cas? && w.log[i].Cmd().key == key ==>
      from <= w.log[i].flight.view && w.log[i].flight.node != node
  }

  lemma RewriteStores(w: World, n: nat, p: Pod)
    requires Reachable(w) && n < |w.log| && RewrittenAt(w, n, p)
    ensures Look(At(w, n + 1), p.Key()) == Some(p) && p.leaseExpiresAt == 0 && w.log[n].Cmd().key == p.Key()
    ensures w.log[n].flight in w.issued
  {
    StepOfKey(w, p.Key(), n);
    FlightFacts(w, w.log[n].flight);
    hide Reachable, Listing;
    assert p.Key() != "";
    assert At(w, n + 1) == Effect(At(w, n), w.log[n].Cmd());
  }

  lemma RewriteIsAssigned(w: World, n: nat, p: Pod)
    requires n < |w.log| && RewrittenAt(w, n, p)
    ensures p.Assigned()
  {
  }

  /** Once a compose file has rewritten an assigned pod, no other node ever gets it: the record stays as it was written,
      with a lease that never runs out, however long the run goes on, and every compare-and-swap is refused that some
      other node decides on after the rewrite. */
  lemma {:induction false} RewrittenPodIsStuck(w: World, n: nat, p: Pod, m: nat)
    requires Reachable(w) && n < m <= |w.log| && RewrittenAt(w, n, p)
    requires CasOnly(w, p.Key(), n + 1, m) && OthersDecideAfter(w, p.Key(), p.nodeID, n + 1, m)
    ensures Look(At(w, m), p.Key()) == Some(p)
    ensures forall now :: !p.Needy(now)
    ensures forall i :: n < i < m && w.log[i].Cmd().Cas? && w.log[i].Cmd().key == p.Key() ==>
      !Accepted(At(w, i), w.log[i].Cmd())
    decreases m
  {
    hide Reachable, RewrittenAt, StoreAt;
    RewriteStores(w, n, p);
    if n + 1 < m {
      forall j | n < j < m ensures Look(At(w, j), p.Key()) == Some(p) { RewrittenPodIsStuck(w, n, p, j); }
      StuckStep(w, n, p, m - 1);
      RewrittenPodIsStuck(w, n, p, m - 1);
    } else {
      RewriteIsAssigned(w, n, p);
    }
  }

  lemma StuckStep(w: World, n: nat, p: Pod, i: nat)
    requires Reachable(w) && n < i < |w.log| && RewrittenAt(w, n, p)
    requires CasOnly(w, p.Key(), n + 1, i + 1) && OthersDecideAfter(w, p.Key(), p.nodeID, n + 1, i + 1)
    requires forall j :: n < j <= i ==> Look(At(w, j), p.Key()) == Some(p)
    ensures Look(At(w, i + 1), p.Key()) == Some(p)
    ensures w.log[i].Cmd().Cas? && w.log[i].Cmd().key == p.Key() ==> !Accepted(At(w, i), w.log[i].Cmd())
  {
    var f := w.log[i].flight;
    RewriteStores(w, n, p);
    StepOfKey(w, p.Key(), i);
    if f.req.cmd.Cas? && f.req.cmd.key == p.Key() {
      if IsReplacement(f) {
        ReplacementsAreNotSet(w, f, w.log[n].flight);
      } else {
        CasReads(w, f, w.log[i].at);
      }
    }
  }
}
