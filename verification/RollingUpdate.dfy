/** Rolling updates over whole runs: although deletes are unconditional and decided on stale views, the latest-born pod
    of every base ID is always stored. */
module RollingUpdate {
  import opened Option
  import opened Names
  import opened Pods
  import opened StateMachine
  import opened ComposeDiff
  import opened Cluster
  import opened Invariant
  import opened Leases

  predicate Holds(bs: seq<Pod>, key: string) {
    exists i :: 0 <= i < |bs| && bs[i].Key() == key
  }

  /** The pods in order of birth: those of the initial store in the given order, then each new key's first record, at
      the position of the log that first stored it. */
  ghost function Births(w: World, first: seq<Pod>, n: nat): seq<Pod>
    requires n <= |w.log|
  {
    if n == 0 then first else
      var earlier, c := Births(w, first, n - 1), w.log[n - 1].Cmd();
      if (c.Set? || c.Cas?) && c.key in At(w, n) && !Holds(earlier, c.key) then earlier + [At(w, n)[c.key]] else earlier
  }

  /** A pod marked for replacement is born, its replacement belongs to the same base ID and, if born, is born later. */
  ghost predicate Linked(bs: seq<Pod>, p: Pod) {
    p.updateToPodID != "" ==>
      BaseOf(p.updateToPodID) == p.baseID &&
      exists i :: 0 <= i < |bs| && bs[i].Key() == p.Key() &&
        forall j :: 0 <= j < |bs| && bs[j].Key() == PodKey(p.updateToPodID) ==> i < j
  }

  ghost predicate LinkedFlight(w: World, first: seq<Pod>, f: Flight) {
    (f.req.cmd.Set? || f.req.cmd.Cas?) ==> Linked(Births(w, first, |w.log|), f.req.cmd.value)
  }

  ghost predicate AllLinked(w: World, first: seq<Pod>) {
    forall f :: f in w.issued ==> LinkedFlight(w, first, f)
  }

  /** The pods of the initial store in an order of birth that its marks respect, each under the base ID of its name. */
  ghost predicate Seeded(init: Pods.Store, first: seq<Pod>) {
    (forall k :: k in init ==> !Misnamed(init, k) && Holds(first, k)) &&
    (forall i :: 0 <= i < |first| ==>
      first[i].Key() in init && init[first[i].Key()] == first[i] && Linked(first, first[i])) &&
    forall i, j :: 0 <= i < j < |first| ==> first[i].Key() != first[j].Key()
  }

  // ---- births -----------------------------------------------------------------------------------

  lemma {:induction false} BirthsGrow(w: World, first: seq<Pod>, m: nat, n: nat)
    requires m <= n <= |w.log|
    ensures |Births(w, first, m)| <= |Births(w, first, n)| &&
      Births(w, first, m) == Births(w, first, n)[..|Births(w, first, m)|]
    decreases n
  {
    if m < n { BirthsGrow(w, first, m, n - 1); }
  }

  predicate Sent(w: World, f: Flight, key: string, p: Pod) {
    f in w.issued && (f.req.cmd.Set? || f.req.cmd.Cas?) && f.req.cmd.key == key && f.req.cmd.value == p
  }

  /** What a key step may store: something sent under that key. */
  lemma StepStores(w: World, key: string, n: nat)
    requires Reachable(w) && n < |w.log| && key in At(w, n + 1)
    ensures (key in At(w, n) && At(w, n + 1)[key] == At(w, n)[key]) || Sent(w, w.log[n].flight, key, At(w, n + 1)[key])
  {
    StepOfKey(w, key, n);
  }

  lemma {:induction false} StoredIsBorn(w: World, first: seq<Pod>, key: string, n: nat)
    requires Reachable(w) && Seeded(w.init, first) && n <= |w.log| && key in At(w, n)
    ensures Holds(Births(w, first, n), key)
  {
    hide Reachable;
    if n > 0 {
      hide Seeded, StoreAt, BaseOf, Holds, Births, Sent;
      StepStores(w, key, n - 1);
      StoredIsProper(w, first, key, n);
      if key in At(w, n - 1) { StoredIsBorn(w, first, key, n - 1); }
      if Holds(Births(w, first, n - 1), key) {
        BirthsHold(w, first, n - 1, n, key);
      } else {
        NewIsBorn(w, first, key, n);
      }
    }
  }

  lemma NewIsBorn(w: World, first: seq<Pod>, key: string, n: nat)
    requires 0 < n <= |w.log| && key in At(w, n) && At(w, n)[key].Key() == key
    requires Sent(w, w.log[n - 1].flight, key, At(w, n)[key]) && !Holds(Births(w, first, n - 1), key)
    ensures Holds(Births(w, first, n), key)
  {
    hide StoreAt, Holds;
    LastHolds(Births(w, first, n - 1), At(w, n)[key]);
  }

  lemma LastHolds(bs: seq<Pod>, p: Pod)
    ensures Holds(bs + [p], p.Key())
  {
    assert (bs + [p])[|bs|] == p;
  }

  ghost predicate WasSent(w: World, key: string, p: Pod) {
    exists f :: Sent(w, f, key, p)
  }

  /** Every stored record was there from the start or has been sent. */
  lemma {:induction false} StoredWasSent(w: World, key: string, n: nat)
    requires Reachable(w) && n <= |w.log| && key in At(w, n)
    ensures (key in w.init && At(w, n)[key] == w.init[key]) || WasSent(w, key, At(w, n)[key])
  {
    hide Reachable;
    if n > 0 {
      StepStores(w, key, n - 1);
      if key in At(w, n - 1) && At(w, n)[key] == At(w, n - 1)[key] { StoredWasSent(w, key, n - 1); }
    }
  }

  lemma StoredIsKeyed(w: World, key: string, n: nat)
    requires Reachable(w) && n <= |w.log| && key in At(w, n)
    ensures At(w, n)[key].Key() == key
  {
    ReachableInv(w);
    StoreWellFormed(w, n);
  }

  lemma StoredIsProper(w: World, first: seq<Pod>, key: string, n: nat)
    requires Reachable(w) && Seeded(w.init, first) && n <= |w.log| && key in At(w, n)
    ensures At(w, n)[key].Key() == key && At(w, n)[key].baseID == BaseOf(At(w, n)[key].id)
  {
    hide Justified, Linked, StoreAt, BaseOf;
    ReachableInv(w);
    StoreWellFormed(w, n);
  }

  /** Births have distinct keys, carry the base ID of their name, and were sent. */
  ghost predicate ProperBirths(w: World, bs: seq<Pod>) {
    (forall i, j :: 0 <= i < j < |bs| ==> bs[i].Key() != bs[j].Key()) &&
    (forall i :: 0 <= i < |bs| ==> bs[i].baseID == BaseOf(bs[i].id) && !NewKey(w, bs[i].Key()))
  }

  lemma {:induction false} BirthsProper(w: World, first: seq<Pod>, n: nat)
    requires Reachable(w) && Seeded(w.init, first) && n <= |w.log|
    ensures ProperBirths(w, Births(w, first, n))
  {
    hide Reachable;
    if n > 0 {
      hide Seeded, StoreAt, BaseOf, Holds, ProperBirths;
      BirthsProper(w, first, n - 1);
      var c := w.log[n - 1].Cmd();
      if (c.Set? || c.Cas?) && c.key in At(w, n) && !Holds(Births(w, first, n - 1), c.key) {
        StoredIsProper(w, first, c.key, n);
        StoredIsNotNew(w, c.key, n);
        NextIsProper(w, Births(w, first, n - 1), At(w, n)[c.key]);
      }
    }
  }

  lemma NextIsProper(w: World, bs: seq<Pod>, p: Pod)
    requires ProperBirths(w, bs) && !Holds(bs, p.Key()) && p.baseID == BaseOf(p.id) && !NewKey(w, p.Key())
    ensures ProperBirths(w, bs + [p])
  {
  }

  lemma StoredIsNotNew(w: World, key: string, n: nat)
    requires Reachable(w) && n <= |w.log| && key in At(w, n)
    ensures !NewKey(w, key)
  {
    hide Reachable, StoreAt;
    StoredWasSent(w, key, n);
  }

  // ---- links are kept by every step -------------------------------------------------------------

  lemma LinkedStays(bs: seq<Pod>, more: seq<Pod>, p: Pod)
    requires Linked(bs, p)
    ensures Linked(bs + more, p)
  {
    if p.updateToPodID != "" {
      var i :| 0 <= i < |bs| && bs[i].Key() == p.Key() &&
        forall j :: 0 <= j < |bs| && bs[j].Key() == PodKey(p.updateToPodID) ==> i < j;
      assert (bs + more)[i].Key() == p.Key();
    }
  }

  lemma SeedIsLinked(init: Pods.Store, first: seq<Pod>, key: string)
    requires Seeded(init, first) && key in init
    ensures Linked(first, init[key])
  {
    var i :| 0 <= i < |first| && first[i].Key() == key;
  }

  lemma StoredIsLinked(w: World, first: seq<Pod>, key: string, n: nat)
    requires Reachable(w) && Seeded(w.init, first) && AllLinked(w, first) && n <= |w.log| && key in At(w, n)
    ensures Linked(Births(w, first, |w.log|), At(w, n)[key])
  {
    hide Reachable, Linked, StoreAt;
    StoredWasSent(w, key, n);
    var p := At(w, n)[key];
    if WasSent(w, key, p) {
      var f :| Sent(w, f, key, p);
      assert LinkedFlight(w, first, f);
    } else {
      hide Seeded;
      SeedIsLinked(w.init, first, key);
      BirthsStart(w, first);
      LinkedStays(first, Births(w, first, |w.log|)[|first|..], p);
    }
  }

  lemma BirthsStart(w: World, first: seq<Pod>)
    ensures |first| <= |Births(w, first, |w.log|)|
    ensures Births(w, first, |w.log|) == first + Births(w, first, |w.log|)[|first|..]
  {
    BirthsGrow(w, first, 0, |w.log|);
  }

  lemma ViewIsLinked(w: World, first: seq<Pod>, view: nat, p: Pod)
    requires Reachable(w) && Seeded(w.init, first) && AllLinked(w, first) && view <= |w.log| &&
      p in Listing(At(w, view))
    ensures Linked(Births(w, first, |w.log|), p) && Holds(Births(w, first, |w.log|), p.Key())
    ensures p.baseID == BaseOf(p.id)
  {
    hide Linked, Seeded, AllLinked, Births, BaseOf;
    Listed(w, view, p);
    StoredIsProper(w, first, p.Key(), view);
    StoredIsLinked(w, first, p.Key(), view);
    StoredIsBorn(w, first, p.Key(), view);
    BirthsHold(w, first, view, |w.log|, p.Key());
  }

  lemma BirthsHold(w: World, first: seq<Pod>, m: nat, n: nat, key: string)
    requires m <= n <= |w.log| && Holds(Births(w, first, m), key)
    ensures Holds(Births(w, first, n), key)
  {
    BirthsGrow(w, first, m, n);
    var i :| 0 <= i < |Births(w, first, m)| && Births(w, first, m)[i].Key() == key;
    assert Births(w, first, n)[i].Key() == key;
  }

  /** What a request's record has to do with the view: same pod and mark, no mark, or a fresh mark. */
  lemma RecordOrigin(pods: seq<Pod>, node: string, r: Request)
    requires Justified(pods, node, r) && (r.cmd.Set? || r.cmd.Cas?)
    ensures var v := r.cmd.value;
      || v.updateToPodID == ""
      || (exists p :: p in pods && v.id == p.id && v.baseID == p.baseID && v.updateToPodID == p.updateToPodID)
      || (r.why.Mark? && r.why.outdated in pods && v.id == r.why.outdated.id && v.baseID == r.why.outdated.baseID
          && IsBaseName(v.baseID) && v.updateToPodID == RollingName(v.baseID, r.why.nano))
  {
  }

  lemma {:induction false} MarkedIsFresh(existing: map<string, Pod>, parsed: seq<Pod>, n: nat, project: string,
          nanos: seq<nat>, markFails: seq<bool>, at: int, r: Request)
    requires n <= |parsed| == |nanos| == |markFails| && r in Diff(existing, parsed, n, project, nanos, markFails, at) &&
      r.why.Mark?
    ensures exists i ::
      0 <= i < |parsed| && r.cmd.Set? && r.cmd.value.updateToPodID == RollingName(parsed[i].baseID, nanos[i])
  {
    if r in Diff(existing, parsed, n - 1, project, nanos, markFails, at) {
      MarkedIsFresh(existing, parsed, n - 1, project, nanos, markFails, at, r);
    } else {
      assert r in Changes(existing, parsed[n - 1], project, nanos[n - 1], markFails[n - 1], at);
    }
  }

  lemma FreshRollouts(w: World, a: Action, i: nat)
    requires a.Compose? && Enabled(w, a) && i < |a.parsed|
    ensures |a.nanos| == |a.parsed| == |a.markFails| && NewKey(w, PodKey(RollingName(a.parsed[i].baseID, a.nanos[i])))
  {
    hide Listing;
    assert Unused(w, RollingName(a.parsed[i].baseID, a.nanos[i]));
  }

  lemma SentMark(w: World, a: Action, r: Request)
    requires HasView(a) && Enabled(w, a) && r in Requests(w, a, View(w, a)) && r.why.Mark?
    ensures r.cmd.Set? && NewKey(w, PodKey(r.cmd.value.updateToPodID))
  {
    hide Listing, NewKey, Diff, FreshIDs, RollingName;
    RequestKinds(w, a, r);
    var pods := View(w, a);
    if a.Compose? {
      MarkedIsFresh(ExistingByBase(pods, |pods|), a.parsed, |a.parsed|, a.project, a.nanos, a.markFails, a.at, r);
      var i :| 0 <= i < |a.parsed| && r.cmd.Set? &&
        r.cmd.value.updateToPodID == RollingName(a.parsed[i].baseID, a.nanos[i]);
      FreshRollouts(w, a, i);
    }
  }

  lemma NewKeyIsUnborn(w: World, first: seq<Pod>, key: string)
    requires Reachable(w) && Seeded(w.init, first) && NewKey(w, key)
    ensures !Holds(Births(w, first, |w.log|), key)
  {
    hide Reachable, Births, NewKey;
    BirthsProper(w, first, |w.log|);
  }

  lemma LinkedToUnborn(bs: seq<Pod>, p: Pod)
    requires Holds(bs, p.Key()) && !Holds(bs, PodKey(p.updateToPodID)) && BaseOf(p.updateToPodID) == p.baseID
    ensures Linked(bs, p)
  {
    hide BaseOf;
  }

  lemma MarkIsLinked(w: World, first: seq<Pod>, view: nat, p: Pod, nano: nat)
    requires Reachable(w) && Seeded(w.init, first) && AllLinked(w, first) && view <= |w.log| &&
      p in Listing(At(w, view))
    requires IsBaseName(p.baseID) && NewKey(w, PodKey(RollingName(p.baseID, nano)))
    ensures Linked(Births(w, first, |w.log|), p.(updateToPodID := RollingName(p.baseID, nano)))
  {
    hide Listing, Births, Reachable, Linked, Holds, NewKey, BaseOf, IsBaseName, RollingName;
    ViewIsLinked(w, first, view, p);
    BaseOfRollingName(p.baseID, nano);
    NewKeyIsUnborn(w, first, PodKey(RollingName(p.baseID, nano)));
    LinkedToUnborn(Births(w, first, |w.log|), p.(updateToPodID := RollingName(p.baseID, nano)));
  }

  lemma SameMark(w: World, first: seq<Pod>, view: nat, p: Pod, v: Pod)
    requires Reachable(w) && Seeded(w.init, first) && AllLinked(w, first) && view <= |w.log| &&
      p in Listing(At(w, view))
    requires v.id == p.id && v.baseID == p.baseID && v.updateToPodID == p.updateToPodID
    ensures Linked(Births(w, first, |w.log|), v)
  {
    hide Listing, Births, Reachable, Holds;
    ViewIsLinked(w, first, view, p);
    assert v.Key() == p.Key();
  }

  lemma SentIsLinked(w: World, first: seq<Pod>, a: Action, r: Request)
    requires Reachable(w) && Seeded(w.init, first) && AllLinked(w, first) && HasView(a) && Enabled(w, a)
    requires r in Requests(w, a, View(w, a)) && (r.cmd.Set? || r.cmd.Cas?)
    ensures Linked(Births(w, first, |w.log|), r.cmd.value)
  {
    var pods, v := View(w, a), r.cmd.value;
    RequestsJustified(w, a);
    RecordOrigin(pods, Sender(a), r);
    if r.why.Mark? { SentMark(w, a, r); }
    hide Listing, Births, Reachable, Timely, FreshIDs, Requests, NewKey, AllLinked, IsBaseName;
    if r.why.Mark? {
      MarkIsLinked(w, first, a.view, r.why.outdated, r.why.nano);
    } else if v.updateToPodID != "" {
      var p :| p in pods && v.id == p.id && v.baseID == p.baseID && v.updateToPodID == p.updateToPodID;
      SameMark(w, first, a.view, p, v);
    }
  }

  lemma {:induction false} BirthsStable(w: World, w': World, first: seq<Pod>, n: nat)
    requires n <= |w.log| && w'.init == w.init && |w.log| <= |w'.log| && w'.log[..|w.log|] == w.log
    ensures Births(w', first, n) == Births(w, first, n)
  {
    if n > 0 {
      BirthsStable(w, w', first, n - 1);
      StoreStable(w.init, w.log, w'.log[|w.log|..], n);
      assert w.log + w'.log[|w.log|..] == w'.log;
      assert w'.log[n - 1] == w'.log[..|w.log|][n - 1];
    }
  }

  lemma IssuedBefore(w: World, a: Action)
    requires Enabled(w, a)
    ensures var w' := Perform(w, a);
      w'.init == w.init && |w.log| <= |w'.log| && w'.log[..|w.log|] == w.log &&
      forall f :: f in w'.issued && f !in w.issued ==> HasView(a) && f.req in Requests(w, a, View(w, a))
  {
    hide Requests, Listing, Timely, FreshIDs;
  }

  lemma StepKeepsLinks(w: World, first: seq<Pod>, a: Action)
    requires Reachable(w) && Seeded(w.init, first) && AllLinked(w, first) && Enabled(w, a)
    ensures AllLinked(Perform(w, a), first)
  {
    var w' := Perform(w, a);
    IssuedBefore(w, a);
    hide Reachable, Seeded, Linked, Births, Enabled;
    BirthsStable(w, w', first, |w.log|);
    BirthsGrow(w', first, |w.log|, |w'.log|);
    var bs, bs' := Births(w, first, |w.log|), Births(w', first, |w'.log|);
    assert bs' == bs + bs'[|bs|..];
    forall f | f in w'.issued ensures LinkedFlight(w', first, f) {
      if f.req.cmd.Set? || f.req.cmd.Cas? {
        if f in w.issued { assert LinkedFlight(w, first, f); } else { SentIsLinked(w, first, a, f.req); }
        LinkedStays(bs, bs'[|bs|..], f.req.cmd.value);
      }
    }
  }

  lemma {:induction false} RunKeepsLinks(init: Pods.Store, first: seq<Pod>, clock: int, acts: seq<Action>)
    requires Initial(init) && Seeded(init, first) && 0 < clock && ValidRun(Start(init, clock), acts)
    ensures AllLinked(After(Start(init, clock), acts), first)
    decreases |acts|
  {
    hide Linked, Seeded, Initial;
    if acts != [] {
      var n := |acts| - 1;
      var w := After(Start(init, clock), acts[..n]);
      RunKeepsLinks(init, first, clock, acts[..n]);
      StartIsReachable(init, clock);
      RunKeepsReachable(Start(init, clock), acts[..n]);
      StepKeepsLinks(w, first, acts[n]);
    }
  }

  lemma ReachableLinks(w: World, first: seq<Pod>)
    requires Reachable(w) && Seeded(w.init, first)
    ensures AllLinked(w, first)
  {
    var clock, acts :| 0 < clock && ValidRun(Start(w.init, clock), acts) && After(Start(w.init, clock), acts) == w;
    RunKeepsLinks(w.init, first, clock, acts);
  }

  // ---- the theorems -----------------------------------------------------------------------------

  /** Position of a key among the births. */
  ghost predicate BornAt(bs: seq<Pod>, key: string, i: nat) {
    i < |bs| && bs[i].Key() == key
  }

  /** Every committed delete was decided on a view in which a later-born pod of the same base ID ran, and was ready if
      it has a readiness probe. */
  lemma DeletesAreJustified(w: World, first: seq<Pod>, n: nat)
    requires Reachable(w) && Seeded(w.init, first) && n < |w.log| && w.log[n].Cmd().Del?
    ensures var f, bs := w.log[n].flight, Births(w, first, n);
      && f.req.why.Sweep? && f.view <= n
      && var p, q := f.req.why.superseded, f.req.why.successor;
      && f.req.cmd.key == p.Key() && Look(At(w, f.view), p.Key()) == Some(p) && Look(At(w, f.view), q.Key()) == Some(q)
      && q.status == Running && (q.readinessProbe.Some? ==> q.ready) && q.baseID == p.baseID
      && exists i: nat, j: nat :: BornAt(bs, p.Key(), i) && BornAt(bs, q.Key(), j) && i < j
  {
    ReachableLinks(w, first);
    var f := w.log[n].flight;
    SweepEvidence(w, n);
    hide Reachable, Seeded, AllLinked, Births, Listing, StoreAt, Holds, ProperBirths;
    var p, q := f.req.why.superseded, f.req.why.successor;
    ViewIsLinked(w, first, f.view, p);
    ViewIsLinked(w, first, f.view, q);
    StoredIsBorn(w, first, p.Key(), f.view);
    StoredIsBorn(w, first, q.Key(), f.view);
    BirthsHold(w, first, f.view, n, p.Key());
    BirthsHold(w, first, f.view, n, q.Key());
    BirthsGrow(w, first, n, |w.log|);
    BirthsProper(w, first, |w.log|);
    LinkOrders(w, Births(w, first, n), Births(w, first, |w.log|), p, q);
  }

  /** A pod that has been born is older than the pod it is marked for. */
  lemma LinkOrders(w: World, bs: seq<Pod>, all: seq<Pod>, p: Pod, q: Pod)
    requires bs <= all && ProperBirths(w, all) && Holds(bs, p.Key()) && Holds(bs, q.Key())
    requires Linked(all, p) && p.updateToPodID == q.id != ""
    ensures exists i: nat, j: nat :: BornAt(bs, p.Key(), i) && BornAt(bs, q.Key(), j) && i < j
  {
    var i :| 0 <= i < |bs| && bs[i].Key() == p.Key();
    var j :| 0 <= j < |bs| && bs[j].Key() == q.Key();
    assert all[i] == bs[i] && all[j] == bs[j];
    assert BornAt(bs, p.Key(), i) && BornAt(bs, q.Key(), j);
  }

  lemma SweepEvidence(w: World, n: nat)
    requires Reachable(w) && n < |w.log| && w.log[n].Cmd().Del?
    ensures var f := w.log[n].flight;
      && f.req.why.Sweep? && f.view <= n
      && var p, q := f.req.why.superseded, f.req.why.successor;
      && f.req.cmd.key == p.Key() && p.updateToPodID == q.id != ""
      && q.status == Running && (q.readinessProbe.Some? ==> q.ready)
      && p in Listing(At(w, f.view)) && q in Listing(At(w, f.view))
      && Look(At(w, f.view), p.Key()) == Some(p) && Look(At(w, f.view), q.Key()) == Some(q)
  {
    var f := w.log[n].flight;
    StepOfKey(w, f.req.cmd.key, n);
    FlightFacts(w, f);
    hide Reachable, Listing, StoreAt;
    Listed(w, f.view, f.req.why.superseded);
    Listed(w, f.view, f.req.why.successor);
  }

  /** The pod at birth position `z` is the latest-born of its base ID. */
  ghost predicate LatestBorn(bs: seq<Pod>, z: nat) {
    z < |bs| && forall j :: z < j < |bs| ==> bs[j].baseID != bs[z].baseID
  }

  lemma LatestIsNotDeleted(w: World, first: seq<Pod>, z: nat, i: nat, n: nat)
    requires Reachable(w) && Seeded(w.init, first) && i < n <= |w.log| && LatestBorn(Births(w, first, n), z)
    ensures !(w.log[i].Cmd().Del? && w.log[i].Cmd().key == Births(w, first, n)[z].Key())
  {
    var bs := Births(w, first, n);
    if w.log[i].Cmd().Del? && w.log[i].Cmd().key == bs[z].Key() {
      DeletesAreJustified(w, first, i);
      var f := w.log[i].flight;
      var p, q := f.req.why.superseded, f.req.why.successor;
      var x: nat, y: nat :| BornAt(Births(w, first, i), p.Key(), x) && BornAt(Births(w, first, i), q.Key(), y) && x < y;
      BirthsGrow(w, first, i, n);
      BirthsProper(w, first, n);
      assert bs[x].Key() == p.Key() == bs[z].Key();
      assert bs[y].Key() == q.Key();
      PodKeyInjective(bs[y].id, q.id);
      PodKeyInjective(bs[z].id, p.id);
      StoredIsProper(w, first, q.Key(), f.view);
      StoredIsProper(w, first, p.Key(), f.view);
    }
  }

  /** A born pod that has never been deleted is stored. */
  lemma {:induction false} UndeletedIsStored(w: World, first: seq<Pod>, key: string, n: nat)
    requires Reachable(w) && Seeded(w.init, first) && n <= |w.log| && Holds(Births(w, first, n), key)
    requires forall i :: 0 <= i < n ==> !(w.log[i].Cmd().Del? && w.log[i].Cmd().key == key)
    ensures key in At(w, n)
  {
    hide Reachable, Linked, BaseOf;
    if n == 0 {
      var i :| 0 <= i < |first| && first[i].Key() == key;
    } else if Holds(Births(w, first, n - 1), key) {
      UndeletedIsStored(w, first, key, n - 1);
      StepOfKey(w, key, n - 1);
    } else {
      var i :| 0 <= i < |Births(w, first, n)| && Births(w, first, n)[i].Key() == key;
      StoredIsKeyed(w, w.log[n - 1].Cmd().key, n);
    }
  }

  /** A rolling update never empties a lineage: at every position of the log of every run, the latest-born pod of each
      base ID is stored. */
  lemma LatestBornIsStored(w: World, first: seq<Pod>, n: nat, z: nat)
    requires Reachable(w) && Seeded(w.init, first) && n <= |w.log| && LatestBorn(Births(w, first, n), z)
    ensures Births(w, first, n)[z].Key() in At(w, n)
  {
    var key := Births(w, first, n)[z].Key();
    forall i | 0 <= i < n ensures !(w.log[i].Cmd().Del? && w.log[i].Cmd().key == key) {
      LatestIsNotDeleted(w, first, z, i, n);
    }
    UndeletedIsStored(w, first, key, n);
  }

  // ---- marks in a cycle -------------------------------------------------------------------------

  const ONE := EMPTY_POD.(id := "web-active-0", baseID := "web-active-0", status := Running, nodeID := "n1",
    resourceVersion := 1, leaseExpiresAt := 100, app := "web", role := Active, updateToPodID := "web-active-0-7")

  const OTHER := EMPTY_POD.(id := "web-active-0-7", baseID := "web-active-0", status := Running, nodeID := "n1",
    resourceVersion := 1, leaseExpiresAt := 100, app := "web", role := Active, updateToPodID := "web-active-0")

  const EACH_OTHER: Pods.Store := map[ONE.Key() := ONE, OTHER.Key() := OTHER]

  const CYCLE := Schedule(0, S.Node("n1", "", 0), 50, None, 50, INDEX_LIMIT, 50)

  lemma EachOtherListed()
    ensures ONE.Key() != OTHER.Key() && Initial(EACH_OTHER)
    ensures forall p :: p in Listing(EACH_OTHER) <==> p == ONE || p == OTHER
  {
    assert ONE.id[0] == 'w' && |ONE.id| != |OTHER.id|;
    assert |ONE.Key()| != |OTHER.Key()|;
    hide PodKey, Listing;
    forall p ensures p in Listing(EACH_OTHER) <==> p == ONE || p == OTHER { ListingMember(EACH_OTHER, p); }
  }

  lemma NewNameIsUnused(app: string)
    ensures Unused(Start(EACH_OTHER, 50), ReplacementName(app, INDEX_LIMIT))
  {
    hide Decimal;
    var id := ReplacementName(app, INDEX_LIMIT);
    assert ONE.id[0] == 'w' && OTHER.id[0] == 'w' && id[0] == 'p';
    if PodKey(id) == ONE.Key() { PodKeyInjective(id, ONE.id); }
    if PodKey(id) == OTHER.Key() { PodKeyInjective(id, OTHER.id); }
  }

  lemma CycleIsEnabled()
    ensures Reachable(Start(EACH_OTHER, 50)) && Enabled(Start(EACH_OTHER, 50), CYCLE)
    ensures View(Start(EACH_OTHER, 50), CYCLE) == Listing(EACH_OTHER)
  {
    hide *;
    EachOtherListed();
    StartIsReachable(EACH_OTHER, 50);
    forall p | p in Listing(EACH_OTHER) ensures Unused(Start(EACH_OTHER, 50), ReplacementName(p.app, INDEX_LIMIT)) {
      NewNameIsUnused(p.app);
    }
    CycleFindsStart(EACH_OTHER);
  }

  lemma CycleFindsStart(s: Pods.Store)
    requires forall p :: p in Listing(s) ==> Unused(Start(s, 50), ReplacementName(p.app, INDEX_LIMIT))
    ensures Enabled(Start(s, 50), CYCLE) && View(Start(s, 50), CYCLE) == Listing(s)
  {
    StoreAtStart(s, []);
    hide Listing, Unused, ReplacementName;
  }

  lemma {:induction false} SweptIsSent(pods: seq<Pod>, n: nat, at: int, i: nat)
    requires i < n <= |pods| && S.Superseded(pods, pods[i])
    ensures S.SweepRequest(pods[i], pods[S.IndexOf(pods, pods[i].updateToPodID)], at) in S.Sweeps(pods, n, at)
  {
    if i < n - 1 { SweptIsSent(pods, n - 1, at, i); }
  }

  ghost predicate DeletesKey(w: World, f: Flight, key: string) {
    f in w.issued && f.req.cmd == Del(key) && f.req.sentAt == 50
  }

  lemma SupersededByTheOther(pods: seq<Pod>, p: Pod, q: Pod)
    requires (p == ONE && q == OTHER) || (p == OTHER && q == ONE)
    requires forall r :: r in pods <==> r == ONE || r == OTHER
    ensures S.Superseded(pods, p) && pods[S.IndexOf(pods, p.updateToPodID)] == q
  {
    assert q in pods;
    var j :| 0 <= j < |pods| && pods[j] == q;
    var k := S.IndexOf(pods, p.updateToPodID);
    assert pods[j].id == p.updateToPodID && k <= j;
    assert pods[k] in pods;
  }

  /** In a cycle that finds both running, both are to be deleted. */
  lemma BothAreSwept(p: Pod, q: Pod)
    requires (p == ONE && q == OTHER) || (p == OTHER && q == ONE)
    requires Enabled(Start(EACH_OTHER, 50), CYCLE) && View(Start(EACH_OTHER, 50), CYCLE) == Listing(EACH_OTHER)
    ensures exists f :: DeletesKey(Perform(Start(EACH_OTHER, 50), CYCLE), f, p.Key())
  {
    EachOtherListed();
    var w, pods := Start(EACH_OTHER, 50), Listing(EACH_OTHER);
    SupersededByTheOther(pods, p, q);
    assert p in pods;
    var i :| 0 <= i < |pods| && pods[i] == p;
    SweptIsSent(pods, |pods|, 50, i);
    SweepIsSent(w, pods, S.SweepRequest(p, q, 50));
    assert DeletesKey(Perform(w, CYCLE), Flight("n1", 0, S.SweepRequest(p, q, 50)), p.Key());
  }

  lemma SweepIsSent(w: World, pods: seq<Pod>, r: Request)
    requires Enabled(w, CYCLE) && View(w, CYCLE) == pods && r in S.Sweeps(pods, |pods|, 50)
    ensures Flight("n1", 0, r) in Perform(w, CYCLE).issued
  {
    hide S.Sweeps, S.Promotions, S.Claims, Listing, FreshIDs;
    assert r in Requests(w, CYCLE, pods);
  }

  /** Marks that respect no order of birth are dangerous: from a store in which two running pods of one base ID are
      marked for replacement by each other, one scheduling cycle has both deleted. */
  lemma MarksInACycleEmptyALineage()
    ensures exists w :: Reachable(w) && w.init == EACH_OTHER && Now(w) == map[]
  {
    CycleIsEnabled();
    EachOtherListed();
    BothAreSwept(ONE, OTHER);
    BothAreSwept(OTHER, ONE);
    var start := Start(EACH_OTHER, 50);
    var w := Perform(start, CYCLE);
    ReachableStep(start, CYCLE);
    var f :| DeletesKey(w, f, ONE.Key());
    var g :| DeletesKey(w, g, OTHER.Key());
    DeletedInTurn(w, f, g);
  }

  lemma DeletedInTurn(w: World, f: Flight, g: Flight)
    requires Reachable(w) && w.init == EACH_OTHER && w.log == [] && w.clock == 50
    requires DeletesKey(w, f, ONE.Key()) && DeletesKey(w, g, OTHER.Key())
    ensures exists later :: Reachable(later) && later.init == EACH_OTHER && Now(later) == map[]
  {
    var first := Perform(w, Deliver(f));
    var second := Perform(first, Deliver(g));
    ReachableStep(w, Deliver(f));
    ReachableStep(first, Deliver(g));
    hide Reachable;
    assert StoreAt(first.init, first.log, 0) == EACH_OTHER && first.log[0].Cmd() == Del(ONE.Key());
    assert Now(first) == Effect(EACH_OTHER, Del(ONE.Key()));
    StoreStable(first.init, first.log, [Commit(g, first.clock)], 1);
    assert StoreAt(second.init, second.log, 1) == Now(first) && second.log[1].Cmd() == Del(OTHER.Key());
    assert Now(second) == Effect(Now(first), Del(OTHER.Key()));
    assert Now(second).Keys == {};
  }
}
