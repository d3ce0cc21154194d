/** Warm standby over whole runs: every promotion is justified, and the reserve of standbys is never used up. */
module WarmStandby {
  import opened Option
  import opened Collections
  import opened Names
  import opened Pods
  import opened Cluster
  import opened Invariant
  import opened Leases

  // ---- promotions -------------------------------------------------------------------------------

  lemma PromotionEvidence(w: World, f: Flight)
    requires Reachable(w) && f in w.issued && f.req.why.Promotion?
    ensures f.view <= |w.log| && f.req.cmd.Cas? && f.req.cmd.key == f.req.why.pod.Key()
    ensures var Promotion(p, victim, now, oracle) := f.req.why;
      && now <= f.req.sentAt && p.app == f.req.cmd.value.app
      && victim.Key() in At(w, f.view) && At(w, f.view)[victim.Key()] == victim
      && S.ConfirmedDead(victim, p.app, now, oracle)
  {
    ReachableInv(w);
    assert FlightOK(w.init, w.log, f);
    StoreWellFormed(w, f.view);
    ListingMember(At(w, f.view), f.req.why.victim);
  }

  /** Every effective flip from Standby to Active is justified: the promoter held that very record as Scheduled or
      Running at the flip, and had read an Active record of the same app whose positive lease had run out by then and
      which was Fenced unless the oracle did not call its node alive. */
  lemma FlipsAreJustified(w: World, n: nat)
    requires Reachable(w) && n < |w.log| && EffectiveCas(w, n)
    requires var before, after := Look(At(w, n), w.log[n].Cmd().key), Look(At(w, n + 1), w.log[n].Cmd().key);
      before.Some? && before.value.role == Standby && after.Some? && after.value.role == Active
    ensures var f := w.log[n].flight; var before := Look(At(w, n), f.req.cmd.key).value;
      && f.req.why.Promotion? && before == f.req.why.pod && before.nodeID == f.node && before.Assigned()
      && var victim := f.req.why.victim;
      && f.view <= n && Look(At(w, f.view), victim.Key()) == Some(victim)
      && victim.app == before.app && victim.role == Active && 0 < victim.leaseExpiresAt < w.log[n].at
      && (f.req.why.oracle.Some? && victim.nodeID in f.req.why.oracle.value ==> victim.status == Fenced)
  {
    var f := w.log[n].flight;
    StepOfKey(w, f.req.cmd.key, n);
    EffectiveCasAdvances(w, n);
    if f.req.why.Promotion? { PromotionEvidence(w, f); }
  }

  // ---- the reserve ------------------------------------------------------------------------------

  /** A pod of the app stands under this key at some position of the log. */
  ghost predicate AppKey(w: World, app: string, key: string) {
    exists n :: 0 <= n <= |w.log| && StandsAt(w, app, key, n)
  }

  ghost predicate StandsAt(w: World, app: string, key: string, n: nat)
    requires n <= |w.log|
  {
    key in At(w, n) && At(w, n)[key].app == app
  }

  /** But for the `set` that first stores it, each pod of the app is only compared-and-swapped.  What happens to other
      apps does not matter. */
  ghost predicate Undisturbed(w: World, app: string) {
    forall key :: AppKey(w, app, key) ==> Steady(w, key, |w.log|)
  }

  ghost predicate Targeted(w: World, key: string) {
    exists f :: f in w.issued && f.req.why.Promotion? && f.req.why.pod.Key() == key
  }

  /** Somebody has decided to create a standby of the app under this key. */
  ghost predicate Ordered(w: World, key: string, app: string) {
    exists f :: f in w.issued && IsReplacement(f) && f.req.cmd.Cas? && f.req.cmd.key == key &&
      f.req.cmd.value.app == app
  }

  ghost function OrderedKeys(w: World): set<string> {
    set f | f in w.issued && IsReplacement(f) && f.req.cmd.Cas? :: f.req.cmd.key
  }

  ghost predicate Standing(w: World, key: string, app: string) {
    key in Now(w) && Now(w)[key].role == Standby && Now(w)[key].app == app
  }

  ghost predicate Outstanding(w: World, key: string, app: string) {
    key !in Now(w) && Ordered(w, key, app)
  }

  /** Stored standbys of an app. */
  ghost function Stored(w: World, app: string): set<string> {
    set k | k in Now(w) && Standing(w, k, app)
  }

  /** Replacements of an app decided but not committed. */
  ghost function Pending(w: World, app: string): set<string> {
    set k | k in OrderedKeys(w) && Outstanding(w, k, app)
  }

  /** The standbys that can still be counted on: stored and not aimed at by any promotion, or on order. */
  ghost function Reserve(w: World, app: string): set<string> {
    (set k | k in Stored(w, app) && !Targeted(w, k)) + Pending(w, app)
  }

  lemma OrderedIsOrderedKey(w: World, key: string, app: string)
    requires Ordered(w, key, app)
    ensures key in OrderedKeys(w)
  {
  }

  /** The fields no scheduler, agent or fencing write ever changes. */
  predicate SameShape(p: Option<Pod>, q: Option<Pod>) {
    p.Some? ==> q.Some? && q.value.app == p.value.app && q.value.dependsOn == p.value.dependsOn
  }

  lemma AppIsSteady(w: World, app: string, key: string, m: nat, n: nat)
    requires Undisturbed(w, app) && m <= |w.log| && n <= |w.log| && StandsAt(w, app, key, m)
    ensures Steady(w, key, n)
  {
    assert AppKey(w, app, key);
    SteadyBefore(w, key, n, |w.log|);
  }

  lemma ShapeStep(w: World, key: string, n: nat)
    requires Reachable(w) && n < |w.log| && Steady(w, key, n + 1)
    ensures SameShape(Look(At(w, n), key), Look(At(w, n + 1), key))
  {
    hide Reachable, Steady, StoreAt;
    if Look(At(w, n), key).Some? && Look(At(w, n + 1), key) != Look(At(w, n), key) {
      ChangeIsEffective(w, key, n);
      EffectiveCasAdvances(w, n);
    }
  }

  lemma ShapeIsKept(w: World, app: string, key: string, i: nat, j: nat)
    requires Reachable(w) && Undisturbed(w, app) && i <= j <= |w.log| && StandsAt(w, app, key, i)
    ensures SameShape(Look(At(w, i), key), Look(At(w, j), key))
  {
    hide Reachable, Undisturbed, Steady, StoreAt;
    var h := History(w, key);
    forall n | i <= n < j ensures SameShape(h[n], h[n + 1]) {
      AppIsSteady(w, app, key, i, n + 1);
      ShapeStep(w, key, n);
    }
    Chain(h, SameShape, i, j);
  }

  /** Whatever is stored was there from the start or has been sent. */
  lemma {:induction false} StoredKeysWereSent(w: World, key: string, n: nat)
    requires Reachable(w) && n <= |w.log| && key in At(w, n)
    ensures key in w.init || !NewKey(w, key)
  {
    if n > 0 {
      if key in At(w, n - 1) {
        StoredKeysWereSent(w, key, n - 1);
      } else {
        StepOfKey(w, key, n - 1);
        assert w.log[n - 1].flight in w.issued;
      }
    }
  }

  /** The record under an ordered key is always one of the app it was ordered for. */
  lemma {:induction false} OrderedRecord(w: World, key: string, app: string, n: nat)
    requires Reachable(w) && Ordered(w, key, app) && n <= |w.log| && key in At(w, n)
    ensures StandsAt(w, app, key, n)
    decreases n
  {
    hide Reachable, StoreAt, Advances;
    var g :| g in w.issued && IsReplacement(g) && g.req.cmd.Cas? && g.req.cmd.key == key && g.req.cmd.value.app == app;
    ReplacementIsCas(w, g);
    if n == 0 {
      StoreAtStart(w.init, w.log);
    } else {
      StepOfKey(w, key, n - 1);
      var f := w.log[n - 1].flight;
      if Look(At(w, n), key) == Look(At(w, n - 1), key) {
        OrderedRecord(w, key, app, n - 1);
      } else {
        ReplacementsAreNotSet(w, g, f);
        if IsReplacement(f) {
          ReplacementsAgree(w, g, f);
        } else {
          CasKeepsShape(w, f);
          OrderedRecord(w, key, app, f.view);
        }
      }
    }
  }

  /** A key ordered for the app that a promotion aimed at is stored. */
  lemma TargetsAreStored(w: World, app: string, key: string)
    requires Reachable(w) && Undisturbed(w, app) && Targeted(w, key) && Ordered(w, key, app)
    ensures key in Now(w)
  {
    hide Undisturbed, StoreAt;
    var f :| f in w.issued && f.req.why.Promotion? && f.req.why.pod.Key() == key;
    PromotionEvidence(w, f);
    CasReads(w, f, f.req.sentAt);
    hide Reachable, Advances;
    OrderedRecord(w, key, app, f.view);
    ShapeIsKept(w, app, key, f.view, |w.log|);
  }

  /** An entry of the log keeps a stored standby of the app that no promotion aims at. */
  lemma EntryKeepsStandby(w: World, app: string, key: string, n: nat)
    requires Reachable(w) && Undisturbed(w, app) && n < |w.log| && !Targeted(w, key)
    requires StandsAt(w, app, key, n) && At(w, n)[key].role == Standby
    ensures StandsAt(w, app, key, n + 1) && At(w, n + 1)[key].role == Standby
  {
    hide Reachable, Undisturbed, Steady, StoreAt;
    if Look(At(w, n + 1), key) != Look(At(w, n), key) {
      AppIsSteady(w, app, key, n, n + 1);
      ChangeIsEffective(w, key, n);
      EffectiveCasAdvances(w, n);
      StepOfKey(w, key, n);
      if w.log[n].flight.req.why.Promotion? { PromotionAims(w, w.log[n].flight); }
    }
  }

  lemma PromotionAims(w: World, f: Flight)
    requires Reachable(w) && f in w.issued && f.req.why.Promotion?
    ensures f.req.cmd.Cas? && Targeted(w, f.req.cmd.key)
  {
    PromotionEvidence(w, f);
  }

  /** An entry of the log that fills an ordered key stores the standby that was ordered. */
  lemma EntryFillsOrder(w: World, key: string, app: string, n: nat)
    requires Reachable(w) && Undisturbed(w, app) && n < |w.log| && Ordered(w, key, app)
    requires Look(At(w, n), key) == None && Look(At(w, n + 1), key).Some?
    ensures StandsAt(w, app, key, n + 1) && At(w, n + 1)[key].role == Standby
  {
    hide Reachable, Undisturbed, StoreAt, Advances;
    StepOfKey(w, key, n);
    OrderedRecord(w, key, app, n + 1);
    var f := w.log[n].flight;
    var g :| g in w.issued && IsReplacement(g) && g.req.cmd.Cas? && g.req.cmd.key == key && g.req.cmd.value.app == app;
    ReplacementsAreNotSet(w, g, f);
    if IsReplacement(f) {
      ReplacementIsCas(w, f);
    } else {
      CasReads(w, f, f.req.sentAt);
      OrderedRecord(w, key, app, f.view);
      ShapeIsKept(w, app, key, f.view, n);
    }
  }

  /** A committed message leaves every reserved standby reserved. */
  lemma DeliverKeepsReserve(w: World, f: Flight, app: string, key: string)
    requires Reachable(w) && Enabled(w, Deliver(f)) && Undisturbed(Perform(w, Deliver(f)), app) &&
      key in Reserve(w, app)
    ensures key in Reserve(Perform(w, Deliver(f)), app)
  {
    var w', n := Perform(w, Deliver(f)), |w.log|;
    ReachableStep(w, Deliver(f));
    DeliverExtends(w, f);
    StepIsUndisturbed(w, Deliver(f), app);
    SameIssued(w, w', app, key);
    hide Reachable, Undisturbed, StoreAt, Enabled, Perform;
    if Standing(w, key, app) {
      EntryKeepsStandby(w', app, key, n);
    } else {
      if Targeted(w, key) { TargetsAreStored(w, app, key); }
      if Look(Now(w'), key).Some? { EntryFillsOrder(w', key, app, n); }
    }
  }

  lemma SameIssued(w: World, w': World, app: string, key: string)
    requires w.issued == w'.issued && key in Reserve(w, app)
    ensures Targeted(w', key) == Targeted(w, key) && Ordered(w', key, app) == Ordered(w, key, app)
    ensures OrderedKeys(w') == OrderedKeys(w)
    ensures (Standing(w, key, app) && !Targeted(w, key)) || (key in OrderedKeys(w) && Outstanding(w, key, app))
  {
  }

  lemma DeliverExtends(w: World, f: Flight)
    requires Enabled(w, Deliver(f))
    ensures var w', n := Perform(w, Deliver(f)), |w.log|;
      && n < |w'.log| && w'.log[n].flight == f && w'.issued == w.issued
      && At(w', n) == Now(w) && At(w', n + 1) == Now(w')
  {
    var w' := Perform(w, Deliver(f));
    StoreStable(w.init, w.log, [Commit(f, w.clock)], |w.log|);
  }

  /** The log before a step is the beginning of the log after it, and so are the stores. */
  lemma StepExtends(w: World, a: Action, n: nat)
    requires Enabled(w, a) && n <= |w.log|
    ensures var w' := Perform(w, a);
      |w.log| <= |w'.log| && At(w', n) == At(w, n) && (n < |w.log| ==> w'.log[n] == w.log[n])
  {
    hide Listing;
    match a
    case Deliver(f) => StoreStable(w.init, w.log, [Commit(f, w.clock)], n);
    case _ =>
  }

  lemma StepIsUndisturbed(w: World, a: Action, app: string)
    requires Enabled(w, a) && Undisturbed(Perform(w, a), app)
    ensures Undisturbed(w, app)
  {
    hide Perform, Enabled, StoreAt;
    var w' := Perform(w, a);
    StepExtends(w, a, 0);
    forall n | 0 <= n <= |w.log| ensures At(w', n) == At(w, n) { StepExtends(w, a, n); }
    forall n | 0 <= n < |w.log| ensures w'.log[n] == w.log[n] { StepExtends(w, a, n); }
    forall key | AppKey(w, app, key) ensures Steady(w, key, |w.log|) {
      var n :| 0 <= n <= |w.log| && StandsAt(w, app, key, n);
      assert StandsAt(w', app, key, n);
      assert Steady(w', key, |w'.log|);
      forall i | 0 <= i < |w.log| && Overwrites(w.log[i].Cmd(), key)
        ensures w.log[i].Cmd().Set? && forall j :: 0 <= j <= i ==> key !in At(w, j)
      {
        assert Overwrites(w'.log[i].Cmd(), key);
        forall j | 0 <= j <= i ensures key !in At(w, j) { assert At(w', j) == At(w, j); }
      }
    }
  }

  // ---- sending ----------------------------------------------------------------------------------

  ghost function Sent(w: World, a: Action): set<Flight>
    requires HasView(a) && Enabled(w, a)
  {
    Flights(Sender(a), a.view, Requests(w, a, View(w, a)))
  }

  /** Only a scheduling cycle promotes, and it aims at one pod, for which it orders a replacement. */
  lemma SentPromotion(w: World, a: Action, f: Flight)
    requires HasView(a) && Enabled(w, a) && f in Sent(w, a) && f.req.why.Promotion?
    ensures a.Schedule?
    ensures var pods := View(w, a); var i := S.PromotableIndex(a.node, pods, a.now, a.oracle);
      i < |pods| && f.req.why.pod == pods[i]
  {
    RequestKinds(w, a, f.req);
    OnlyPromotion(w, a, f.req);
  }

  lemma OnlyPromotion(w: World, a: Action, r: Request)
    requires a.Schedule? && Enabled(w, a) && r.why.Promotion?
    requires r in S.Promotions(a.node, View(w, a), a.now, a.oracle, a.promoteAt, a.nano)
    ensures var i := S.PromotableIndex(a.node, View(w, a), a.now, a.oracle);
      i < |View(w, a)| && r.why.pod == View(w, a)[i]
  {
    hide Listing, Justified;
  }

  lemma ReplacementIsSent(w: World, a: Action)
    requires a.Schedule? && Enabled(w, a)
    requires S.PromotableIndex(a.node, View(w, a), a.now, a.oracle) < |View(w, a)|
    ensures var p := View(w, a)[S.PromotableIndex(a.node, View(w, a), a.now, a.oracle)];
      Ordered(Perform(w, a), PodKey(ReplacementName(p.app, a.nano)), p.app) &&
        NewKey(w, PodKey(ReplacementName(p.app, a.nano)))
  {
    hide Listing, Justified, Timely, S.ConfirmedDead, S.LocalStandby, ReplacementName;
    var pods := View(w, a);
    var i := S.PromotableIndex(a.node, pods, a.now, a.oracle);
    var r := S.ReplacementRequest(pods[i], a.nano, a.promoteAt);
    assert S.Promotions(a.node, pods, a.now, a.oracle, a.promoteAt, a.nano)[1] == r;
    assert r in S.Promotions(a.node, pods, a.now, a.oracle, a.promoteAt, a.nano);
    assert r in Requests(w, a, pods);
    assert Flight(Sender(a), a.view, r) in Perform(w, a).issued;
    assert pods[i] in pods && Unused(w, ReplacementName(pods[i].app, a.nano));
  }

  /** A key stays reserved when requests are sent, unless a promotion among them aims at it. */
  lemma SendKeepsKey(w: World, a: Action, app: string, key: string)
    requires HasView(a) && Enabled(w, a) && key in Reserve(w, app)
    requires forall f :: f in Sent(w, a) && f.req.why.Promotion? ==> f.req.why.pod.Key() != key
    ensures key in Reserve(Perform(w, a), app)
  {
    hide Requests, Listing, Timely, FreshIDs, StoreAt;
    var w' := Perform(w, a);
    assert w'.issued == w.issued + Sent(w, a) && Now(w') == Now(w);
    if Outstanding(w, key, app) {
      assert Ordered(w', key, app);
      OrderedIsOrderedKey(w', key, app);
    }
  }

  /** Sending requests never shrinks a reserve: each promotion comes with an order for a replacement. */
  lemma SendKeepsReserve(w: World, a: Action, app: string)
    requires Reachable(w) && Undisturbed(w, app) && HasView(a) && Enabled(w, a)
    ensures |Reserve(w, app)| <= |Reserve(Perform(w, a), app)|
  {
    if f :| f in Sent(w, a) && f.req.why.Promotion? {
      PromotingKeepsReserve(w, a, app, f);
    } else {
      forall k | k in Reserve(w, app) ensures k in Reserve(Perform(w, a), app) { SendKeepsKey(w, a, app, k); }
      SubsetSize(Reserve(w, app), Reserve(Perform(w, a), app));
    }
  }

  lemma PromotingKeepsReserve(w: World, a: Action, app: string, f: Flight)
    requires Reachable(w) && Undisturbed(w, app) && HasView(a) && Enabled(w, a) && f in Sent(w, a) &&
      f.req.why.Promotion?
    ensures |Reserve(w, app)| <= |Reserve(Perform(w, a), app)|
  {
    SentPromotion(w, a, f);
    var p := f.req.why.pod;
    var newKey := PodKey(ReplacementName(p.app, a.nano));
    ReplacementIsSent(w, a);
    AllButPromoted(w, a, app, f);
    if app == p.app {
      FreshIsReserved(w, a, app, newKey);
      SwapKeepsSize(Reserve(w, app), Reserve(Perform(w, a), app), p.Key(), newKey);
    } else {
      NotReservedElsewhere(w, a, app, p);
      SubsetSize(Reserve(w, app), Reserve(Perform(w, a), app));
    }
  }

  /** A pod of another app that a node has read is not reserved for this one. */
  lemma NotReservedElsewhere(w: World, a: Action, app: string, p: Pod)
    requires Reachable(w) && Undisturbed(w, app) && HasView(a) && Enabled(w, a) && p in View(w, a) && p.app != app
    ensures p.Key() !in Reserve(w, app)
  {
    Listed(w, a.view, p);
    hide Reachable, Undisturbed, StoreAt, Enabled, Listing;
    if Ordered(w, p.Key(), app) { OrderedRecord(w, p.Key(), app, a.view); }
    if Standing(w, p.Key(), app) { NeverOfAnotherApp(w, app, p.Key(), a.view, |w.log|); }
  }

  /** The app of a steady record has never been another, as long as it has been there. */
  lemma NeverOfAnotherApp(w: World, app: string, key: string, m: nat, n: nat)
    requires Reachable(w) && Undisturbed(w, app) && m <= n <= |w.log| && StandsAt(w, app, key, n) && key in At(w, m)
    ensures StandsAt(w, app, key, m)
  {
    hide Reachable, Undisturbed, Steady, StoreAt;
    var h := History(w, key);
    forall i | m <= i < n ensures SameShape(h[i], h[i + 1]) {
      AppIsSteady(w, app, key, n, i + 1);
      ShapeStep(w, key, i);
    }
    Chain(h, SameShape, m, n);
  }

  lemma AllButPromoted(w: World, a: Action, app: string, f: Flight)
    requires HasView(a) && Enabled(w, a) && f in Sent(w, a) && f.req.why.Promotion?
    ensures forall k :: k in Reserve(w, app) && k != f.req.why.pod.Key() ==> k in Reserve(Perform(w, a), app)
  {
    SentPromotion(w, a, f);
    forall g | g in Sent(w, a) && g.req.why.Promotion?
      ensures g.req.why.pod == f.req.why.pod { SentPromotion(w, a, g); }
    forall k | k in Reserve(w, app) && k != f.req.why.pod.Key() ensures k in Reserve(Perform(w, a), app) {
      SendKeepsKey(w, a, app, k);
    }
  }

  lemma SendsOnly(w: World, a: Action)
    requires HasView(a) && Enabled(w, a)
    ensures Now(Perform(w, a)) == Now(w) && Perform(w, a).issued == w.issued + Sent(w, a)
    ensures forall f :: f in Sent(w, a) ==> f.req in Requests(w, a, View(w, a))
  {
    hide Requests, Listing, Timely, FreshIDs;
  }

  lemma OutstandingIsReserved(w: World, key: string, app: string)
    requires Outstanding(w, key, app)
    ensures key in Reserve(w, app)
  {
    OrderedIsOrderedKey(w, key, app);
  }

  lemma UnusedIsNotReserved(w: World, key: string, app: string)
    requires key !in Now(w) && NewKey(w, key)
    ensures key !in Reserve(w, app)
  {
  }

  lemma FreshIsReserved(w: World, a: Action, app: string, key: string)
    requires Reachable(w) && HasView(a) && Enabled(w, a) && NewKey(w, key) && Ordered(Perform(w, a), key, app)
    ensures key in Reserve(Perform(w, a), app) && key !in Reserve(w, app)
  {
    SendsOnly(w, a);
    hide Reachable, Perform, Enabled, StoreAt, Reserve, Ordered, NewKey;
    if key in Now(w) {
      StoredKeysWereSent(w, key, |w.log|);
      NewIsNotInitial(w, key);
    }
    OutstandingIsReserved(Perform(w, a), key, app);
    UnusedIsNotReserved(w, key, app);
  }

  lemma NewIsNotInitial(w: World, key: string)
    requires NewKey(w, key)
    ensures key !in w.init
  {
  }

  lemma SwapKeepsSize<T>(a: set<T>, b: set<T>, gone: T, come: T)
    requires forall x :: x in a && x != gone ==> x in b
    requires come in b && come !in a
    ensures |a| <= |b|
  {
    SubsetSize(a - {gone} + {come}, b);
    assert |a - {gone} + {come}| == |a - {gone}| + 1;
  }

  lemma TickKeepsReserve(w: World, to: int, app: string)
    requires Enabled(w, Tick(to))
    ensures Reserve(Perform(w, Tick(to)), app) == Reserve(w, app)
  {
  }

  lemma DeliverKeepsReserveSize(w: World, f: Flight, app: string)
    requires Reachable(w) && Enabled(w, Deliver(f)) && Undisturbed(Perform(w, Deliver(f)), app)
    ensures |Reserve(w, app)| <= |Reserve(Perform(w, Deliver(f)), app)|
  {
    hide *;
    forall k | k in Reserve(w, app)
      ensures k in Reserve(Perform(w, Deliver(f)), app) { DeliverKeepsReserve(w, f, app, k); }
    SubsetSize(Reserve(w, app), Reserve(Perform(w, Deliver(f)), app));
  }

  /** No step shrinks the reserve of an undisturbed app. */
  lemma StepKeepsReserve(w: World, a: Action, app: string)
    requires Reachable(w) && Enabled(w, a) && Undisturbed(Perform(w, a), app)
    ensures |Reserve(w, app)| <= |Reserve(Perform(w, a), app)|
  {
    hide Reachable, Reserve, Enabled, Perform, Undisturbed;
    match a
    case Tick(to) => TickKeepsReserve(w, to, app);
    case Deliver(f) => DeliverKeepsReserveSize(w, f, app);
    case _ =>
      StepIsUndisturbed(w, a, app);
      SendKeepsReserve(w, a, app);
  }

  /** Between any two points of a run the reserve of an undisturbed app does not shrink. */
  lemma {:induction false} ReserveOverRun(w: World, acts: seq<Action>, app: string)
    requires Reachable(w) && ValidRun(w, acts) && Undisturbed(After(w, acts), app)
    ensures Undisturbed(w, app) && |Reserve(w, app)| <= |Reserve(After(w, acts), app)|
    decreases |acts|
  {
    hide Reachable, Reserve, Undisturbed, Perform, Enabled;
    if acts != [] {
      var n := |acts| - 1;
      RunKeepsReachable(w, acts[..n]);
      StepIsUndisturbed(After(w, acts[..n]), acts[n], app);
      ReserveOverRun(w, acts[..n], app);
      StepKeepsReserve(After(w, acts[..n]), acts[n], app);
    }
  }

  /** The reserve is conserved.  From any point of a run on, stored standbys of an undisturbed app plus replacements
      decided but not yet committed never fall below the standbys then stored that no promotion aims at plus the
      replacements then on order, even when promotions are refused or repeated, and whatever happens to other apps.
      From a quiet point on that is the number of standbys stored; once every order has been committed, stored standbys
      alone do not fall below. */
  lemma ReserveIsConserved(w: World, acts: seq<Action>, app: string)
    requires Reachable(w) && ValidRun(w, acts) && Undisturbed(After(w, acts), app)
    ensures var later := After(w, acts);
      && |Reserve(w, app)| <= |Stored(later, app)| + |Pending(later, app)|
      && (w.issued == {} ==> |Reserve(w, app)| == |Stored(w, app)|)
      && (Pending(later, app) == {} ==> |Reserve(w, app)| <= |Stored(later, app)|)
  {
    hide Reachable, Undisturbed;
    ReserveOverRun(w, acts, app);
    if w.issued == {} { ReserveAtStart(w, app); }
    ReserveIsCovered(After(w, acts), app);
  }

  lemma ReserveAtStart(w: World, app: string)
    requires w.issued == {}
    ensures Reserve(w, app) == Stored(w, app)
  {
  }

  lemma ReserveIsCovered(w: World, app: string)
    ensures |Reserve(w, app)| <= |Stored(w, app)| + |Pending(w, app)|
  {
    SubsetSize(Reserve(w, app), Cover(w, app));
    CoverSize(w, app);
  }

  // ---- when stored and ordered standbys become fewer ----------------------------------------------

  /** Standbys stored or on order. */
  ghost function Cover(w: World, app: string): set<string> {
    Stored(w, app) + Pending(w, app)
  }

  lemma CoverSize(w: World, app: string)
    ensures |Cover(w, app)| == |Stored(w, app)| + |Pending(w, app)|
  {
    assert Stored(w, app) !! Pending(w, app);
  }

  lemma InCover(w: World, app: string, key: string)
    ensures key in Cover(w, app) <==> Standing(w, key, app) || Outstanding(w, key, app)
  {
    if Ordered(w, key, app) { OrderedIsOrderedKey(w, key, app); }
  }

  /** The step commits a promotion for the app, and the log accepts it. */
  ghost predicate PromotionLands(w: World, a: Action, app: string) {
    a.Deliver? && a.flight.req.why.Promotion? && a.flight.req.why.pod.app == app && Accepted(Now(w), a.flight.req.cmd)
  }

  /** Any other committed message leaves every stored standby of the app a stored standby of the app. */
  lemma DeliverKeepsStanding(w: World, f: Flight, app: string, key: string)
    requires Reachable(w) && Enabled(w, Deliver(f)) && Undisturbed(Perform(w, Deliver(f)), app)
    requires !PromotionLands(w, Deliver(f), app) && Standing(w, key, app)
    ensures Standing(Perform(w, Deliver(f)), key, app)
  {
    var w', n := Perform(w, Deliver(f)), |w.log|;
    ReachableStep(w, Deliver(f));
    DeliverExtends(w, f);
    hide Reachable, Undisturbed, Steady, StoreAt, Enabled, Perform;
    if Look(At(w', n + 1), key) != Look(At(w', n), key) {
      AppIsSteady(w', app, key, n, n + 1);
      ChangeIsEffective(w', key, n);
      EffectiveCasAdvances(w', n);
    }
  }

  lemma DeliverKeepsCover(w: World, f: Flight, app: string, key: string)
    requires Reachable(w) && Enabled(w, Deliver(f)) && Undisturbed(Perform(w, Deliver(f)), app)
    requires !PromotionLands(w, Deliver(f), app) && key in Cover(w, app)
    ensures key in Cover(Perform(w, Deliver(f)), app)
  {
    var w', n := Perform(w, Deliver(f)), |w.log|;
    InCover(w, app, key);
    InCover(w', app, key);
    if Standing(w, key, app) {
      DeliverKeepsStanding(w, f, app, key);
    } else {
      ReachableStep(w, Deliver(f));
      DeliverExtends(w, f);
      assert Ordered(w', key, app) == Ordered(w, key, app);
      hide Reachable, Undisturbed, StoreAt, Enabled, Perform;
      if Look(Now(w'), key).Some? { EntryFillsOrder(w', key, app, n); }
    }
  }

  lemma SendKeepsCover(w: World, a: Action, app: string, key: string)
    requires Enabled(w, a) && !a.Deliver? && key in Cover(w, app)
    ensures key in Cover(Perform(w, a), app)
  {
    InCover(w, app, key);
    InCover(Perform(w, a), app, key);
  }

  /** A promotion that lands turns one stored standby into an active pod, and touches nothing else. */
  lemma LandingTakesOne(w: World, f: Flight, app: string)
    requires Reachable(w) && Enabled(w, Deliver(f)) && Undisturbed(Perform(w, Deliver(f)), app)
    requires PromotionLands(w, Deliver(f), app)
    ensures f.req.cmd.Cas? && f.req.cmd.key in Cover(w, app)
    ensures Cover(Perform(w, Deliver(f)), app) == Cover(w, app) - {f.req.cmd.key}
  {
    var w', n := Perform(w, Deliver(f)), |w.log|;
    LandingFlips(w, f, app);
    InCover(w, app, f.req.cmd.key);
    forall k ensures k in Cover(w', app) <==> k in Cover(w, app) && k != f.req.cmd.key {
      InCover(w, app, k);
      InCover(w', app, k);
      if k != f.req.cmd.key { LandingLeaves(w, f, k); }
    }
  }

  lemma LandingFlips(w: World, f: Flight, app: string)
    requires Reachable(w) && Enabled(w, Deliver(f)) && Undisturbed(Perform(w, Deliver(f)), app)
    requires PromotionLands(w, Deliver(f), app)
    ensures f.req.cmd.Cas? && Standing(w, f.req.cmd.key, app)
    ensures var after := Look(Now(Perform(w, Deliver(f))), f.req.cmd.key); after.Some? && after.value.role == Active
  {
    var w', n := Perform(w, Deliver(f)), |w.log|;
    ReachableStep(w, Deliver(f));
    DeliverExtends(w, f);
    StepExtends(w, Deliver(f), f.view) by { PromotionEvidence(w, f); }
    hide Undisturbed, Steady, StoreAt, Enabled, Perform;
    PromotionEvidence(w, f);
    CasReads(w, f, f.req.sentAt);
    hide Reachable, Advances;
    AppIsSteady(w', app, f.req.cmd.key, f.view, n + 1);
    SteadyCas(w', n);
    LandingAdvances(w', n);
  }

  lemma LandingAdvances(w: World, n: nat)
    requires Reachable(w) && n < |w.log| && EffectiveCas(w, n) && w.log[n].flight.req.why.Promotion?
    ensures var f := w.log[n].flight; var p, q := Look(At(w, n), f.req.cmd.key), Look(At(w, n + 1), f.req.cmd.key);
      p == Some(f.req.why.pod) && p.value.role == Standby && q.Some? && q.value.role == Active
  {
    EffectiveCasAdvances(w, n);
  }

  lemma LandingLeaves(w: World, f: Flight, key: string)
    requires Reachable(w) && Enabled(w, Deliver(f)) && f.req.cmd.Cas? && f.req.cmd.key != key
    ensures var w' := Perform(w, Deliver(f));
      && Look(Now(w'), key) == Look(Now(w), key) && w'.issued == w.issued
  {
    hide Reachable;
    DeliverExtends(w, f);
    ReachableStep(w, Deliver(f));
    StepOfKey(Perform(w, Deliver(f)), key, |w.log|);
  }

  /** Stored standbys of an app plus replacements on order become fewer in a step exactly when the step commits a
      promotion for the app that the log accepts, and then by exactly one. */
  lemma SumFallsExactlyWhen(w: World, a: Action, app: string)
    requires Reachable(w) && Enabled(w, a) && Undisturbed(Perform(w, a), app)
    ensures var w' := Perform(w, a);
      var before, after := |Stored(w, app)| + |Pending(w, app)|, |Stored(w', app)| + |Pending(w', app)|;
      && (after < before <==> PromotionLands(w, a, app))
      && (PromotionLands(w, a, app) ==> after == before - 1)
  {
    hide Reachable, Undisturbed, Cover, Perform, Enabled;
    CoverSize(w, app);
    CoverSize(Perform(w, a), app);
    if PromotionLands(w, a, app) {
      LandingTakesOne(w, a.flight, app);
    } else {
      forall k | k in Cover(w, app) ensures k in Cover(Perform(w, a), app) {
        if a.Deliver? { DeliverKeepsCover(w, a.flight, app, k); } else { SendKeepsCover(w, a, app, k); }
      }
      SubsetSize(Cover(w, app), Cover(Perform(w, a), app));
    }
  }

  ghost predicate SumFalls(w: World, a: Action, app: string) {
    Reachable(w) && Enabled(w, a) && Undisturbed(Perform(w, a), app) &&
    |Stored(Perform(w, a), app)| + |Pending(Perform(w, a), app)| < |Stored(w, app)| + |Pending(w, app)|
  }

  // ---- such a step exists -------------------------------------------------------------------------

  const DEAD_ACTIVE := EMPTY_POD.(id := "web-active-0", baseID := "web-active-0", status := Running, nodeID := "n1",
    resourceVersion := 1, leaseExpiresAt := 10, app := "web", role := Active)

  const SPARE := EMPTY_POD.(id := "web-standby-0", baseID := "web-standby-0", status := Running, nodeID := "n2",
    resourceVersion := 1, leaseExpiresAt := 100, app := "web", role := Standby)

  const TWO_PODS: Pods.Store := map[DEAD_ACTIVE.Key() := DEAD_ACTIVE, SPARE.Key() := SPARE]

  const CYCLE := Schedule(0, S.Node("n2", "", 0), 50, None, 50, INDEX_LIMIT, 50)

  const PROMOTION :=
    Flight("n2", 0, S.LockRequest(CYCLE.node, S.Promoted(SPARE), 50, Promotion(SPARE, DEAD_ACTIVE, 50, None)))

  lemma TwoKeys()
    ensures DEAD_ACTIVE.Key() == "pod:web-active-0" && SPARE.Key() == "pod:web-standby-0"
    ensures DEAD_ACTIVE.Key() != SPARE.Key()
  {
  }

  lemma TwoPodsListed()
    ensures Initial(TWO_PODS) && forall p :: p in Listing(TWO_PODS) <==> p == DEAD_ACTIVE || p == SPARE
  {
    hide PodKey, Listing;
    TwoKeys();
    forall p ensures p in Listing(TWO_PODS) <==> p == DEAD_ACTIVE || p == SPARE { ListingMember(TWO_PODS, p); }
  }

  lemma NewNameIsUnused(app: string)
    ensures Unused(Start(TWO_PODS, 50), ReplacementName(app, INDEX_LIMIT))
  {
    hide Decimal;
    var id := ReplacementName(app, INDEX_LIMIT);
    assert DEAD_ACTIVE.id[0] == 'w' && SPARE.id[0] == 'w' && id[0] == 'p';
    if PodKey(id) == DEAD_ACTIVE.Key() { PodKeyInjective(id, DEAD_ACTIVE.id); }
    if PodKey(id) == SPARE.Key() { PodKeyInjective(id, SPARE.id); }
  }

  lemma CycleIsEnabled()
    ensures Initial(TWO_PODS) && Reachable(Start(TWO_PODS, 50)) && Enabled(Start(TWO_PODS, 50), CYCLE)
    ensures View(Start(TWO_PODS, 50), CYCLE) == Listing(TWO_PODS)
  {
    TwoPodsListed();
    StartIsReachable(TWO_PODS, 50);
    hide Reachable, Listing, Unused, ReplacementName, Initial;
    var w := Start(TWO_PODS, 50);
    StoreAtStart(w.init, w.log);
    forall p | p in Listing(TWO_PODS) ensures Unused(w, ReplacementName(p.app, INDEX_LIMIT)) { NewNameIsUnused(p.app); }
  }

  /** The node of the spare standby decides to promote it. */
  lemma PromotionIsSent()
    requires Enabled(Start(TWO_PODS, 50), CYCLE) && View(Start(TWO_PODS, 50), CYCLE) == Listing(TWO_PODS)
    ensures PROMOTION in Perform(Start(TWO_PODS, 50), CYCLE).issued
  {
    TwoPodsListed();
    var w, pods := Start(TWO_PODS, 50), Listing(TWO_PODS);
    var i := S.PromotableIndex(CYCLE.node, pods, 50, None);
    OnlyPromotable(pods);
    assert S.Promotions(CYCLE.node, pods, 50, None, 50, INDEX_LIMIT)[0] == PROMOTION.req;
    assert PROMOTION.req in S.Promotions(CYCLE.node, pods, 50, None, 50, INDEX_LIMIT);
    assert PROMOTION.req in Requests(w, CYCLE, pods);
  }

  lemma OnlyPromotable(pods: seq<Pod>)
    requires forall p :: p in pods <==> p == DEAD_ACTIVE || p == SPARE
    ensures var i, j := S.PromotableIndex(CYCLE.node, pods, 50, None), S.VictimIndex(pods, "web", 50, None);
      i < |pods| && pods[i] == SPARE && j < |pods| && pods[j] == DEAD_ACTIVE
  {
    var j, i := S.VictimIndex(pods, "web", 50, None), S.PromotableIndex(CYCLE.node, pods, 50, None);
    assert DEAD_ACTIVE in pods && SPARE in pods;
    var d :| 0 <= d < |pods| && pods[d] == DEAD_ACTIVE;
    var s :| 0 <= s < |pods| && pods[s] == SPARE;
    assert S.ConfirmedDead(pods[d], "web", 50, None) && S.LocalStandby(CYCLE.node, pods[s]);
    assert j < |pods| && pods[j] in pods;
    assert i < |pods| && pods[i] in pods;
  }

  /** Such a step exists: a cluster of one dead Active pod and one spare standby has a run in which stored standbys plus
      replacements on order go from one to two, when the replacement is ordered, and back to one, when the promotion
      lands. */
  lemma SumFallsInSomeRun()
    ensures exists w, a, app :: SumFalls(w, a, app)
  {
    CycleIsEnabled();
    PromotionIsSent();
    var start := Start(TWO_PODS, 50);
    var w, a := Perform(start, CYCLE), Deliver(PROMOTION);
    ReachableStep(start, CYCLE);
    LandingExample(w);
    SumFallsExactlyWhen(w, a, "web");
    assert SumFalls(w, a, "web");
  }

  lemma LandingExample(w: World)
    requires w.init == TWO_PODS && w.log == [] && w.clock == 50 && PROMOTION in w.issued
    ensures Enabled(w, Deliver(PROMOTION)) && Undisturbed(Perform(w, Deliver(PROMOTION)), "web") &&
      PromotionLands(w, Deliver(PROMOTION), "web")
  {
    assert SPARE.Key() == "pod:web-standby-0";
    assert Now(w) == TWO_PODS;
  }

  // ---- two active pods of one app -------------------------------------------------------------------

  ghost predicate IsActive(w: World, key: string, app: string) {
    key in Now(w) && Now(w)[key].role == Active && Now(w)[key].app == app
  }

  /** A promotion that lands leaves every other Active pod of the app Active, the dead one included. */
  lemma LandingAddsAnActive(w: World, f: Flight, app: string, key: string)
    requires Reachable(w) && Enabled(w, Deliver(f)) && Undisturbed(Perform(w, Deliver(f)), app)
    requires PromotionLands(w, Deliver(f), app) && IsActive(w, key, app)
    ensures f.req.cmd.Cas? && f.req.cmd.key != key
    ensures IsActive(Perform(w, Deliver(f)), key, app) && IsActive(Perform(w, Deliver(f)), f.req.cmd.key, app)
  {
    LandingFlips(w, f, app);
    LandingLeaves(w, f, key);
    LandedApp(w, f, app);
  }

  lemma LandedApp(w: World, f: Flight, app: string)
    requires Reachable(w) && Enabled(w, Deliver(f)) && PromotionLands(w, Deliver(f), app)
    ensures f.req.cmd.Cas? && f.req.cmd.key in Now(Perform(w, Deliver(f)))
    ensures Now(Perform(w, Deliver(f)))[f.req.cmd.key].app == app
  {
    PromotionEvidence(w, f);
    DeliverExtends(w, f);
    var w', n := Perform(w, Deliver(f)), |w.log|;
    assert At(w', n + 1) == Effect(At(w', n), f.req.cmd);
    CasReads(w, f, f.req.sentAt);
  }

  /** So an app can have two Active pods: nobody retires the dead one. */
  lemma TwoActivesInSomeRun()
    ensures exists w, k, l :: Reachable(w) && k != l && IsActive(w, k, "web") && IsActive(w, l, "web")
  {
    CycleIsEnabled();
    PromotionIsSent();
    var start := Start(TWO_PODS, 50);
    var w := Perform(start, CYCLE);
    ReachableStep(start, CYCLE);
    LandingExample(w);
    ReachableStep(w, Deliver(PROMOTION));
    assert Now(w) == TWO_PODS;
    TwoKeys();
    LandingAddsAnActive(w, PROMOTION, "web", DEAD_ACTIVE.Key());
  }
}
