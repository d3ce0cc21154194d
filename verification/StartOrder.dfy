/** Start order over whole runs, whatever compose files are posted meanwhile: apps start after the apps they depend on,
    and dependency cycles never start. */
module StartOrder {
  import opened Names
  import opened Pods
  import opened Cluster
  import opened Invariant
  import opened Leases

  /** A pod of the app that is stored after `n` entries and has left Pending. */
  ghost predicate Started(w: World, key: string, app: string, n: nat)
    requires n <= |w.log|
  {
    key in At(w, n) && At(w, n)[key].app == app && At(w, n)[key].status != Status.Pending
  }

  /** A pod of one of the apps, or under the base ID of one of them. */
  ghost predicate OfApps(p: Pod, apps: set<string>) {
    p.app in apps || exists a :: a in apps && NamesApp(p.baseID, a)
  }

  /** At none of the first `n` positions of the log are all dependencies of the pod met. */
  ghost predicate Blocked(w: World, p: Pod, n: nat)
    requires n <= |w.log|
  {
    forall m :: 0 <= m < n ==> !S.DependenciesMet(Listing(At(w, m)), p.dependsOn)
  }

  /** Still Pending, held by no node, and blocked. */
  ghost predicate HeldBack(w: World, p: Pod, apps: set<string>, n: nat)
    requires n <= |w.log|
  {
    p.app in apps && p.status == Status.Pending && p.nodeID == "" && Blocked(w, p, n)
  }

  /** Not one of the initial pods of these apps has been placed. */
  ghost predicate Unplaced(s: Pods.Store, apps: set<string>) {
    forall k :: k in s && OfApps(s[k], apps) ==>
      s[k].app in apps && s[k].status == Status.Pending && s[k].nodeID == ""
  }

  /** What the store had for the app at the start, or a compose file has asked for among the first `n` entries. */
  ghost predicate Original(w: World, app: string, p: Pod, n: nat)
    requires n <= |w.log|
  {
    p.app == app && ((p.Key() in w.init && w.init[p.Key()] == p) || exists i :: 0 <= i < n && PostedAt(w, p, i))
  }

  ghost predicate PostedAt(w: World, p: Pod, i: nat)
    requires i < |w.log|
  {
    w.log[i].Cmd().Set? && !w.log[i].flight.req.why.Mark? && w.log[i].Cmd().value == p
  }

  ghost predicate AllBlocked(w: World, apps: set<string>, n: nat)
    requires n <= |w.log|
  {
    forall p: Pod :: p.app in apps && Original(w, p.app, p, n) ==> Blocked(w, p, n)
  }

  // ---- blocked apps stay Pending ----------------------------------------------------------------

  /** What every record of the apps is at one position. */
  ghost predicate AllHeldBack(w: World, apps: set<string>, n: nat, m: nat)
    requires m <= n <= |w.log|
  {
    forall key :: key in At(w, m) && OfApps(At(w, m)[key], apps) ==> HeldBack(w, At(w, m)[key], apps, n)
  }

  lemma ReadIsHeldBack(w: World, apps: set<string>, n: nat, view: nat, p: Pod)
    requires Reachable(w) && view <= n <= |w.log| && AllHeldBack(w, apps, n, view)
    requires p in Listing(At(w, view)) && OfApps(p, apps)
    ensures HeldBack(w, p, apps, n)
  {
    hide Reachable, Listing, StoreAt, HeldBack;
    Listed(w, view, p);
  }

  /** Where every record of the apps is held back, nobody sends a compare-and-swap for them. */
  lemma NothingElseMoves(w: World, apps: set<string>, n: nat, f: Flight)
    requires Reachable(w) && f in w.issued && f.view < n <= |w.log| && AllHeldBack(w, apps, n, f.view)
    requires f.req.cmd.Cas?
    ensures !OfApps(f.req.cmd.value, apps)
  {
    FlightFacts(w, f);
    if OfApps(f.req.cmd.value, apps) {
      match f.req.why
      case Replacement(p, _) =>
        NamesNothing(f.req.cmd.value, apps);
        ReadIsHeldBack(w, apps, n, f.view, p);
      case _ =>
        ReadIsHeldBack(w, apps, n, f.view, ReadRecord(f.req.why));
    }
  }

  lemma NamesNothing(p: Pod, apps: set<string>)
    requires p.baseID == "" && OfApps(p, apps)
    ensures p.app in apps
  {
    if a :| a in apps && NamesApp(p.baseID, a) { BaseNameIsNotEmpty(""); }
  }

  /** What a compose file stores for the apps is held back, if what it asks for is blocked. */
  lemma PostedIsHeldBack(w: World, apps: set<string>, n: nat, i: nat)
    requires Reachable(w) && i < n <= |w.log| && AllBlocked(w, apps, n)
    requires var f := w.log[i].flight; f in w.issued && f.view <= i && f.req.cmd.Set? && AllHeldBack(w, apps, n, f.view)
    requires OfApps(w.log[i].Cmd().value, apps)
    ensures HeldBack(w, w.log[i].Cmd().value, apps, n)
  {
    hide Blocked, OfApps, Reachable, Listing, StoreAt, AllHeldBack, S.DependenciesMet;
    var f := w.log[i].flight;
    var v := f.req.cmd.value;
    FlightFacts(w, f);
    match f.req.why
    case Mark(p, _, _) =>
      SameApps(p, v, apps);
      ReadIsHeldBack(w, apps, n, f.view, p);
      SameDependencies(w, p, v, n);
    case Rewrite(p, _) =>
      NamedAfterApp(v, apps);
      SameBase(v, p, apps);
      ReadIsHeldBack(w, apps, n, f.view, p);
      PostedIsOriginal(w, n, i);
    case _ =>
      NamedAfterApp(v, apps);
      PostedIsOriginal(w, n, i);
  }

  lemma SameApps(p: Pod, q: Pod, apps: set<string>)
    requires p.app == q.app && p.baseID == q.baseID && OfApps(q, apps)
    ensures OfApps(p, apps)
  {
  }

  lemma SameDependencies(w: World, p: Pod, q: Pod, n: nat)
    requires n <= |w.log| && p.dependsOn == q.dependsOn && Blocked(w, p, n)
    ensures Blocked(w, q, n)
  {
  }

  lemma NamedAfterApp(v: Pod, apps: set<string>)
    requires NamesApp(v.baseID, v.app) && OfApps(v, apps)
    ensures v.app in apps
  {
    if a :| a in apps && NamesApp(v.baseID, a) { NamesOneApp(v.baseID, a, v.app); }
  }

  lemma SameBase(v: Pod, p: Pod, apps: set<string>)
    requires NamesApp(v.baseID, v.app) && v.app in apps && v.baseID == p.baseID
    ensures OfApps(p, apps)
  {
  }

  lemma PostedIsOriginal(w: World, n: nat, i: nat)
    requires i < n <= |w.log| && w.log[i].Cmd().Set? && !w.log[i].flight.req.why.Mark?
    ensures Original(w, w.log[i].Cmd().value.app, w.log[i].Cmd().value, n)
  {
    assert PostedAt(w, w.log[i].Cmd().value, i);
  }

  lemma StartIsHeldBack(w: World, apps: set<string>, n: nat)
    requires Reachable(w) && n <= |w.log| && Unplaced(w.init, apps) && AllBlocked(w, apps, n)
    ensures AllHeldBack(w, apps, n, 0)
  {
    hide Blocked, OfApps;
    forall key | key in At(w, 0) && OfApps(At(w, 0)[key], apps) ensures HeldBack(w, At(w, 0)[key], apps, n) {
      assert w.init[key].Key() == key;
      assert Original(w, w.init[key].app, w.init[key], n);
    }
  }

  /** Where no original pod of the apps ever has its dependencies met, none of their pods leaves Pending. */
  lemma {:induction false} BlockedStayPending(w: World, apps: set<string>, n: nat, m: nat)
    requires Reachable(w) && m <= n <= |w.log| && Unplaced(w.init, apps) && AllBlocked(w, apps, n)
    ensures AllHeldBack(w, apps, n, m)
    decreases m
  {
    if m == 0 {
      StartIsHeldBack(w, apps, n);
    } else {
      hide Reachable, Unplaced, AllBlocked, HeldBack, OfApps, StoreAt;
      BlockedStayPending(w, apps, n, m - 1);
      forall key | key in At(w, m) && OfApps(At(w, m)[key], apps) ensures HeldBack(w, At(w, m)[key], apps, n) {
        StepOfKey(w, key, m - 1);
        var f := w.log[m - 1].flight;
        if Look(At(w, m), key) != Look(At(w, m - 1), key) {
          BlockedStayPending(w, apps, n, f.view);
          if f.req.cmd.Cas? {
            NothingElseMoves(w, apps, n, f);
          } else {
            PostedIsHeldBack(w, apps, n, m - 1);
          }
        }
      }
    }
  }

  // ---- the theorems -----------------------------------------------------------------------------

  /** If a pod of an app has left Pending, then at an earlier position of the log all dependencies were met of a pod
      that the app had at the start or that a compose file has asked for: replacements, which carry no dependencies, do
      not start an app.  Whatever other apps do, and whatever is posted. */
  lemma StartsAreCleared(w: World, key: string, app: string, n: nat)
    requires Reachable(w) && Unplaced(w.init, {app}) && n <= |w.log| && Started(w, key, app, n)
    ensures exists p, m :: 0 <= m < n && Original(w, app, p, n) && S.DependenciesMet(Listing(At(w, m)), p.dependsOn)
  {
    hide Reachable, Unplaced, S.DependenciesMet, Listing, StoreAt;
    if forall p, m :: 0 <= m < n && Original(w, app, p, n) ==> !S.DependenciesMet(Listing(At(w, m)), p.dependsOn) {
      assert AllBlocked(w, {app}, n);
      assert OfApps(At(w, n)[key], {app});
      BlockedStayPending(w, {app}, n, n);
    }
  }

  /** An Active pod of the app that one depends on: Running and ready if the condition is its health, and otherwise
      Scheduled or Running. */
  ghost predicate Provides(w: World, key: string, dependency: string, condition: string, m: nat)
    requires m <= |w.log|
  {
    Started(w, key, dependency, m) && At(w, m)[key].role == Active &&
    if condition == "service_healthy" then At(w, m)[key].status == Running && At(w, m)[key].ready
    else At(w, m)[key].status == Scheduled || At(w, m)[key].status == Running
  }

  lemma MetDependency(w: World, m: nat, dependsOn: map<string, string>, dependency: string)
    requires Reachable(w) && m <= |w.log| && S.DependenciesMet(Listing(At(w, m)), dependsOn) && dependency in dependsOn
    ensures exists key :: Provides(w, key, dependency, dependsOn[dependency], m)
  {
    var q :| q in Listing(At(w, m)) && S.Meets(q, dependency, dependsOn[dependency]);
    Listed(w, m, q);
    assert Provides(w, q.Key(), dependency, dependsOn[dependency], m);
  }

  /** An app starts strictly after every app that all its original pods depend on: at an earlier position of the log an
      Active pod of the other app is Scheduled or Running, or Running and ready if that is the condition. */
  lemma StartsAfterDependency(w: World, key: string, app: string, dependency: string, n: nat)
    requires Reachable(w) && Unplaced(w.init, {app}) && n <= |w.log| && Started(w, key, app, n)
    requires forall p :: Original(w, app, p, n) ==> dependency in p.dependsOn
    ensures exists p, m: nat, k :: m < n && Original(w, app, p, n) && dependency in p.dependsOn &&
              Provides(w, k, dependency, p.dependsOn[dependency], m)
  {
    hide Reachable, Unplaced, S.DependenciesMet, Listing, StoreAt, Original, Provides;
    StartsAreCleared(w, key, app, n);
    var p, m :| 0 <= m < n && Original(w, app, p, n) && S.DependenciesMet(Listing(At(w, m)), p.dependsOn);
    MetDependency(w, m, p.dependsOn, dependency);
  }

  /** Under one condition, the same in terms of that condition. */
  lemma StartsAfterCondition(w: World, key: string, app: string, dependency: string, condition: string, n: nat)
    requires Reachable(w) && Unplaced(w.init, {app}) && n <= |w.log| && Started(w, key, app, n)
    requires forall p :: Original(w, app, p, n) ==> dependency in p.dependsOn && p.dependsOn[dependency] == condition
    ensures exists m: nat, k :: m < n && Provides(w, k, dependency, condition, m)
  {
    hide Reachable, Unplaced, Original, Provides;
    StartsAfterDependency(w, key, app, dependency, n);
  }

  /** Dependency cycles never start: if every pod that a set of apps has at the start or is asked for depends on some
      app of the set, no pod of these apps ever leaves Pending or gets a node, in any run. */
  lemma {:induction false} CyclesNeverStart(w: World, apps: set<string>, n: nat)
    requires Reachable(w) && Unplaced(w.init, apps) && n <= |w.log|
    requires forall p: Pod :: p.app in apps && Original(w, p.app, p, n) ==> exists d :: d in p.dependsOn && d in apps
    ensures forall key :: key in At(w, n) && At(w, n)[key].app in apps ==>
      At(w, n)[key].status == Status.Pending && At(w, n)[key].nodeID == ""
    decreases n
  {
    hide Reachable, Unplaced, S.DependenciesMet, Listing, StoreAt, Original;
    forall p: Pod | p.app in apps && Original(w, p.app, p, n) ensures Blocked(w, p, n) {
      var d :| d in p.dependsOn && d in apps;
      forall m | 0 <= m < n ensures !S.DependenciesMet(Listing(At(w, m)), p.dependsOn) {
        if S.DependenciesMet(Listing(At(w, m)), p.dependsOn) {
          MetDependency(w, m, p.dependsOn, d);
          OriginalsAreFewer(w, m, n);
          CyclesNeverStart(w, apps, m);
        }
      }
    }
    BlockedStayPending(w, apps, n, n);
    forall key | key in At(w, n) && At(w, n)[key].app in apps
      ensures At(w, n)[key].status == Status.Pending && At(w, n)[key].nodeID == ""
    {
      assert OfApps(At(w, n)[key], apps);
    }
  }

  lemma OriginalsAreFewer(w: World, m: nat, n: nat)
    requires m <= n <= |w.log|
    ensures forall p: Pod :: Original(w, p.app, p, m) ==> Original(w, p.app, p, n)
  {
  }
}
