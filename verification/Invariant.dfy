/** The invariant of every run: each request in flight or committed is justified by the prefix of the log that its
    sender had read, is committed no earlier than it was sent, and carries a proper record. */
module Invariant {
  import opened Option
  import opened Names
  import opened KeyOrder
  import opened Pods
  import opened StateMachine
  import opened ComposeDiff
  import opened Cluster

  ghost predicate ProperCommand(init: Pods.Store, c: Pods.Command) {
    (c.Set? || c.Cas? || c.Del?) &&
    (c.Del? || (c.key == c.value.Key() && ProperRecord(init, c.value)))
  }

  ghost predicate FlightOK(init: Pods.Store, log: seq<Commit>, f: Flight) {
    f.view <= |log| && Justified(Listing(StoreAt(init, log, f.view)), f.node, f.req) &&
    (f.node == "" <==> f.req.cmd.Set?) && ProperCommand(init, f.req.cmd) && 0 < f.req.sentAt
  }

  ghost predicate CommitOK(w: World, i: nat)
    requires i < |w.log|
  {
    var c := w.log[i];
    c.flight in w.issued && c.flight.view <= i && c.flight.req.sentAt <= c.at <= w.clock
  }

  ghost predicate IsReplacement(f: Flight) {
    f.req.why.Replacement?
  }

  predicate SameKey(f: Flight, g: Flight) {
    !f.req.cmd.OtherOp? && !f.req.cmd.Malformed? && !g.req.cmd.OtherOp? && !g.req.cmd.Malformed? &&
    f.req.cmd.key == g.req.cmd.key
  }

  ghost predicate Inv(w: World) {
    && WellFormed(w.init, w.init) && 0 < w.clock
    && (forall f :: f in w.issued ==> FlightOK(w.init, w.log, f))
    && (forall i :: 0 <= i < |w.log| ==> CommitOK(w, i))
    && (forall i, j :: 0 <= i < j < |w.log| ==> w.log[i].at <= w.log[j].at)
    && (forall f :: f in w.issued && IsReplacement(f) ==> f.req.cmd.Cas? && f.req.cmd.key !in w.init)
    && (forall f, g :: (f in w.issued && g in w.issued && IsReplacement(f) && IsReplacement(g) && SameKey(f, g)) ==>
          f.req.cmd == g.req.cmd)
  }

  // ---- the store as a function of the log -------------------------------------------------------

  lemma {:induction false} StoreStable(init: Pods.Store, log: seq<Commit>, more: seq<Commit>, n: nat)
    requires n <= |log|
    ensures StoreAt(init, log + more, n) == StoreAt(init, log, n)
  {
    if n > 0 { StoreStable(init, log, more, n - 1); }
  }

  lemma EffectProper(init: Pods.Store, s: Pods.Store, c: Pods.Command)
    requires WellFormed(init, s) && ProperCommand(init, c)
    ensures WellFormed(init, Effect(s, c))
  {
  }

  lemma {:induction false} StoreWellFormed(w: World, n: nat)
    requires Inv(w) && n <= |w.log|
    ensures WellFormed(w.init, StoreAt(w.init, w.log, n))
  {
    hide Justified, WellFormed;
    if n > 0 {
      StoreWellFormed(w, n - 1);
      assert CommitOK(w, n - 1);
      EffectProper(w.init, StoreAt(w.init, w.log, n - 1), w.log[n - 1].Cmd());
    }
  }

  /** A listed pod is the record stored under its own key. */
  lemma ListingMember(s: Pods.Store, p: Pod)
    requires Keyed(s)
    ensures p in Listing(s) <==> p.Key() in s && s[p.Key()] == p
  {
    ScanMembers(s, "pod:", p);
    if p.Key() in s && s[p.Key()] == p {
      assert HasPrefix(p.Key(), "pod:");
    }
  }

  lemma ListingProper(init: Pods.Store, s: Pods.Store)
    requires WellFormed(init, s)
    ensures forall p :: p in Listing(s) ==> ProperRecord(init, p)
  {
    forall p | p in Listing(s) ensures ProperRecord(init, p) { ListingMember(s, p); }
  }

  // ---- every request sent is justified ----------------------------------------------------------

  ghost predicate AllJustified(pods: seq<Pod>, node: string, reqs: seq<Request>, from: int) {
    forall r :: r in reqs ==> Justified(pods, node, r) && from <= r.sentAt && (node == "" <==> r.cmd.Set?)
  }

  lemma BothJustified(pods: seq<Pod>, node: string, a: seq<Request>, b: seq<Request>, from: int)
    requires AllJustified(pods, node, a, from) && AllJustified(pods, node, b, from)
    ensures AllJustified(pods, node, a + b, from)
  {
  }

  lemma SweepJustified(node: string, pods: seq<Pod>, p: Pod, at: int)
    requires p in pods && node != ""
    ensures AllJustified(pods, node, S.SweepOf(pods, p, at), at)
  {
  }

  lemma {:induction false} SweepsJustified(node: string, pods: seq<Pod>, n: nat, at: int)
    requires n <= |pods| && node != ""
    ensures AllJustified(pods, node, S.Sweeps(pods, n, at), at)
  {
    hide Justified, S.SweepOf;
    if n > 0 {
      SweepsJustified(node, pods, n - 1, at);
      SweepJustified(node, pods, pods[n - 1], at);
      BothJustified(pods, node, S.Sweeps(pods, n - 1, at), S.SweepOf(pods, pods[n - 1], at), at);
    }
  }

  lemma PromotionsJustified(node: S.Node, pods: seq<Pod>, now: int, oracle: Oracle, at: int, nano: nat)
    requires now <= at && node.nodeID != "" && INDEX_LIMIT <= nano
    ensures AllJustified(pods, node.nodeID, S.Promotions(node, pods, now, oracle, at, nano), at)
  {
  }

  lemma ClaimsJustified(node: S.Node, pods: seq<Pod>, now: int, at: int)
    requires now <= at && node.nodeID != ""
    ensures AllJustified(pods, node.nodeID, S.Claims(node, pods, now, at), at)
  {
  }

  lemma {:induction false} RenewalsJustified(node: S.Node, pods: seq<Pod>, n: nat, running: Option<seq<bool>>,
          times: seq<int>, from: int)
    requires n <= |pods| == |times| && (running.Some? ==> |running.value| == |pods|) && node.nodeID != ""
    requires forall i :: 0 <= i < |times| ==> from <= times[i]
    ensures AllJustified(pods, node.nodeID, S.Renewals(node, pods, n, running, times), from)
  {
    if n > 0 { RenewalsJustified(node, pods, n - 1, running, times, from); }
  }

  lemma ReportJustified(node: string, pods: seq<Pod>, p: Pod, seen: Observation, q: Pod, at: int)
    requires p in pods && node != "" && p.nodeID == node && p.Assigned()
    requires q == p.(status := Running, podIP := q.podIP, ready := q.ready) && Reported(p, seen, q)
    ensures AllJustified(pods, node, [S.UpdateRequest(q, Report(p, seen), at)], at)
  {
  }

  lemma ReportsJustified(node: string, pods: seq<Pod>, p: Pod, seen: Observation, at: int)
    requires p in pods && node != ""
    ensures AllJustified(pods, node, A.Reports(node, p, seen, at), at)
  {
    hide Justified, S.UpdateRequest;
    if p.nodeID == node && p.Assigned() {
      match seen
      case CheckFailed =>
      case Stopped(started) =>
        if started.Some? && p.image != "" {
          ReportJustified(node, pods, p, seen, A.AsRunning(p).(podIP := started.value), at);
        }
      case Up(liveReply, readyReply) =>
        var q := A.AsRunning(p);
        ReportJustified(node, pods, p, seen, q, at);
        if A.CheckHealth(p.livenessProbe, p.podIP, liveReply) {
          ReportJustified(node, pods, p, seen, q.(ready := A.CheckHealth(p.readinessProbe, p.podIP, readyReply)), at);
        }
    }
  }

  lemma {:induction false} ObservationsJustified(node: string, pods: seq<Pod>, n: nat, seen: seq<Observation>,
          at: int)
    requires n <= |pods| == |seen| && node != ""
    ensures AllJustified(pods, node, A.Observations(node, pods, n, seen, at), at)
  {
    hide Justified, A.Reports;
    if n > 0 {
      ObservationsJustified(node, pods, n - 1, seen, at);
      ReportsJustified(node, pods, pods[n - 1], seen[n - 1], at);
      BothJustified(pods, node, A.Observations(node, pods, n - 1, seen, at),
        A.Reports(node, pods[n - 1], seen[n - 1], at), at);
    }
  }

  lemma {:induction false} FencingsJustified(node: string, pods: seq<Pod>, n: nat, at: int)
    requires n <= |pods| && node != ""
    ensures AllJustified(pods, node, A.Fencings(node, pods, n, at), at)
  {
    if n > 0 { FencingsJustified(node, pods, n - 1, at); }
  }

  /** The table of existing pods holds listed pods, under their own base ID, that are not being replaced. */
  lemma {:induction false} ExistingByBaseEntries(pods: seq<Pod>, n: nat, base: string)
    requires n <= |pods| && base in ExistingByBase(pods, n)
    ensures var p := ExistingByBase(pods, n)[base]; p in pods && p.baseID == base && p.updateToPodID == ""
  {
    if pods[n - 1].updateToPodID != "" || pods[n - 1].baseID != base { ExistingByBaseEntries(pods, n - 1, base); }
  }

  lemma ChangesJustified(pods: seq<Pod>, existing: map<string, Pod>, parsed: Pod, project: string, nano: nat,
          markFails: bool, at: int)
    requires FreshlyParsed(parsed)
    requires parsed.baseID in existing ==>
      existing[parsed.baseID] in pods && existing[parsed.baseID].baseID == parsed.baseID &&
      existing[parsed.baseID].updateToPodID == ""
    ensures AllJustified(pods, "", Changes(existing, parsed, project, nano, markFails, at), at)
  {
    var put := PutRequest(existing, parsed, project, nano, at);
    assert Justified(pods, "", put);
    if Replaces(existing, parsed, project) {
      assert Justified(pods, "", MarkRequest(existing[parsed.baseID], parsed, nano, at));
    }
  }

  lemma {:induction false} DiffJustified(pods: seq<Pod>, existing: map<string, Pod>, parsed: seq<Pod>, n: nat,
          project: string,
                                         nanos: seq<nat>, markFails: seq<bool>, at: int)
    requires n <= |parsed| == |nanos| == |markFails|
    requires forall p :: p in parsed ==> FreshlyParsed(p)
    requires forall base :: base in existing ==>
      existing[base] in pods && existing[base].baseID == base && existing[base].updateToPodID == ""
    ensures AllJustified(pods, "", Diff(existing, parsed, n, project, nanos, markFails, at), at)
  {
    if n > 0 {
      DiffJustified(pods, existing, parsed, n - 1, project, nanos, markFails, at);
      assert parsed[n - 1] in parsed;
      var last := Changes(existing, parsed[n - 1], project, nanos[n - 1], markFails[n - 1], at);
      ChangesJustified(pods, existing, parsed[n - 1], project, nanos[n - 1], markFails[n - 1], at);
      BothJustified(pods, "", Diff(existing, parsed, n - 1, project, nanos, markFails, at), last, at);
    }
  }

  lemma DeployJustified(pods: seq<Pod>, parsed: seq<Pod>, project: string, nanos: seq<nat>, markFails: seq<bool>,
          at: int)
    requires |parsed| == |nanos| == |markFails|
    requires forall p :: p in parsed ==> FreshlyParsed(p)
    ensures AllJustified(pods, "", Deploy(pods, parsed, project, nanos, markFails, at), at)
  {
    var existing := ExistingByBase(pods, |pods|);
    forall base | base in existing
      ensures existing[base] in pods && existing[base].baseID == base && existing[base].updateToPodID == ""
    {
      ExistingByBaseEntries(pods, |pods|, base);
    }
    DiffJustified(pods, existing, parsed, |parsed|, project, nanos, markFails, at);
  }

  lemma RequestsJustified(w: World, a: Action)
    requires HasView(a) && Enabled(w, a)
    ensures AllJustified(View(w, a), Sender(a), Requests(w, a, View(w, a)), w.clock)
  {
    var pods := View(w, a);
    match a
    case Schedule(_, node, now, oracle, promoteAt, nano, claimAt) =>
      SweepsJustified(node.nodeID, pods, |pods|, now);
      PromotionsJustified(node, pods, now, oracle, promoteAt, nano);
      ClaimsJustified(node, pods, now, claimAt);
    case Renew(_, node, running, times) =>
      RenewalsJustified(node, pods, |pods|, running, times, w.clock);
    case Observe(_, node, seen, at) => ObservationsJustified(node.nodeID, pods, |pods|, seen, at);
    case Fence(_, node, at) => FencingsJustified(node.nodeID, pods, |pods|, at);
    case Compose(_, parsed, project, nanos, markFails, at) =>
      DeployJustified(pods, parsed, project, nanos, markFails, at);
  }

  lemma JustifiedIsProper(init: Pods.Store, pods: seq<Pod>, node: string, r: Request)
    requires Justified(pods, node, r)
    requires forall p :: p in pods ==> ProperRecord(init, p)
    ensures ProperCommand(init, r.cmd)
  {
    match r.why
    case Replacement(p, nano) => BaseOfReplacementName(p.app, nano);
    case Rollout(_, parsed, nano) => BaseOfRollingName(parsed.baseID, nano);
    case _ =>
  }

  // ---- preservation -----------------------------------------------------------------------------

  lemma SentFlightsOK(w: World, a: Action, f: Flight)
    requires Inv(w) && Enabled(w, a) && HasView(a)
    requires f in Flights(Sender(a), a.view, Requests(w, a, View(w, a)))
    ensures FlightOK(w.init, w.log, f)
    ensures IsReplacement(f) ==>
      a.Schedule? && f.req.cmd == ReplacementOf(w, a) && f.req.cmd.Cas? && NewKey(w, f.req.cmd.key)
  {
    RequestsJustified(w, a);
    StoreWellFormed(w, a.view);
    ListingProper(w.init, StoreAt(w.init, w.log, a.view));
    JustifiedIsProper(w.init, View(w, a), f.node, f.req);
    if IsReplacement(f) { NewReplacement(w, a, f.req); }
  }

  /** A key that nothing sent so far has used. */
  ghost predicate NewKey(w: World, key: string) {
    key !in w.init && forall f :: f in w.issued && !f.req.cmd.OtherOp? && !f.req.cmd.Malformed? ==> f.req.cmd.key != key
  }

  lemma SendKeepsInv(w: World, a: Action)
    requires Inv(w) && Enabled(w, a) && HasView(a)
    ensures Inv(Perform(w, a))
  {
    var w' := Perform(w, a);
    var sent := Flights(Sender(a), a.view, Requests(w, a, View(w, a)));
    assert w' == w.(issued := w.issued + sent);
    forall f | f in sent
      ensures FlightOK(w.init, w.log, f)
      ensures IsReplacement(f) ==>
        a.Schedule? && f.req.cmd == ReplacementOf(w, a) && f.req.cmd.Cas? && NewKey(w, f.req.cmd.key)
    {
      SentFlightsOK(w, a, f);
    }
    IssueKeepsInv(w, sent, if a.Schedule? then ReplacementOf(w, a) else Malformed);
  }

  /** Issuing justified flights, with at most one replacement command among them, keeps the invariant. */
  lemma IssueKeepsInv(w: World, sent: set<Flight>, replacement: Pods.Command)
    requires Inv(w)
    requires forall f :: f in sent ==> FlightOK(w.init, w.log, f)
    requires forall f :: f in sent && IsReplacement(f) ==>
      f.req.cmd == replacement && f.req.cmd.Cas? && NewKey(w, f.req.cmd.key)
    ensures Inv(w.(issued := w.issued + sent))
  {
    hide FlightOK, WellFormed;
    var w' := w.(issued := w.issued + sent);
    forall i | 0 <= i < |w'.log| ensures CommitOK(w', i) { assert CommitOK(w, i); }
  }

  /** The one replacement a scheduling cycle may order. */
  ghost function ReplacementOf(w: World, a: Action): Pods.Command
    requires HasView(a) && Enabled(w, a) && a.Schedule?
  {
    var pods := View(w, a);
    var i := S.PromotableIndex(a.node, pods, a.now, a.oracle);
    if i == |pods| then Malformed
    else S.ReplacementRequest(pods[i], a.nano, a.promoteAt).cmd
  }

  lemma {:induction false} NoReplacementInSweeps(pods: seq<Pod>, n: nat, at: int, r: Request)
    requires n <= |pods| && r in S.Sweeps(pods, n, at)
    ensures r.why.Sweep?
  {
    if n > 0 && r !in S.SweepOf(pods, pods[n - 1], at) { NoReplacementInSweeps(pods, n - 1, at, r); }
  }

  lemma {:induction false} RenewalReasons(node: S.Node, pods: seq<Pod>, n: nat, running: Option<seq<bool>>,
          times: seq<int>, r: Request)
    requires n <= |pods| == |times| && (running.Some? ==> |running.value| == |pods|)
    requires r in S.Renewals(node, pods, n, running, times)
    ensures r.why.Renewal?
  {
    if n > 0 && r !in S.RenewalOf(node, pods[n - 1], running.Some? ==> running.value[n - 1], times[n - 1]) {
      RenewalReasons(node, pods, n - 1, running, times, r);
    }
  }

  lemma {:induction false} ObservationReasons(node: string, pods: seq<Pod>, n: nat, seen: seq<Observation>,
          at: int, r: Request)
    requires n <= |pods| == |seen| && r in A.Observations(node, pods, n, seen, at)
    ensures r.why.Report?
  {
    if n > 0 && r !in A.Reports(node, pods[n - 1], seen[n - 1], at) {
      ObservationReasons(node, pods, n - 1, seen, at, r);
    }
  }

  lemma {:induction false} FencingReasons(node: string, pods: seq<Pod>, n: nat, at: int, r: Request)
    requires n <= |pods| && r in A.Fencings(node, pods, n, at)
    ensures r.why.Fencing?
  {
    if n > 0 && r in A.Fencings(node, pods, n - 1, at) { FencingReasons(node, pods, n - 1, at, r); }
  }

  lemma {:induction false} DiffReasons(existing: map<string, Pod>, parsed: seq<Pod>, n: nat, project: string,
                                       nanos: seq<nat>, markFails: seq<bool>, at: int, r: Request)
    requires n <= |parsed| == |nanos| == |markFails| && r in Diff(existing, parsed, n, project, nanos, markFails, at)
    ensures r.why.Mark? || r.why.Rollout? || r.why.Rewrite? || r.why.Deployment?
  {
    if r in Diff(existing, parsed, n - 1, project, nanos, markFails, at) {
      DiffReasons(existing, parsed, n - 1, project, nanos, markFails, at, r);
    }
  }

  /** Which loop sends which requests. */
  lemma RequestKinds(w: World, a: Action, r: Request)
    requires HasView(a) && a.view <= |w.log| && Timely(w, a, View(w, a)) && r in Requests(w, a, View(w, a))
    ensures match a
      case Schedule(_, node, now, oracle, promoteAt, nano, claimAt) =>
        r.why.Sweep? || r.why.Claim? || r in S.Promotions(node, View(w, a), now, oracle, promoteAt, nano)
      case Renew(_, _, _, _) => r.why.Renewal?
      case Observe(_, _, _, _) => r.why.Report?
      case Fence(_, _, _) => r.why.Fencing?
      case Compose(_, _, _, _, _, _) => r.why.Mark? || r.why.Rollout? || r.why.Rewrite? || r.why.Deployment?
  {
    var pods := View(w, a);
    match a
    case Schedule(_, node, now, oracle, promoteAt, nano, claimAt) =>
      if r in S.Sweeps(pods, |pods|, now) { NoReplacementInSweeps(pods, |pods|, now, r); }
    case Renew(_, node, running, times) => RenewalReasons(node, pods, |pods|, running, times, r);
    case Observe(_, node, seen, at) => ObservationReasons(node.nodeID, pods, |pods|, seen, at, r);
    case Fence(_, node, at) => FencingReasons(node.nodeID, pods, |pods|, at, r);
    case Compose(_, parsed, project, nanos, markFails, at) =>
      DiffReasons(ExistingByBase(pods, |pods|), parsed, |parsed|, project, nanos, markFails, at, r);
  }

  lemma ScheduledReplacement(w: World, a: Action, r: Request)
    requires a.Schedule? && Enabled(w, a) && r in Requests(w, a, View(w, a)) && r.why.Replacement?
    ensures r.cmd == ReplacementOf(w, a) && r.cmd.Cas? && NewKey(w, r.cmd.key)
  {
    var pods := View(w, a);
    RequestKinds(w, a, r);
    var i := S.PromotableIndex(a.node, pods, a.now, a.oracle);
    assert r == S.ReplacementRequest(pods[i], a.nano, a.promoteAt);
    assert pods[i] in pods && Unused(w, ReplacementName(pods[i].app, a.nano));
  }

  /** Only a scheduling cycle orders replacements, at most one, and under an unused ID. */
  lemma NewReplacement(w: World, a: Action, r: Request)
    requires HasView(a) && Enabled(w, a) && r in Requests(w, a, View(w, a)) && r.why.Replacement?
    ensures a.Schedule? && r.cmd == ReplacementOf(w, a) && r.cmd.Cas? && NewKey(w, r.cmd.key)
  {
    RequestKinds(w, a, r);
    ScheduledReplacement(w, a, r);
  }

  lemma DeliverKeepsInv(w: World, f: Flight)
    requires Inv(w) && Enabled(w, Deliver(f))
    ensures Inv(Perform(w, Deliver(f)))
  {
    hide Justified, WellFormed, ProperCommand, Listing, Effect;
    var c := Commit(f, w.clock);
    var w' := Perform(w, Deliver(f));
    forall g | g in w'.issued ensures FlightOK(w'.init, w'.log, g) {
      StoreStable(w.init, w.log, [c], g.view);
    }
    forall i | 0 <= i < |w'.log| ensures CommitOK(w', i) {
      if i < |w.log| { assert CommitOK(w, i); } else { assert FlightOK(w.init, w.log, f); }
    }
    forall i, j | 0 <= i < j < |w'.log| ensures w'.log[i].at <= w'.log[j].at {
      assert CommitOK(w, i);
    }
  }

  lemma TickKeepsInv(w: World, to: int)
    requires Inv(w) && Enabled(w, Tick(to))
    ensures Inv(Perform(w, Tick(to)))
  {
    var w' := Perform(w, Tick(to));
    forall i | 0 <= i < |w'.log| ensures CommitOK(w', i) { assert CommitOK(w, i); }
  }

  lemma StepKeepsInv(w: World, a: Action)
    requires Inv(w) && Enabled(w, a)
    ensures Inv(Perform(w, a))
  {
    match a
    case Tick(to) => TickKeepsInv(w, to);
    case Deliver(f) => DeliverKeepsInv(w, f);
    case _ => SendKeepsInv(w, a);
  }

  lemma {:induction false} RunKeepsInv(start: World, acts: seq<Action>)
    requires Inv(start) && ValidRun(start, acts)
    ensures Inv(After(start, acts)) && After(start, acts).init == start.init
    decreases |acts|
  {
    if acts != [] {
      var n := |acts| - 1;
      RunKeepsInv(start, acts[..n]);
      StepKeepsInv(After(start, acts[..n]), acts[n]);
    }
  }

  /** A world at the end of some run from an initial store; Unix time is positive. */
  ghost predicate Reachable(w: World) {
    Initial(w.init) &&
    exists clock, acts :: 0 < clock && ValidRun(Start(w.init, clock), acts) && After(Start(w.init, clock), acts) == w
  }

  /** Every reachable world satisfies the invariant. */
  lemma ReachableInv(w: World)
    requires Reachable(w)
    ensures Inv(w)
  {
    var clock, acts :| 0 < clock && ValidRun(Start(w.init, clock), acts) && After(Start(w.init, clock), acts) == w;
    RunKeepsInv(Start(w.init, clock), acts);
  }

  lemma StartIsReachable(init: Pods.Store, clock: int)
    requires Initial(init) && 0 < clock
    ensures Reachable(Start(init, clock))
  {
    var acts: seq<Action> := [];
    assert ValidRun(Start(init, clock), acts) && After(Start(init, clock), acts) == Start(init, clock);
  }

  lemma PerformKeepsInit(w: World, a: Action)
    requires Enabled(w, a)
    ensures Perform(w, a).init == w.init
  {
  }

  /** Taking a step leads from a reachable world to a reachable world. */
  lemma ReachableStep(w: World, a: Action)
    requires Reachable(w) && Enabled(w, a)
    ensures Reachable(Perform(w, a))
  {
    hide Perform, Timely, Listing, Enabled, Initial;
    var clock, acts :| 0 < clock && ValidRun(Start(w.init, clock), acts) && After(Start(w.init, clock), acts) == w;
    PerformKeepsInit(w, a);
    var more := acts + [a];
    assert more[..|more| - 1] == acts;
    assert ValidRun(Start(w.init, clock), more);
  }

  /** So does any run. */
  lemma {:induction false} RunKeepsReachable(w: World, acts: seq<Action>)
    requires Reachable(w) && ValidRun(w, acts)
    ensures Reachable(After(w, acts)) && After(w, acts).init == w.init
    decreases |acts|
  {
    hide Reachable, Perform;
    if acts != [] {
      var n := |acts| - 1;
      RunKeepsReachable(w, acts[..n]);
      ReachableStep(After(w, acts[..n]), acts[n]);
      PerformKeepsInit(After(w, acts[..n]), acts[n]);
    }
  }
}
