/** The cluster as a transition system.  Every node reads its own replica, which is some prefix of the one committed
    log, decides, and sends requests.  A request may be committed at any later moment, any number of times, or never.
    Raft's State Machine Safety (section 5.4.3 of the extended Raft paper) is the assumption that there is one log;
    clocks agree and do not run backwards. */
module Cluster {
  import opened Option
  import opened Names
  import opened Pods
  import opened StateMachine
  import opened ComposeDiff
  import S = Scheduler
  import A = Agent

  /** A request in flight: who sent it, after reading how long a prefix of the log. */
  datatype Flight = Flight(node: string, view: nat, req: Request)

  datatype Commit = Commit(flight: Flight, at: int) {
    function Cmd(): Pods.Command { flight.req.cmd }
  }

  /** `issued` only grows: requests already committed may be committed again. */
  datatype World = World(init: Pods.Store, log: seq<Commit>, issued: set<Flight>, clock: int)

  datatype Action =
    | Tick(to: int)
    | Deliver(flight: Flight)
    | Schedule(view: nat, node: S.Node, now: int, oracle: Oracle, promoteAt: int, nano: nat, claimAt: int)
    | Renew(view: nat, node: S.Node, running: Option<seq<bool>>, times: seq<int>)
    | Observe(view: nat, node: S.Node, seen: seq<Observation>, at: int)
    | Fence(view: nat, node: S.Node, at: int)
    | Compose(view: nat, parsed: seq<Pod>, project: string, nanos: seq<nat>, markFails: seq<bool>, at: int)

  function PodVersion(p: Pod): int { p.resourceVersion }

  function Effect(s: Pods.Store, c: Pods.Command): Pods.Store {
    Apply(s, PodVersion, c, true).store
  }

  /** A command that the state machine does not refuse. */
  predicate Accepted(s: Pods.Store, c: Pods.Command) {
    Apply(s, PodVersion, c, true).error.None?
  }

  /** The store after the first `n` log entries. */
  function StoreAt(init: Pods.Store, log: seq<Commit>, n: nat): Pods.Store
    requires n <= |log|
  {
    if n == 0 then init else Effect(StoreAt(init, log, n - 1), log[n - 1].Cmd())
  }

  function Now(w: World): Pods.Store {
    StoreAt(w.init, w.log, |w.log|)
  }

  /** What a fetch of all pods returns on a replica with this store. */
  function Listing(s: Pods.Store): seq<Pod> {
    Scan(s, "pod:")
  }

  // ---- steps ------------------------------------------------------------------------------------

  predicate HasView(a: Action) {
    !a.Tick? && !a.Deliver?
  }

  function Sender(a: Action): string
    requires HasView(a)
  {
    if a.Compose? then "" else a.node.nodeID
  }

  /** Times are read after the fetch, in program order; lists of answers match the list of pods. */
  predicate Timely(w: World, a: Action, pods: seq<Pod>) {
    match a
    case Tick(to) => w.clock <= to
    case Deliver(f) => f in w.issued && f.req.sentAt <= w.clock
    case Schedule(_, node, now, _, promoteAt, nano, claimAt) =>
      node.nodeID != "" && w.clock <= now <= promoteAt <= claimAt && INDEX_LIMIT <= nano
    case Renew(_, node, running, times) =>
      node.nodeID != "" && |times| == |pods| && (running.Some? ==> |running.value| == |pods|) &&
      forall i :: 0 <= i < |times| ==> w.clock <= times[i]
    case Observe(_, node, seen, at) => node.nodeID != "" && |seen| == |pods| && w.clock <= at
    case Fence(_, node, at) => node.nodeID != "" && w.clock <= at
    case Compose(_, parsed, _, nanos, markFails, at) => |parsed| == |nanos| == |markFails| && w.clock <= at
  }

  function Requests(w: World, a: Action, pods: seq<Pod>): seq<Request>
    requires HasView(a) && Timely(w, a, pods)
  {
    match a
    case Schedule(_, node, now, oracle, promoteAt, nano, claimAt) =>
      S.Reconciliation(node, pods, now, oracle, promoteAt, nano, claimAt)
    case Renew(_, node, running, times) => S.Renewals(node, pods, |pods|, running, times)
    case Observe(_, node, seen, at) => A.Observations(node.nodeID, pods, |pods|, seen, at)
    case Fence(_, node, at) => A.Fencings(node.nodeID, pods, |pods|, at)
    case Compose(_, parsed, project, nanos, markFails, at) => Deploy(pods, parsed, project, nanos, markFails, at)
  }

  predicate Unused(w: World, id: string) {
    PodKey(id) !in w.init && forall f :: f in w.issued && !f.req.cmd.OtherOp? && !f.req.cmd.Malformed? ==>
      f.req.cmd.key != PodKey(id)
  }

  /** IDs built from a clock reading in nanoseconds are new. */
  predicate FreshIDs(w: World, a: Action, pods: seq<Pod>) {
    match a
    case Schedule(_, _, _, _, _, nano, _) =>
      forall p :: p in pods ==> Unused(w, ReplacementName(p.app, nano))
    case Compose(_, parsed, _, nanos, _, _) =>
      |parsed| == |nanos| && forall i :: 0 <= i < |parsed| ==> Unused(w, RollingName(parsed[i].baseID, nanos[i]))
    case _ => true
  }

  function View(w: World, a: Action): seq<Pod>
    requires HasView(a) && a.view <= |w.log|
  {
    Listing(StoreAt(w.init, w.log, a.view))
  }

  ghost predicate Enabled(w: World, a: Action) {
    if HasView(a) then
      a.view <= |w.log| && Timely(w, a, View(w, a)) && FreshIDs(w, a, View(w, a)) &&
      (a.Compose? ==> forall p :: p in a.parsed ==> FreshlyParsed(p))
    else Timely(w, a, [])
  }

  ghost function Perform(w: World, a: Action): World
    requires Enabled(w, a)
  {
    match a
    case Tick(to) => w.(clock := to)
    case Deliver(f) => w.(log := w.log + [Commit(f, w.clock)])
    case _ => w.(issued := w.issued + Flights(Sender(a), a.view, Requests(w, a, View(w, a))))
  }

  ghost function Flights(node: string, view: nat, reqs: seq<Request>): set<Flight> {
    set r | r in reqs :: Flight(node, view, r)
  }

  /** A cluster that starts from a store, with nothing in flight. */
  function Start(init: Pods.Store, clock: int): World {
    World(init, [], {}, clock)
  }

  ghost predicate ValidRun(start: World, acts: seq<Action>)
    decreases |acts|, 0
  {
    acts == [] ||
    var n := |acts| - 1;
    ValidRun(start, acts[..n]) && Enabled(After(start, acts[..n]), acts[n])
  }

  ghost function After(start: World, acts: seq<Action>): World
    requires ValidRun(start, acts)
    decreases |acts|, 1
  {
    if acts == [] then start
    else
      var n := |acts| - 1;
      Perform(After(start, acts[..n]), acts[n])
  }

  // ---- what the invariant of every run says -------------------------------------------------------

  /** Every pod stands under its own key. */
  ghost predicate Keyed(s: Pods.Store) {
    forall k :: k in s ==> s[k].Key() == k
  }

  /** A store to start from. */
  ghost predicate Initial(s: Pods.Store) {
    Keyed(s) && forall k :: k in s ==> s[k].resourceVersion >= 0
  }

  /** The start gave the pod under this key a base ID that is not that of its name. */
  ghost predicate Misnamed(init: Pods.Store, key: string) {
    key in init && init[key].baseID != BaseOf(init[key].id)
  }

  ghost predicate ProperRecord(init: Pods.Store, p: Pod) {
    p.resourceVersion >= 0 && (Misnamed(init, p.Key()) || p.baseID == BaseOf(p.id))
  }

  ghost predicate WellFormed(init: Pods.Store, s: Pods.Store) {
    forall k :: k in s ==> s[k].Key() == k && ProperRecord(init, s[k])
  }

  /** A request is what its reason says it is, on the list of pods that its sender read. */
  ghost predicate Justified(pods: seq<Pod>, node: string, r: Request) {
    match r.why
    case Claim(p, now) =>
      p in pods && p.Needy(now) && S.DependenciesMet(pods, p.dependsOn) && now <= r.sentAt &&
      r.cmd == Cas(p.Key(), Locked(p, node, r.sentAt), p.resourceVersion)
    case Renewal(p) =>
      p in pods && p.nodeID == node && p.Assigned() &&
      r.cmd == Cas(p.Key(), Locked(p, node, r.sentAt), p.resourceVersion)
    case Promotion(p, victim, now, oracle) =>
      p in pods && p.nodeID == node && p.role == Standby && p.Assigned() && now <= r.sentAt &&
      victim in pods && S.ConfirmedDead(victim, p.app, now, oracle) &&
      r.cmd == Cas(p.Key(), Locked(S.Promoted(p), node, r.sentAt), p.resourceVersion)
    case Replacement(p, nano) =>
      p in pods && p.nodeID == node && p.role == Standby && p.Assigned() && INDEX_LIMIT <= nano &&
      r.cmd == Cas(S.NewStandby(p, nano).Key(), S.NewStandby(p, nano), 0)
    case Sweep(p, q) =>
      p in pods && q in pods && p.updateToPodID == q.id != "" && S.TakenOver(q) && r.cmd == Del(p.Key())
    case Report(p, seen) =>
      p in pods && p.nodeID == node && p.Assigned() && r.cmd.Cas? &&
      var v := r.cmd.value;
      r.cmd == Cas(p.Key(), v, p.resourceVersion) &&
      v == Bumped(p.(status := Running, podIP := v.podIP, ready := v.ready)) && Reported(p, seen, v)
    case Fencing(p) =>
      p in pods && p.nodeID == node && p.isStateful &&
      r.cmd == Cas(p.Key(), Bumped(A.Fenced(p)), p.resourceVersion)
    case Mark(p, parsed, nano) =>
      p in pods && IsBaseName(p.baseID) && p.updateToPodID == "" && parsed.baseID == p.baseID &&
      parsed.image != p.image && r.cmd == Set(p.Key(), p.(updateToPodID := RollingName(p.baseID, nano)))
    case Rollout(p, parsed, nano) =>
      Posted(r, parsed) && p in pods && p.updateToPodID == "" && p.baseID == parsed.baseID && p.image != parsed.image &&
      r.cmd.value == parsed.(id := RollingName(parsed.baseID, nano), project := p.project)
    case Rewrite(p, parsed) =>
      Posted(r, parsed) && p in pods && p.updateToPodID == "" && p.baseID == parsed.baseID && p.image == parsed.image &&
      r.cmd.value == parsed.(id := p.id, project := p.project, status := p.status, nodeID := p.nodeID,
                             ready := p.ready, resourceVersion := p.resourceVersion)
    case Deployment(parsed) =>
      Posted(r, parsed) && r.cmd.value == parsed.(project := r.cmd.value.project)
  }

  /** A record made of a parsed pod, under the parsed pod's base ID. */
  ghost predicate Posted(r: Request, parsed: Pod) {
    r.cmd.Set? && r.cmd.key == r.cmd.value.Key() && FreshlyParsed(parsed) && IsBaseName(parsed.baseID)
  }

  /** What an agent may report after such an observation: the address at which it started the container, or, of a
      running container whose liveness probe does not fail, whether the readiness probe fails. */
  ghost predicate Reported(p: Pod, seen: Observation, v: Pod) {
    match seen
    case CheckFailed => false
    case Stopped(started) => started == Some(v.podIP) && v.ready == p.ready && p.image != ""
    case Up(liveReply, readyReply) =>
      v.podIP == p.podIP &&
      (v.ready != p.ready ==> !Fails(p.livenessProbe, p.podIP, liveReply) &&
                              (v.ready <==> !Fails(p.readinessProbe, p.podIP, readyReply)))
  }

  /** A probe fails when it is configured for TCP or HTTP, has an address to ask, and gets no answer or a bad one. */
  predicate Fails(probe: Option<Probe>, podIP: string, reply: bool) {
    probe.Some? && probe.value.kind in {"tcp", "http"} && podIP != "" && !reply
  }
}
