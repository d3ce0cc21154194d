/** Pod records, the documents that every control loop reads and writes. */
module Pods {
  import opened Option
  import opened Names
  import opened StateMachine

  datatype Status = Blank | Pending | Scheduled | Running | Fenced | OtherStatus(text: string)
  datatype Role = Active | Standby | OtherRole(text: string)
  datatype Probe = Probe(kind: string, port: int, path: string)

  /** A floating-point number: mantissa times a power of two. */
  datatype Float = Float(mantissa: int, exponent: int)

  /** The lease granted by every claim and renewal, in seconds. */
  const LEASE: int := 15

  datatype Pod = Pod(
    id: string, baseID: string, image: string, status: Status, nodeID: string,
    resourceVersion: int, leaseExpiresAt: int, project: string,
    cpuReq: Float, ramReq: int, arch: string,
    ports: seq<string>, volumes: seq<string>, app: string, role: Role,
    podIP: string, ready: bool, livenessProbe: Option<Probe>, readinessProbe: Option<Probe>,
    isStateful: bool, runAsUser: string, usernsRemap: bool,
    dependsOn: map<string, string>, env: seq<string>, updateToPodID: string)
  {
    function Key(): string { PodKey(id) }

    predicate Assigned() { status == Scheduled || status == Running }

    /** Pending, or held under a lease that has run out.  A lease of 0 never runs out. */
    predicate Needy(now: int) {
      status == Pending || (Assigned() && 0 < leaseExpiresAt < now)
    }
  }

  /** The zero record that every literal starts from. */
  const EMPTY_POD := Pod("", "", "", Blank, "", 0, 0, "", Float(0, 0), 0, "", [], [], "", OtherRole(""),
                         "", false, None, None, false, "", false, map[], [], "")

  type Store = StateMachine.Store<Pod>
  type Command = StateMachine.Command<Pod>

  /** The record a claim, a renewal or a promotion by `node` at time `at` asks for. */
  function Locked(p: Pod, node: string, at: int): Pod {
    p.(status := if p.status == Pending || p.status == Blank then Scheduled else p.status,
       nodeID := node,
       resourceVersion := p.resourceVersion + 1,
       leaseExpiresAt := at + LEASE)
  }

  /** The record of a status update. */
  function Bumped(p: Pod): Pod {
    p.(resourceVersion := p.resourceVersion + 1)
  }

  /** The liveness oracle, if one is installed: the nodes it calls alive. */
  type Oracle = Option<set<string>>

  /** What the container runtime and the probes answer about one pod during one cycle of its agent.
      `started` is the address of the container if starting it worked; probes are asked only if there is an address. */
  datatype Observation =
    | CheckFailed
    | Stopped(started: Option<string>)
    | Up(liveReply: bool, readyReply: bool)

  /** A message to the log, why it was sent, and the earliest time it can be committed. */
  datatype Request = Request(cmd: Command, why: Reason, sentAt: int)

  /** Why a message was sent: the records, as the sender read them, that justify it. */
  datatype Reason =
    | Claim(pod: Pod, now: int)
    | Renewal(pod: Pod)
    | Promotion(pod: Pod, victim: Pod, now: int, oracle: Oracle)
    | Replacement(standby: Pod, nano: nat)
    | Sweep(superseded: Pod, successor: Pod)
    | Report(seen: Pod, observed: Observation)
    | Fencing(pod: Pod)
    | Mark(outdated: Pod, parsed: Pod, nano: nat)
    | Rollout(outdated: Pod, parsed: Pod, nano: nat)
    | Rewrite(current: Pod, parsed: Pod)
    | Deployment(parsed: Pod)
}
