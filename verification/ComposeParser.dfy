/** From a compose file to pods: replica expansion, names, dependencies, environment, volumes. */
module ComposeParser {
  import opened Option
  import opened Names
  import opened Pods
  import opened ComposeDiff
  import opened KeyOrder
  import opened Interpolation

  // ---- a compose file as YAML decodes it ------------------------------------------------------------

  /** A YAML value that may or may not be text. */
  datatype Value = Text(text: string) | NotText

  datatype Environment =
    | NoEnvironment
    | EnvironmentList(items: seq<Value>)
    | EnvironmentMap(entries: map<string, Value>)

  /** A dependency's settings, if they are a map: its condition, if that is text. */
  datatype Settings = NotAMap | Settings(condition: Option<string>)

  datatype DependsOn = NoDependsOn | DependsList(names: seq<Value>) | DependsMap(entries: map<string, Settings>)

  /** `unread` are the keys that are in the file but that nothing here reads. */
  datatype Service = Service(
    image: string, user: string, ports: seq<string>, volumes: seq<string>, environment: Environment,
    replicas: Option<int>, dependsOn: DependsOn, standby: int, usernsRemap: bool, unread: set<string>)

  type ComposeFile = map<string, Service>

  /** The orders in which the parser happens to visit the services and each service's environment map. */
  datatype Visit = Visit(services: seq<string>, entries: map<string, seq<string>>)

  /** Each key once, in some order. */
  ghost predicate Lists<T(!new)>(order: seq<T>, keys: set<T>) {
    (forall k :: k in order <==> k in keys) && forall i, j :: 0 <= i < j < |order| ==> order[i] != order[j]
  }

  function EnvironmentKeys(svc: Service): set<string> {
    if svc.environment.EnvironmentMap? then svc.environment.entries.Keys else {}
  }

  ghost predicate Visits(v: Visit, file: ComposeFile) {
    Lists(v.services, file.Keys) &&
    forall name :: name in file ==> name in v.entries && Lists(v.entries[name], EnvironmentKeys(file[name]))
  }

  // ---- what each part of a service means --------------------------------------------------------------

  const MAX_REPLICAS := 100
  const POSTGRES_PASSWORD := "POSTGRES_PASSWORD="

  function Replicas(svc: Service): (n: nat)
    ensures 1 <= n <= MAX_REPLICAS
  {
    var wanted := if svc.replicas.Some? && 0 < svc.replicas.value then svc.replicas.value else 1;
    if wanted > MAX_REPLICAS then MAX_REPLICAS else wanted
  }

  function Standbys(svc: Service): nat {
    if svc.standby > 0 then svc.standby else 0
  }

  /** The dependencies of the first `n` listed names. */
  function ListedDependencies(names: seq<Value>, n: nat): map<string, string>
    requires n <= |names|
  {
    if n == 0 then map[]
    else if names[n - 1].Text? then ListedDependencies(names, n - 1)[names[n - 1].text := "service_started"]
    else ListedDependencies(names, n - 1)
  }

  function Dependencies(d: DependsOn): map<string, string> {
    match d
    case NoDependsOn => map[]
    case DependsList(names) => ListedDependencies(names, |names|)
    case DependsMap(entries) =>
      map k | k in entries && entries[k].Settings? :: if entries[k].condition.Some? then entries[k].condition.value
        else ""
  }

  function ListedEnvironment(items: seq<Value>, env: Env): seq<string> {
    if items == [] then []
    else ListedEnvironment(items[..|items| - 1], env) + ListedItem(items[|items| - 1], env)
  }

  function ListedItem(item: Value, env: Env): seq<string> {
    if item.Text? then [Interpolate(item.text, env)] else []
  }

  function MappedEnvironment(entries: map<string, Value>, order: seq<string>, env: Env): seq<string> {
    if order == [] then []
    else MappedEnvironment(entries, order[..|order| - 1], env) + MappedItem(entries, order[|order| - 1], env)
  }

  function MappedItem(entries: map<string, Value>, k: string, env: Env): seq<string> {
    if k in entries && entries[k].Text? then [k + "=" + Interpolate(entries[k].text, env)] else []
  }

  function BaseEnvironment(e: Environment, order: seq<string>, env: Env): seq<string> {
    match e
    case NoEnvironment => []
    case EnvironmentList(items) => ListedEnvironment(items, env)
    case EnvironmentMap(entries) => MappedEnvironment(entries, order, env)
  }

  predicate Mentions(s: string, word: string) {
    exists i :: 0 <= i <= |s| && HasPrefix(s[i..], word)
  }

  /** Where the first environment entry that sets a database password stands, or the length. */
  function PasswordIndex(envList: seq<string>): (i: nat)
    ensures i <= |envList|
  {
    if envList == [] || HasPrefix(envList[0], POSTGRES_PASSWORD) then 0 else 1 + PasswordIndex(envList[1..])
  }

  /** A database gets the generated password if it has none or an empty one. */
  function WithPassword(image: string, envList: seq<string>, password: string): seq<string> {
    if !Mentions(image, "postgres") then envList
    else
      var i := PasswordIndex(envList);
      if i == |envList| then envList + [POSTGRES_PASSWORD + password]
      else if |envList[i]| == |POSTGRES_PASSWORD| then envList[i := POSTGRES_PASSWORD + password]
      else envList
  }

  /** Who asks for the parse: the project, the environment, and the directory that relative volumes are joined to.
      `passwords` is what the random generator gives for each service. */
  datatype Job = Job(project: string, env: Env, workingDir: string, join: (string, string) -> string,
    passwords: string -> string)

  function EnvironmentOf(job: Job, name: string, svc: Service, order: seq<string>): seq<string> {
    WithPassword(svc.image, BaseEnvironment(svc.environment, order, job.env), job.passwords(name))
  }

  function VolumeOf(job: Job, volume: string): string {
    var v := Interpolate(volume, job.env);
    if (HasPrefix(v, "./") || HasPrefix(v, "../")) && job.workingDir != "" then job.join(job.workingDir, v) else v
  }

  function VolumesOf(job: Job, volumes: seq<string>): seq<string> {
    if volumes == [] then [] else VolumesOf(job, volumes[..|volumes| - 1]) + [VolumeOf(job, volumes[|volumes| - 1])]
  }

  function ImageOf(job: Job, name: string, svc: Service): string {
    Or(Interpolate(svc.image, job.env), job.project + "-" + name)
  }

  /** The pod for one replica of a service.  Only active replicas get a default user. */
  function Replica(job: Job, name: string, svc: Service, order: seq<string>, kind: Kind, index: nat): Pod {
    var id := BaseName(name, kind, index);
    EMPTY_POD.(id := id, baseID := id, image := ImageOf(job, name, svc),
      runAsUser := if kind.ActiveReplica? then Or(svc.user, "1000:1000") else svc.user,
      ports := svc.ports, volumes := VolumesOf(job, svc.volumes), usernsRemap := svc.usernsRemap,
      status := Pending, project := job.project, app := name,
      role := if kind.ActiveReplica? then Active else Standby,
      dependsOn := Dependencies(svc.dependsOn), env := EnvironmentOf(job, name, svc, order))
  }

  /** The first `n` replicas of one kind. */
  function Expanded(job: Job, name: string, svc: Service, order: seq<string>, kind: Kind, n: nat): (pods: seq<Pod>)
    ensures |pods| == n && forall i :: 0 <= i < n ==> pods[i] == Replica(job, name, svc, order, kind, i)
  {
    if n == 0 then [] else Expanded(job, name, svc, order, kind, n - 1) + [Replica(job, name, svc, order, kind, n - 1)]
  }

  function PodsOf(job: Job, name: string, svc: Service, order: seq<string>): seq<Pod> {
    Expanded(job, name, svc, order, ActiveReplica, Replicas(svc)) +
      Expanded(job, name, svc, order, StandbyReplica, Standbys(svc))
  }

  function PodsOfService(job: Job, file: ComposeFile, v: Visit, name: string): seq<Pod> {
    if name in file && name in v.entries then PodsOf(job, name, file[name], v.entries[name]) else []
  }

  /** The pods of the services named, in that order. */
  function Parsed(job: Job, file: ComposeFile, v: Visit, names: seq<string>): seq<Pod> {
    if names == [] then []
    else Parsed(job, file, v, names[..|names| - 1]) + PodsOfService(job, file, v, names[|names| - 1])
  }

  // ---- the parser ---------------------------------------------------------------------------------------

  method ParseDependencies(d: DependsOn) returns (deps: map<string, string>)
    ensures deps == Dependencies(d)
  {
    deps := map[];
    match d {
      case NoDependsOn =>
      case DependsList(names) =>
        for i := 0 to |names|
          invariant deps == ListedDependencies(names, i)
        {
          if names[i].Text? {
            deps := deps[names[i].text := "service_started"];
          }
        }
      case DependsMap(entries) =>
        var todo := entries.Keys;
        while todo != {}
          invariant todo <= entries.Keys
          invariant deps == map k | k in entries && k !in todo && entries[k].Settings? ::
                              if entries[k].condition.Some? then entries[k].condition.value else ""
          decreases todo
        {
          var k :| k in todo;
          if entries[k].Settings? {
            deps := deps[k := if entries[k].condition.Some? then entries[k].condition.value else ""];
          }
          todo := todo - {k};
        }
    }
  }

  method ParseEnvironment(job: Job, name: string, svc: Service, order: seq<string>) returns (envList: seq<string>)
    ensures envList == EnvironmentOf(job, name, svc, order)
  {
    envList := [];
    match svc.environment {
      case NoEnvironment =>
      case EnvironmentList(items) =>
        for i := 0 to |items|
          invariant envList == ListedEnvironment(items[..i], job.env)
        {
          assert items[..i + 1][..i] == items[..i];
          if items[i].Text? {
            envList := envList + [Interpolate(items[i].text, job.env)];
          }
        }
        assert items[..|items|] == items;
      case EnvironmentMap(entries) =>
        for i := 0 to |order|
          invariant envList == MappedEnvironment(entries, order[..i], job.env)
        {
          assert order[..i + 1][..i] == order[..i];
          if order[i] in entries && entries[order[i]].Text? {
            envList := envList + [order[i] + "=" + Interpolate(entries[order[i]].text, job.env)];
          }
        }
        assert order[..|order|] == order;
    }
    if Mentions(svc.image, "postgres") {
      envList := AddPassword(envList, job.passwords(name));
    }
  }

  method AddPassword(envList: seq<string>, password: string) returns (r: seq<string>)
    ensures forall image :: Mentions(image, "postgres") ==> r == WithPassword(image, envList, password)
  {
    r := envList;
    var hasPass := false;
    for i := 0 to |envList|
      invariant r == envList && !hasPass
      invariant forall j :: 0 <= j < i ==> !HasPrefix(envList[j], POSTGRES_PASSWORD)
    {
      if HasPrefix(envList[i], POSTGRES_PASSWORD) {
        PasswordIndexUnique(envList, i);
        if |envList[i]| == |POSTGRES_PASSWORD| {
          r := r[i := POSTGRES_PASSWORD + password];
        }
        hasPass := true;
        break;
      }
    }
    if !hasPass {
      PasswordIndexUnique(envList, |envList|);
      r := r + [POSTGRES_PASSWORD + password];
    }
  }

  lemma {:induction false} PasswordIndexUnique(envList: seq<string>, i: nat)
    requires i <= |envList| && (forall j :: 0 <= j < i ==> !HasPrefix(envList[j], POSTGRES_PASSWORD))
    requires i < |envList| ==> HasPrefix(envList[i], POSTGRES_PASSWORD)
    ensures PasswordIndex(envList) == i
  {
    if i > 0 { PasswordIndexUnique(envList[1..], i - 1); }
  }

  method ParseVolumes(job: Job, volumes: seq<string>) returns (volList: seq<string>)
    ensures volList == VolumesOf(job, volumes)
  {
    volList := [];
    for i := 0 to |volumes|
      invariant volList == VolumesOf(job, volumes[..i])
    {
      assert volumes[..i + 1][..i] == volumes[..i];
      var interpolated := Interpolate(volumes[i], job.env);
      if HasPrefix(interpolated, "./") || HasPrefix(interpolated, "../") {
        if job.workingDir != "" {
          interpolated := job.join(job.workingDir, interpolated);
        }
      }
      volList := volList + [interpolated];
    }
    assert volumes[..|volumes|] == volumes;
  }

  method ParseService(job: Job, name: string, svc: Service, order: seq<string>) returns (pods: seq<Pod>)
    ensures pods == PodsOf(job, name, svc, order)
  {
    var replicas := 1;
    if svc.replicas.Some? && svc.replicas.value > 0 {
      replicas := svc.replicas.value;
    }
    if replicas > MAX_REPLICAS {
      replicas := MAX_REPLICAS;
    }
    var deps := ParseDependencies(svc.dependsOn);
    var envList := ParseEnvironment(job, name, svc, order);
    var volList := ParseVolumes(job, svc.volumes);
    var imageName := Interpolate(svc.image, job.env);
    if imageName == "" {
      imageName := job.project + "-" + name;
    }
    pods := [];
    for i := 0 to replicas
      invariant pods == Expanded(job, name, svc, order, ActiveReplica, i)
    {
      var podID := BaseName(name, ActiveReplica, i);
      var runAsUser := svc.user;
      if runAsUser == "" {
        runAsUser := "1000:1000";
      }
      pods := pods + [EMPTY_POD.(id := podID, baseID := podID, image := imageName, runAsUser := runAsUser,
        ports := svc.ports, volumes := volList, usernsRemap := svc.usernsRemap, status := Pending,
        project := job.project, app := name, role := Active, dependsOn := deps, env := envList)];
    }
    var standbys := [];
    for i := 0 to Standbys(svc)
      invariant standbys == Expanded(job, name, svc, order, StandbyReplica, i)
    {
      var podID := BaseName(name, StandbyReplica, i);
      standbys := standbys + [EMPTY_POD.(id := podID, baseID := podID, image := imageName, runAsUser := svc.user,
        ports := svc.ports, volumes := volList, usernsRemap := svc.usernsRemap, status := Pending,
        project := job.project, app := name, role := Standby, dependsOn := deps, env := envList)];
    }
    pods := pods + standbys;
  }

  lemma ParsedNext(job: Job, file: ComposeFile, v: Visit, i: nat)
    requires i < |v.services|
    ensures Parsed(job, file, v, v.services[..i + 1]) ==
      Parsed(job, file, v, v.services[..i]) + PodsOfService(job, file, v, v.services[i])
  {
    assert v.services[..i + 1][..i] == v.services[..i];
  }

  /** Parses a decoded file; a file that is no YAML of this shape is an error. */
  method ParseComposeFile(job: Job, content: Option<ComposeFile>, v: Visit) returns (pods: Option<seq<Pod>>)
    requires content.Some? ==> Visits(v, content.value)
    ensures pods == if content.Some? then Some(Parsed(job, content.value, v, v.services)) else None
  {
    hide PodsOf;
    if content.None? { return None; }
    var file := content.value;
    var all := [];
    for i := 0 to |v.services|
      invariant all == Parsed(job, file, v, v.services[..i])
    {
      ParsedNext(job, file, v, i);
      var name := v.services[i];
      assert name in v.services;
      var more := ParseService(job, name, file[name], v.entries[name]);
      all := all + more;
    }
    assert v.services[..|v.services|] == v.services;
    return Some(all);
  }

  // ---- what a parse yields --------------------------------------------------------------------------------

  function Count(svc: Service, kind: Kind): nat {
    match kind
    case ActiveReplica => Replicas(svc)
    case StandbyReplica => Standbys(svc)
  }

  /** The pod is replica `index` of that kind of that service. */
  ghost predicate IsReplica(job: Job, file: ComposeFile, v: Visit, name: string, kind: Kind, index: nat, p: Pod) {
    name in file && name in v.entries && index < Count(file[name], kind) &&
    p == Replica(job, name, file[name], v.entries[name], kind, index)
  }

  lemma ServicePods(job: Job, file: ComposeFile, v: Visit, name: string, p: Pod)
    requires name in file && name in v.entries
    ensures p in PodsOfService(job, file, v, name) <==>
      exists kind, index: nat :: IsReplica(job, file, v, name, kind, index, p)
  {
    var svc, order := file[name], v.entries[name];
    var active := Expanded(job, name, svc, order, ActiveReplica, Replicas(svc));
    var standby := Expanded(job, name, svc, order, StandbyReplica, Standbys(svc));
    if kind, index: nat :| IsReplica(job, file, v, name, kind, index, p) {
      assert if kind.ActiveReplica? then active[index] in active else standby[index] in standby;
    }
    if p in PodsOfService(job, file, v, name) {
      if p in active {
        var i :| 0 <= i < |active| && active[i] == p;
        assert IsReplica(job, file, v, name, ActiveReplica, i, p);
      } else {
        var i :| 0 <= i < |standby| && standby[i] == p;
        assert IsReplica(job, file, v, name, StandbyReplica, i, p);
      }
    }
  }

  lemma {:induction false} ParsedPods(job: Job, file: ComposeFile, v: Visit, names: seq<string>, p: Pod)
    requires forall name :: name in names ==> name in file && name in v.entries
    ensures p in Parsed(job, file, v, names) <==>
      exists name, kind, index: nat :: name in names && IsReplica(job, file, v, name, kind, index, p)
  {
    if names != [] {
      var front, last := names[..|names| - 1], names[|names| - 1];
      assert names == front + [last] && last in names;
      ParsedPods(job, file, v, front, p);
      ServicePods(job, file, v, last, p);
    }
  }

  /** A parse yields exactly the replicas that the file asks for, in whatever order it visits the file. */
  lemma ParseYieldsTheReplicas(job: Job, file: ComposeFile, v: Visit, p: Pod)
    requires Visits(v, file)
    ensures p in Parsed(job, file, v, v.services) <==>
      exists name, kind, index: nat :: IsReplica(job, file, v, name, kind, index, p)
  {
    ParsedPods(job, file, v, v.services, p);
  }

  /** A replica is what a compose diff expects exactly when its index stays below clock readings. */
  lemma ReplicaIsFresh(job: Job, name: string, svc: Service, order: seq<string>, kind: Kind, index: nat)
    ensures FreshlyParsed(Replica(job, name, svc, order, kind, index)) <==> index < INDEX_LIMIT
  {
    hide EnvironmentOf, VolumesOf, Dependencies, ImageOf, BaseName;
    if NamesApp(BaseName(name, kind, index), name) {
      var k, i: nat :| i < INDEX_LIMIT && BaseName(name, kind, index) == BaseName(name, k, i);
      BaseNameInjective(name, kind, index, name, k, i);
    }
  }

  /** Every parsed pod is what a compose diff expects exactly when no service asks for so many standbys that their
      indices reach clock readings. */
  lemma ParsedPodsAreFreshExactlyWhen(job: Job, file: ComposeFile, v: Visit)
    requires Visits(v, file)
    ensures (forall p :: p in Parsed(job, file, v, v.services) ==> FreshlyParsed(p)) <==>
            (forall name :: name in file ==> Standbys(file[name]) <= INDEX_LIMIT)
  {
    hide FreshlyParsed, Replica;
    var all := Parsed(job, file, v, v.services);
    if forall name :: name in file ==> Standbys(file[name]) <= INDEX_LIMIT {
      forall p | p in all ensures FreshlyParsed(p) {
        ParseYieldsTheReplicas(job, file, v, p);
        var name, kind, index: nat :| IsReplica(job, file, v, name, kind, index, p);
        ReplicaIsFresh(job, name, file[name], v.entries[name], kind, index);
      }
    }
    forall name | name in file && INDEX_LIMIT < Standbys(file[name])
      ensures exists p :: p in all && !FreshlyParsed(p)
    {
      var p := Replica(job, name, file[name], v.entries[name], StandbyReplica, INDEX_LIMIT);
      ReplicaIsFresh(job, name, file[name], v.entries[name], StandbyReplica, INDEX_LIMIT);
      assert IsReplica(job, file, v, name, StandbyReplica, INDEX_LIMIT, p);
      ParseYieldsTheReplicas(job, file, v, p);
    }
  }

  ghost predicate DistinctIDs(pods: seq<Pod>) {
    forall i, j :: 0 <= i < j < |pods| ==> pods[i].id != pods[j].id
  }

  lemma ServiceIDs(job: Job, name: string, svc: Service, order: seq<string>)
    ensures DistinctIDs(PodsOf(job, name, svc, order))
  {
    var pods, n := PodsOf(job, name, svc, order), Replicas(svc);
    hide ImageOf, VolumesOf, Dependencies, EnvironmentOf, BaseName;
    forall i, j | 0 <= i < j < |pods| ensures pods[i].id != pods[j].id {
      var k, a := if i < n then ActiveReplica else StandbyReplica, if i < n then i else i - n;
      var l, b := if j < n then ActiveReplica else StandbyReplica, if j < n then j else j - n;
      assert pods[i].id == BaseName(name, k, a) && pods[j].id == BaseName(name, l, b);
      if pods[i].id == pods[j].id { BaseNameInjective(name, k, a, name, l, b); }
    }
  }

  lemma {:induction false} ParsedIDs(job: Job, file: ComposeFile, v: Visit, names: seq<string>)
    requires forall name :: name in names ==> name in file && name in v.entries
    requires forall i, j :: 0 <= i < j < |names| ==> names[i] != names[j]
    ensures DistinctIDs(Parsed(job, file, v, names))
  {
    if names != [] {
      var front, last := names[..|names| - 1], names[|names| - 1];
      ParsedIDs(job, file, v, front);
      ServiceIDs(job, last, file[last], v.entries[last]);
      forall p, q | p in Parsed(job, file, v, front) && q in PodsOfService(job, file, v, last) ensures p.id != q.id {
        ParsedPods(job, file, v, front, p);
        ServicePods(job, file, v, last, q);
        var name, kind, index: nat :| name in front && IsReplica(job, file, v, name, kind, index, p);
        var kind', index': nat :| IsReplica(job, file, v, last, kind', index', q);
        if p.id == q.id { BaseNameInjective(name, kind, index, last, kind', index'); }
      }
      DistinctAppend(Parsed(job, file, v, front), PodsOfService(job, file, v, last));
    }
  }

  lemma DistinctAppend(a: seq<Pod>, b: seq<Pod>)
    requires DistinctIDs(a) && DistinctIDs(b) && forall p, q :: p in a && q in b ==> p.id != q.id
    ensures DistinctIDs(a + b)
  {
    forall i, j | 0 <= i < j < |a + b| ensures (a + b)[i].id != (a + b)[j].id {
      if i < |a| <= j { assert a[i] in a && b[j - |a|] in b; }
    }
  }

  /** No two parsed pods share an ID, whatever the services are called. */
  lemma ParsedIDsAreDistinct(job: Job, file: ComposeFile, v: Visit)
    requires Visits(v, file)
    ensures DistinctIDs(Parsed(job, file, v, v.services))
  {
    ParsedIDs(job, file, v, v.services);
  }
}
