/** What the pods parsed from a compose file contain, field by field: how many of each role, their names, images,
    users, dependencies, volumes and environments. */
module ReplicaRules {
  import opened Option
  import opened Names
  import opened Pods
  import opened Collections
  import opened KeyOrder
  import opened Interpolation
  import opened ComposeParser

  // ---- dependencies ---------------------------------------------------------------------------------

  /** Listed names ask for a start; mapped names for their condition, if their settings are a map. */
  ghost predicate AreDependencies(d: DependsOn, deps: map<string, string>) {
    match d
    case NoDependsOn => deps == map[]
    case DependsList(names) =>
      (forall k :: k in deps <==> Text(k) in names) && forall k :: k in deps ==> deps[k] == "service_started"
    case DependsMap(entries) =>
      (forall k :: k in deps <==> k in entries && entries[k].Settings?) &&
      forall k :: k in deps ==>
        (entries[k].condition == Some(deps[k]) || (entries[k].condition == None && deps[k] == ""))
  }

  lemma {:induction false} ListedExactly(names: seq<Value>, n: nat)
    requires n <= |names|
    ensures AreDependencies(DependsList(names[..n]), ListedDependencies(names, n))
  {
    if n > 0 {
      ListedExactly(names, n - 1);
      assert names[..n] == names[..n - 1] + [names[n - 1]];
      assert forall k :: Text(k) in names[..n] <==> Text(k) in names[..n - 1] || names[n - 1] == Text(k);
    }
  }

  lemma DependenciesExactly(d: DependsOn)
    ensures AreDependencies(d, Dependencies(d))
  {
    if d.DependsList? {
      ListedExactly(d.names, |d.names|);
      assert d.names[..|d.names|] == d.names;
    }
  }

  // ---- volumes --------------------------------------------------------------------------------------

  /** Each volume interpolated, and joined to the working directory, if there is one, when it starts with ./ or ../ */
  ghost predicate AreVolumes(job: Job, volumes: seq<string>, parsed: seq<string>) {
    |parsed| == |volumes| && forall i :: 0 <= i < |volumes| ==>
      var v := Interpolate(volumes[i], job.env);
      parsed[i] == if job.workingDir != "" && ("./" <= v || "../" <= v) then job.join(job.workingDir, v) else v
  }

  lemma {:induction false} VolumesExactly(job: Job, volumes: seq<string>)
    ensures AreVolumes(job, volumes, VolumesOf(job, volumes))
  {
    hide Interpolate;
    if volumes != [] {
      var front := volumes[..|volumes| - 1];
      VolumesExactly(job, front);
      assert forall i :: 0 <= i < |front| ==> volumes[i] == front[i];
    }
  }

  // ---- environments ---------------------------------------------------------------------------------

  /** A text, interpolated. */
  ghost predicate ListsText(item: Value, env: Env, text: string) {
    item.Text? && text == Interpolate(item.text, env)
  }

  /** The texts at these positions, interpolated; those and no others are texts. */
  ghost predicate ListsTexts(items: seq<Value>, env: Env, due: seq<nat>, texts: seq<string>) {
    Ascending(due, |items|) && (forall i: nat :: i in due <==> i < |items| && items[i].Text?) && |texts| == |due| &&
    forall k :: 0 <= k < |due| ==> due[k] < |items| && ListsText(items[due[k]], env, texts[k])
  }

  /** An entry of a map, with its name and an equals sign in front. */
  ghost predicate ListsEntry(entries: map<string, Value>, name: string, env: Env, text: string) {
    name in entries && entries[name].Text? && text == name + "=" + Interpolate(entries[name].text, env)
  }

  predicate HasText(entries: map<string, Value>, name: string) {
    name in entries && entries[name].Text?
  }

  ghost predicate ListsEntries(entries: map<string, Value>, order: seq<string>, env: Env, due: seq<nat>,
    texts: seq<string>) {
    Ascending(due, |order|) &&
    (forall i: nat :: i in due <==> i < |order| && HasText(entries, order[i])) && |texts| == |due| &&
    forall k :: 0 <= k < |due| ==> due[k] < |order| && ListsEntry(entries, order[due[k]], env, texts[k])
  }

  ghost predicate AreTexts(e: Environment, order: seq<string>, env: Env, texts: seq<string>) {
    match e
    case NoEnvironment => texts == []
    case EnvironmentList(items) => exists due: seq<nat> :: ListsTexts(items, env, due, texts)
    case EnvironmentMap(entries) => exists due: seq<nat> :: ListsEntries(entries, order, env, due, texts)
  }

  lemma {:induction false} TextsExactly(items: seq<Value>, env: Env) returns (due: seq<nat>)
    ensures ListsTexts(items, env, due, ListedEnvironment(items, env))
  {
    due := [];
    if items != [] {
      hide ListsTexts;
      var front, last := items[..|items| - 1], items[|items| - 1];
      var before := TextsExactly(front, env);
      due := OneMoreText(front, last, env, before, ListedEnvironment(front, env));
      assert front + [last] == items;
    }
  }

  lemma OneMoreText(front: seq<Value>, last: Value, env: Env, due: seq<nat>, texts: seq<string>)
    returns (more: seq<nat>)
    requires ListsTexts(front, env, due, texts)
    ensures ListsTexts(front + [last], env, more, texts + ListedItem(last, env))
  {
    assert last.Text? ==> ListsText(last, env, ListedItem(last, env)[0]);
    AscendingMore(due, |front|);
    hide Ascending, ListsText;
    more := if last.Text? then due + [|front|] else due;
  }

  lemma {:induction false} EntriesExactly(entries: map<string, Value>, order: seq<string>, env: Env)
    returns (due: seq<nat>)
    ensures ListsEntries(entries, order, env, due, MappedEnvironment(entries, order, env))
  {
    due := [];
    if order != [] {
      hide ListsEntries;
      var front, last := order[..|order| - 1], order[|order| - 1];
      var before := EntriesExactly(entries, front, env);
      due := OneMoreEntry(entries, front, last, env, before, MappedEnvironment(entries, front, env));
      assert front + [last] == order;
    }
  }

  lemma EntryItem(entries: map<string, Value>, name: string, env: Env)
    ensures var texts := MappedItem(entries, name, env);
      if HasText(entries, name) then |texts| == 1 && ListsEntry(entries, name, env, texts[0]) else texts == []
  {
  }

  lemma OneMoreEntry(entries: map<string, Value>, front: seq<string>, last: string, env: Env, due: seq<nat>,
          texts: seq<string>) returns (more: seq<nat>)
    requires ListsEntries(entries, front, env, due, texts)
    ensures ListsEntries(entries, front + [last], env, more, texts + MappedItem(entries, last, env))
  {
    EntryItem(entries, last, env);
    AscendingMore(due, |front|);
    hide Ascending, ListsEntry, HasText, MappedItem;
    more := if HasText(entries, last) then due + [|front|] else due;
  }

  /** This is the first entry that sets a database password. */
  predicate SetsPassword(texts: seq<string>, i: nat) {
    i < |texts| && "POSTGRES_PASSWORD=" <= texts[i] && forall j :: 0 <= j < i ==> !("POSTGRES_PASSWORD=" <= texts[j])
  }

  /** The first entry that sets a database password gets the generated one if it is empty; without such an entry one is
      added at the end. */
  ghost predicate HasPassword(texts: seq<string>, password: string, env: seq<string>) {
    (forall i: nat :: SetsPassword(texts, i) ==>
      env == if texts[i] == "POSTGRES_PASSWORD=" then texts[i := "POSTGRES_PASSWORD=" + password] else texts) &&
    ((forall i: nat :: !SetsPassword(texts, i)) ==> env == texts + ["POSTGRES_PASSWORD=" + password])
  }

  /** The image's name mentions the database. */
  ghost predicate IsPostgres(image: string) {
    exists a, b :: image == a + "postgres" + b
  }

  /** The interpolated texts, and for a database image a password. */
  ghost predicate IsEnvironment(job: Job, name: string, svc: Service, order: seq<string>, env: seq<string>) {
    exists texts :: AreTexts(svc.environment, order, job.env, texts) &&
      if IsPostgres(svc.image) then HasPassword(texts, job.passwords(name), env) else env == texts
  }

  lemma PostgresExactly(image: string)
    ensures IsPostgres(image) <==> Mentions(image, "postgres")
  {
    if a, b :| image == a + "postgres" + b {
      assert image[|a|..] == "postgres" + b;
      assert HasPrefix(image[|a|..], "postgres");
    }
    if i :| 0 <= i <= |image| && HasPrefix(image[i..], "postgres") {
      assert image == image[..i] + "postgres" + image[i + 8..];
    }
  }

  lemma {:induction false} PasswordAt(texts: seq<string>)
    ensures var i := PasswordIndex(texts);
      if i < |texts| then SetsPassword(texts, i) else forall j: nat :: !SetsPassword(texts, j)
    ensures forall j: nat :: SetsPassword(texts, j) ==> j == PasswordIndex(texts)
  {
    if texts != [] && !HasPrefix(texts[0], "POSTGRES_PASSWORD=") {
      PasswordAt(texts[1..]);
      var i := PasswordIndex(texts);
      assert forall j :: 0 < j < |texts| ==> texts[j] == texts[1..][j - 1];
      forall j: nat | SetsPassword(texts, j) ensures j == i {
        assert SetsPassword(texts[1..], j - 1);
      }
    }
  }

  lemma PasswordExactly(texts: seq<string>, image: string, password: string)
    ensures var env := WithPassword(image, texts, password);
      if IsPostgres(image) then HasPassword(texts, password, env) else env == texts
  {
    PostgresExactly(image);
    PasswordAt(texts);
    hide Mentions, IsPostgres, PasswordIndex;
  }

  lemma EnvironmentExactly(job: Job, name: string, svc: Service, order: seq<string>)
    ensures IsEnvironment(job, name, svc, order, EnvironmentOf(job, name, svc, order))
  {
    var texts := BaseEnvironment(svc.environment, order, job.env);
    PasswordExactly(texts, svc.image, job.passwords(name));
    hide HasPassword, IsPostgres, WithPassword, ListsTexts, ListsEntries;
    match svc.environment {
    case NoEnvironment =>
    case EnvironmentList(items) =>
      var due := TextsExactly(items, job.env);
    case EnvironmentMap(entries) =>
      var due := EntriesExactly(entries, order, job.env);
    }
    assert AreTexts(svc.environment, order, job.env, texts);
  }

  // ---- pods -----------------------------------------------------------------------------------------

  /** What all pods of a service have in common: everything but the ID, the role and the user. */
  ghost predicate IsPodOf(job: Job, name: string, svc: Service, order: seq<string>, p: Pod) {
    && p.app == name && p.project == job.project && p.baseID == p.id && p.status == Pending
    && p.image == (if Interpolate(svc.image, job.env) != "" then Interpolate(svc.image, job.env)
                   else job.project + "-" + name)
    && p.ports == svc.ports && p.usernsRemap == svc.usernsRemap
    && AreVolumes(job, svc.volumes, p.volumes)
    && AreDependencies(svc.dependsOn, p.dependsOn)
    && IsEnvironment(job, name, svc, order, p.env)
    && p == Pod(p.id, p.baseID, p.image, p.status, "", 0, 0, p.project, Float(0, 0), 0, "", p.ports, p.volumes, p.app,
                p.role, "", false, None, None, false, p.runAsUser, p.usernsRemap, p.dependsOn, p.env, "")
  }

  /** How many active replicas a service asks for: at least one, and at most a hundred. */
  function Actives(svc: Service): nat {
    match svc.replicas
    case None => 1
    case Some(n) => if n < 1 then 1 else if n > 100 then 100 else n
  }

  /** What the two roles differ in. */
  predicate IsReplicaOf(name: string, svc: Service, kind: Kind, i: nat, p: Pod) {
    match kind
    case ActiveReplica => p.id == name + "-active-" + Decimal(i) && p.role == Active &&
      p.runAsUser == if svc.user == "" then "1000:1000" else svc.user
    case StandbyReplica => p.id == name + "-standby-" + Decimal(i) && p.role == Standby && p.runAsUser == svc.user
  }

  lemma ReplicaIsOfKind(job: Job, name: string, svc: Service, order: seq<string>, kind: Kind, i: nat)
    ensures IsReplicaOf(name, svc, kind, i, Replica(job, name, svc, order, kind, i))
  {
    hide VolumesOf, EnvironmentOf, Dependencies, ImageOf, Decimal;
    assert BaseName(name, ActiveReplica, i) == name + "-active-" + Decimal(i);
    assert BaseName(name, StandbyReplica, i) == name + "-standby-" + Decimal(i);
  }

  lemma ReplicaIsOfService(job: Job, name: string, svc: Service, order: seq<string>, kind: Kind, i: nat)
    ensures IsPodOf(job, name, svc, order, Replica(job, name, svc, order, kind, i))
  {
    VolumesExactly(job, svc.volumes);
    DependenciesExactly(svc.dependsOn);
    EnvironmentExactly(job, name, svc, order);
    hide AreVolumes, AreDependencies, IsEnvironment, Interpolate, VolumesOf, EnvironmentOf, Dependencies, BaseName;
  }

  /** The pods of a service, field by field: first the Active ones, then the Standby ones, each kind numbered from 0. */
  lemma ServiceExactly(job: Job, name: string, svc: Service, order: seq<string>)
    ensures var pods, n := PodsOf(job, name, svc, order), Actives(svc);
      && |pods| == n + (if svc.standby > 0 then svc.standby else 0)
      && (forall i :: 0 <= i < |pods| ==> IsPodOf(job, name, svc, order, pods[i]))
      && (forall i :: 0 <= i < n ==> IsReplicaOf(name, svc, ActiveReplica, i, pods[i]))
      && (forall i :: n <= i < |pods| ==> IsReplicaOf(name, svc, StandbyReplica, i - n, pods[i]))
  {
    var pods, n := PodsOf(job, name, svc, order), Actives(svc);
    hide Replica, IsPodOf, IsReplicaOf;
    forall i | 0 <= i < |pods|
      ensures IsPodOf(job, name, svc, order, pods[i])
      ensures i < n ==> IsReplicaOf(name, svc, ActiveReplica, i, pods[i])
      ensures n <= i ==> IsReplicaOf(name, svc, StandbyReplica, i - n, pods[i])
    {
      var kind, index := if i < n then ActiveReplica else StandbyReplica, if i < n then i else i - n;
      ReplicaIsOfKind(job, name, svc, order, kind, index);
      ReplicaIsOfService(job, name, svc, order, kind, index);
    }
  }

  /** A file yields the pods of its services, service by service in the order visited. */
  ghost predicate AreServices(job: Job, file: ComposeFile, v: Visit, names: seq<string>, blocks: seq<seq<Pod>>) {
    |blocks| == |names| && forall i :: 0 <= i < |names| ==>
      names[i] in file && names[i] in v.entries &&
        blocks[i] == PodsOf(job, names[i], file[names[i]], v.entries[names[i]])
  }

  lemma {:induction false} FileExactly(job: Job, file: ComposeFile, v: Visit, names: seq<string>)
    returns (blocks: seq<seq<Pod>>)
    requires forall name :: name in names ==> name in file && name in v.entries
    ensures AreServices(job, file, v, names, blocks) && Parsed(job, file, v, names) == Concat(blocks)
  {
    hide PodsOf;
    blocks := [];
    if names != [] {
      var front, last := names[..|names| - 1], names[|names| - 1];
      var before := FileExactly(job, file, v, front);
      ConcatMore(before, PodsOfService(job, file, v, last));
      blocks := before + [PodsOfService(job, file, v, last)];
    }
  }
}
