/** The UI's converter for compose files, and what it preserves: parsing the converted file with an empty environment
    gives the pods of the original file parsed with the environment, but for the settings that the user chose. */
module ComposeTranslation {
  import opened Option
  import opened Names
  import opened KeyOrder
  import opened Interpolation
  import opened ComposeParser
  import opened ComposeOrder

  /** The host directory that a named volume is bound to, if it is. */
  type Devices = map<string, Option<string>>

  /** A whole file. */
  datatype Document = Document(services: ComposeFile, volumes: Devices, hasNetworks: bool)

  /** What the user sets in the UI, globally or for one service; a number that does not parse stands as 0. */
  datatype Preferences = Preferences(replicas: Option<int>, standby: Option<int>, userns: Option<bool>)

  type PerService = map<string, Preferences>

  const UNREAD := {"container_name", "healthcheck", "networks", "build"}

  function First<T>(own: Option<T>, general: Option<T>, otherwise: T): T {
    if own.Some? then own.value else if general.Some? then general.value else otherwise
  }

  function PreferencesFor(perService: PerService, name: string): Preferences {
    if name in perService then perService[name] else Preferences(None, None, None)
  }

  /** The settings of one service after conversion, everything else as in the file. */
  function WithPreferences(svc: Service, own: Preferences, general: Preferences): Service {
    var replicas, standby := First(own.replicas, general.replicas, 1), First(own.standby, general.standby, 0);
    svc.(replicas := if replicas > 0 then Some(replicas) else svc.replicas,
         standby := if standby > 0 then standby else svc.standby,
         usernsRemap := First(own.userns, general.userns, false))
  }

  function UIText(text: string, env: Object): string {
    UIInterpolate(text, env, 0)
  }

  function ConvertedValue(v: Value, env: Object): Value {
    if v.Text? then Text(UIText(v.text, env)) else v
  }

  function ConvertedEnvironment(e: Environment, env: Object): Environment {
    match e
    case NoEnvironment => e
    case EnvironmentList(items) =>
      EnvironmentList(seq(|items|, i requires 0 <= i < |items| => ConvertedValue(items[i], env)))
    case EnvironmentMap(entries) => EnvironmentMap(map k | k in entries :: ConvertedValue(entries[k], env))
  }

  function Head(v: string): string {
    if v == "" || v[0] == ':' then "" else [v[0]] + Head(v[1..])
  }

  /** A named volume with a device binding becomes a host path. */
  function Flattened(devices: Devices, v: string): string {
    if '/' in v || HasPrefix(v, ".") || Head(v) !in devices then v
    else match devices[Head(v)]
         case None => v
         case Some(device) => if device == "" then v else device + ":" + AfterHead(v)
  }

  function AfterHead(v: string): string {
    if v == "" then "" else if v[0] == ':' then v[1..] else AfterHead(v[1..])
  }

  function TextsIn(texts: seq<string>, env: Object): (r: seq<string>)
    ensures |r| == |texts| && forall i :: 0 <= i < |r| ==> r[i] == UIText(texts[i], env)
  {
    seq(|texts|, i requires 0 <= i < |texts| => UIText(texts[i], env))
  }

  function FlattenedIn(devices: Devices, volumes: seq<string>): (r: seq<string>)
    ensures |r| == |volumes| && forall i :: 0 <= i < |r| ==> r[i] == Flattened(devices, volumes[i])
  {
    seq(|volumes|, i requires 0 <= i < |volumes| => Flattened(devices, volumes[i]))
  }

  /** A service after the first loop, and after the second. */
  function InterpolatedService(svc: Service, own: Preferences, general: Preferences, env: Object): Service {
    WithPreferences(svc, own, general).(
      image := UIText(svc.image, env),
      environment := ConvertedEnvironment(svc.environment, env),
      volumes := TextsIn(svc.volumes, env),
      unread := svc.unread - UNREAD)
  }

  function FlattenedService(svc: Service, devices: Devices): Service {
    svc.(volumes := FlattenedIn(devices, svc.volumes))
  }

  function InterpolatedServices(services: ComposeFile, perService: PerService, general: Preferences,
          env: Object): ComposeFile {
    map name | name in services :: InterpolatedService(services[name], PreferencesFor(perService, name), general, env)
  }

  function FlattenedServices(services: ComposeFile, devices: Devices): ComposeFile {
    map name | name in services :: FlattenedService(services[name], devices)
  }

  function Converted(doc: Document, perService: PerService, general: Preferences, env: Object): Document {
    Document(FlattenedServices(InterpolatedServices(doc.services, perService, general, env), doc.volumes), map[], false)
  }

  // ---- the converter --------------------------------------------------------------------------------------

  method ConvertService(parsed: Service, own: Preferences, general: Preferences, env: Object) returns (svc: Service)
    ensures svc == InterpolatedService(parsed, own, general, env)
  {
    svc := parsed.(unread := parsed.unread - UNREAD);
    if svc.image != "" {
      svc := svc.(image := UIText(svc.image, env));
    }
    svc := svc.(environment := ConvertedEnvironment(svc.environment, env));
    svc := svc.(volumes := TextsIn(svc.volumes, env));
    var replicas := First(own.replicas, general.replicas, 1);
    if replicas > 0 {
      svc := svc.(replicas := Some(replicas));
    }
    var standby := First(own.standby, general.standby, 0);
    if standby > 0 {
      svc := svc.(standby := standby);
    }
    svc := svc.(usernsRemap := First(own.userns, general.userns, false));
  }

  method ConvertServices(parsed: ComposeFile, perService: PerService, general: Preferences, env: Object)
    returns (services: ComposeFile)
    ensures services == InterpolatedServices(parsed, perService, general, env)
  {
    services := parsed;
    var todo := services.Keys;
    while todo != {}
      invariant todo <= services.Keys == parsed.Keys
      invariant forall k :: k in services ==>
        services[k] == if k in todo then parsed[k]
          else InterpolatedService(parsed[k], PreferencesFor(perService, k), general, env)
      decreases todo
    {
      var name :| name in todo;
      var svc := ConvertService(services[name], PreferencesFor(perService, name), general, env);
      services := services[name := svc];
      todo := todo - {name};
    }
  }

  method FlattenServices(interpolated: ComposeFile, devices: Devices) returns (services: ComposeFile)
    ensures services == FlattenedServices(interpolated, devices)
  {
    services := interpolated;
    var todo := services.Keys;
    while todo != {}
      invariant todo <= services.Keys == interpolated.Keys
      invariant forall k :: k in services ==>
        services[k] == if k in todo then interpolated[k] else FlattenedService(interpolated[k], devices)
      decreases todo
    {
      var name :| name in todo;
      services := services[name := services[name].(volumes := FlattenedIn(devices, services[name].volumes))];
      todo := todo - {name};
    }
  }

  method ConvertCompose(parsed: Document, perService: PerService, general: Preferences, env: Object)
    returns (result: Document)
    ensures result == Converted(parsed, perService, general, env)
  {
    result := parsed.(hasNetworks := false);
    var services := ConvertServices(result.services, perService, general, env);
    services := FlattenServices(services, result.volumes);
    result := result.(volumes := map[]);
    result := result.(services := services);
  }

  // ---- what conversion preserves ------------------------------------------------------------------------------

  /** The file with the user's settings and nothing else changed. */
  function Preferred(services: ComposeFile, perService: PerService, general: Preferences): ComposeFile {
    map name | name in services :: WithPreferences(services[name], PreferencesFor(perService, name), general)
  }

  /** None of the text's references gets an inherited answer that shows, and none is left behind. */
  ghost predicate Clean(text: string, env: Object) {
    Independent(text, env) && NoReferences(Interpolate(text, env.own))
  }

  ghost predicate CleanValue(v: Value, env: Object) {
    v.Text? ==> Clean(v.text, env)
  }

  ghost predicate CleanEnvironment(e: Environment, env: Object) {
    match e
    case NoEnvironment => true
    case EnvironmentList(items) => forall i :: 0 <= i < |items| ==> CleanValue(items[i], env)
    case EnvironmentMap(entries) => forall k :: k in entries ==> CleanValue(entries[k], env)
  }

  /** A volume that the UI interpolates as the server would, and does not rewrite. */
  ghost predicate CleanVolume(volume: string, devices: Devices, env: Object) {
    Clean(volume, env) && Flattened(devices, Interpolate(volume, env.own)) == Interpolate(volume, env.own)
  }

  /** Each text is clean, interpolation does not turn the image into a database's or away from one, and no volume is
      bound to a device. */
  ghost predicate Translatable(svc: Service, devices: Devices, env: Object) {
    Clean(svc.image, env) && CleanEnvironment(svc.environment, env) &&
    (Mentions(svc.image, "postgres") <==> Mentions(Interpolate(svc.image, env.own), "postgres")) &&
    forall i :: 0 <= i < |svc.volumes| ==> CleanVolume(svc.volumes[i], devices, env)
  }

  /** The server, given the UI's text and no environment, gets what it gets from the original text and the environment,
      exactly when the text it is given has no reference left. */
  lemma TextTranslates(text: string, env: Object)
    requires Independent(text, env)
    ensures UIText(text, env) == Interpolate(text, env.own)
    ensures Interpolate(UIText(text, env), map[]) == Interpolate(text, env.own) <==>
      NoReferences(Interpolate(text, env.own))
  {
    hide Interpolated, UIInterpolate, ServerInterpolate, References;
    ProgramsAgreeOnText(text, env);
    ServerRefines(text, env.own, 0);
    SecondPassIsIdentityExactlyWhen(Interpolate(text, env.own));
  }

  function Bare(job: Job): Job {
    job.(env := map[])
  }

  lemma ValueTranslates(v: Value, env: Object)
    requires CleanValue(v, env)
    ensures ListedItem(ConvertedValue(v, env), map[]) == ListedItem(v, env.own)
  {
    if v.Text? { TextTranslates(v.text, env); }
  }

  lemma {:induction false} ListTranslates(items: seq<Value>, env: Object)
    requires forall i :: 0 <= i < |items| ==> CleanValue(items[i], env)
    ensures ListedEnvironment(ConvertedEnvironment(EnvironmentList(items), env).items, map[]) ==
      ListedEnvironment(items, env.own)
  {
    hide UIText, Interpolate, ListedItem, ConvertedValue, CleanValue;
    if items != [] {
      var front, last := items[..|items| - 1], items[|items| - 1];
      var converted := ConvertedEnvironment(EnvironmentList(items), env).items;
      assert converted[..|items| - 1] == ConvertedEnvironment(EnvironmentList(front), env).items;
      ListTranslates(front, env);
      ValueTranslates(last, env);
    }
  }

  lemma {:induction false} MapTranslates(entries: map<string, Value>, order: seq<string>, env: Object)
    requires forall k :: k in entries ==> CleanValue(entries[k], env)
    ensures MappedEnvironment(ConvertedEnvironment(EnvironmentMap(entries), env).entries, order, map[]) ==
      MappedEnvironment(entries, order, env.own)
  {
    if order != [] {
      var k := order[|order| - 1];
      MapTranslates(entries, order[..|order| - 1], env);
      if k in entries && entries[k].Text? { TextTranslates(entries[k].text, env); }
    }
  }

  lemma VolumeTranslates(job: Job, volume: string, devices: Devices, env: Object)
    requires job.env == env.own && CleanVolume(volume, devices, env)
    ensures VolumeOf(Bare(job), Flattened(devices, UIText(volume, env))) == VolumeOf(job, volume)
  {
    hide Flattened, Interpolate, UIText;
    TextTranslates(volume, env);
  }

  lemma {:induction false} VolumesTranslate(job: Job, volumes: seq<string>, devices: Devices, env: Object)
    requires job.env == env.own && forall i :: 0 <= i < |volumes| ==> CleanVolume(volumes[i], devices, env)
    ensures VolumesOf(Bare(job), FlattenedIn(devices, TextsIn(volumes, env))) == VolumesOf(job, volumes)
  {
    hide Flattened, Interpolate, UIText, CleanVolume, VolumeOf;
    if volumes != [] {
      var front, last := volumes[..|volumes| - 1], volumes[|volumes| - 1];
      assert FlattenedIn(devices, TextsIn(volumes, env))[..|volumes| - 1] == FlattenedIn(devices, TextsIn(front, env));
      VolumesTranslate(job, front, devices, env);
      VolumeTranslates(job, last, devices, env);
    }
  }

  lemma EnvironmentTranslates(e: Environment, order: seq<string>, env: Object)
    requires CleanEnvironment(e, env)
    ensures BaseEnvironment(ConvertedEnvironment(e, env), order, map[]) == BaseEnvironment(e, order, env.own)
  {
    match e
    case NoEnvironment =>
    case EnvironmentList(items) => ListTranslates(items, env);
    case EnvironmentMap(entries) => MapTranslates(entries, order, env);
  }

  lemma ReplicaTranslates(job: Job, name: string, svc: Service, own: Preferences, general: Preferences,
          devices: Devices, env: Object, order: seq<string>,
                          kind: Kind, index: nat)
    requires job.env == env.own && Translatable(svc, devices, env)
    ensures Replica(Bare(job), name, FlattenedService(InterpolatedService(svc, own, general, env), devices), order,
      kind, index)
      == Replica(job, name, WithPreferences(svc, own, general), order, kind, index)
  {
    hide Flattened, Interpolate, UIText, Mentions, CleanEnvironment, Independent, NoReferences, CleanVolume, VolumesOf,
      BaseEnvironment, BaseName;
    TextTranslates(svc.image, env);
    EnvironmentTranslates(svc.environment, order, env);
    VolumesTranslate(job, svc.volumes, devices, env);
  }

  lemma {:induction false} ExpansionTranslates(job: Job, name: string, svc: Service, own: Preferences,
          general: Preferences, devices: Devices, env: Object, order: seq<string>,
                          kind: Kind, n: nat)
    requires job.env == env.own && Translatable(svc, devices, env)
    ensures Expanded(Bare(job), name, FlattenedService(InterpolatedService(svc, own, general, env), devices), order,
      kind, n)
      == Expanded(job, name, WithPreferences(svc, own, general), order, kind, n)
  {
    hide Replica, Translatable;
    if n > 0 {
      ExpansionTranslates(job, name, svc, own, general, devices, env, order, kind, n - 1);
      ReplicaTranslates(job, name, svc, own, general, devices, env, order, kind, n - 1);
    }
  }

  lemma ServiceTranslates(job: Job, name: string, svc: Service, own: Preferences, general: Preferences,
          devices: Devices, env: Object, order: seq<string>)
    requires job.env == env.own && Translatable(svc, devices, env)
    ensures PodsOf(Bare(job), name, FlattenedService(InterpolatedService(svc, own, general, env), devices), order)
      == PodsOf(job, name, WithPreferences(svc, own, general), order)
  {
    hide Replica, Translatable, Expanded, UIText, ConvertedEnvironment, TextsIn, FlattenedIn;
    ExpansionTranslates(job, name, svc, own, general, devices, env, order, ActiveReplica,
      Replicas(WithPreferences(svc, own, general)));
    ExpansionTranslates(job, name, svc, own, general, devices, env, order, StandbyReplica,
      Standbys(WithPreferences(svc, own, general)));
  }

  lemma {:induction false} FileTranslates(job: Job, doc: Document, perService: PerService, general: Preferences,
          env: Object, v: Visit, names: seq<string>)
    requires job.env == env.own
    requires forall name :: name in doc.services ==> Translatable(doc.services[name], doc.volumes, env)
    ensures Parsed(Bare(job), Converted(doc, perService, general, env).services, v, names)
      == Parsed(job, Preferred(doc.services, perService, general), v, names)
  {
    hide Translatable, PodsOf, FlattenedService, InterpolatedService, WithPreferences;
    if names != [] {
      var last := names[|names| - 1];
      FileTranslates(job, doc, perService, general, env, v, names[..|names| - 1]);
      if last in doc.services && last in v.entries {
        ServiceTranslates(job, last, doc.services[last], PreferencesFor(perService, last), general, doc.volumes, env,
          v.entries[last]);
      }
    }
  }

  lemma SameKeys(doc: Document, perService: PerService, general: Preferences, env: Object)
    ensures var to, from := Converted(doc, perService, general, env).services,
      Preferred(doc.services, perService, general);
      to.Keys == from.Keys && forall name :: name in to ==> EnvironmentKeys(to[name]) == EnvironmentKeys(from[name])
  {
    var to, from := Converted(doc, perService, general, env).services, Preferred(doc.services, perService, general);
    forall name | name in to ensures EnvironmentKeys(to[name]) == EnvironmentKeys(from[name]) {}
  }

  lemma SameVisits(doc: Document, perService: PerService, general: Preferences, env: Object, v: Visit)
    ensures Visits(v, Converted(doc, perService, general, env).services) <==>
      Visits(v, Preferred(doc.services, perService, general))
  {
    SameKeys(doc, perService, general, env);
    hide Lists, Converted, Preferred, EnvironmentKeys;
  }

  /** Translation preserves meaning: what the server parses from the converted file, with no environment, is what it
      parses from the original with the environment and the user's settings: the same pods, equally often, up to the
      order of environment entries. */
  lemma TranslationPreservesMeaning(job: Job, doc: Document, perService: PerService, general: Preferences,
          env: Object, v: Visit, w: Visit)
    requires job.env == env.own
    requires forall name :: name in doc.services ==> Translatable(doc.services[name], doc.volumes, env)
    requires forall name :: name in doc.services ==> OnePassword(doc.services[name], job.env)
    requires Visits(v, Converted(doc, perService, general, env).services)
    requires Visits(w, Preferred(doc.services, perService, general))
    ensures Shapes(Parsed(Bare(job), Converted(doc, perService, general, env).services, v, v.services))
      == Shapes(Parsed(job, Preferred(doc.services, perService, general), w, w.services))
  {
    FileTranslates(job, doc, perService, general, env, v, v.services);
    SameVisits(doc, perService, general, env, v);
    ParseIgnoresOrder(job, Preferred(doc.services, perService, general), v, w);
  }
}
