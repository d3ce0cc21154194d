/** What the UI's converter makes of a compose file, field by field. */
module ConverterRules {
  import opened Option
  import opened Interpolation
  import opened ComposeParser
  import opened ComposeTranslation

  // ---- volumes --------------------------------------------------------------------------------------

  /** The volume has no slash and no leading dot, and what comes before its first colon, or all of it, names a volume
      that is bound to this device. */
  predicate BoundTo(devices: Devices, v: string, name: string, mount: string, device: string) {
    SplitsAt(v, name, mount) && '/' !in v && !("." <= v) &&
    name in devices && devices[name] == Some(device) && device != ""
  }

  /** Such a volume becomes the device with the same mount; any other volume stays as it is. */
  ghost predicate IsFlat(devices: Devices, v: string, flat: string) {
    (forall name, mount, device :: BoundTo(devices, v, name, mount, device) ==> flat == device + ":" + mount) &&
    ((forall name, mount, device :: !BoundTo(devices, v, name, mount, device)) ==> flat == v)
  }

  /** What comes before the first colon, or all there is, and what comes after it. */
  predicate SplitsAt(v: string, name: string, mount: string) {
    ':' !in name && (v == name + ":" + mount || (v == name && mount == ""))
  }

  lemma {:induction false} HeadExactly(v: string)
    ensures SplitsAt(v, Head(v), AfterHead(v))
  {
    if v != "" && v[0] != ':' {
      HeadExactly(v[1..]);
      assert v == [v[0]] + v[1..];
    }
  }

  lemma OneSplit(v: string, a: string, m: string, b: string, n: string)
    requires SplitsAt(v, a, m) && SplitsAt(v, b, n)
    ensures a == b && m == n
  {
    assert v[..|a|] == a && v[..|b|] == b;
    assert |a| < |v| ==> v[|a|] == ':';
    assert |b| < |v| ==> v[|b|] == ':';
    assert forall k :: 0 <= k < |a| ==> v[k] == a[k];
    assert forall k :: 0 <= k < |b| ==> v[k] == b[k];
    assert |a| == |b|;
    if |a| < |v| { assert v[|a| + 1..] == m && v[|b| + 1..] == n; }
  }

  lemma FlattenedExactly(devices: Devices, v: string)
    ensures IsFlat(devices, v, Flattened(devices, v))
  {
    HeadExactly(v);
    forall name, mount | SplitsAt(v, name, mount) ensures name == Head(v) && mount == AfterHead(v) {
      OneSplit(v, name, mount, Head(v), AfterHead(v));
    }
    hide Head, AfterHead, SplitsAt;
    var head := Head(v);
    if '/' !in v && !("." <= v) && head in devices && devices[head].Some? && devices[head].value != "" {
      assert BoundTo(devices, v, head, AfterHead(v), devices[head].value);
    }
  }

  // ---- services -------------------------------------------------------------------------------------

  /** Texts interpolated by the UI; other values stay. */
  predicate IsValue(v: Value, env: Object, w: Value) {
    match v
    case Text(text) => w == Text(UIInterpolate(text, env, 0))
    case NotText => w == NotText
  }

  ghost predicate AreValues(entries: map<string, Value>, env: Object, converted: map<string, Value>) {
    converted.Keys == entries.Keys && forall k :: k in entries ==> IsValue(entries[k], env, converted[k])
  }

  ghost predicate IsConvertedEnvironment(e: Environment, env: Object, f: Environment) {
    match e
    case NoEnvironment => f == NoEnvironment
    case EnvironmentList(items) => f.EnvironmentList? && |f.items| == |items| &&
      forall i :: 0 <= i < |items| ==> IsValue(items[i], env, f.items[i])
    case EnvironmentMap(entries) => f.EnvironmentMap? && AreValues(entries, env, f.entries)
  }

  /** The service's own setting comes before the general one, and that before what is usual. */
  predicate IsSetting<T(==)>(own: Option<T>, general: Option<T>, usual: T, setting: T) {
    match own
    case Some(x) => setting == x
    case None => match general
      case Some(x) => setting == x
      case None => setting == usual
  }

  /** A number chosen in the UI counts if it is positive; otherwise the file's own stays. */
  ghost predicate IsConverted(svc: Service, own: Preferences, general: Preferences, devices: Devices, env: Object,
    out: Service) {
    && out.image == UIInterpolate(svc.image, env, 0)
    && out.user == svc.user && out.ports == svc.ports && out.dependsOn == svc.dependsOn
    && out.unread == svc.unread - {"container_name", "healthcheck", "networks", "build"}
    && IsConvertedEnvironment(svc.environment, env, out.environment)
    && |out.volumes| == |svc.volumes|
    && (forall i :: 0 <= i < |svc.volumes| ==> IsFlat(devices, UIInterpolate(svc.volumes[i], env, 0), out.volumes[i]))
    && (forall n :: IsSetting(own.replicas, general.replicas, 1, n) ==>
          out.replicas == if n > 0 then Some(n) else svc.replicas)
    && (forall n :: IsSetting(own.standby, general.standby, 0, n) ==> out.standby == if n > 0 then n else svc.standby)
    && IsSetting(own.userns, general.userns, false, out.usernsRemap)
  }

  lemma ConvertedServiceExactly(svc: Service, own: Preferences, general: Preferences, devices: Devices, env: Object)
    ensures IsConverted(svc, own, general, devices, env,
                        FlattenedService(InterpolatedService(svc, own, general, env), devices))
  {
    hide UIInterpolate, Flattened, IsFlat;
    forall i | 0 <= i < |svc.volumes|
      ensures IsFlat(devices, UIInterpolate(svc.volumes[i], env, 0),
                     Flattened(devices, UIInterpolate(svc.volumes[i], env, 0)))
    {
      FlattenedExactly(devices, UIInterpolate(svc.volumes[i], env, 0));
    }
  }

  /** The converted file has the same services, each converted under its own settings if it has any, and neither named
      volumes nor networks. */
  lemma ConvertedExactly(doc: Document, perService: PerService, general: Preferences, env: Object)
    ensures var out := Converted(doc, perService, general, env);
      && out.services.Keys == doc.services.Keys && out.volumes == map[] && !out.hasNetworks
      && forall name :: name in doc.services ==>
        IsConverted(doc.services[name],
                    if name in perService then perService[name] else Preferences(None, None, None),
                    general, doc.volumes, env, out.services[name])
  {
    hide IsConverted, FlattenedService, InterpolatedService;
    forall name | name in doc.services
      ensures IsConverted(doc.services[name],
                          if name in perService then perService[name] else Preferences(None, None, None),
                          general, doc.volumes, env, Converted(doc, perService, general, env).services[name])
    {
      ConvertedServiceExactly(doc.services[name], PreferencesFor(perService, name), general, doc.volumes, env);
    }
  }
}
