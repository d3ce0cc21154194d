/** The parser visits maps in no particular order.  Up to the order of environment entries it yields the same pods
    anyway, each as often. */
module ComposeOrder {
  import opened KeyOrder
  import opened Names
  import opened Pods
  import opened Interpolation
  import opened ComposeParser

  // ---- sums over a listing ------------------------------------------------------------------------------

  ghost function Sum<T>(order: seq<string>, f: string -> multiset<T>): multiset<T> {
    if order == [] then multiset{} else Sum(order[..|order| - 1], f) + f(order[|order| - 1])
  }

  function Without<T>(s: seq<T>, i: nat): seq<T>
    requires i < |s|
  {
    s[..i] + s[i + 1..]
  }

  lemma WithoutLast<T>(s: seq<T>, i: nat)
    requires i < |s|
    ensures var n := |s| - 1;
      if i == n then Without(s, i) == s[..n]
      else |Without(s, i)| == n && Without(s, i)[..n - 1] == Without(s[..n], i) &&
           Without(s, i)[n - 1] == s[n] && s[..n][i] == s[i]
  {
    if i < |s| - 1 {
      var n := |s| - 1;
      assert forall k :: 0 <= k < n - 1 ==> Without(s, i)[k] == Without(s[..n], i)[k];
    }
  }

  lemma {:induction false} SumWithout<T>(order: seq<string>, f: string -> multiset<T>, i: nat)
    requires i < |order|
    ensures Sum(order, f) == Sum(Without(order, i), f) + f(order[i])
  {
    var n := |order| - 1;
    WithoutLast(order, i);
    if i < n {
      hide Without;
      SumWithout(order[..n], f, i);
      assert Sum(Without(order, i), f) == Sum(Without(order[..n], i), f) + f(order[n]);
    }
  }

  lemma ListsWithout(order: seq<string>, keys: set<string>, i: nat)
    requires Lists(order, keys) && i < |order|
    ensures Lists(Without(order, i), keys - {order[i]})
  {
    var rest := Without(order, i);
    forall k | k in keys - {order[i]} ensures k in rest {
      var j :| 0 <= j < |order| && order[j] == k;
      assert rest[if j < i then j else j - 1] == k;
    }
  }

  /** A sum over a set of keys does not depend on the order in which they are listed. */
  lemma {:induction false} SumIgnoresOrder<T>(a: seq<string>, b: seq<string>, keys: set<string>,
          f: string -> multiset<T>)
    requires Lists(a, keys) && Lists(b, keys)
    ensures Sum(a, f) == Sum(b, f)
    decreases |a|
  {
    assert b != [] ==> b[0] in b;
    if a != [] {
      var n := |a| - 1;
      assert a[n] in keys;
      var j :| 0 <= j < |b| && b[j] == a[n];
      ListsWithout(a, keys, n);
      ListsWithout(b, keys, j);
      assert Without(a, n) == a[..n];
      SumWithout(b, f, j);
      SumIgnoresOrder(a[..n], Without(b, j), keys - {a[n]}, f);
    }
  }

  // ---- pods up to the order of their environment ------------------------------------------------------------

  datatype Shape = Shape(pod: Pod, env: multiset<string>)

  function ShapeOf(p: Pod): Shape {
    Shape(p.(env := []), multiset(p.env))
  }

  ghost function Shapes(pods: seq<Pod>): multiset<Shape> {
    if pods == [] then multiset{} else Shapes(pods[..|pods| - 1]) + multiset{ShapeOf(pods[|pods| - 1])}
  }

  lemma {:induction false} ShapesAppend(a: seq<Pod>, b: seq<Pod>)
    ensures Shapes(a + b) == Shapes(a) + Shapes(b)
    decreases |b|
  {
    if b == [] {
      assert a + b == a;
    } else {
      assert (a + b)[..|a + b| - 1] == a + b[..|b| - 1];
      ShapesAppend(a, b[..|b| - 1]);
    }
  }

  lemma {:induction false} MappedIsSum(entries: map<string, Value>, order: seq<string>, env: Env)
    ensures multiset(MappedEnvironment(entries, order, env)) ==
      Sum(order, (k: string) => multiset(MappedItem(entries, k, env)))
  {
    if order != [] { MappedIsSum(entries, order[..|order| - 1], env); }
  }

  // ---- database passwords ---------------------------------------------------------------------------------

  /** The entries that set a database password. */
  function Passwords(envList: seq<string>): multiset<string> {
    if envList == [] then multiset{} else
      var last := envList[|envList| - 1];
      Passwords(envList[..|envList| - 1]) + if HasPrefix(last, POSTGRES_PASSWORD) then multiset{last} else multiset{}
  }

  lemma {:induction false} PasswordsAppend(a: seq<string>, b: seq<string>)
    ensures Passwords(a + b) == Passwords(a) + Passwords(b)
    decreases |b|
  {
    if b == [] {
      assert a + b == a;
    } else {
      assert (a + b)[..|a + b| - 1] == a + b[..|b| - 1];
      PasswordsAppend(a, b[..|b| - 1]);
    }
  }

  lemma {:induction false} PasswordsAreSum(entries: map<string, Value>, order: seq<string>, env: Env)
    ensures Passwords(MappedEnvironment(entries, order, env)) ==
      Sum(order, (k: string) => Passwords(MappedItem(entries, k, env)))
  {
    if order != [] {
      var front, last := order[..|order| - 1], order[|order| - 1];
      PasswordsAreSum(entries, front, env);
      PasswordsAppend(MappedEnvironment(entries, front, env), MappedItem(entries, last, env));
    }
  }

  predicate SetsPassword(entries: map<string, Value>, k: string, env: Env) {
    k in entries && Passwords(MappedItem(entries, k, env)) != multiset{}
  }

  /** A database whose environment is a map has at most one entry there that sets its password. */
  predicate OnePassword(svc: Service, env: Env) {
    Mentions(svc.image, "postgres") && svc.environment.EnvironmentMap? ==>
      var entries := svc.environment.entries;
      forall k, l :: k in entries && l in entries && SetsPassword(entries, k, env) && SetsPassword(entries, l, env) ==>
        k == l
  }

  lemma {:induction false} AtMostOnePassword(entries: map<string, Value>, order: seq<string>, keys: set<string>,
          env: Env)
    requires Lists(order, keys) && keys <= entries.Keys
    requires forall k, l :: k in keys && l in keys && SetsPassword(entries, k, env) && SetsPassword(entries, l, env) ==>
      k == l
    ensures |Passwords(MappedEnvironment(entries, order, env))| <= 1
    ensures Passwords(MappedEnvironment(entries, order, env)) != multiset{} ==>
      exists k :: k in keys && SetsPassword(entries, k, env)
    decreases |order|
  {
    if order != [] {
      var n := |order| - 1;
      var last := order[n];
      assert last in order && Without(order, n) == order[..n];
      ListsWithout(order, keys, n);
      AtMostOnePassword(entries, order[..n], keys - {last}, env);
      PasswordsAppend(MappedEnvironment(entries, order[..n], env), MappedItem(entries, last, env));
      OnePasswordPerItem(entries, last, env);
      if SetsPassword(entries, last, env) {
        assert Passwords(MappedEnvironment(entries, order[..n], env)) == multiset{};
      }
    }
  }

  lemma OnePasswordPerItem(entries: map<string, Value>, k: string, env: Env)
    ensures |Passwords(MappedItem(entries, k, env))| <= 1
  {
    hide HasPrefix;
    assert Passwords([]) == multiset{};
  }

  /** With at most one password entry, what filling it in does to the entries does not depend on their order. */
  function Filled(image: string, entries: multiset<string>, passwords: multiset<string>,
          password: string): multiset<string> {
    if !Mentions(image, "postgres") then entries
    else if passwords == multiset{} then entries + multiset{POSTGRES_PASSWORD + password}
    else if POSTGRES_PASSWORD in passwords
      then entries - multiset{POSTGRES_PASSWORD} + multiset{POSTGRES_PASSWORD + password}
    else entries
  }

  lemma {:induction false} FirstPassword(envList: seq<string>)
    ensures var i := PasswordIndex(envList);
      if i == |envList| then Passwords(envList) == multiset{}
      else HasPrefix(envList[i], POSTGRES_PASSWORD) && envList[i] in Passwords(envList)
  {
    hide HasPrefix;
    if envList != [] {
      FirstPassword(envList[1..]);
      assert [envList[0]] + envList[1..] == envList;
      PasswordsAppend([envList[0]], envList[1..]);
      assert [envList[0]][..0] == [];
    }
  }

  lemma FillingIgnoresOrder(image: string, envList: seq<string>, password: string)
    requires |Passwords(envList)| <= 1
    ensures multiset(WithPassword(image, envList, password)) ==
      Filled(image, multiset(envList), Passwords(envList), password)
  {
    hide HasPrefix, Mentions;
    var i := PasswordIndex(envList);
    FirstPassword(envList);
    if i < |envList| {
      var p := envList[i];
      assert Passwords(envList) == multiset{p} by { OnlyMember(Passwords(envList), p); }
      assert |p| == |POSTGRES_PASSWORD| <==> p == POSTGRES_PASSWORD by { WholePrefix(p); }
      assert multiset(envList[i := POSTGRES_PASSWORD + password]) ==
        multiset(envList) - multiset{p} + multiset{POSTGRES_PASSWORD + password};
    }
  }

  lemma WholePrefix(p: string)
    requires HasPrefix(p, POSTGRES_PASSWORD)
    ensures |p| == |POSTGRES_PASSWORD| <==> p == POSTGRES_PASSWORD
  {
  }

  lemma OnlyMember<T>(m: multiset<T>, x: T)
    requires x in m && |m| <= 1
    ensures m == multiset{x}
  {
    assert m == multiset{x} + (m - multiset{x});
  }

  lemma EnvironmentIgnoresOrder(job: Job, name: string, svc: Service, a: seq<string>, b: seq<string>)
    requires OnePassword(svc, job.env) && Lists(a, EnvironmentKeys(svc)) && Lists(b, EnvironmentKeys(svc))
    ensures multiset(EnvironmentOf(job, name, svc, a)) == multiset(EnvironmentOf(job, name, svc, b))
  {
    hide WithPassword, Mentions, SetsPassword;
    match svc.environment
    case EnvironmentMap(entries) =>
      MappedIsSum(entries, a, job.env);
      MappedIsSum(entries, b, job.env);
      SumIgnoresOrder(a, b, entries.Keys, (k: string) => multiset(MappedItem(entries, k, job.env)));
      if Mentions(svc.image, "postgres") {
        PasswordsAreSum(entries, a, job.env);
        PasswordsAreSum(entries, b, job.env);
        SumIgnoresOrder(a, b, entries.Keys, (k: string) => Passwords(MappedItem(entries, k, job.env)));
        AtMostOnePassword(entries, a, entries.Keys, job.env);
        FillingIgnoresOrder(svc.image, MappedEnvironment(entries, a, job.env), job.passwords(name));
        FillingIgnoresOrder(svc.image, MappedEnvironment(entries, b, job.env), job.passwords(name));
      } else {
        NoDatabase(svc.image, MappedEnvironment(entries, a, job.env), job.passwords(name));
        NoDatabase(svc.image, MappedEnvironment(entries, b, job.env), job.passwords(name));
      }
    case _ =>
  }

  lemma NoDatabase(image: string, envList: seq<string>, password: string)
    requires !Mentions(image, "postgres")
    ensures WithPassword(image, envList, password) == envList
  {
  }

  lemma ReplicaIgnoresOrder(job: Job, name: string, svc: Service, a: seq<string>, b: seq<string>, kind: Kind,
          index: nat)
    requires multiset(EnvironmentOf(job, name, svc, a)) == multiset(EnvironmentOf(job, name, svc, b))
    ensures ShapeOf(Replica(job, name, svc, a, kind, index)) == ShapeOf(Replica(job, name, svc, b, kind, index))
  {
    hide EnvironmentOf, VolumesOf, Dependencies, ImageOf, BaseName;
  }

  lemma ShapesOneMore(pods: seq<Pod>, p: Pod)
    ensures Shapes(pods + [p]) == Shapes(pods) + multiset{ShapeOf(p)}
  {
    assert (pods + [p])[..|pods|] == pods;
  }

  lemma {:induction false} ExpansionIgnoresOrder(job: Job, name: string, svc: Service, a: seq<string>,
          b: seq<string>, kind: Kind, n: nat)
    requires multiset(EnvironmentOf(job, name, svc, a)) == multiset(EnvironmentOf(job, name, svc, b))
    ensures Shapes(Expanded(job, name, svc, a, kind, n)) == Shapes(Expanded(job, name, svc, b, kind, n))
  {
    hide EnvironmentOf, Replica, Shapes, ShapeOf;
    if n > 0 {
      ExpansionIgnoresOrder(job, name, svc, a, b, kind, n - 1);
      ReplicaIgnoresOrder(job, name, svc, a, b, kind, n - 1);
      ShapesOneMore(Expanded(job, name, svc, a, kind, n - 1), Replica(job, name, svc, a, kind, n - 1));
      ShapesOneMore(Expanded(job, name, svc, b, kind, n - 1), Replica(job, name, svc, b, kind, n - 1));
    } else {
      assert Expanded(job, name, svc, a, kind, n) == [] == Expanded(job, name, svc, b, kind, n);
    }
  }

  ghost function ShapesOfService(job: Job, file: ComposeFile, v: Visit, name: string): multiset<Shape> {
    Shapes(PodsOfService(job, file, v, name))
  }

  lemma {:induction false} ParsedIsSum(job: Job, file: ComposeFile, v: Visit, names: seq<string>)
    ensures Shapes(Parsed(job, file, v, names)) == Sum(names, (name: string) => ShapesOfService(job, file, v, name))
  {
    if names != [] {
      var front, last := names[..|names| - 1], names[|names| - 1];
      ParsedIsSum(job, file, v, front);
      ShapesAppend(Parsed(job, file, v, front), PodsOfService(job, file, v, last));
    }
  }

  lemma ServiceIgnoresOrder(job: Job, file: ComposeFile, v: Visit, w: Visit, name: string)
    requires Visits(v, file) && Visits(w, file) && (name in file ==> OnePassword(file[name], job.env))
    ensures ShapesOfService(job, file, v, name) == ShapesOfService(job, file, w, name)
  {
    if name in file {
      var svc, a, b := file[name], v.entries[name], w.entries[name];
      EnvironmentIgnoresOrder(job, name, svc, a, b);
      ExpansionIgnoresOrder(job, name, svc, a, b, ActiveReplica, Replicas(svc));
      ExpansionIgnoresOrder(job, name, svc, a, b, StandbyReplica, Standbys(svc));
      ShapesAppend(Expanded(job, name, svc, a, ActiveReplica, Replicas(svc)),
        Expanded(job, name, svc, a, StandbyReplica, Standbys(svc)));
      ShapesAppend(Expanded(job, name, svc, b, ActiveReplica, Replicas(svc)),
        Expanded(job, name, svc, b, StandbyReplica, Standbys(svc)));
    }
  }

  lemma {:induction false} SameTerms<T>(order: seq<string>, f: string -> multiset<T>, g: string -> multiset<T>)
    requires forall k :: k in order ==> f(k) == g(k)
    ensures Sum(order, f) == Sum(order, g)
  {
    if order != [] { SameTerms(order[..|order| - 1], f, g); }
  }

  /** Two parses of one file, visiting it in any two orders and drawing the same passwords, yield the same pods equally
      often, up to the order of environment entries. */
  lemma ParseIgnoresOrder(job: Job, file: ComposeFile, v: Visit, w: Visit)
    requires Visits(v, file) && Visits(w, file)
    requires forall name :: name in file ==> OnePassword(file[name], job.env)
    ensures Shapes(Parsed(job, file, v, v.services)) == Shapes(Parsed(job, file, w, w.services))
  {
    var f := (name: string) => ShapesOfService(job, file, v, name);
    var g := (name: string) => ShapesOfService(job, file, w, name);
    ParsedIsSum(job, file, v, v.services);
    ParsedIsSum(job, file, w, w.services);
    forall name | name in v.services ensures f(name) == g(name) { ServiceIgnoresOrder(job, file, v, w, name); }
    SameTerms(v.services, f, g);
    SumIgnoresOrder(v.services, w.services, file.Keys, g);
  }
}
