/** The names the system generates: replica names, rolling-update names, replacement-standby names and store keys.
    They are plain string concatenations, so that no two of them collide has to be proved. */
module Names {

  const DIGITS := "0123456789"

  /** Replica counts and indices stay below this bound, clock readings in nanoseconds stay above it. */
  const INDEX_LIMIT: nat := 1_000_000_000

  /** The text that the format verb %d gives for a non-negative integer. */
  function Decimal(n: nat): string {
    if n < 10 then [DIGITS[n]] else Decimal(n / 10) + [DIGITS[n % 10]]
  }

  function DigitValue(c: char): nat {
    if '0' <= c <= '9' then (c - '0') as nat else 0
  }

  /** Reads a numeral back. */
  function Numeral(s: string): nat {
    if s == "" then 0 else 10 * Numeral(s[..|s| - 1]) + DigitValue(s[|s| - 1])
  }

  lemma {:induction false} NumeralOfDecimal(n: nat)
    ensures Numeral(Decimal(n)) == n
    ensures forall i :: 0 <= i < |Decimal(n)| ==> '0' <= Decimal(n)[i] <= '9'
    ensures |Decimal(n)| > 0
  {
    assert forall d :: 0 <= d < 10 ==> DigitValue(DIGITS[d]) == d && '0' <= DIGITS[d] <= '9';
    if n < 10 {
      assert Decimal(n)[..0] == "";
    } else {
      NumeralOfDecimal(n / 10);
      assert Decimal(n)[..|Decimal(n)| - 1] == Decimal(n / 10);
    }
  }

  /** Positional notation: the digits from 0 to 9, and a further digit behind the numeral of a number above 0. */
  lemma DecimalDigits(n: nat, d: nat)
    requires d < 10
    ensures Decimal(d) == [('0' as int + d) as char]
    ensures 0 < n ==> Decimal(10 * n + d) == Decimal(n) + Decimal(d)
  {
    assert DIGITS[d] == ('0' as int + d) as char;
    if 0 < n {
      assert (10 * n + d) / 10 == n && (10 * n + d) % 10 == d;
      assert Decimal(10 * n + d) == Decimal(n) + [DIGITS[d]];
    }
  }

  lemma DecimalInjective(m: nat, n: nat)
    requires Decimal(m) == Decimal(n)
    ensures m == n
  {
    NumeralOfDecimal(m);
    NumeralOfDecimal(n);
  }

  lemma DecimalDashFree(n: nat)
    ensures '-' !in Decimal(n)
  {
    NumeralOfDecimal(n);
  }

  /** A dash-free last token can be split off in only one way. */
  lemma LastToken(a: string, t: string, b: string, u: string)
    requires a + "-" + t == b + "-" + u
    requires '-' !in t && '-' !in u
    ensures a == b && t == u
  {
    var s := a + "-" + t;
    assert s[|a|] == '-' && s[|b|] == '-';
    assert forall i :: |a| < i < |s| ==> s[i] == t[i - |a| - 1];
    assert forall i :: |b| < i < |s| ==> s[i] == u[i - |b| - 1];
    assert |a| == |b|;
    assert a == s[..|a|] && b == s[..|b|];
    assert t == s[|a| + 1..] && u == s[|b| + 1..];
  }

  /** The two kinds of compose replica. */
  datatype Kind = ActiveReplica | StandbyReplica

  function KindText(kind: Kind): string {
    match kind
    case ActiveReplica => "active"
    case StandbyReplica => "standby"
  }

  /** The ID that the compose parser gives to replica `index` of `service`. */
  function BaseName(service: string, kind: Kind, index: nat): string {
    service + "-" + KindText(kind) + "-" + Decimal(index)
  }

  /** The ID that a compose diff gives to the pod replacing `base` when its image changed. */
  function RollingName(base: string, nano: nat): string {
    base + "-" + Decimal(nano)
  }

  /** The ID of a replacement standby created after a promotion: pod-APP-standby-NANO, which has the form of a
      replica's name of a service called pod-APP. */
  function ReplacementName(app: string, nano: nat): string {
    BaseName("pod-" + app, StandbyReplica, nano)
  }

  function PodKey(id: string): (key: string)
    ensures key != ""
  {
    "pod:" + id
  }

  ghost predicate IsBaseName(id: string) {
    exists service, kind, index: nat :: index < INDEX_LIMIT && id == BaseName(service, kind, index)
  }

  /** The base ID is that of a replica of this app. */
  ghost predicate NamesApp(base: string, app: string) {
    exists kind, index: nat :: index < INDEX_LIMIT && base == BaseName(app, kind, index)
  }

  lemma PodKeyInjective(x: string, y: string)
    requires PodKey(x) == PodKey(y)
    ensures x == y
  {
    assert x == PodKey(x)[4..] && y == PodKey(y)[4..];
  }

  lemma KindInjective(k: Kind, l: Kind)
    requires KindText(k) == KindText(l)
    ensures k == l
  {
    assert |"active"| != |"standby"|;
  }

  lemma KindDashFree(kind: Kind)
    ensures '-' !in KindText(kind)
  {
  }

  /** Base names of different replicas differ, even when service names contain dashes. */
  lemma BaseNameInjective(s1: string, k1: Kind, i1: nat, s2: string, k2: Kind, i2: nat)
    requires BaseName(s1, k1, i1) == BaseName(s2, k2, i2)
    ensures s1 == s2 && k1 == k2 && i1 == i2
  {
    DecimalDashFree(i1);
    DecimalDashFree(i2);
    LastToken(s1 + "-" + KindText(k1), Decimal(i1), s2 + "-" + KindText(k2), Decimal(i2));
    DecimalInjective(i1, i2);
    KindDashFree(k1);
    KindDashFree(k2);
    LastToken(s1, KindText(k1), s2, KindText(k2));
    KindInjective(k1, k2);
  }

  /** A base ID is that of one app only. */
  lemma NamesOneApp(base: string, app: string, other: string)
    requires NamesApp(base, app) && NamesApp(base, other)
    ensures app == other
  {
    var k, i: nat :| i < INDEX_LIMIT && base == BaseName(app, k, i);
    var l, j: nat :| j < INDEX_LIMIT && base == BaseName(other, l, j);
    BaseNameInjective(app, k, i, other, l, j);
  }

  lemma RollingNameInjective(b1: string, n1: nat, b2: string, n2: nat)
    requires RollingName(b1, n1) == RollingName(b2, n2)
    ensures b1 == b2 && n1 == n2
  {
    DecimalDashFree(n1);
    DecimalDashFree(n2);
    LastToken(b1, Decimal(n1), b2, Decimal(n2));
    DecimalInjective(n1, n2);
  }

  /** A rolling-update ID is never the base name of any replica of any service. */
  lemma RollingNameIsNotBaseName(base: string, nano: nat)
    requires IsBaseName(base)
    ensures !IsBaseName(RollingName(base, nano))
  {
    if IsBaseName(RollingName(base, nano)) {
      var s1, k1, i1: nat :| i1 < INDEX_LIMIT && base == BaseName(s1, k1, i1);
      var s2, k2, i2: nat :| i2 < INDEX_LIMIT && RollingName(base, nano) == BaseName(s2, k2, i2);
      DecimalDashFree(nano);
      DecimalDashFree(i1);
      DecimalDashFree(i2);
      LastToken(base, Decimal(nano), s2 + "-" + KindText(k2), Decimal(i2));
      KindDashFree(k2);
      LastToken(s1 + "-" + KindText(k1), Decimal(i1), s2, KindText(k2));
      NumeralOfDecimal(i1);
    }
  }

  /** A replacement-standby ID is never a base name: its index is a clock reading in nanoseconds. */
  lemma ReplacementNameIsNotBaseName(app: string, nano: nat)
    requires INDEX_LIMIT <= nano
    ensures !IsBaseName(ReplacementName(app, nano))
  {
    if IsBaseName(ReplacementName(app, nano)) {
      var s, k, i: nat :| i < INDEX_LIMIT && ReplacementName(app, nano) == BaseName(s, k, i);
      BaseNameInjective("pod-" + app, StandbyReplica, nano, s, k, i);
    }
  }

  /** The base ID that an ID belongs to: itself, the base it was rolled out from, or none. */
  ghost function BaseOf(id: string): string {
    if IsBaseName(id) then id
    else if exists base, nano: nat :: IsBaseName(base) && id == RollingName(base, nano) then
      var base, nano: nat :| IsBaseName(base) && id == RollingName(base, nano); base
    else ""
  }

  lemma BaseOfRollingName(base: string, nano: nat)
    requires IsBaseName(base)
    ensures BaseOf(RollingName(base, nano)) == base
  {
    RollingNameIsNotBaseName(base, nano);
    var id := RollingName(base, nano);
    var b, n: nat :| IsBaseName(b) && id == RollingName(b, n) && BaseOf(id) == b;
    RollingNameInjective(b, n, base, nano);
  }

  /** A replacement standby belongs to no base ID. */
  lemma BaseOfReplacementName(app: string, nano: nat)
    requires INDEX_LIMIT <= nano
    ensures BaseOf(ReplacementName(app, nano)) == ""
  {
    ReplacementNameIsNotBaseName(app, nano);
    var id := ReplacementName(app, nano);
    if base, n: nat :| IsBaseName(base) && id == RollingName(base, n) {
      var s, k, i: nat :| i < INDEX_LIMIT && base == BaseName(s, k, i);
      DecimalDashFree(nano);
      DecimalDashFree(n);
      DecimalDashFree(i);
      var prefix := "pod-" + app;
      LastToken(prefix + "-" + "standby", Decimal(nano), base, Decimal(n));
      LastToken(prefix, "standby", s + "-" + KindText(k), Decimal(i));
      NumeralOfDecimal(i);
    }
  }

  lemma BaseNameIsNotEmpty(id: string)
    requires IsBaseName(id)
    ensures id != ""
  {
  }
}
