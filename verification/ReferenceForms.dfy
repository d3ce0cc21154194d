/** How references are written and what they are replaced with, in terms of the characters of the text: a reference is
    read exactly where one of its four forms stands, and gives way to its value, or to its default if it has none. */
module ReferenceForms {
  import opened Option
  import opened Interpolation

  predicate IsNameChar(c: char) {
    'a' <= c <= 'z' || 'A' <= c <= 'Z' || '0' <= c <= '9' || c == '_'
  }

  /** Letters, digits and underscores, the first of them no digit. */
  predicate IsVariable(n: string) {
    n != "" && !('0' <= n[0] <= '9') && forall k :: 0 <= k < |n| ==> IsNameChar(n[k])
  }

  /** A braced reference: with nothing after the name, or with a dash, or a colon and a dash, and a default. */
  predicate IsBraced(t: string, name: string, fallback: string) {
    (t == "${" + name + "}" && fallback == "") ||
    ('}' !in fallback && (t == "${" + name + "-" + fallback + "}" || t == "${" + name + ":-" + fallback + "}"))
  }

  /** A text that stands for this variable and default, when this comes after it. */
  predicate IsReference(t: string, name: string, fallback: string, rest: string) {
    IsVariable(name) &&
    (IsBraced(t, name, fallback) || (t == "$" + name && fallback == "" && (rest == "" || !IsNameChar(rest[0]))))
  }

  lemma VariablesAreNames(n: string)
    ensures IsVariable(n) <==> IsName(n)
  {
  }

  lemma PlainIsRead(n: string, rest: string)
    requires IsName(n)
    ensures var s := "${" + n + "}" + rest;
      Read(s, 0) == Some(Reference(n, "", |n| + 3)) && s[|n| + 3..] == rest
  {
    var s, name := "${" + n + "}" + rest, 2 + |n|;
    assert forall k :: 0 <= k < |n| ==> s[2 + k] == n[k];
    assert s[0] == '$' && s[1] == '{' && s[name] == '}';
    RunEndsAt(Word, s, 3, name);
    assert s[2..name] == n;
  }

  lemma DashIsRead(n: string, d: string, rest: string)
    requires IsName(n) && '}' !in d
    ensures var s := "${" + n + "-" + d + "}" + rest;
      Read(s, 0) == Some(Reference(n, d, |n| + |d| + 4)) && s[|n| + |d| + 4..] == rest
  {
    var s := "${" + n + "-" + d + "}" + rest;
    var name, start := 2 + |n|, 3 + |n|;
    assert forall k :: 0 <= k < |n| ==> s[2 + k] == n[k];
    assert s[0] == '$' && s[1] == '{' && s[name] == '-';
    assert forall k :: 0 <= k < |d| ==> s[start + k] == d[k];
    assert s[start + |d|] == '}';
    RunEndsAt(Word, s, 3, name);
    RunEndsAt(NotClosing, s, start, start + |d|);
    assert s[2..name] == n && s[start..start + |d|] == d;
  }

  lemma BareIsRead(n: string, rest: string)
    requires IsName(n) && (rest == "" || !IsNameChar(rest[0]))
    ensures var s := "$" + n + rest; Read(s, 0) == Some(Reference(n, "", |n| + 1)) && s[|n| + 1..] == rest
  {
    var s, end := "$" + n + rest, 1 + |n|;
    assert forall k :: 0 <= k < |n| ==> s[1 + k] == n[k];
    assert s[0] == '$' && s[1] == n[0];
    if rest == "" { RunEndsAtEnd(Word, s, 2); } else { RunEndsAt(Word, s, 2, end); }
    assert s[1..end] == n;
  }

  lemma RunEndsAtEnd(cls: Class, s: string, i: nat)
    requires i <= |s| && forall k :: i <= k < |s| ==> Matches(cls, s[k])
    ensures RunEnd(cls, s, i) == |s|
  {
  }

  /** Each form is read as the variable and the default it is written for. */
  lemma FormIsRead(t: string, name: string, fallback: string, rest: string)
    requires IsReference(t, name, fallback, rest)
    ensures Read(t + rest, 0) == Some(Reference(name, fallback, |t|)) && (t + rest)[|t|..] == rest
  {
    VariablesAreNames(name);
    hide Read;
    if t == "${" + name + "}" && fallback == "" {
      PlainIsRead(name, rest);
    } else if t == "${" + name + "-" + fallback + "}" && '}' !in fallback {
      DashIsRead(name, fallback, rest);
    } else if t == "${" + name + ":-" + fallback + "}" && '}' !in fallback {
      BracedDefault(name, fallback, rest);
    } else {
      BareIsRead(name, rest);
    }
  }

  lemma BracedIsForm(s: string)
    requires Read(s, 0).Some? && s[1] == '{'
    ensures var r := Read(s, 0).value; r.end <= |s| && IsBraced(s[..r.end], r.name, r.fallback)
  {
    hide NameEnd;
    var r := Read(s, 0).value;
    var n := NameEnd(s, 2);
    var start := DefaultStart(s, n);
    if start == n {
      assert s[..r.end] == "${" + r.name + "}";
    } else if start == n + 1 {
      assert s[..r.end] == "${" + r.name + "-" + r.fallback + "}";
    } else {
      assert s[..r.end] == "${" + r.name + ":-" + r.fallback + "}";
    }
  }

  lemma BareIsForm(s: string)
    requires Read(s, 0).Some? && s[1] != '{'
    ensures var r := Read(s, 0).value;
      r.end <= |s| && s[..r.end] == "$" + r.name && r.fallback == "" && (s[r.end..] == "" || !IsNameChar(s[r.end..][0]))
  {
  }

  /** Whatever is read is written in one of the forms. */
  lemma ReadIsForm(s: string)
    requires Read(s, 0).Some?
    ensures var r := Read(s, 0).value; r.end <= |s| && IsReference(s[..r.end], r.name, r.fallback, s[r.end..])
  {
    ReadNames(s, 0);
    VariablesAreNames(Read(s, 0).value.name);
    if s[1] == '{' { BracedIsForm(s); } else { BareIsForm(s); }
    hide Read, IsVariable, IsBraced;
  }

  /** A reference is read at the start of a text exactly when the text begins with one of the forms of it. */
  lemma ReadExactly(s: string, name: string, fallback: string, end: nat)
    requires end <= |s|
    ensures Read(s, 0) == Some(Reference(name, fallback, end)) <==> IsReference(s[..end], name, fallback, s[end..])
  {
    if Read(s, 0) == Some(Reference(name, fallback, end)) { ReadIsForm(s); }
    if IsReference(s[..end], name, fallback, s[end..]) {
      FormIsRead(s[..end], name, fallback, s[end..]);
      assert s[..end] + s[end..] == s;
    }
  }

  /** A reference gives way to the value of its variable, or to its default if the variable is unset or empty, and what
      follows is interpolated as if it stood alone. */
  lemma ReferenceIsReplaced(t: string, name: string, fallback: string, rest: string, env: Env)
    requires IsReference(t, name, fallback, rest)
    ensures Interpolate(t + rest, env) ==
      (if name in env && env[name] != "" then env[name] else fallback) + Interpolate(rest, env)
  {
    FormIsRead(t, name, fallback, rest);
    hide Read, IsReference, Interpolated;
    InterpolatedStep(t + rest, EnvLookup(env), 0);
    InterpolatedDropped(t + rest, EnvLookup(env), |t|, |t|);
  }

  /** A character at which no reference begins stays. */
  lemma CharacterStays(s: string, env: Env)
    requires s != "" && forall name, fallback, end :: 0 <= end <= |s| ==>
      !IsReference(s[..end], name, fallback, s[end..])
    ensures Interpolate(s, env) == [s[0]] + Interpolate(s[1..], env)
  {
    if Read(s, 0).Some? { ReadIsForm(s); }
    hide Read, IsReference, Interpolated;
    InterpolatedStep(s, EnvLookup(env), 0);
    InterpolatedDropped(s, EnvLookup(env), 1, 1);
  }
}
