/** Variable references in compose files.  The server and the UI each have their own regular expression for them, with
    leftmost-first backtracking; both are proved to read references exactly as a plain scanner does, and so to agree. */
module Interpolation {
  import opened Option

  type Env = map<string, string>

  // ---- regular expressions ------------------------------------------------------------------------

  datatype Class = Letter | Word | NotClosing | Exactly(c: char)

  predicate Matches(cls: Class, c: char) {
    match cls
    case Letter => 'a' <= c <= 'z' || 'A' <= c <= 'Z' || c == '_'
    case Word => 'a' <= c <= 'z' || 'A' <= c <= 'Z' || c == '_' || '0' <= c <= '9'
    case NotClosing => c != '}'
    case Exactly(d) => c == d
  }

  /** A regular expression with what follows each piece inside it: a capture boundary, one character, greedily many
      characters, or two alternatives of which the first is preferred. */
  datatype Regex =
    | Accept
    | Save(slot: nat, next: Regex)
    | One(cls: Class, next: Regex)
    | Many(cls: Class, next: Regex)
    | Choice(first: Regex, second: Regex)

  /** Where a match ends and where its captures begin and end. */
  datatype Found = Found(end: nat, saved: map<nat, nat>)

  /** The backtracking matcher. */
  function Match(r: Regex, s: string, i: nat, saved: map<nat, nat>): (f: Option<Found>)
    requires i <= |s|
    ensures f.Some? ==> i <= f.value.end <= |s|
    decreases r, |s| - i
  {
    match r
    case Accept => Some(Found(i, saved))
    case Save(slot, next) => Match(next, s, i, saved[slot := i])
    case One(cls, next) => if i < |s| && Matches(cls, s[i]) then Match(next, s, i + 1, saved) else None
    case Many(cls, next) =>
      var longer := if i < |s| && Matches(cls, s[i]) then Match(r, s, i + 1, saved) else None;
      if longer.Some? then longer else Match(next, s, i, saved)
    case Choice(first, second) =>
      var preferred := Match(first, s, i, saved);
      if preferred.Some? then preferred else Match(second, s, i, saved)
  }

  /** A captured name: group n. */
  function Name(n: nat, next: Regex): Regex {
    Save(2 * n, One(Letter, Many(Word, Save(2 * n + 1, next))))
  }

  /** A captured default, which may be empty, and the closing brace. */
  const DEFAULT := Save(4, Many(NotClosing, Save(5, CLOSE)))
  const CLOSE := One(Exactly('}'), Accept)

  /** A dash and a default, with or without a colon before it. */
  const DASH := One(Exactly('-'), DEFAULT)
  const COLON_DASH := One(Exactly(':'), DASH)

  function Braced(rest: Regex): Regex {
    One(Exactly('$'), One(Exactly('{'), Name(1, rest)))
  }

  const BARE := One(Exactly('$'), Name(3, Accept))

  /** After the name: the server's expression spells out a dash, or a colon and a dash. */
  const SERVER_REST := Choice(Choice(DASH, COLON_DASH), CLOSE)

  /** The UI's expression has an optional colon before a dash. */
  const UI_REST := Choice(Choice(COLON_DASH, DASH), CLOSE)

  const SERVER_REGEX := Choice(Braced(SERVER_REST), BARE)
  const UI_REGEX := Choice(Braced(UI_REST), BARE)

  function Submatch(s: string, f: Found, n: nat): string {
    if 2 * n in f.saved && 2 * n + 1 in f.saved && f.saved[2 * n] <= f.saved[2 * n + 1] <= |s|
    then s[f.saved[2 * n]..f.saved[2 * n + 1]] else ""
  }

  // ---- the scanner --------------------------------------------------------------------------------

  datatype Reference = Reference(name: string, fallback: string, end: nat)

  function RunEnd(cls: Class, s: string, i: nat): (end: nat)
    requires i <= |s|
    ensures i <= end <= |s| && (forall k :: i <= k < end ==> Matches(cls, s[k])) &&
      (end < |s| ==> !Matches(cls, s[end]))
    decreases |s| - i
  {
    if i < |s| && Matches(cls, s[i]) then RunEnd(cls, s, i + 1) else i
  }

  /** The name that starts at `i`, if one does, ends here. */
  function NameEnd(s: string, i: nat): (end: nat)
    requires i <= |s|
    ensures i <= end <= |s|
  {
    if i < |s| && Matches(Letter, s[i]) then RunEnd(Word, s, i + 1) else i
  }

  /** Where the default starts after a name: after - or :-, or nowhere. */
  function DefaultStart(s: string, n: nat): (start: nat)
    requires n <= |s|
    ensures n <= start <= |s|
  {
    if n < |s| && s[n] == '-' then n + 1
    else if n + 1 < |s| && s[n] == ':' && s[n + 1] == '-' then n + 2
    else n
  }

  /** The reference that starts at position `i`, if one does. */
  function Read(s: string, i: nat): (r: Option<Reference>)
    requires i <= |s|
    ensures r.Some? ==> i + 1 < r.value.end <= |s| && s[i] == '$' && r.value.name != ""
    ensures r.Some? ==> |r.value.name| + |r.value.fallback| < r.value.end - i
  {
    if |s| < i + 2 || s[i] != '$' then None
    else if s[i + 1] == '{' then
      var n := NameEnd(s, i + 2);
      if n == i + 2 then None else
      var start := DefaultStart(s, n);
      var end := if start == n then n else RunEnd(NotClosing, s, start);
      if end < |s| && s[end] == '}' then Some(Reference(s[i + 2..n], s[start..end], end + 1)) else None
    else
      var n := NameEnd(s, i + 1);
      if n == i + 1 then None else Some(Reference(s[i + 1..n], "", n))
  }

  // ---- both expressions read what the scanner reads --------------------------------------------------

  /** A greedy run takes all it can, if what follows accepts there or nowhere earlier. */
  lemma {:induction false} GreedyRun(cls: Class, next: Regex, s: string, i: nat, saved: map<nat, nat>)
    requires i <= |s|
    requires Match(next, s, RunEnd(cls, s, i), saved).Some? || forall k :: i <= k < RunEnd(cls, s, i) ==>
      Match(next, s, k, saved) == None
    ensures Match(Many(cls, next), s, i, saved) == Match(next, s, RunEnd(cls, s, i), saved)
    decreases |s| - i
  {
    if i < |s| && Matches(cls, s[i]) {
      assert RunEnd(cls, s, i) == RunEnd(cls, s, i + 1);
      GreedyRun(cls, next, s, i + 1, saved);
      var longer := Match(Many(cls, next), s, i + 1, saved);
      assert Match(Many(cls, next), s, i, saved) == if longer.Some? then longer else Match(next, s, i, saved);
      assert longer == Match(next, s, RunEnd(cls, s, i), saved);
      assert longer.None? ==> Match(next, s, i, saved) == None;
    }
  }

  /** What a match says as a reference. */
  function AsReference(s: string, f: Option<Found>): Option<Reference> {
    if f.None? then None
    else Some(Reference(if Submatch(s, f.value, 1) != "" then Submatch(s, f.value, 1)
      else Submatch(s, f.value, 3), Submatch(s, f.value, 2), f.value.end))
  }

  lemma CloseRead(s: string, i: nat, saved: map<nat, nat>)
    requires i <= |s|
    ensures Match(CLOSE, s, i, saved) == if i < |s| && s[i] == '}' then Some(Found(i + 1, saved)) else None
    ensures Match(Save(5, CLOSE), s, i, saved) == Match(CLOSE, s, i, saved[5 := i])
  {
  }

  /** The default of a braced reference, from just after its dash. */
  lemma DefaultRead(s: string, i: nat, saved: map<nat, nat>)
    requires i <= |s|
    ensures var end := RunEnd(NotClosing, s, i);
      Match(DEFAULT, s, i, saved) == if end < |s| then Some(Found(end + 1, saved[4 := i][5 := end])) else None
  {
    var end, begun := RunEnd(NotClosing, s, i), saved[4 := i];
    forall k: nat | i <= k <= end ensures Match(Save(5, CLOSE), s, k, begun) == if k == end < |s|
      then Some(Found(k + 1, begun[5 := k])) else None {
      CloseRead(s, k, begun);
      CloseRead(s, k, begun[5 := k]);
    }
    GreedyRun(NotClosing, Save(5, CLOSE), s, i, begun);
    assert Match(DEFAULT, s, i, saved) == Match(Many(NotClosing, Save(5, CLOSE)), s, i, begun);
  }

  /** What follows the name in a braced reference, from the end of the name. */
  function Rest(s: string, n: nat, saved: map<nat, nat>): Option<Found>
    requires n <= |s|
  {
    var start := DefaultStart(s, n);
    var end := if start == n then n else RunEnd(NotClosing, s, start);
    if end == |s| || s[end] != '}' then None
    else if start == n then Some(Found(n + 1, saved)) else Some(Found(end + 1, saved[4 := start][5 := end]))
  }

  lemma DashRead(s: string, n: nat, saved: map<nat, nat>)
    requires n <= |s|
    ensures Match(DASH, s, n, saved) == if n < |s| && s[n] == '-' then Match(DEFAULT, s, n + 1, saved) else None
    ensures Match(COLON_DASH, s, n, saved) == if n < |s| && s[n] == ':' then Match(DASH, s, n + 1, saved) else None
  {
  }

  lemma ChoiceRead(first: Regex, second: Regex, s: string, n: nat, saved: map<nat, nat>)
    requires n <= |s|
    ensures var preferred := Match(first, s, n, saved);
      Match(Choice(first, second), s, n, saved) == if preferred.Some? then preferred else Match(second, s, n, saved)
  {
  }

  /** The two ways of writing the optional colon come to the same. */
  lemma EitherDashRead(s: string, n: nat, saved: map<nat, nat>)
    requires n <= |s|
    ensures var start := DefaultStart(s, n);
      var either := if start == n then None else Match(DEFAULT, s, start, saved);
      Match(Choice(DASH, COLON_DASH), s, n, saved) == either && Match(Choice(COLON_DASH, DASH), s, n, saved) == either
  {
    hide Match;
    DashRead(s, n, saved);
    if n < |s| { DashRead(s, n + 1, saved); }
    ChoiceRead(DASH, COLON_DASH, s, n, saved);
    ChoiceRead(COLON_DASH, DASH, s, n, saved);
  }

  lemma RestRead(s: string, n: nat, saved: map<nat, nat>)
    requires n <= |s|
    ensures Match(SERVER_REST, s, n, saved) == Rest(s, n, saved)
    ensures Match(UI_REST, s, n, saved) == Rest(s, n, saved)
  {
    EitherDashRead(s, n, saved);
    DefaultRead(s, DefaultStart(s, n), saved);
    DefaultStops(s, n);
    hide Match, RunEnd, DefaultStart;
    CloseRead(s, n, saved);
    ChoiceRead(Choice(DASH, COLON_DASH), CLOSE, s, n, saved);
    ChoiceRead(Choice(COLON_DASH, DASH), CLOSE, s, n, saved);
  }

  /** Where a default starts the brace has not come yet, and where it ends the brace has. */
  lemma DefaultStops(s: string, n: nat)
    requires n <= |s|
    ensures DefaultStart(s, n) != n ==> n < |s| && s[n] != '}'
    ensures var end := RunEnd(NotClosing, s, DefaultStart(s, n)); end < |s| ==> s[end] == '}'
  {
  }

  lemma NoWordStartsRest(s: string, n: nat, saved: map<nat, nat>)
    requires n < |s| && Matches(Word, s[n])
    ensures Rest(s, n, saved) == None
  {
  }

  lemma StepRead(cls: Class, next: Regex, slot: nat, s: string, i: nat, saved: map<nat, nat>)
    requires i <= |s|
    ensures Match(One(cls, next), s, i, saved) == if i < |s| && Matches(cls, s[i]) then Match(next, s, i + 1, saved)
      else None
    ensures Match(Save(slot, next), s, i, saved) == Match(next, s, i, saved[slot := i])
    ensures Match(Accept, s, i, saved) == Some(Found(i, saved))
  {
  }

  ghost predicate AcceptsAnywhere(next: Regex, s: string) {
    forall k: nat, m :: k <= |s| ==> Match(next, s, k, m).Some?
  }

  ghost predicate RejectsWords(next: Regex, s: string) {
    forall k: nat, m :: k < |s| && Matches(Word, s[k]) ==> Match(next, s, k, m).None?
  }

  /** A captured name takes all the word characters there are, when what follows accepts anywhere or at no word
      character. */
  lemma NameRead(n: nat, next: Regex, s: string, i: nat, saved: map<nat, nat>)
    requires i <= |s| && (AcceptsAnywhere(next, s) || RejectsWords(next, s))
    ensures var end := NameEnd(s, i);
      Match(Name(n, next), s, i, saved) == if end == i then None
        else Match(next, s, end, saved[2 * n := i][2 * n + 1 := end])
  {
    var begun, close := saved[2 * n := i], Save(2 * n + 1, next);
    StepRead(Letter, Many(Word, close), 2 * n, s, i, begun);
    StepRead(Letter, One(Letter, Many(Word, close)), 2 * n, s, i, saved);
    if i < |s| {
      var end := RunEnd(Word, s, i + 1);
      forall k: nat | i + 1 <= k <= end ensures Match(close, s, k, begun) == Match(next, s, k, begun[2 * n + 1 := k]) {
        StepRead(Word, next, 2 * n + 1, s, k, begun);
      }
      GreedyRun(Word, close, s, i + 1, begun);
    }
  }

  /** Where both kinds of reference begin and what they capture. */
  lemma AlternativesRead(rest: Regex, s: string, i: nat)
    requires i < |s| && forall k: nat, m :: k <= |s| ==> Match(rest, s, k, m) == Rest(s, k, m)
    ensures Match(Braced(rest), s, i, map[]) ==
      if |s| < i + 2 || s[i] != '$' || s[i + 1] != '{' || NameEnd(s, i + 2) == i + 2 then None
      else Rest(s, NameEnd(s, i + 2), map[2 := i + 2, 3 := NameEnd(s, i + 2)])
    ensures Match(BARE, s, i, map[]) ==
      if s[i] != '$' || NameEnd(s, i + 1) == i + 1 then None
      else Some(Found(NameEnd(s, i + 1), map[6 := i + 1, 7 := NameEnd(s, i + 1)]))
  {
    forall k: nat, m | k < |s| && Matches(Word, s[k]) ensures Match(rest, s, k, m).None? { NoWordStartsRest(s, k, m); }
    assert RejectsWords(rest, s) && AcceptsAnywhere(Accept, s);
    hide Match;
    StepRead(Exactly('$'), One(Exactly('{'), Name(1, rest)), 0, s, i, map[]);
    StepRead(Exactly('$'), Name(3, Accept), 0, s, i, map[]);
    NameRead(3, Accept, s, i + 1, map[]);
    if i + 1 < |s| {
      StepRead(Exactly('{'), Name(1, rest), 0, s, i + 1, map[]);
      NameRead(1, rest, s, i + 2, map[]);
    }
  }

  /** What the captures of a braced reference say. */
  lemma BracedCaptures(s: string, i: nat)
    requires i + 2 <= |s| && s[i] == '$' && s[i + 1] == '{' && i + 2 < NameEnd(s, i + 2)
    ensures AsReference(s, Rest(s, NameEnd(s, i + 2), map[2 := i + 2, 3 := NameEnd(s, i + 2)])) == Read(s, i)
  {
  }

  lemma BareCaptures(s: string, i: nat)
    requires i + 2 <= |s| && s[i] == '$' && s[i + 1] != '{' && i + 1 < NameEnd(s, i + 1)
    ensures AsReference(s, Some(Found(NameEnd(s, i + 1), map[6 := i + 1, 7 := NameEnd(s, i + 1)]))) == Read(s, i)
  {
  }

  lemma RegexReads(rest: Regex, s: string, i: nat)
    requires i < |s| && forall k: nat, m :: k <= |s| ==> Match(rest, s, k, m) == Rest(s, k, m)
    ensures AsReference(s, Match(Choice(Braced(rest), BARE), s, i, map[])) == Read(s, i)
  {
    AlternativesRead(rest, s, i);
    hide Match, Name, Submatch, Rest;
    ChoiceRead(Braced(rest), BARE, s, i, map[]);
    if i + 2 <= |s| && s[i] == '$' {
      if s[i + 1] == '{' && i + 2 < NameEnd(s, i + 2) { BracedCaptures(s, i); }
      if s[i + 1] != '{' && i + 1 < NameEnd(s, i + 1) { BareCaptures(s, i); }
    }
  }

  /** Both expressions, tried at any position of any string, read exactly the reference that the scanner reads. */
  lemma BothReadReferences(s: string, i: nat)
    requires i < |s|
    ensures AsReference(s, Match(SERVER_REGEX, s, i, map[])) == Read(s, i)
    ensures AsReference(s, Match(UI_REGEX, s, i, map[])) == Read(s, i)
  {
    forall k: nat, m | k <= |s| ensures Match(SERVER_REST, s, k, m) == Rest(s, k, m) &&
      Match(UI_REST, s, k, m) == Rest(s, k, m) {
      RestRead(s, k, m);
    }
    RegexReads(SERVER_REST, s, i);
    RegexReads(UI_REST, s, i);
  }

  // ---- replacing references -----------------------------------------------------------------------

  /** The value a name has, or "" for none; both programs treat an empty value as none. */
  type Lookup = string -> string

  function EnvLookup(env: Env): Lookup {
    (name: string) => if name in env then env[name] else ""
  }

  function Or(value: string, other: string): string {
    if value != "" then value else other
  }

  /** What a reference gives way to. */
  function Answer(lookup: Lookup, r: Reference): string {
    Or(lookup(r.name), r.fallback)
  }

  /** What interpolation means: from position `i` on, every reference gives way to its value or its default. */
  function Interpolated(s: string, lookup: Lookup, i: nat): string
    requires i <= |s|
    decreases |s| - i
  {
    if i == |s| then "" else
    match Read(s, i)
    case None => [s[i]] + Interpolated(s, lookup, i + 1)
    case Some(r) => Answer(lookup, r) + Interpolated(s, lookup, r.end)
  }

  function Interpolate(s: string, env: Env): string {
    Interpolated(s, EnvLookup(env), 0)
  }

  /** The leftmost match of an expression that cannot match the empty string. */
  function FirstMatch(r: Regex, s: string, i: nat): Option<Found>
    requires i <= |s|
    decreases |s| - i
  {
    if i == |s| then None
    else if Match(r, s, i, map[]).Some? then Match(r, s, i, map[]) else FirstMatch(r, s, i + 1)
  }

  /** The server's callback: it is given the matched text only, and matches it once more to find its parts. */
  function ServerReplacement(m: string, env: Env): string {
    match FirstMatch(SERVER_REGEX, m, 0)
    case None => ""
    case Some(f) => Or(EnvLookup(env)(Or(Submatch(m, f, 1), Submatch(m, f, 3))), Submatch(m, f, 2))
  }

  function ServerInterpolate(s: string, env: Env, i: nat): string
    requires i <= |s|
    decreases |s| - i
  {
    if i == |s| then "" else
    match Match(SERVER_REGEX, s, i, map[])
    case None => [s[i]] + ServerInterpolate(s, env, i + 1)
    case Some(f) =>
      if f.end == i then "" else ServerReplacement(s[i..f.end], env) + ServerInterpolate(s, env, f.end)
  }

  /** A JavaScript object: names it does not have itself it may inherit. */
  datatype Object = Object(own: Env, inherited: Env)

  function ObjectLookup(o: Object): Lookup {
    (name: string) => if name in o.own then o.own[name] else if name in o.inherited then o.inherited[name] else ""
  }

  function UIInterpolate(s: string, env: Object, i: nat): string
    requires i <= |s|
    decreases |s| - i
  {
    if i == |s| then "" else
    match Match(UI_REGEX, s, i, map[])
    case None => [s[i]] + UIInterpolate(s, env, i + 1)
    case Some(f) =>
      if f.end == i then "" else
      Or(Or(ObjectLookup(env)(Or(Submatch(s, f, 1), Submatch(s, f, 3))), Submatch(s, f, 2)), "") +
        UIInterpolate(s, env, f.end)
  }

  lemma {:induction false} RunEndShifts(cls: Class, s: string, i: nat, end: nat, j: nat)
    requires i <= j <= end <= |s| && RunEnd(cls, s, j) <= end
    ensures RunEnd(cls, s[i..end], j - i) == RunEnd(cls, s, j) - i
    decreases end - j
  {
    if j < end && Matches(cls, s[j]) { RunEndShifts(cls, s, i, end, j + 1); }
  }

  lemma SliceOfSlice(s: string, i: nat, end: nat, a: nat, b: nat)
    requires i <= end <= |s| && a <= b <= end - i
    ensures s[i..end][a..b] == s[i + a..i + b]
  {
    assert forall k :: 0 <= k < b - a ==> s[i..end][a..b][k] == s[i + a..i + b][k];
  }

  lemma NameEndShifts(s: string, i: nat, end: nat, j: nat)
    requires i <= j < end <= |s| && NameEnd(s, j) <= end
    ensures NameEnd(s[i..end], j - i) == NameEnd(s, j) - i
  {
    if Matches(Letter, s[j]) { RunEndShifts(Word, s, i, end, j + 1); }
  }

  lemma BareIsLocal(s: string, i: nat)
    requires i < |s| && Read(s, i).Some? && s[i + 1] != '{'
    ensures var r := Read(s, i).value; Read(s[i..r.end], 0) == Some(Reference(r.name, r.fallback, r.end - i))
  {
    hide NameEnd;
    var n := NameEnd(s, i + 1);
    NameEndShifts(s, i, n, i + 1);
    SliceOfSlice(s, i, n, 1, n - i);
  }

  lemma DefaultStartShifts(s: string, i: nat, end: nat, n: nat)
    requires i <= n < end <= |s| && DefaultStart(s, n) < end
    ensures DefaultStart(s[i..end], n - i) == DefaultStart(s, n) - i
  {
  }

  lemma BracedIsLocal(s: string, i: nat)
    requires i < |s| && Read(s, i).Some? && s[i + 1] == '{'
    ensures var r := Read(s, i).value; Read(s[i..r.end], 0) == Some(Reference(r.name, r.fallback, r.end - i))
  {
    hide NameEnd, DefaultStart, RunEnd;
    var end, n := Read(s, i).value.end, NameEnd(s, i + 2);
    var start := DefaultStart(s, n);
    NameEndShifts(s, i, end, i + 2);
    DefaultStartShifts(s, i, end, n);
    SliceOfSlice(s, i, end, 2, n - i);
    SliceOfSlice(s, i, end, start - i, end - 1 - i);
    if start != n { RunEndShifts(NotClosing, s, i, end, start); }
    assert s[i..end][1] == '{';
  }

  /** A reference cut out of its string reads the same. */
  lemma ReadIsLocal(s: string, i: nat)
    requires i < |s| && Read(s, i).Some?
    ensures var r := Read(s, i).value; Read(s[i..r.end], 0) == Some(Reference(r.name, r.fallback, r.end - i))
  {
    if s[i + 1] == '{' { BracedIsLocal(s, i); } else { BareIsLocal(s, i); }
  }

  /** The server's program computes what interpolation means. */
  lemma {:induction false} ServerRefines(s: string, env: Env, i: nat)
    requires i <= |s|
    ensures ServerInterpolate(s, env, i) == Interpolated(s, EnvLookup(env), i)
    decreases |s| - i
  {
    hide Match, Read, ServerReplacement, Submatch;
    if i < |s| {
      BothReadReferences(s, i);
      if Read(s, i).None? {
        ServerRefines(s, env, i + 1);
      } else {
        ServerRefines(s, env, Read(s, i).value.end);
        ReplacementRefines(s, i, env);
      }
    }
  }

  lemma ReplacementRefines(s: string, i: nat, env: Env)
    requires i < |s| && Read(s, i).Some?
    ensures var r := Read(s, i).value; ServerReplacement(s[i..r.end], env) == Or(EnvLookup(env)(r.name), r.fallback)
  {
    hide Match, Read;
    var r := Read(s, i).value;
    ReadIsLocal(s, i);
    BothReadReferences(s[i..r.end], 0);
  }

  /** So does the UI's, on what its environment object answers. */
  lemma {:induction false} UIRefines(s: string, env: Object, i: nat)
    requires i <= |s|
    ensures UIInterpolate(s, env, i) == Interpolated(s, ObjectLookup(env), i)
    decreases |s| - i
  {
    if i < |s| {
      BothReadReferences(s, i);
      UIRefines(s, env, if Read(s, i).None? then i + 1 else Read(s, i).value.end);
    }
  }

  // ---- agreement ------------------------------------------------------------------------------------

  predicate IsName(n: string) {
    n != "" && Matches(Letter, n[0]) && forall k :: 1 <= k < |n| ==> Matches(Word, n[k])
  }

  lemma ReadNames(s: string, i: nat)
    requires i < |s| && Read(s, i).Some?
    ensures IsName(Read(s, i).value.name)
  {
  }

  /** The references that are replaced from position `i` on. */
  function References(s: string, i: nat): seq<Reference>
    requires i <= |s|
    decreases |s| - i
  {
    if i == |s| then [] else
    match Read(s, i)
    case None => References(s, i + 1)
    case Some(r) => [r] + References(s, r.end)
  }

  lemma {:induction false} SameAnswers(s: string, l: Lookup, k: Lookup, i: nat)
    requires i <= |s| && forall r :: r in References(s, i) ==> Answer(l, r) == Answer(k, r)
    ensures Interpolated(s, l, i) == Interpolated(s, k, i)
    decreases |s| - i
  {
    if i < |s| {
      if Read(s, i).Some? {
        assert forall r :: r in References(s, Read(s, i).value.end) ==> r in References(s, i);
        assert Read(s, i).value in References(s, i);
      }
      SameAnswers(s, l, k, if Read(s, i).None? then i + 1 else Read(s, i).value.end);
    }
  }

  /** When no reference gets a shorter answer from `k` than from `l`, the texts agree only if all answers do. */
  lemma {:induction false} LongerAnswersDiffer(s: string, l: Lookup, k: Lookup, i: nat)
    requires i <= |s| && forall r :: r in References(s, i) ==> |Answer(l, r)| <= |Answer(k, r)|
    ensures |Interpolated(s, l, i)| <= |Interpolated(s, k, i)|
    ensures Interpolated(s, l, i) == Interpolated(s, k, i) ==> forall r :: r in References(s, i) ==>
      Answer(l, r) == Answer(k, r)
    decreases |s| - i
  {
    hide Answer;
    if i < |s| {
      if Read(s, i).None? {
        LongerAnswersDiffer(s, l, k, i + 1);
        SameTails([s[i]], Interpolated(s, l, i + 1), [s[i]], Interpolated(s, k, i + 1));
      } else {
        var r := Read(s, i).value;
        assert References(s, i) == [r] + References(s, r.end);
        assert r in References(s, i) && forall q :: q in References(s, r.end) ==> q in References(s, i);
        LongerAnswersDiffer(s, l, k, r.end);
        SameTails(Answer(l, r), Interpolated(s, l, r.end), Answer(k, r), Interpolated(s, k, r.end));
      }
    }
  }

  lemma SameTails(a: string, x: string, b: string, y: string)
    ensures a + x == b + y && (|a| == |b| || |x| == |y|) ==> a == b && x == y
    ensures a + x == b + y && |a| <= |b| && |x| <= |y| ==> a == b && x == y
  {
    if a + x == b + y && (|a| == |b| || |x| == |y| || (|a| <= |b| && |x| <= |y|)) {
      assert |a + x| == |b + y|;
      assert a == (a + x)[..|a|] && b == (b + y)[..|b|];
      assert x == (a + x)[|a|..] && y == (b + y)[|b|..];
    }
  }

  /** How many references get different answers. */
  function Differing(s: string, l: Lookup, k: Lookup, i: nat): nat
    requires i <= |s|
    decreases |s| - i
  {
    if i == |s| then 0 else
    match Read(s, i)
    case None => Differing(s, l, k, i + 1)
    case Some(r) => (if Answer(l, r) == Answer(k, r) then 0 else 1) + Differing(s, l, k, r.end)
  }

  /** When at most one reference gets a different answer, the texts agree exactly if none does. */
  lemma {:induction false} OneAnswerDiffers(s: string, l: Lookup, k: Lookup, i: nat)
    requires i <= |s| && Differing(s, l, k, i) <= 1
    ensures Interpolated(s, l, i) == Interpolated(s, k, i) <==> Differing(s, l, k, i) == 0
    decreases |s| - i
  {
    hide Answer;
    if i < |s| {
      if Read(s, i).None? {
        OneAnswerDiffers(s, l, k, i + 1);
        SameTails([s[i]], Interpolated(s, l, i + 1), [s[i]], Interpolated(s, k, i + 1));
      } else {
        var r := Read(s, i).value;
        OneAnswerDiffers(s, l, k, r.end);
        SameTails(Answer(l, r), Interpolated(s, l, r.end), Answer(k, r), Interpolated(s, k, r.end));
      }
    }
  }

  lemma {:induction false} NoneDiffering(s: string, l: Lookup, k: Lookup, i: nat)
    requires i <= |s|
    ensures Differing(s, l, k, i) == 0 <==> forall r :: r in References(s, i) ==> Answer(l, r) == Answer(k, r)
    decreases |s| - i
  {
    hide Answer;
    if i < |s| {
      if Read(s, i).None? {
        NoneDiffering(s, l, k, i + 1);
      } else {
        var r := Read(s, i).value;
        NoneDiffering(s, l, k, r.end);
        assert References(s, i) == [r] + References(s, r.end);
      }
    }
  }

  lemma BareName(n: string, lookup: Lookup)
    requires IsName(n)
    ensures Interpolated("$" + n, lookup, 0) == lookup(n)
  {
    var s := "$" + n;
    assert s[1..] == n == s[1..|s|] && s[1] == n[0];
    assert NameEnd(s, 1) == |s|;
    assert s[0 + 1..|s|] == n;
    assert Read(s, 0) == Some(Reference(n, "", |s|));
    assert Interpolated(s, lookup, |s|) == "";
  }

  /** What the object answers to this reference is not inherited, or is what the server answers anyway. */
  predicate NotInherited(env: Object, r: Reference) {
    r.name in env.own || r.name !in env.inherited || env.inherited[r.name] == "" || env.inherited[r.name] == r.fallback
  }

  /** No reference of the text gets an inherited answer that shows. */
  predicate Independent(text: string, env: Object) {
    forall r :: r in References(text, 0) ==> NotInherited(env, r)
  }

  /** No inherited answer is shorter than the default it stands in for. */
  predicate NoShorterAnswers(text: string, env: Object) {
    forall r :: r in References(text, 0) ==> NotInherited(env, r) || |r.fallback| <= |env.inherited[r.name]|
  }

  /** No inherited answer is longer than the default it stands in for. */
  predicate NoLongerAnswers(text: string, env: Object) {
    forall r :: r in References(text, 0) ==> NotInherited(env, r) || |env.inherited[r.name]| <= |r.fallback|
  }

  lemma AnswersAgree(env: Object, r: Reference)
    ensures Answer(EnvLookup(env.own), r) == Answer(ObjectLookup(env), r) <==> NotInherited(env, r)
    ensures !NotInherited(env, r) ==>
      Answer(EnvLookup(env.own), r) == r.fallback && Answer(ObjectLookup(env), r) == env.inherited[r.name]
  {
  }

  /** The two programs agree on a text when none of its references gets an inherited answer that shows. */
  lemma ProgramsAgreeOnText(text: string, env: Object)
    requires Independent(text, env)
    ensures ServerInterpolate(text, env.own, 0) == UIInterpolate(text, env, 0)
  {
    hide Interpolated, ServerInterpolate, UIInterpolate, References;
    ServerRefines(text, env.own, 0);
    UIRefines(text, env, 0);
    forall r | r in References(text, 0) ensures Answer(EnvLookup(env.own), r) == Answer(ObjectLookup(env), r) {
      AnswersAgree(env, r);
    }
    SameAnswers(text, EnvLookup(env.own), ObjectLookup(env), 0);
  }

  /** They agree only then, if no inherited answer is shorter than its default, or none is longer, or if at most one
      reference gets an inherited answer that shows.  (Otherwise several wrong answers can make up for each other.) */
  lemma ProgramsAgreeOnTextExactlyWhen(text: string, env: Object)
    requires NoShorterAnswers(text, env) || NoLongerAnswers(text, env) ||
      Differing(text, EnvLookup(env.own), ObjectLookup(env), 0) <= 1
    ensures ServerInterpolate(text, env.own, 0) == UIInterpolate(text, env, 0) <==> Independent(text, env)
  {
    hide Interpolated, ServerInterpolate, UIInterpolate, References;
    var l, k := EnvLookup(env.own), ObjectLookup(env);
    ServerRefines(text, env.own, 0);
    UIRefines(text, env, 0);
    forall r | r in References(text, 0) ensures Answer(l, r) == Answer(k, r) <==> NotInherited(env, r) {
      AnswersAgree(env, r);
    }
    NoneDiffering(text, l, k, 0);
    if Independent(text, env) {
      SameAnswers(text, l, k, 0);
    } else if NoShorterAnswers(text, env) {
      forall r | r in References(text, 0) ensures |Answer(l, r)| <= |Answer(k, r)| { AnswersAgree(env, r); }
      LongerAnswersDiffer(text, l, k, 0);
    } else if NoLongerAnswers(text, env) {
      forall r | r in References(text, 0) ensures |Answer(k, r)| <= |Answer(l, r)| { AnswersAgree(env, r); }
      LongerAnswersDiffer(text, k, l, 0);
    } else {
      OneAnswerDiffers(text, l, k, 0);
    }
  }

  /** What every object literal inherits: functions, and its prototype. */
  const PROTOTYPE := {"constructor", "hasOwnProperty", "isPrototypeOf", "propertyIsEnumerable", "toLocaleString",
    "toString", "valueOf", "__defineGetter__", "__defineSetter__", "__lookupGetter__", "__lookupSetter__", "__proto__"}

  const PROTO := "__proto__"
  const PROTO_TEXT := "[object Object]"

  /** An environment as the UI builds it: an object literal that texts were assigned to.  Assigning a text to __proto__
      does nothing.  How a function reads as text is up to the language implementation, but it ends in a brace. */
  ghost predicate Ordinary(env: Object) {
    env.inherited.Keys == PROTOTYPE && env.inherited[PROTO] == PROTO_TEXT && PROTO !in env.own &&
    forall n :: n in PROTOTYPE && n != PROTO ==> '}' in env.inherited[n]
  }

  function Braces(s: string): nat {
    multiset(s)['}']
  }

  lemma {:induction false} DefaultsHaveNoBraces(s: string, i: nat)
    requires i <= |s|
    ensures forall r :: r in References(s, i) ==> '}' !in r.fallback
    decreases |s| - i
  {
    if i < |s| {
      if Read(s, i).Some? { DefaultHasNoBrace(s, i); }
      DefaultsHaveNoBraces(s, if Read(s, i).None? then i + 1 else Read(s, i).value.end);
    }
  }

  lemma DefaultHasNoBrace(s: string, i: nat)
    requires i < |s| && Read(s, i).Some?
    ensures '}' !in Read(s, i).value.fallback
  {
    hide NameEnd;
  }

  /** When no reference gets an answer with fewer closing braces from `k` than from `l`, and one gets more, so does the
      text. */
  lemma {:induction false} MoreBraces(s: string, l: Lookup, k: Lookup, i: nat)
    requires i <= |s| && forall r :: r in References(s, i) ==> Braces(Answer(l, r)) <= Braces(Answer(k, r))
    ensures Braces(Interpolated(s, l, i)) <= Braces(Interpolated(s, k, i))
    ensures (exists r :: r in References(s, i) && Braces(Answer(l, r)) < Braces(Answer(k, r))) ==>
      Braces(Interpolated(s, l, i)) < Braces(Interpolated(s, k, i))
    decreases |s| - i
  {
    if i < |s| {
      if Read(s, i).None? {
        MoreBraces(s, l, k, i + 1);
      } else {
        var r := Read(s, i).value;
        assert References(s, i) == [r] + References(s, r.end);
        assert r in References(s, i) && forall q :: q in References(s, r.end) ==> q in References(s, i);
        MoreBraces(s, l, k, r.end);
      }
    }
  }

  /** A shown answer that an ordinary object inherits, other than its prototype, is a function with a closing brace,
      which no default can have. */
  lemma FunctionsHaveBraces(env: Object, r: Reference)
    requires Ordinary(env) && '}' !in r.fallback
    ensures Braces(Answer(EnvLookup(env.own), r)) <= Braces(Answer(ObjectLookup(env), r))
    ensures !NotInherited(env, r) && r.name != PROTO ==>
      Braces(Answer(EnvLookup(env.own), r)) < Braces(Answer(ObjectLookup(env), r))
  {
    AnswersAgree(env, r);
  }

  /** For every environment the UI builds the two programs agree exactly when no inherited answer shows, unless a text
      gives __proto__ both a default that is shorter than what it would be replaced with and one that is longer. */
  lemma OrdinaryProgramsAgreeExactlyWhen(text: string, env: Object)
    requires Ordinary(env)
    requires (forall r :: r in References(text, 0) && r.name == PROTO ==> |r.fallback| <= |PROTO_TEXT|) ||
             (forall r :: r in References(text, 0) && r.name == PROTO ==> |PROTO_TEXT| <= |r.fallback|)
    ensures ServerInterpolate(text, env.own, 0) == UIInterpolate(text, env, 0) <==> Independent(text, env)
  {
    hide Interpolated, ServerInterpolate, UIInterpolate, References;
    DefaultsHaveNoBraces(text, 0);
    var l, k := EnvLookup(env.own), ObjectLookup(env);
    if r :| r in References(text, 0) && !NotInherited(env, r) && r.name != PROTO {
      forall q | q in References(text, 0) ensures Braces(Answer(l, q)) <= Braces(Answer(k, q)) {
        FunctionsHaveBraces(env, q);
      }
      FunctionsHaveBraces(env, r);
      MoreBraces(text, l, k, 0);
      ServerRefines(text, env.own, 0);
      UIRefines(text, env, 0);
    } else {
      assert NoShorterAnswers(text, env) || NoLongerAnswers(text, env);
      ProgramsAgreeOnTextExactlyWhen(text, env);
    }
  }

  /** The two programs read $constructor differently unless the user sets it, and $__proto__ in any case: for every
      environment the UI builds there is a text on which they differ. */
  lemma OrdinaryObjectsDiffer(env: Object)
    requires Ordinary(env)
    ensures "constructor" !in env.own ==> ServerInterpolate("$constructor", env.own, 0) == ""
    ensures "constructor" !in env.own ==> UIInterpolate("$constructor", env, 0) == env.inherited["constructor"] != ""
    ensures ServerInterpolate("$__proto__", env.own, 0) == "" && UIInterpolate("$__proto__", env, 0) == PROTO_TEXT
  {
    hide ServerInterpolate, UIInterpolate, Interpolated, Read;
    assert ("$" + "constructor" == "$constructor") && ("$" + "__proto__" == "$__proto__");
    BareNameInBoth("__proto__", env);
    if "constructor" !in env.own {
      assert '}' in env.inherited["constructor"];
      BareNameInBoth("constructor", env);
    }
  }

  lemma BareNameInBoth(n: string, env: Object)
    requires IsName(n)
    ensures ServerInterpolate("$" + n, env.own, 0) == EnvLookup(env.own)(n)
    ensures UIInterpolate("$" + n, env, 0) == ObjectLookup(env)(n)
  {
    hide ServerInterpolate, UIInterpolate, Interpolated;
    ServerRefines("$" + n, env.own, 0);
    UIRefines("$" + n, env, 0);
    BareName(n, EnvLookup(env.own));
    BareName(n, ObjectLookup(env));
  }

  /** A braced reference with a default, at the start of a text. */
  lemma BracedDefault(n: string, d: string, rest: string)
    requires IsName(n) && '}' !in d
    ensures var s := "${" + n + ":-" + d + "}" + rest;
      Read(s, 0) == Some(Reference(n, d, |n| + |d| + 5)) && s[|n| + |d| + 5..] == rest
  {
    var s := "${" + n + ":-" + d + "}" + rest;
    var name, start := 2 + |n|, 4 + |n|;
    assert forall k :: 0 <= k < |n| ==> s[2 + k] == n[k];
    assert s[0] == '$' && s[1] == '{' && s[name] == ':' && s[name + 1] == '-';
    assert forall k :: 0 <= k < |d| ==> s[start + k] == d[k];
    assert s[start + |d|] == '}';
    RunEndsAt(Word, s, 3, name);
    RunEndsAt(NotClosing, s, start, start + |d|);
    assert s[2..name] == n && s[start..start + |d|] == d;
  }

  lemma RunEndsAt(cls: Class, s: string, i: nat, end: nat)
    requires i <= end < |s| && (forall k :: i <= k < end ==> Matches(cls, s[k])) && !Matches(cls, s[end])
    ensures RunEnd(cls, s, i) == end
  {
  }

  /** A reference, as it reads once the first `i` characters have been dropped. */
  function Dropped(r: Option<Reference>, i: nat): Option<Reference> {
    if r.None? || r.value.end < i then None else Some(r.value.(end := r.value.end - i))
  }

  lemma DroppedSlice(s: string, i: nat, a: nat, b: nat)
    requires i <= a <= b <= |s|
    ensures s[i..][a - i..b - i] == s[a..b]
  {
    assert forall k :: 0 <= k < b - a ==> s[i..][a - i..b - i][k] == s[a..b][k];
  }

  lemma BareDropped(s: string, i: nat, j: nat)
    requires i <= j && j + 1 < |s| && s[j] == '$' && s[j + 1] != '{'
    ensures Read(s[i..], j - i) == Dropped(Read(s, j), i)
  {
    hide NameEnd;
    NameEndDropped(s, i, j + 1);
    DroppedSlice(s, i, j + 1, NameEnd(s, j + 1));
    assert s[i..][j - i] == '$' && s[i..][j + 1 - i] == s[j + 1];
  }

  lemma BracedDropped(s: string, i: nat, j: nat)
    requires i <= j && j + 1 < |s| && s[j] == '$' && s[j + 1] == '{'
    ensures Read(s[i..], j - i) == Dropped(Read(s, j), i)
  {
    hide NameEnd, DefaultStart, RunEnd;
    var t, n := s[i..], NameEnd(s, j + 2);
    NameEndDropped(s, i, j + 2);
    DefaultStartDropped(s, i, n);
    var start := DefaultStart(s, n);
    RunEndDropped(NotClosing, s, i, start);
    var end := if start == n then n else RunEnd(NotClosing, s, start);
    DroppedSlice(s, i, j + 2, n);
    DroppedSlice(s, i, start, end);
    assert t[j - i] == '$' && t[j + 1 - i] == '{';
    assert end < |s| ==> t[end - i] == s[end];
  }

  lemma RunEndDropped(cls: Class, s: string, i: nat, j: nat)
    requires i <= j <= |s|
    ensures RunEnd(cls, s[i..], j - i) == RunEnd(cls, s, j) - i
  {
    assert s[i..] == s[i..|s|];
    RunEndShifts(cls, s, i, |s|, j);
  }

  lemma ReadDropped(s: string, i: nat, j: nat)
    requires i <= j < |s|
    ensures Read(s[i..], j - i) == Dropped(Read(s, j), i)
  {
    if j + 1 < |s| && s[j] == '$' {
      if s[j + 1] == '{' { BracedDropped(s, i, j); } else { BareDropped(s, i, j); }
    }
  }

  lemma NameEndDropped(s: string, i: nat, j: nat)
    requires i <= j <= |s|
    ensures NameEnd(s[i..], j - i) == NameEnd(s, j) - i
  {
    assert s[i..] == s[i..|s|];
    if j < |s| { NameEndShifts(s, i, |s|, j); }
  }

  lemma DefaultStartDropped(s: string, i: nat, n: nat)
    requires i <= n <= |s|
    ensures DefaultStart(s[i..], n - i) == DefaultStart(s, n) - i
  {
  }

  lemma InterpolatedStep(s: string, lookup: Lookup, i: nat)
    requires i < |s|
    ensures Interpolated(s, lookup, i) ==
      match Read(s, i)
      case None => [s[i]] + Interpolated(s, lookup, i + 1)
      case Some(r) => Answer(lookup, r) + Interpolated(s, lookup, r.end)
  {
  }

  lemma InterpolatedEnd(s: string, lookup: Lookup)
    ensures Interpolated(s, lookup, |s|) == ""
  {
  }

  /** What comes before a position does not matter to what is made of what follows. */
  lemma {:induction false} InterpolatedDropped(s: string, lookup: Lookup, i: nat, j: nat)
    requires i <= j <= |s|
    ensures Interpolated(s[i..], lookup, j - i) == Interpolated(s, lookup, j)
    decreases |s| - j
  {
    hide Read, Interpolated;
    var t := s[i..];
    if j == |s| {
      InterpolatedEnd(s, lookup);
      InterpolatedEnd(t, lookup);
    } else {
      ReadDropped(s, i, j);
      InterpolatedStep(s, lookup, j);
      InterpolatedStep(t, lookup, j - i);
      assert t[j - i] == s[j];
      InterpolatedDropped(s, lookup, i, if Read(s, j).None? then j + 1 else Read(s, j).value.end);
    }
  }

  /** Two wrong answers that make up for each other: the server gives the long default and nothing, the UI gives what it
      inherits twice. */
  lemma WrongAnswersCanMakeUp(env: Object)
    requires Ordinary(env)
    ensures var text := "${" + PROTO + ":-" + PROTO_TEXT + PROTO_TEXT + "}" + "$__proto__";
      && !Independent(text, env)
      && ServerInterpolate(text, env.own, 0) == UIInterpolate(text, env, 0) == PROTO_TEXT + PROTO_TEXT
  {
    var d, rest := PROTO_TEXT + PROTO_TEXT, "$__proto__";
    var text := "${" + PROTO + ":-" + PROTO_TEXT + PROTO_TEXT + "}" + rest;
    assert text == "${" + PROTO + ":-" + d + "}" + rest;
    BracedDefault(PROTO, d, rest);
    var r := Reference(PROTO, d, |PROTO| + |d| + 5);
    BothMakeUp(text, rest, r, env);
    hide Read, ServerInterpolate, UIInterpolate;
    assert References(text, 0) == [r] + References(text, r.end);
    assert r in References(text, 0) && !NotInherited(env, r);
  }

  lemma BothMakeUp(text: string, rest: string, r: Reference, env: Object)
    requires Ordinary(env) && rest == "$__proto__" && r.name == PROTO && r.fallback == PROTO_TEXT + PROTO_TEXT
    requires text != "" && Read(text, 0) == Some(r) && text[r.end..] == rest
    ensures ServerInterpolate(text, env.own, 0) == UIInterpolate(text, env, 0) == PROTO_TEXT + PROTO_TEXT
  {
    var l, k := EnvLookup(env.own), ObjectLookup(env);
    assert l(PROTO) == "" && k(PROTO) == PROTO_TEXT;
    assert rest == "$" + PROTO;
    hide ServerInterpolate, UIInterpolate, Ordinary, Read, Interpolated, EnvLookup, ObjectLookup;
    ServerRefines(text, env.own, 0);
    UIRefines(text, env, 0);
    ThenBareName(text, PROTO, r, l);
    ThenBareName(text, PROTO, r, k);
  }

  /** A reference, and then a bare name. */
  lemma ThenBareName(text: string, n: string, r: Reference, lookup: Lookup)
    requires IsName(n) && text != "" && Read(text, 0) == Some(r) && text[r.end..] == "$" + n
    ensures Interpolated(text, lookup, 0) == Answer(lookup, r) + lookup(n)
  {
    hide Read, Interpolated;
    InterpolatedStep(text, lookup, 0);
    InterpolatedDropped(text, lookup, r.end, r.end);
    BareName(n, lookup);
  }

  /** The object inherits no value for a name that it does not have itself. */
  ghost predicate InheritsNothing(env: Object) {
    forall n :: IsName(n) && n !in env.own && n in env.inherited ==> env.inherited[n] == ""
  }

  lemma {:induction false} ReferencesHaveNames(s: string, i: nat)
    requires i <= |s|
    ensures forall r :: r in References(s, i) ==> IsName(r.name)
    decreases |s| - i
  {
    if i < |s| {
      if Read(s, i).Some? { ReadNames(s, i); }
      ReferencesHaveNames(s, if Read(s, i).None? then i + 1 else Read(s, i).value.end);
    }
  }

  /** The two programs agree on all texts exactly when the UI's environment object inherits no variable. */
  lemma ProgramsAgreeOnAllTextsExactlyWhen(env: Object)
    ensures InheritsNothing(env) <==> forall s :: ServerInterpolate(s, env.own, 0) == UIInterpolate(s, env, 0)
  {
    hide ServerInterpolate, UIInterpolate;
    if InheritsNothing(env) {
      forall s ensures ServerInterpolate(s, env.own, 0) == UIInterpolate(s, env, 0) {
        ReferencesHaveNames(s, 0);
        ProgramsAgreeOnText(s, env);
      }
    } else {
      var n :| IsName(n) && n !in env.own && n in env.inherited && env.inherited[n] != "";
      BareNameInBoth(n, env);
    }
  }

  // ---- a second pass --------------------------------------------------------------------------------

  ghost predicate NoReferences(s: string) {
    forall i :: 0 <= i < |s| ==> Read(s, i).None?
  }

  lemma NoDollarNoReferences(s: string)
    requires '$' !in s
    ensures NoReferences(s)
  {
  }

  lemma {:induction false} WithoutReferences(s: string, lookup: Lookup, i: nat)
    requires i <= |s| && NoReferences(s)
    ensures Interpolated(s, lookup, i) == s[i..]
    decreases |s| - i
  {
    if i < |s| { WithoutReferences(s, lookup, i + 1); }
  }

  /** With nothing to look up, every reference is longer than what replaces it. */
  lemma {:induction false} ReferencesShrink(s: string, i: nat)
    requires i <= |s|
    ensures |Interpolated(s, EnvLookup(map[]), i)| <= |s| - i
    ensures (exists j :: i <= j < |s| && Read(s, j).Some?) ==> |Interpolated(s, EnvLookup(map[]), i)| < |s| - i
    decreases |s| - i
  {
    if i < |s| { ReferencesShrink(s, if Read(s, i).None? then i + 1 else Read(s, i).value.end); }
  }

  /** Interpolating again with an empty environment, as the server does with a manifest the UI has converted, changes
      nothing exactly when the first pass has left no reference behind; having left no dollar sign is enough. */
  lemma SecondPassIsIdentityExactlyWhen(t: string)
    ensures Interpolate(t, map[]) == t <==> NoReferences(t)
    ensures '$' !in t ==> Interpolate(t, map[]) == t
  {
    if NoReferences(t) { WithoutReferences(t, EnvLookup(map[]), 0); } else { ReferencesShrink(t, 0); }
    if '$' !in t { NoDollarNoReferences(t); }
  }
}
