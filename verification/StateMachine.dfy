/** What the replicated state machine means: a plain map from keys to documents, changed by logged commands.
    The class in FSM.dfy, which keeps every document encrypted, is proved to compute exactly this. */
module StateMachine {
  import opened Option
  import opened KeyOrder

  type Store<V> = map<string, V>

  /** A logged command; `Malformed` is a log entry that is not valid JSON of the expected shape. */
  datatype Command<V> =
    | Set(key: string, value: V)
    | Del(key: string)
    | Cas(key: string, value: V, expected: int)
    | OtherOp(op: string)
    | Malformed

  datatype Error =
    | ParseFailed
    | NoEntropy
    | KeyRequired
    | CasFailed(expected: int, got: int)

  datatype Applied<V> = Applied(store: Store<V>, error: Option<Error>)

  /** A missing key counts as version 0. */
  function CurrentVersion<V>(m: Store<V>, version: V -> int, key: string): int {
    if key in m then version(m[key]) else 0
  }

  function Write<V>(m: Store<V>, key: string, value: V, entropy: bool): Applied<V> {
    if !entropy then Applied(m, Some(NoEntropy))
    else if key == "" then Applied(m, Some(KeyRequired))
    else Applied(m[key := value], None)
  }

  /** `entropy` says whether the random source gave a nonce: without one nothing can be encrypted. */
  function Apply<V>(m: Store<V>, version: V -> int, c: Command<V>, entropy: bool): Applied<V> {
    match c
    case Set(key, value) => Write(m, key, value, entropy)
    case Del(key) => Applied(m - {key}, None)
    case Cas(key, value, expected) =>
      var got := CurrentVersion(m, version, key);
      if got != expected then Applied(m, Some(CasFailed(expected, got))) else Write(m, key, value, entropy)
    case OtherOp(_) => Applied(m, None)
    case Malformed => Applied(m, Some(ParseFailed))
  }

  /** The state after a whole log, on a replica whose random source never fails. */
  function Replay<V>(m: Store<V>, version: V -> int, log: seq<Command<V>>): Store<V> {
    if log == [] then m
    else Apply(Replay(m, version, log[..|log| - 1]), version, log[|log| - 1], true).store
  }

  /** The documents whose key has the prefix, in key order. */
  function Scan<V>(m: Store<V>, prefix: string): seq<V> {
    Values(m, InOrder(set k | k in m && HasPrefix(k, prefix)))
  }

  function Values<V>(m: Store<V>, keys: seq<string>): (values: seq<V>)
    requires forall k :: k in keys ==> k in m
    ensures |values| == |keys|
    ensures forall i :: 0 <= i < |keys| ==> values[i] == m[keys[i]]
  {
    if keys == [] then [] else
      assert forall k :: k in keys[1..] ==> k in keys;
      [m[keys[0]]] + Values(m, keys[1..])
  }

  /** A command that fails changes nothing.  A storable compare-and-swap fails exactly when its expectation is stale. */
  lemma RefusedCommandChangesNothing<V>(m: Store<V>, version: V -> int, c: Command<V>, entropy: bool)
    ensures Apply(m, version, c, entropy).error.Some? ==> Apply(m, version, c, entropy).store == m
    ensures c.Cas? && c.key != "" && entropy ==>
      (Apply(m, version, c, entropy).error.Some? <==> CurrentVersion(m, version, c.key) != c.expected)
  {
  }

  /** What a command does to each key: a `set`, and a `cas` that expects the version of what is stored, or 0 where
      nothing is, put their value under their key, a `del` takes its key away, and no other key changes.  Nothing is
      written under an empty key or without randomness. */
  lemma CommandDoes<V>(m: Store<V>, version: V -> int, c: Command<V>, entropy: bool, k: string)
    ensures var after := Apply(m, version, c, entropy).store;
      var before, now := if k in m then Some(m[k]) else None, if k in after then Some(after[k]) else None;
      match c
      case Set(key, value) => now == if k == key != "" && entropy then Some(value) else before
      case Del(key) => now == if k == key then None else before
      case Cas(key, value, expected) =>
        var current := if before.Some? then version(before.value) == expected else expected == 0;
        now == if k == key != "" && current && entropy then Some(value) else before
      case _ => now == before
  {
  }

  lemma ScanMembers<V>(m: Store<V>, prefix: string, v: V)
    ensures v in Scan(m, prefix) <==> exists k :: k in m && HasPrefix(k, prefix) && m[k] == v
  {
    var keys := InOrder(set k | k in m && HasPrefix(k, prefix));
    if v in Scan(m, prefix) {
      var i :| 0 <= i < |keys| && Scan(m, prefix)[i] == v;
      assert keys[i] in keys;
    }
    if k :| k in m && HasPrefix(k, prefix) && m[k] == v {
      assert k in keys;
      var i :| 0 <= i < |keys| && keys[i] == k;
      assert Scan(m, prefix)[i] == v;
    }
  }

  lemma {:induction false} ReplayAppend<V>(m: Store<V>, version: V -> int, front: seq<Command<V>>,
          back: seq<Command<V>>)
    ensures Replay(m, version, front + back) == Replay(Replay(m, version, front), version, back)
    decreases |back|
  {
    if back == [] {
      assert front + back == front;
    } else {
      var n := |back| - 1;
      assert (front + back)[..|front + back| - 1] == front + back[..n];
      ReplayAppend(m, version, front, back[..n]);
    }
  }
}
