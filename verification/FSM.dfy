/** The finite state machine behind the log: a bucket of encrypted documents that commands, scans, snapshots and
    restores work on in place.  Its readable content, `View`, is what StateMachine.dfy describes. */
module FSM {
  import opened Option
  import opened KeyOrder
  import opened StateMachine
  import opened Sealing

  class FSM<V(==,!new)> {
    const box: Box<V>
    const version: V -> int
    var bucket: Bucket

    /** Nothing empty is ever stored: what is put has a nonce in front. */
    ghost predicate Valid() reads this {
      box.RoundTrip() && forall k :: k in bucket ==> bucket[k] != []
    }

    function View(): Store<V> reads this {
      box.View(bucket)
    }

    constructor (box: Box<V>, version: V -> int, file: Bucket)
      requires box.RoundTrip()
      requires forall k :: k in file ==> file[k] != []
      ensures Valid() && this.box == box && this.version == version && bucket == file
    {
      this.box, this.version, this.bucket := box, version, file;
    }

    /** Put one document; the random source may fail, and a key must not be empty. */
    method Put(key: string, value: V, nonce: Option<Nonce>) returns (err: Option<Error>)
      requires Valid()
      modifies this`bucket
      ensures Valid()
      ensures SealedOutcome(bucket, err) == box.SealedWrite(old(bucket), key, value, nonce)
    {
      if nonce.None? { return Some(NoEntropy); }
      if key == "" { return Some(KeyRequired); }
      bucket := bucket[key := box.Encrypt(nonce.value, value)];
      return None;
    }

    /** Applies one committed log entry. */
    method Apply(c: Command<V>, nonce: Option<Nonce>) returns (err: Option<Error>)
      requires Valid()
      modifies this`bucket
      ensures Valid()
      ensures SealedOutcome(bucket, err) == box.SealedApply(old(bucket), version, c, nonce)
      ensures var a := StateMachine.Apply(old(View()), version, c, nonce.Some?); View() == a.store && err == a.error
    {
      box.SealedApplyRefines(bucket, version, c, nonce);
      match c {
        case Malformed =>
          return Some(ParseFailed);
        case Set(key, value) =>
          err := Put(key, value, nonce);
        case Del(key) =>
          bucket := bucket - {key};
          return None;
        case Cas(key, value, expected) =>
          var currentVersion := 0;
          if key in bucket {
            var existing := box.Decrypt(bucket[key]);
            if existing.Plain? {
              currentVersion := version(existing.value);
            }
          }
          if currentVersion != expected {
            return Some(CasFailed(expected, currentVersion));
          }
          err := Put(key, value, nonce);
        case OtherOp(_) =>
          return None;
      }
    }

    /** An absent key and a document that cannot be read look the same. */
    method GetState(key: string) returns (v: Option<V>)
      ensures v == if key in View() then Some(View()[key]) else None
    {
      if key !in bucket { return None; }
      var val := box.Decrypt(bucket[key]);
      return if val.Plain? then Some(val.value) else None;
    }

    /** Positions a cursor at the first key that is not before `key`. */
    static method Seek(cursor: seq<string>, key: string) returns (i: nat)
      ensures i <= |cursor|
      ensures forall j :: 0 <= j < i ==> Less(cursor[j], key)
      ensures i < |cursor| ==> !Less(cursor[i], key)
    {
      i := 0;
      while i < |cursor| && Less(cursor[i], key)
        invariant 0 <= i <= |cursor|
        invariant forall j :: 0 <= j < i ==> Less(cursor[j], key)
      {
        i := i + 1;
      }
    }

    /** Seeks to the prefix and goes on from there. */
    method PrefixScan(prefix: string) returns (values: seq<V>, keys: seq<string>)
      ensures keys == InOrder(set k | k in View() && HasPrefix(k, prefix))
      ensures values == Scan(View(), prefix)
    {
      hide Less, Sorted, HasPrefix, Kept;
      var cursor := InOrder(bucket.Keys);
      var start := Seek(cursor, prefix);
      ghost var end;
      values, keys, end := CursorLoop(cursor, start, prefix);
      WindowIsPrefixRange(cursor, prefix, start, end);
    }

    /** The cursor loop: goes on while keys have the prefix, skips what cannot be decrypted. */
    method CursorLoop(cursor: seq<string>, start: nat, prefix: string)
      returns (values: seq<V>, keys: seq<string>, ghost end: nat)
      requires start <= |cursor| && forall k :: k in cursor ==> k in bucket
      ensures start <= end <= |cursor| && (forall j :: start <= j < end ==> HasPrefix(cursor[j], prefix))
      ensures end < |cursor| ==> !HasPrefix(cursor[end], prefix)
      ensures keys == Kept(cursor, start, end, View().Keys) && forall k :: k in keys ==> k in View()
      ensures values == Values(View(), keys)
    {
      hide HasPrefix;
      var i := start;
      values, keys := [], [];
      while i < |cursor| && HasPrefix(cursor[i], prefix)
        invariant start <= i <= |cursor|
        invariant forall j :: start <= j < i ==> HasPrefix(cursor[j], prefix)
        invariant keys == Kept(cursor, start, i, View().Keys)
        invariant forall k :: k in keys ==> k in View()
        invariant values == Values(View(), keys)
        decreases |cursor| - i
      {
        assert cursor[i] in cursor;
        var decV := box.Decrypt(bucket[cursor[i]]);
        if decV.Plain? {
          ValuesAppend(View(), keys, cursor[i]);
          values, keys := values + [decV.value], keys + [cursor[i]];
        }
        i := i + 1;
      }
      end := i;
    }

    /** The cursor positions visited hold exactly the readable keys with the prefix. */
    lemma WindowIsPrefixRange(cursor: seq<string>, prefix: string, start: nat, end: nat)
      requires cursor == InOrder(bucket.Keys) && start <= end <= |cursor|
      requires forall j :: 0 <= j < start ==> Less(cursor[j], prefix)
      requires start < |cursor| ==> !Less(cursor[start], prefix)
      requires forall j :: start <= j < end ==> HasPrefix(cursor[j], prefix)
      requires end < |cursor| ==> !HasPrefix(cursor[end], prefix)
      ensures Kept(cursor, start, end, View().Keys) == InOrder(set k | k in View() && HasPrefix(k, prefix))
    {
      var keys := Kept(cursor, start, end, View().Keys);
      KeptIsSorted(cursor, start, end, View().Keys);
      forall k | k in View() && HasPrefix(k, prefix) ensures k in keys {
        PrefixFoundInWindow(cursor, prefix, start, end, k);
      }
      SortedUnique(keys, InOrder(set k | k in View() && HasPrefix(k, prefix)));
    }

    static lemma ValuesAppend(m: Store<V>, keys: seq<string>, k: string)
      requires k in m && forall x :: x in keys ==> x in m
      ensures (forall x :: x in keys + [k] ==> x in m) && Values(m, keys + [k]) == Values(m, keys) + [m[k]]
    {
    }

    static lemma PrefixFoundInWindow(cursor: seq<string>, prefix: string, start: nat, end: nat, k: string)
      requires Sorted(cursor) && start <= end <= |cursor| && k in cursor && HasPrefix(k, prefix)
      requires forall j :: 0 <= j < start ==> Less(cursor[j], prefix)
      requires start < |cursor| ==> !Less(cursor[start], prefix)
      requires end < |cursor| ==> !HasPrefix(cursor[end], prefix)
      ensures exists j :: start <= j < end && cursor[j] == k
    {
      var p :| 0 <= p < |cursor| && cursor[p] == k;
      PrefixIsNotGreater(k, prefix);
      if end <= p {
        if Less(cursor[end], prefix) && start < end {
          Transitive(cursor[start], cursor[end], prefix);
        }
        PrefixedKeysAreAdjacent(prefix, cursor[end], cursor[p]);
      }
    }

    method GetAllPods() returns (pods: seq<V>)
      ensures pods == Scan(View(), "pod:")
    {
      var keys;
      pods, keys := PrefixScan("pod:");
    }

    /** The names of the bots that are switched on, each once and in order: the values of such keys say "true". */
    method GetAllBots(isTrue: V -> bool) returns (bots: seq<string>)
      ensures Sorted(bots)
      ensures forall b :: b in bots <==> "bot:" + b in View() && isTrue(View()["bot:" + b])
    {
      hide Less, Sorted;
      var values, keys := PrefixScan("bot:");
      bots := SelectTrue(View(), keys, values, isTrue);
      TrueNamesListed(View(), keys, isTrue);
    }

    static method SelectTrue(ghost m: Store<V>, keys: seq<string>, values: seq<V>, isTrue: V -> bool)
      returns (bots: seq<string>)
      requires forall k :: k in keys ==> k in m && HasPrefix(k, "bot:")
      requires |values| == |keys| && forall i :: 0 <= i < |keys| ==> values[i] == m[keys[i]]
      ensures bots == TrueNames(m, keys, isTrue)
    {
      bots := [];
      for i := 0 to |keys|
        invariant bots == TrueNames(m, keys[..i], isTrue)
      {
        assert keys[..i + 1][..i] == keys[..i];
        if isTrue(values[i]) {
          bots := bots + [TrimPrefix(keys[i], "bot:")];
        }
      }
      assert keys[..|keys|] == keys;
    }

    static function TrimPrefix(k: string, prefix: string): (r: string)
      requires HasPrefix(k, prefix)
      ensures k == prefix + r
    {
      k[|prefix|..]
    }

    static function TrueNames(m: Store<V>, keys: seq<string>, isTrue: V -> bool): seq<string>
      requires forall k :: k in keys ==> k in m && HasPrefix(k, "bot:")
    {
      if keys == [] then [] else
        var k := keys[|keys| - 1];
        TrueNames(m, keys[..|keys| - 1], isTrue) + if isTrue(m[k]) then [TrimPrefix(k, "bot:")] else []
    }

    static lemma {:induction false} TrueNamesListed(m: Store<V>, keys: seq<string>, isTrue: V -> bool)
      requires Sorted(keys) && forall k :: k in keys ==> k in m && HasPrefix(k, "bot:")
      ensures forall b :: b in TrueNames(m, keys, isTrue) <==> "bot:" + b in keys && isTrue(m["bot:" + b])
      ensures Sorted(TrueNames(m, keys, isTrue))
    {
      if keys != [] {
        var front, last := keys[..|keys| - 1], keys[|keys| - 1];
        TrueNamesListed(m, front, isTrue);
        assert keys == front + [last];
        forall b | "bot:" + b == last ensures b == TrimPrefix(last, "bot:") {
          assert b == ("bot:" + b)[|"bot:"|..];
        }
        LastNameIsGreatest(keys, TrueNames(m, front, isTrue));
      }
    }

    static lemma LastNameIsGreatest(keys: seq<string>, earlier: seq<string>)
      requires Sorted(keys) && keys != [] && HasPrefix(keys[|keys| - 1], "bot:")
      requires forall b :: b in earlier ==> "bot:" + b in keys[..|keys| - 1]
      ensures forall i :: 0 <= i < |earlier| ==> Less(earlier[i], TrimPrefix(keys[|keys| - 1], "bot:"))
    {
      hide Less;
      var front, last := keys[..|keys| - 1], keys[|keys| - 1];
      forall i | 0 <= i < |earlier| ensures Less(earlier[i], TrimPrefix(last, "bot:")) {
        assert earlier[i] in earlier;
        var j :| 0 <= j < |front| && front[j] == "bot:" + earlier[i];
        assert Less(keys[j], last);
        CommonPrefix("bot:", earlier[i], TrimPrefix(last, "bot:"));
      }
    }

    /** Copies the readable documents, key by key in cursor order. */
    method Snapshot() returns (clone: Store<V>)
      ensures clone == View()
    {
      hide Less, Sorted;
      clone := map[];
      var cursor := InOrder(bucket.Keys);
      for i := 0 to |cursor|
        invariant clone == Copied(View(), cursor, i)
      {
        assert cursor[i] in cursor;
        var decV := box.Decrypt(bucket[cursor[i]]);
        if decV.Plain? {
          clone := clone[cursor[i] := decV.value];
        }
      }
      forall k | k in View() ensures k in cursor {}
      CopiedIsAll(View(), cursor, |cursor|);
    }

    /** What the snapshot loop has copied after `n` cursor positions. */
    static ghost function Copied(view: Store<V>, cursor: seq<string>, n: nat): Store<V>
      requires n <= |cursor|
    {
      if n == 0 then map[]
      else if cursor[n - 1] in view then Copied(view, cursor, n - 1)[cursor[n - 1] := view[cursor[n - 1]]]
      else Copied(view, cursor, n - 1)
    }

    static lemma {:induction false} CopiedIsAll(view: Store<V>, cursor: seq<string>, n: nat)
      requires n <= |cursor|
      ensures Copied(view, cursor, n) == map k | k in view && k in cursor[..n] :: view[k]
      ensures (forall k :: k in view ==> k in cursor[..n]) ==> Copied(view, cursor, n) == view
    {
      if n > 0 {
        CopiedIsAll(view, cursor, n - 1);
        assert cursor[..n] == cursor[..n - 1] + [cursor[n - 1]];
      }
    }

    /** Replaces the whole bucket by a decoded snapshot, or by nothing at all if any part of it fails. */
    method Restore(snapshot: Option<Store<V>>, entropy: string -> Option<Nonce>) returns (err: Option<Error>)
      requires Valid()
      modifies this`bucket
      ensures Valid()
      ensures err.None? <==> snapshot.Some? && forall k :: k in snapshot.value ==> k != "" && entropy(k).Some?
      ensures err.None? ==> View() == snapshot.value
      ensures err.Some? ==> bucket == old(bucket)
    {
      if snapshot.None? { return Some(ParseFailed); }
      var newState := snapshot.value;
      var rebuilt: Bucket := map[];
      var todo := newState.Keys;
      while todo != {}
        invariant todo <= newState.Keys && bucket == old(bucket)
        invariant forall k :: k in newState && k !in todo ==> k != "" && entropy(k).Some?
        invariant forall k :: k in rebuilt ==> rebuilt[k] != []
        invariant box.View(rebuilt) == map k | k in newState && k !in todo :: newState[k]
        decreases todo
      {
        var k :| k in todo;
        if entropy(k).None? { return Some(NoEntropy); }
        if k == "" { return Some(KeyRequired); }
        box.PutView(rebuilt, k, entropy(k).value, newState[k]);
        rebuilt := rebuilt[k := box.Encrypt(entropy(k).value, newState[k])];
        todo := todo - {k};
      }
      bucket := rebuilt;
      return None;
    }
  }
}
