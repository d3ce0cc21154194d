/** Encryption at rest, and what a replica's encrypted bucket means: every command commutes with decryption, so
    replicas that used different nonces cannot be told apart, and compacting the log into a snapshot is invisible. */
module Sealing {
  import opened Option
  import opened StateMachine

  newtype Byte = x: int | 0 <= x < 256
  type Bytes = seq<Byte>
  type Bucket = map<string, Bytes>

  /** The nonce size of AES-GCM. */
  const NONCE_SIZE := 12

  type Nonce = n: Bytes | |n| == NONCE_SIZE witness seq(NONCE_SIZE, i => 0)

  /** Decrypting gives nothing at all for absent data, fails on short or forged data, or gives the document. */
  datatype Decrypted<V> = Nil | Bad | Plain(value: V)

  datatype SealedOutcome = SealedOutcome(bucket: Bucket, error: Option<Error>)

  /** An authenticated cipher with the cluster's key; documents stand for their encoded bytes. */
  datatype Box<!V(!new)> = Box(key: Bytes, seal: (Bytes, Nonce, V) -> Bytes,
    unseal: (Bytes, Nonce, Bytes) -> Option<V>) {

    /** Authenticated decryption inverts authenticated encryption (NIST SP 800-38D, sections 7.1 and 7.2). */
    ghost predicate RoundTrip() {
      forall nonce: Nonce, v :: unseal(key, nonce, seal(key, nonce, v)) == Some(v)
    }

    function Encrypt(nonce: Nonce, v: V): Bytes {
      nonce + seal(key, nonce, v)
    }

    function Decrypt(data: Bytes): Decrypted<V> {
      if |data| == 0 then Nil
      else if |data| < NONCE_SIZE then Bad
      else match unseal(key, data[..NONCE_SIZE], data[NONCE_SIZE..])
           case Some(v) => Plain(v)
           case None => Bad
    }

    /** The documents of a bucket that this key can read. */
    function View(b: Bucket): Store<V> {
      map k | k in b && Decrypt(b[k]).Plain? :: Decrypt(b[k]).value
    }

    function SealedWrite(b: Bucket, key: string, value: V, nonce: Option<Nonce>): SealedOutcome {
      if nonce.None? then SealedOutcome(b, Some(NoEntropy))
      else if key == "" then SealedOutcome(b, Some(KeyRequired))
      else SealedOutcome(b[key := Encrypt(nonce.value, value)], None)
    }

    /** The version a compare-and-swap sees: unreadable documents count as missing. */
    function SealedVersion(b: Bucket, version: V -> int, key: string): int {
      if key in b && Decrypt(b[key]).Plain? then version(Decrypt(b[key]).value) else 0
    }

    function SealedApply(b: Bucket, version: V -> int, c: Command<V>, nonce: Option<Nonce>): SealedOutcome {
      match c
      case Set(key, value) => SealedWrite(b, key, value, nonce)
      case Del(key) => SealedOutcome(b - {key}, None)
      case Cas(key, value, expected) =>
        var got := SealedVersion(b, version, key);
        if got != expected then SealedOutcome(b, Some(CasFailed(expected, got)))
        else SealedWrite(b, key, value, nonce)
      case OtherOp(_) => SealedOutcome(b, None)
      case Malformed => SealedOutcome(b, Some(ParseFailed))
    }

    function SealedReplay(b: Bucket, version: V -> int, log: seq<Command<V>>, nonces: seq<Nonce>): Bucket
      requires |nonces| == |log|
    {
      if log == [] then b
      else
        var n := |log| - 1;
        SealedApply(SealedReplay(b, version, log[..n], nonces[..n]), version, log[n], Some(nonces[n])).bucket
    }

    lemma EncryptRoundTrip(nonce: Nonce, v: V)
      requires RoundTrip()
      ensures Decrypt(Encrypt(nonce, v)) == Plain(v)
    {
      var data := Encrypt(nonce, v);
      assert data[..NONCE_SIZE] == nonce;
      assert data[NONCE_SIZE..] == seal(key, nonce, v);
    }

    lemma PutView(b: Bucket, key: string, nonce: Nonce, v: V)
      requires RoundTrip()
      ensures View(b[key := Encrypt(nonce, v)]) == View(b)[key := v]
    {
      EncryptRoundTrip(nonce, v);
    }

    /** Decryption commutes with every command, error verdicts included, and a refused command leaves the
        encrypted bytes as they were. */
    lemma SealedApplyRefines(b: Bucket, version: V -> int, c: Command<V>, nonce: Option<Nonce>)
      requires RoundTrip()
      ensures View(SealedApply(b, version, c, nonce).bucket) == Apply(View(b), version, c, nonce.Some?).store
      ensures SealedApply(b, version, c, nonce).error == Apply(View(b), version, c, nonce.Some?).error
      ensures SealedApply(b, version, c, nonce).error.Some? ==> SealedApply(b, version, c, nonce).bucket == b
    {
      match c
      case Set(key, value) => if nonce.Some? { PutView(b, key, nonce.value, value); }
      case Cas(key, value, expected) => if nonce.Some? { PutView(b, key, nonce.value, value); }
      case Del(key) => assert View(b - {key}) == View(b) - {key};
      case OtherOp(_) =>
      case Malformed =>
    }

    /** A replica's readable state after any log is the plain map's state after that log, whatever the nonces. */
    lemma {:induction false} SealedReplayRefines(b: Bucket, version: V -> int, log: seq<Command<V>>, nonces: seq<Nonce>)
      requires RoundTrip() && |nonces| == |log|
      ensures View(SealedReplay(b, version, log, nonces)) == Replay(View(b), version, log)
      decreases |log|
    {
      if log != [] {
        var n := |log| - 1;
        SealedReplayRefines(b, version, log[..n], nonces[..n]);
        SealedApplyRefines(SealedReplay(b, version, log[..n], nonces[..n]), version, log[n], Some(nonces[n]));
      }
    }

    /** Two replicas that start from the same documents agree on every read after any log, and on the verdict
        about any next command, although they drew different nonces. */
    lemma ReplicasAgree(b1: Bucket, nonces1: seq<Nonce>, b2: Bucket, nonces2: seq<Nonce>, version: V -> int,
                        log: seq<Command<V>>, next: Command<V>, nonce1: Nonce, nonce2: Nonce)
      requires RoundTrip() && |nonces1| == |nonces2| == |log| && View(b1) == View(b2)
      ensures var s1, s2 := SealedReplay(b1, version, log, nonces1), SealedReplay(b2, version, log, nonces2);
        && View(s1) == View(s2)
        && SealedApply(s1, version, next, Some(nonce1)).error == SealedApply(s2, version, next, Some(nonce2)).error
    {
      SealedReplayRefines(b1, version, log, nonces1);
      SealedReplayRefines(b2, version, log, nonces2);
      SealedApplyRefines(SealedReplay(b1, version, log, nonces1), version, next, Some(nonce1));
      SealedApplyRefines(SealedReplay(b2, version, log, nonces2), version, next, Some(nonce2));
    }

    /** Replaying the rest of the log on a bucket restored from the snapshot of any prefix gives the readable state
        of a replica that applied the whole log; no nonce need be shared between the three. */
    lemma CompactionIsInvisible(b: Bucket, restored: Bucket, version: V -> int, log: seq<Command<V>>, n: nat,
                                nonces: seq<Nonce>, nonces1: seq<Nonce>, nonces2: seq<Nonce>)
      requires RoundTrip() && n <= |log| && |nonces| == |log| && |nonces1| == n && |nonces2| == |log| - n
      requires View(restored) == View(SealedReplay(b, version, log[..n], nonces1))
      ensures View(SealedReplay(restored, version, log[n..], nonces2)) == View(SealedReplay(b, version, log, nonces))
    {
      SealedReplayRefines(b, version, log, nonces);
      SealedReplayRefines(b, version, log[..n], nonces1);
      SealedReplayRefines(restored, version, log[n..], nonces2);
      ReplayAppend(View(b), version, log[..n], log[n..]);
      assert log[..n] + log[n..] == log;
    }
  }
}
