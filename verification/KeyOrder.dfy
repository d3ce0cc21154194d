/** The order in which a store cursor visits its keys: lexicographic, as for bytes.
    (UTF-8 keeps code-point order, so comparing characters compares bytes.) */
module KeyOrder {

  predicate Less(a: string, b: string) {
    b != "" && (a == "" || a[0] < b[0] || (a[0] == b[0] && Less(a[1..], b[1..])))
  }

  predicate HasPrefix(s: string, prefix: string) {
    |prefix| <= |s| && s[..|prefix|] == prefix
  }

  ghost predicate Sorted(keys: seq<string>) {
    forall i, j :: 0 <= i < j < |keys| ==> Less(keys[i], keys[j])
  }

  lemma {:induction false} Irreflexive(a: string)
    ensures !Less(a, a)
  {
    if a != "" { Irreflexive(a[1..]); }
  }

  lemma {:induction false} Transitive(a: string, b: string, c: string)
    requires Less(a, b) && Less(b, c)
    ensures Less(a, c)
  {
    if a != "" && a[0] == b[0] == c[0] { Transitive(a[1..], b[1..], c[1..]); }
  }

  lemma Asymmetric()
    ensures forall a, b :: Less(a, b) ==> !Less(b, a)
  {
    forall a, b | Less(a, b) ensures !Less(b, a) {
      if Less(b, a) { Transitive(a, b, a); }
      Irreflexive(a);
    }
  }

  lemma {:induction false} Total(a: string, b: string)
    ensures a == b || Less(a, b) || Less(b, a)
  {
    if a != "" && b != "" && a[0] == b[0] {
      Total(a[1..], b[1..]);
      assert a == [a[0]] + a[1..] && b == [b[0]] + b[1..];
    }
  }

  lemma {:induction false} LeastExists(keys: set<string>)
    requires keys != {}
    ensures exists k :: k in keys && forall x :: x in keys && x != k ==> Less(k, x)
    decreases keys
  {
    hide Less;
    var k :| k in keys;
    var rest := keys - {k};
    if rest == {} {
      assert keys == {k};
    } else {
      LeastExists(rest);
      var l :| l in rest && forall x :: x in rest && x != l ==> Less(l, x);
      Total(k, l);
      var least := if Less(k, l) then k else l;
      forall x | x in keys && x != least ensures Less(least, x) {
        if least == k && x != l { Transitive(k, l, x); }
      }
    }
  }

  function Least(keys: set<string>): (least: string)
    requires keys != {}
    ensures least in keys && forall x :: x in keys && x != least ==> Less(least, x)
  {
    LeastExists(keys);
    Asymmetric();
    var k :| k in keys && forall x :: x in keys && x != k ==> Less(k, x);
    k
  }

  /** The keys of a bucket in cursor order. */
  function InOrder(keys: set<string>): (order: seq<string>)
    ensures Sorted(order)
    ensures forall k :: k in order <==> k in keys
    decreases keys
  {
    if keys == {} then [] else
      var k := Least(keys);
      var rest := InOrder(keys - {k});
      [k] + rest
  }

  lemma TailMembers(a: seq<string>)
    requires Sorted(a) && a != []
    ensures forall k :: k in a[1..] <==> k in a && k != a[0]
  {
    Irreflexive(a[0]);
    forall k | k in a && k != a[0] ensures k in a[1..] {
      var i :| 0 <= i < |a| && a[i] == k;
      assert a[1..][i - 1] == k;
    }
  }

  /** A set of keys has only one sorted enumeration. */
  lemma {:induction false} SortedUnique(a: seq<string>, b: seq<string>)
    requires Sorted(a) && Sorted(b)
    requires forall k :: k in a <==> k in b
    ensures a == b
  {
    assert a != [] ==> a[0] in a;
    assert b != [] ==> b[0] in b;
    if a != [] {
      if Less(a[0], b[0]) && Less(b[0], a[0]) {
        Transitive(a[0], b[0], a[0]);
      }
      Irreflexive(a[0]);
      assert a[0] == b[0];
      assert a == [a[0]] + a[1..] && b == [b[0]] + b[1..];
      TailMembers(a);
      TailMembers(b);
      SortedUnique(a[1..], b[1..]);
    }
  }

  /** The keys of cursor positions lo..hi that lie in `keep`. */
  ghost function Kept(cursor: seq<string>, lo: nat, hi: nat, keep: set<string>): seq<string>
    requires lo <= hi <= |cursor|
  {
    if lo == hi then [] else
      Kept(cursor, lo, hi - 1, keep) + if cursor[hi - 1] in keep then [cursor[hi - 1]] else []
  }

  lemma {:induction false} KeptIsSorted(cursor: seq<string>, lo: nat, hi: nat, keep: set<string>)
    requires lo <= hi <= |cursor| && Sorted(cursor)
    ensures Sorted(Kept(cursor, lo, hi, keep))
    ensures forall k :: k in Kept(cursor, lo, hi, keep) <==> k in keep && exists j :: lo <= j < hi && cursor[j] == k
  {
    if lo < hi {
      KeptIsSorted(cursor, lo, hi - 1, keep);
      var front := Kept(cursor, lo, hi - 1, keep);
      forall i | 0 <= i < |front| ensures Less(front[i], cursor[hi - 1]) {
        assert front[i] in front;
      }
    }
  }

  lemma {:induction false} PrefixIsNotGreater(key: string, prefix: string)
    requires HasPrefix(key, prefix)
    ensures !Less(key, prefix)
  {
    if prefix != "" {
      PrefixIsNotGreater(key[1..], prefix[1..]);
    }
  }

  /** A common prefix does not matter to the order. */
  lemma {:induction false} CommonPrefix(prefix: string, a: string, b: string)
    ensures Less(prefix + a, prefix + b) <==> Less(a, b)
  {
    if prefix == "" {
      assert prefix + a == a && prefix + b == b;
    } else {
      assert (prefix + a)[1..] == prefix[1..] + a && (prefix + b)[1..] == prefix[1..] + b;
      CommonPrefix(prefix[1..], a, b);
    }
  }

  /** Keys that share a prefix are neighbours in cursor order. */
  lemma {:induction false} PrefixedKeysAreAdjacent(prefix: string, low: string, high: string)
    requires !Less(low, prefix) && (low == high || Less(low, high)) && HasPrefix(high, prefix)
    ensures HasPrefix(low, prefix)
  {
    if prefix != "" {
      assert low != "" && high != "" && low[0] == prefix[0] == high[0];
      PrefixedKeysAreAdjacent(prefix[1..], low[1..], high[1..]);
      assert low[..|prefix|] == [low[0]] + low[1..][..|prefix| - 1];
      assert prefix == [prefix[0]] + prefix[1..];
    }
  }
}
