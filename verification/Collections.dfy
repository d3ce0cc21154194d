/** Small facts about sequences and sets that proofs state by name. */
module Collections {

  lemma AppendAssociative<T>(a: seq<T>, b: seq<T>, c: seq<T>)
    ensures a + (b + c) == a + b + c
  {
  }

  lemma SubsetSize<T>(a: set<T>, b: set<T>)
    requires a <= b
    ensures |a| <= |b|
  {
    assert b == a + (b - a);
  }

  /** Positions below `n`, in order, each at most once. */
  ghost predicate Ascending(positions: seq<nat>, n: nat) {
    (forall k :: 0 <= k < |positions| ==> positions[k] < n) &&
    forall j, k :: 0 <= j < k < |positions| ==> positions[j] < positions[k]
  }

  lemma AscendingMore(positions: seq<nat>, n: nat)
    requires Ascending(positions, n)
    ensures Ascending(positions, n + 1) && Ascending(positions + [n], n + 1)
    ensures n !in positions && forall i: nat :: i in positions + [n] <==> i in positions || i == n
  {
  }

  /** The sequences one after the other. */
  function Concat<T>(blocks: seq<seq<T>>): seq<T> {
    if blocks == [] then [] else Concat(blocks[..|blocks| - 1]) + blocks[|blocks| - 1]
  }

  lemma ConcatMore<T>(blocks: seq<seq<T>>, last: seq<T>)
    ensures Concat(blocks + [last]) == Concat(blocks) + last
  {
    assert (blocks + [last])[..|blocks|] == blocks;
  }
}
