/**
 Version vectors of the cluster: one counter per node, an absent counter reads as zero
 (server/src/cluster.ts, "Vecteurs de version").
 */
module VersionVectors {
  import opened Collections

  type NodeId = string
  type VersionVector = map<NodeId, nat>

  datatype Order = Equal | Newer | Older | Concurrent

  /** Fingerprints are strings of one fixed length; only their order matters. */
  type Hash = nat

  datatype Side = A | B

  function At(v: VersionVector, k: NodeId): nat {
    if k in v then v[k] else 0
  }

  /** Pointwise order: everything `a` has seen, `b` has seen. */
  predicate Below(a: VersionVector, b: VersionVector) {
    forall k :: k in a ==> a[k] <= At(b, k)
  }

  /** Vectors that agree on every counter, whether or not zero counters are spelled out. */
  ghost predicate Same(a: VersionVector, b: VersionVector) {
    forall k :: At(a, k) == At(b, k)
  }

  /** Reference meaning of the four answers of compareVv. */
  function Compare(a: VersionVector, b: VersionVector): Order {
    if Below(a, b) then (if Below(b, a) then Equal else Older)
    else if Below(b, a) then Newer else Concurrent
  }

  function Merge(a: VersionVector, b: VersionVector): VersionVector {
    map k | k in a.Keys + b.Keys :: Max(At(a, k), At(b, k))
  }

  /** The trigger's increment of this node's own counter. */
  function Bump(v: VersionVector, node: NodeId): VersionVector {
    v[node := At(v, node) + 1]
  }

  /** Which of two concurrent versions is kept: larger total first, then larger fingerprint. */
  ghost function Winner(avv: VersionVector, afp: Hash, bvv: VersionVector, bfp: Hash): Side {
    if Sum(avv) != Sum(bvv) then (if Sum(avv) > Sum(bvv) then A else B)
    else if afp >= bfp then A else B
  }

  method CompareVv(a: VersionVector, b: VersionVector) returns (order: Order)
    ensures order == Compare(a, b)
  {
    var greater, smaller := false, false;
    var keys := a.Keys + b.Keys;
    while keys != {}
      invariant keys <= a.Keys + b.Keys
      invariant greater <==> exists k :: k in (a.Keys + b.Keys) - keys && At(a, k) > At(b, k)
      invariant smaller <==> exists k :: k in (a.Keys + b.Keys) - keys && At(a, k) < At(b, k)
      decreases keys
    {
      var key :| key in keys;
      var x, y := At(a, key), At(b, key);
      if x > y { greater := true; }
      if x < y { smaller := true; }
      keys := keys - {key};
    }
    order := if greater && smaller then Concurrent else if greater then Newer else if smaller then Older else Equal;
  }

  method MergeVv(a: VersionVector, b: VersionVector) returns (out: VersionVector)
    ensures out == Merge(a, b)
  {
    out := a;
    var keys := b.Keys;
    while keys != {}
      invariant keys <= b.Keys
      invariant out.Keys == a.Keys + (b.Keys - keys)
      invariant forall k :: k in out ==> out[k] == if k in keys then At(a, k) else Max(At(a, k), At(b, k))
      decreases keys
    {
      var k :| k in keys;
      out := out[k := Max(At(out, k), b[k])];
      keys := keys - {k};
    }
  }

  method PickWinner(avv: VersionVector, afp: Hash, bvv: VersionVector, bfp: Hash) returns (side: Side)
    ensures side == Winner(avv, afp, bvv, bfp)
    ensures side == A <==> Sum(avv) > Sum(bvv) || (Sum(avv) == Sum(bvv) && afp >= bfp)
  {
    var ta := SumOf(avv);
    var tb := SumOf(bvv);
    side := if ta != tb then (if ta > tb then A else B) else if afp >= bfp then A else B;
  }

  /** The answers of compareVv mean exactly: same counters, strictly ahead, strictly behind, neither. */
  lemma CompareMeaning(a: VersionVector, b: VersionVector)
    ensures Compare(a, b) == Equal <==> Same(a, b)
    ensures Compare(a, b) == Newer <==> (forall k :: At(b, k) <= At(a, k)) && exists k :: At(b, k) < At(a, k)
    ensures Compare(a, b) == Older <==> Compare(b, a) == Newer
    ensures Compare(a, b) == Concurrent <==> (exists k :: At(b, k) < At(a, k)) && exists k :: At(a, k) < At(b, k)
  {
    BelowMeaning(a, b);
    BelowMeaning(b, a);
    if !Below(a, b) {
      var k :| k in a && a[k] > At(b, k);
      assert At(a, k) > At(b, k);
    }
    if !Below(b, a) {
      var k :| k in b && b[k] > At(a, k);
      assert At(b, k) > At(a, k);
    }
  }

  lemma BelowMeaning(a: VersionVector, b: VersionVector)
    ensures Below(a, b) <==> forall k :: At(a, k) <= At(b, k)
  {
    if forall k :: At(a, k) <= At(b, k) {
      forall k | k in a ensures a[k] <= At(b, k) {
        assert At(a, k) <= At(b, k);
      }
    }
  }

  lemma MergeAt(a: VersionVector, b: VersionVector)
    ensures forall k :: At(Merge(a, b), k) == Max(At(a, k), At(b, k))
  {}

  lemma MergeAssociative(a: VersionVector, b: VersionVector, c: VersionVector)
    ensures Merge(Merge(a, b), c) == Merge(a, Merge(b, c))
  {
    var l, r := Merge(Merge(a, b), c), Merge(a, Merge(b, c));
    assert l.Keys == a.Keys + b.Keys + c.Keys == r.Keys;
    forall k | k in l ensures l[k] == r[k] {
      GroupedCounters(a, b, c, k);
    }
  }

  lemma GroupedCounters(a: VersionVector, b: VersionVector, c: VersionVector, k: NodeId)
    ensures At(Merge(Merge(a, b), c), k) == At(Merge(a, Merge(b, c)), k)
  {
    MergeAt(a, b);
    MergeAt(b, c);
    MergeAt(Merge(a, b), c);
    MergeAt(a, Merge(b, c));
  }

  lemma MergeLeast(a: VersionVector, b: VersionVector, c: VersionVector)
    ensures Below(Merge(a, b), c) <==> Below(a, c) && Below(b, c)
  {
    MergeAt(a, b);
    BelowMeaning(a, c);
    BelowMeaning(b, c);
    BelowMeaning(Merge(a, b), c);
    if Below(Merge(a, b), c) {
      forall k ensures At(a, k) <= At(c, k) && At(b, k) <= At(c, k) {
        assert At(Merge(a, b), k) <= At(c, k);
      }
    }
  }

  lemma MergeAbsorbs(a: VersionVector, b: VersionVector)
    ensures Below(a, b) <==> Same(Merge(a, b), b)
  {
    MergeAt(a, b);
    BelowMeaning(a, b);
    if Same(Merge(a, b), b) {
      forall k ensures At(a, k) <= At(b, k) { assert At(Merge(a, b), k) == At(b, k); }
    }
  }

  lemma MergeCommutes(a: VersionVector, b: VersionVector)
    ensures Merge(a, b) == Merge(b, a)
    ensures Merge(a, a) == a
  {
    assert Merge(a, b).Keys == Merge(b, a).Keys;
    assert Merge(a, a).Keys == a.Keys;
  }

  lemma MergeUpper(a: VersionVector, b: VersionVector)
    ensures Below(a, Merge(a, b)) && Below(b, Merge(a, b))
  {}

  /** Vectors form a join-semilattice under mergeVv, and compareVv's order is the order of that lattice. */
  lemma MergeIsJoin(a: VersionVector, b: VersionVector, c: VersionVector)
    ensures Merge(a, b) == Merge(b, a)
    ensures Merge(a, a) == a
    ensures Merge(Merge(a, b), c) == Merge(a, Merge(b, c))
    ensures Below(a, Merge(a, b)) && Below(b, Merge(a, b))
    ensures Below(Merge(a, b), c) <==> Below(a, c) && Below(b, c)
    ensures Below(a, b) <==> Same(Merge(a, b), b)
  {
    MergeCommutes(a, b);
    MergeUpper(a, b);
    MergeAssociative(a, b, c);
    MergeLeast(a, b, c);
    MergeAbsorbs(a, b);
  }

  /**
   Both nodes of a conflict name the same version, except when fingerprints and totals tie: then each prefers the
   one it receives.
   */
  lemma WinnerIsSymmetric(avv: VersionVector, afp: Hash, bvv: VersionVector, bfp: Hash)
    ensures (Winner(avv, afp, bvv, bfp) == A <==> Winner(bvv, bfp, avv, afp) == B) <==>
      !(Sum(avv) == Sum(bvv) && afp == bfp)
  {}

  lemma BelowTransitive(a: VersionVector, b: VersionVector, c: VersionVector)
    requires Below(a, b) && Below(b, c)
    ensures Below(a, c)
  {
    BelowMeaning(a, b);
    BelowMeaning(b, c);
    BelowMeaning(a, c);
  }

  lemma BumpIsNewer(v: VersionVector, node: NodeId)
    ensures Compare(Bump(v, node), v) == Newer
    ensures Below(v, Bump(v, node))
    ensures forall k :: At(Bump(v, node), k) == At(v, k) + if k == node then 1 else 0
  {
    CompareMeaning(Bump(v, node), v);
    assert At(Bump(v, node), node) > At(v, node);
  }
}
