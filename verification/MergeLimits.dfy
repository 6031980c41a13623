/**
 What the merge of concurrent versions does not promise, each shown by a run of ClusterRuns
 (server/src/cluster.ts applyVaultRow). The vectors agree in every case; only the blob kept as
 current, or the revision, differs. No write is lost in any of them: see ClusterRuns.
 */
module MergeLimits {
  import opened Collections
  import opened VersionVectors
  import opened VaultReplica
  import opened ClusterRuns
  import opened ConcreteRuns

  /* ── Vectors over four nodes ───────────────────────────────────────── */

  datatype Four = Four(p: nat, q: nat, r: nat, s: nat)

  function Get(c: Four, k: NodeId): nat {
    if k == "p" then c.p else if k == "q" then c.q else if k == "r" then c.r else if k == "s" then c.s else 0
  }

  ghost predicate Reads(v: VersionVector, c: Four) {
    forall k :: At(v, k) == Get(c, k)
  }

  function Total(c: Four): nat {
    c.p + c.q + c.r + c.s
  }

  function FourMax(a: Four, b: Four): Four {
    Four(Max(a.p, b.p), Max(a.q, b.q), Max(a.r, b.r), Max(a.s, b.s))
  }

  predicate FourLeq(a: Four, b: Four) {
    a.p <= b.p && a.q <= b.q && a.r <= b.r && a.s <= b.s
  }

  lemma SumSplits(v: VersionVector, k: NodeId)
    ensures Sum(v) == At(v, k) + Sum(v - {k})
    ensures forall j :: At(v - {k}, j) == if j == k then 0 else At(v, j)
  {
    if k in v { SumRemove(v, k); } else { assert v - {k} == v; }
  }

  lemma {:induction false} SumOfZeros(v: VersionVector)
    requires forall k :: k in v ==> v[k] == 0
    ensures Sum(v) == 0
    decreases |v|
  {
    if v != map[] {
      var k :| k in v;
      SumRemove(v, k);
      assert (v - {k}).Keys == v.Keys - {k};
      SumOfZeros(v - {k});
    }
  }

  lemma ReadsSum(v: VersionVector, c: Four)
    requires Reads(v, c)
    ensures Sum(v) == Total(c)
  {
    SumSplits(v, "p");
    SumSplits(v - {"p"}, "q");
    SumOfLastTwo(v - {"p"} - {"q"}, c.r, c.s);
  }

  lemma SumOfLastTwo(v: VersionVector, r: nat, s: nat)
    requires forall k :: At(v, k) == if k == "r" then r else if k == "s" then s else 0
    ensures Sum(v) == r + s
  {
    SumSplits(v, "r");
    SumSplits(v - {"r"}, "s");
    var rest := v - {"r"} - {"s"};
    forall k | k in rest ensures rest[k] == 0 { assert At(rest, k) == 0; }
    SumOfZeros(rest);
  }

  lemma ReadsBelow(v: VersionVector, a: Four, w: VersionVector, b: Four)
    requires Reads(v, a) && Reads(w, b)
    ensures Below(v, w) <==> FourLeq(a, b)
  {
    BelowMeaning(v, w);
    assert At(v, "p") == a.p && At(v, "q") == a.q && At(v, "r") == a.r && At(v, "s") == a.s;
    assert At(w, "p") == b.p && At(w, "q") == b.q && At(w, "r") == b.r && At(w, "s") == b.s;
  }

  lemma ReadsMerge(v: VersionVector, a: Four, w: VersionVector, b: Four)
    requires Reads(v, a) && Reads(w, b)
    ensures Reads(Merge(v, w), FourMax(a, b))
  {
    MergeAt(v, w);
  }

  /* ── Concurrent versions that meet ─────────────────────────────────── */

  ghost predicate Holds(r: Replica, revision: nat, blob: Blob, c: Four) {
    r.vault.Some? && r.vault.value.revision == revision && r.vault.value.blob == blob && Reads(r.vault.value.vv, c)
  }

  /** The blob kept when `b` with counters `d` meets a concurrent local blob with counters `c`. */
  function KeptBlob(sha: Blob -> Hash, mine: Blob, c: Four, b: Blob, d: Four): Blob {
    if Total(d) > Total(c) || (Total(d) == Total(c) && sha(b) >= sha(mine)) then b else mine
  }

  lemma Meet(sha: Blob -> Hash, local: Replica, revision: nat, mine: Blob, c: Four, sender: Replica, other: nat,
             b: Blob, d: Four)
    requires Holds(local, revision, mine, c) && Holds(sender, other, b, d)
    requires !FourLeq(c, d) && !FourLeq(d, c)
    ensures Holds(Apply(sha, local, Fetch(sender)), Max(other, revision) + 1, KeptBlob(sha, mine, c, b, d),
                  FourMax(d, c))
  {
    var v, w := local.vault.value.vv, sender.vault.value.vv;
    ReadsSum(v, c);
    ReadsSum(w, d);
    ReadsBelow(v, c, w, d);
    ReadsBelow(w, d, v, c);
    ReadsMerge(w, d, v, c);
  }

  function OwnFour(n: NodeId): Four {
    Four(if n == "p" then 2 else 1, if n == "q" then 1 else 0, if n == "r" then 1 else 0, if n == "s" then 1 else 0)
  }

  lemma OwnHolds(n: NodeId)
    requires n in {"p", "q", "r", "s"}
    ensures Holds(Holding(OwnRow(n)), 2, n, OwnFour(n))
  {}

  /** Equal vectors: neither learns anything from the other any more. */
  lemma Settled(sha: Blob -> Hash, x: Replica, y: Replica, c: Four)
    requires x.vault.Some? && y.vault.Some? && Reads(Vv(x), c) && Reads(Vv(y), c)
    ensures Compare(Vv(x), Vv(y)) == Equal && Apply(sha, x, Fetch(y)) == x && Apply(sha, y, Fetch(x)) == y
  {
    ReadsBelow(Vv(x), c, Vv(y), c);
    ReadsBelow(Vv(y), c, Vv(x), c);
  }

  /** Bundles of the nodes' own writes delivered one after the other, a node's present one sent in between. */
  lemma Exchange(sha: Blob -> Hash, start: System, before: seq<Event>, n: NodeId, b: Bundle)
    returns (events: seq<Event>)
    requires var s := Exec(sha, start, before); n in s.replicas && b in s.inflight
    ensures var s, t := Exec(sha, start, before), Exec(sha, start, events);
            t == s.(replicas := s.replicas[n := Apply(sha, s.replicas[n], b)])
    ensures events == before + [Deliver(n, b)]
  {
    var s := Exec(sha, start, before);
    Then(sha, start, before, Deliver(n, b));
    Delivered(sha, s, n, b);
    events := before + [Deliver(n, b)];
  }

  lemma SendAndDeliver(sha: Blob -> Hash, start: System, before: seq<Event>, from: NodeId, to: NodeId)
    returns (events: seq<Event>)
    requires var s := Exec(sha, start, before); from in s.replicas && to in s.replicas && s.replicas[from].vault.Some?
    ensures events == before + [Send(from), Deliver(to, Fetch(Exec(sha, start, before).replicas[from]))]
    ensures var s, t := Exec(sha, start, before), Exec(sha, start, events);
            && t.replicas == s.replicas[to := Apply(sha, s.replicas[to], Fetch(s.replicas[from]))]
            && t.inflight == s.inflight + {Fetch(s.replicas[from])} && t.covers == s.covers
  {
    var s := Exec(sha, start, before);
    Then(sha, start, before, Send(from));
    Sent(sha, s, from);
    var sent := before + [Send(from)];
    events := Exchange(sha, start, sent, to, Fetch(s.replicas[from]));
  }

  function OwnBundle(n: NodeId): Bundle {
    Bundle(OwnRow(n), map[])
  }

  /**
   Three nodes, each with one write, fingerprints r > p > q. "p" pulls q then r, "q" pulls r then
   what "p" held after q: equal vectors, different blobs, and no further exchange changes either.
   */
  lemma ThreeNodesMayKeepDifferentBlobs(sha: Blob -> Hash) returns (events: seq<Event>)
    requires sha("r") > sha("p") > sha("q")
    ensures var s := Exec(sha, Start({"p", "q", "r"}), events);
            && "p" in s.replicas && "q" in s.replicas && s.replicas["p"].vault.Some? && s.replicas["q"].vault.Some?
            && Compare(Vv(s.replicas["p"]), Vv(s.replicas["q"])) == Equal
            && s.replicas["p"].vault.value.blob == "p" && s.replicas["q"].vault.value.blob == "r"
            && Apply(sha, s.replicas["p"], Fetch(s.replicas["q"])) == s.replicas["p"]
            && Apply(sha, s.replicas["q"], Fetch(s.replicas["p"])) == s.replicas["q"]
  {
    var nodes: set<NodeId> := {"p", "q", "r"};
    var start := Start(nodes);
    var e0 := Prepare(sha, nodes);
    var e1 := Exchange(sha, start, e0, "p", OwnBundle("q"));
    var e2 := Exchange(sha, start, e1, "q", OwnBundle("r"));
    var s2 := Exec(sha, start, e2);
    var p, q, r := Holding(OwnRow("p")), Holding(OwnRow("q")), Holding(OwnRow("r"));
    var p1, q1 := ThreeMeetFirst(sha);
    assert s2.replicas["p"] == p1 && s2.replicas["q"] == q1;
    var e3 := SendAndDeliver(sha, start, e2, "p", "q");
    events := Exchange(sha, start, e3, "p", OwnBundle("r"));
    var p2, q2 := ThreeMeetSecond(sha, p1, q1);
    Settled(sha, p2, q2, Four(2, 1, 1, 0));
  }

  lemma ThreeMeetFirst(sha: Blob -> Hash) returns (p1: Replica, q1: Replica)
    requires sha("r") > sha("p") > sha("q")
    ensures p1 == Apply(sha, Holding(OwnRow("p")), OwnBundle("q")) && Holds(p1, 3, "p", Four(2, 1, 0, 0))
    ensures q1 == Apply(sha, Holding(OwnRow("q")), OwnBundle("r")) && Holds(q1, 3, "r", Four(1, 1, 1, 0))
  {
    var p, q, r := Holding(OwnRow("p")), Holding(OwnRow("q")), Holding(OwnRow("r"));
    OwnHolds("p");
    OwnHolds("q");
    OwnHolds("r");
    Meet(sha, p, 2, "p", OwnFour("p"), q, 2, "q", OwnFour("q"));
    Meet(sha, q, 2, "q", OwnFour("q"), r, 2, "r", OwnFour("r"));
    p1, q1 := Apply(sha, p, Fetch(q)), Apply(sha, q, Fetch(r));
  }

  lemma ThreeMeetSecond(sha: Blob -> Hash, p1: Replica, q1: Replica) returns (p2: Replica, q2: Replica)
    requires sha("r") > sha("p") > sha("q")
    requires Holds(p1, 3, "p", Four(2, 1, 0, 0)) && Holds(q1, 3, "r", Four(1, 1, 1, 0))
    ensures q2 == Apply(sha, q1, Fetch(p1)) && Holds(q2, 4, "r", Four(2, 1, 1, 0))
    ensures p2 == Apply(sha, p1, OwnBundle("r")) && Holds(p2, 4, "p", Four(2, 1, 1, 0))
  {
    var r := Holding(OwnRow("r"));
    OwnHolds("r");
    Meet(sha, q1, 3, "r", Four(1, 1, 1, 0), p1, 3, "p", Four(2, 1, 0, 0));
    Meet(sha, p1, 3, "p", Four(2, 1, 0, 0), r, 2, "r", OwnFour("r"));
    p2, q2 := Apply(sha, p1, Fetch(r)), Apply(sha, q1, Fetch(p1));
  }

  lemma Overwrite(sha: Blob -> Hash, start: System, before: seq<Event>, n: NodeId, blob: Blob)
    returns (events: seq<Event>)
    requires var s := Exec(sha, start, before); n in s.replicas && s.replicas[n].vault.Some? && blob !in s.covers
    ensures var s, t := Exec(sha, start, before), Exec(sha, start, events);
            t.replicas == s.replicas[n := Rewritten(s.replicas[n], n, blob)] && t.inflight == s.inflight
  {
    var s := Exec(sha, start, before);
    var put := ClientPut(n, s.replicas[n].vault.value.revision, blob, []);
    Then(sha, start, before, put);
    Written(sha, s, n, blob);
    events := before + [put];
  }

  /**
   Two nodes are enough when a bundle is applied after its sender has written again: "p" receives
   q before "q" overwrites it with q2, "q" receives p after.
   */
  lemma StaleBundleMayKeepDifferentBlobs(sha: Blob -> Hash) returns (events: seq<Event>)
    requires sha("p") > sha("q") && sha("p") > sha("q2")
    ensures var s := Exec(sha, Start({"p", "q"}), events);
            && "p" in s.replicas && "q" in s.replicas && s.replicas["p"].vault.Some? && s.replicas["q"].vault.Some?
            && Compare(Vv(s.replicas["p"]), Vv(s.replicas["q"])) == Equal
            && s.replicas["p"].vault.value.blob == "p" && s.replicas["q"].vault.value.blob == "q2"
            && Apply(sha, s.replicas["p"], Fetch(s.replicas["q"])) == s.replicas["p"]
            && Apply(sha, s.replicas["q"], Fetch(s.replicas["p"])) == s.replicas["q"]
  {
    var nodes: set<NodeId> := {"p", "q"};
    var start := Start(nodes);
    var e0 := Prepare(sha, nodes);
    var e1 := Overwrite(sha, start, e0, "q", "q2");
    var e2 := Exchange(sha, start, e1, "p", OwnBundle("q"));
    var q1 := Rewritten(Holding(OwnRow("q")), "q", "q2");
    var p1, p2, q2 := StaleMeet(sha, q1);
    assert Exec(sha, start, e2).replicas["p"] == p1 && Exec(sha, start, e2).replicas["q"] == q1;
    var e3 := SendAndDeliver(sha, start, e2, "q", "p");
    events := Exchange(sha, start, e3, "q", OwnBundle("p"));
    Settled(sha, p2, q2, Four(2, 2, 0, 0));
  }

  lemma StaleMeet(sha: Blob -> Hash, q1: Replica) returns (p1: Replica, p2: Replica, q2: Replica)
    requires sha("p") > sha("q") && sha("p") > sha("q2") && q1 == Rewritten(Holding(OwnRow("q")), "q", "q2")
    ensures p1 == Apply(sha, Holding(OwnRow("p")), OwnBundle("q"))
    ensures p2 == Apply(sha, p1, Fetch(q1)) && Holds(p2, 4, "p", Four(2, 2, 0, 0))
    ensures q2 == Apply(sha, q1, OwnBundle("p")) && Holds(q2, 4, "q2", Four(2, 2, 0, 0))
  {
    var p, q := Holding(OwnRow("p")), Holding(OwnRow("q"));
    OwnHolds("p");
    OwnHolds("q");
    assert Holds(q1, 3, "q2", Four(1, 2, 0, 0));
    Meet(sha, p, 2, "p", OwnFour("p"), q, 2, "q", OwnFour("q"));
    p1 := Apply(sha, p, Fetch(q));
    Meet(sha, p1, 3, "p", Four(2, 1, 0, 0), q1, 3, "q2", Four(1, 2, 0, 0));
    Meet(sha, q1, 3, "q2", Four(1, 2, 0, 0), p, 2, "p", OwnFour("p"));
    p2, q2 := Apply(sha, p1, Fetch(q1)), Apply(sha, q1, Fetch(p));
  }

  /* ── Revisions beyond two nodes ────────────────────────────────────── */

  ghost predicate Stands(r: Replica, revision: nat, c: Four) {
    r.vault.Some? && Holds(r, revision, r.vault.value.blob, c)
  }

  lemma MeetSome(sha: Blob -> Hash, local: Replica, revision: nat, c: Four, sender: Replica, other: nat, d: Four)
    requires Stands(local, revision, c) && Stands(sender, other, d) && !FourLeq(c, d) && !FourLeq(d, c)
    ensures Stands(Apply(sha, local, Fetch(sender)), Max(other, revision) + 1, FourMax(d, c))
  {
    Meet(sha, local, revision, local.vault.value.blob, c, sender, other, sender.vault.value.blob, d);
  }

  /** A chain of three versions at "p", and all four merged two by two at "r". */
  lemma FourMeet(sha: Blob -> Hash) returns (p1: Replica, p2: Replica, r1: Replica, r2: Replica)
    ensures p1 == Apply(sha, Holding(OwnRow("p")), OwnBundle("q")) && p1.vault.Some?
    ensures p2 == Apply(sha, p1, OwnBundle("r")) && Stands(p2, 4, Four(2, 1, 1, 0))
    ensures r1 == Apply(sha, Holding(OwnRow("r")), OwnBundle("s"))
    ensures r2 == Apply(sha, r1, Fetch(p1)) && Stands(r2, 4, Four(2, 1, 1, 1))
  {
    var p, q, r, s := Holding(OwnRow("p")), Holding(OwnRow("q")), Holding(OwnRow("r")), Holding(OwnRow("s"));
    OwnHolds("p");
    OwnHolds("q");
    OwnHolds("r");
    OwnHolds("s");
    MeetSome(sha, p, 2, OwnFour("p"), q, 2, OwnFour("q"));
    MeetSome(sha, r, 2, OwnFour("r"), s, 2, OwnFour("s"));
    p1, r1 := Apply(sha, p, Fetch(q)), Apply(sha, r, Fetch(s));
    MeetSome(sha, p1, 3, Four(2, 1, 0, 0), r, 2, OwnFour("r"));
    MeetSome(sha, r1, 3, Four(1, 0, 1, 1), p1, 3, Four(2, 1, 0, 0));
    p2, r2 := Apply(sha, p1, Fetch(r)), Apply(sha, r1, Fetch(p1));
  }

  /**
   Revisions do not order versions beyond two nodes. Four nodes write apart; "p" merges three of the
   versions one after the other, "r" all four two by two, under the same revision. A device reads the
   vault of "p", which then adopts the strictly newer version of "r": a write based on what the device
   read is accepted over it.
   */
  lemma RevisionMayRepeat(sha: Blob -> Hash, blob: Blob) returns (events: seq<Event>, more: seq<Event>)
    ensures var s := Exec(sha, Start({"p", "q", "r", "s"}), events);
            var t := Exec(sha, Start({"p", "q", "r", "s"}), events + more);
            && "p" in s.replicas && "p" in t.replicas && s.replicas["p"].vault.Some? && t.replicas["p"].vault.Some?
            && Compare(Vv(t.replicas["p"]), Vv(s.replicas["p"])) == Newer
            && t.replicas["p"].vault.value.revision == s.replicas["p"].vault.value.revision
            && Put(t.replicas["p"], "p", s.replicas["p"].vault.value.revision, blob, []).Some?
  {
    var nodes: set<NodeId> := {"p", "q", "r", "s"};
    var start := Start(nodes);
    var e0 := Prepare(sha, nodes);
    var e1 := Exchange(sha, start, e0, "p", OwnBundle("q"));
    var e2 := Exchange(sha, start, e1, "r", OwnBundle("s"));
    var p1, p2, r1, r2 := FourMeet(sha);
    assert Exec(sha, start, e2).replicas["p"] == p1 && Exec(sha, start, e2).replicas["r"] == r1;
    var e3 := SendAndDeliver(sha, start, e2, "p", "r");
    events := Exchange(sha, start, e3, "p", OwnBundle("r"));
    assert Exec(sha, start, events).replicas["p"] == p2 && Exec(sha, start, events).replicas["r"] == r2;
    var all := SendAndDeliver(sha, start, events, "r", "p");
    ReadsBelow(Vv(p2), Four(2, 1, 1, 0), Vv(r2), Four(2, 1, 1, 1));
    ReadsBelow(Vv(r2), Four(2, 1, 1, 1), Vv(p2), Four(2, 1, 1, 0));
    assert Apply(sha, p2, Fetch(r2)) == r2;
    more := [Send("r"), Deliver("p", Fetch(r2))];
    assert events + more == all;
  }
}
