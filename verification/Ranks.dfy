/** Ranks over the edges the search keeps: fixpoint before the pass bound, and longest paths. */
module Ranks {
  import opened Layering

  /* ── The kept edges are acyclic, and no dropped one could be kept ──── */

  ghost function Pos(order: seq<Id>, v: Id): (k: nat)
    requires v in order
    ensures k < |order| && order[k] == v
  {
    var k :| 0 <= k < |order| && order[k] == v; k
  }

  /** Edges only lead to nodes that come before in `order`. */
  ghost predicate Descends(edges: seq<Edge>, order: seq<Id>) {
    forall e :: e in edges ==> e.from in order && e.to in order && Pos(order, e.to) < Pos(order, e.from)
  }

  lemma ForwardDescends(g: Graph, state: map<Id, Mark>, back: set<nat>, finished: seq<Id>)
    requires WellFormed(g) && Searched(g.edges, [], state, back, finished)
    requires forall v :: v in g.nodes ==> v in finished
    ensures Descends(Forward(g.edges, back), finished)
  {
    ForwardMembers(g.edges, back, 0);
    forall e | e in Forward(g.edges, back)
      ensures e.from in finished && e.to in finished && Pos(finished, e.to) < Pos(finished, e.from)
    {
      var i :| 0 <= i < |g.edges| && g.edges[i] == e && i !in back;
      var k := Pos(finished, e.from);
      assert e.to in finished[..k];
      var j :| 0 <= j < k && finished[j] == e.to;
    }
  }

  lemma {:induction false} ChainDescends(edges: seq<Edge>, order: seq<Id>, walk: seq<Id>)
    requires Descends(edges, order) && |walk| >= 2 && Chain(edges, walk)
    ensures walk[0] in order && walk[|walk| - 1] in order && Pos(order, walk[|walk| - 1]) < Pos(order, walk[0])
  {
    assert Edge(walk[0], walk[1]) in edges;
    if |walk| > 2 {
      var rest := walk[1..];
      forall i | 0 <= i < |rest| - 1 ensures Edge(rest[i], rest[i + 1]) in edges {
        assert rest[i] == walk[i + 1] && rest[i + 1] == walk[i + 2];
      }
      ChainDescends(edges, order, rest);
    }
  }

  lemma DescendsIsAcyclic(edges: seq<Edge>, order: seq<Id>)
    requires Descends(edges, order)
    ensures Acyclic(edges)
  {
    forall walk | |walk| >= 2 && Chain(edges, walk) ensures walk[0] != walk[|walk| - 1] {
      ChainDescends(edges, order, walk);
    }
  }

  /** The search drops no more than needed: with any one of its edges put back, there is a cycle. */
  lemma DroppedEdgeClosesCycle(edges: seq<Edge>, state: map<Id, Mark>, back: set<nat>, tree: set<nat>, i: nat)
    requires Rooted(edges, [], state, back, tree) && i in back && edges[i].from != edges[i].to
    ensures !Acyclic(Forward(edges, back - {i}))
  {
    var kept := Forward(edges, back - {i});
    ForwardMembers(edges, back - {i}, 0);
    assert ClosesCycle(edges, tree, i);
    var walk :| walk != [] && TreeWalk(edges, tree, walk) && walk[0] == edges[i].to
      && walk[|walk| - 1] == edges[i].from;
    var cycle := [edges[i].from] + walk;
    forall k | 0 <= k < |cycle| - 1 ensures Edge(cycle[k], cycle[k + 1]) in kept {
      if k == 0 {
        assert edges[i] in kept;
      } else {
        assert cycle[k] == walk[k - 1] && cycle[k + 1] == walk[k];
        assert Joined(edges, tree, walk[k - 1], walk[k]);
        var j :| j in tree && j < |edges| && edges[j] == Edge(walk[k - 1], walk[k]);
        assert edges[j] in kept;
      }
    }
    assert Chain(kept, cycle) && |cycle| >= 2;
  }

  /* ── The relaxation loop ───────────────────────────────────────────── */

  /** Each edge goes down by at least one rank, and a rank above 0 is one more than a predecessor's. */
  ghost predicate Layered(edges: seq<Edge>, rank: map<Id, nat>) {
    && (forall e :: e in edges ==> e.from in rank && e.to in rank && rank[e.from] < rank[e.to])
    && forall v :: v in rank && rank[v] > 0 ==>
      exists e :: e in edges && e.to == v && e.from in rank && rank[v] == rank[e.from] + 1
  }

  /** A rank above 0 was given by an edge. */
  ghost predicate Justified(edges: seq<Edge>, rank: map<Id, nat>) {
    forall v :: v in rank && rank[v] > 0 ==>
      exists e :: e in edges && e.to == v && e.from in rank && rank[v] <= rank[e.from] + 1
  }

  predicate Ranked(edges: seq<Edge>, rank: map<Id, nat>) {
    forall e :: e in edges ==> e.from in rank && e.to in rank
  }

  /** The first `n` edges, where they end at position `top` or after, go down. */
  ghost predicate Down(edges: seq<Edge>, rank: map<Id, nat>, order: seq<Id>, top: int, n: nat)
    requires Ranked(edges, rank)
  {
    n <= |edges|
      && forall j :: 0 <= j < n && edges[j].to in order && Pos(order, edges[j].to) >= top ==>
        rank[edges[j].from] < rank[edges[j].to]
  }

  lemma Raise(edges: seq<Edge>, rank: map<Id, nat>, j: nat)
    requires Ranked(edges, rank) && Justified(edges, rank) && j < |edges|
    requires rank[edges[j].to] < rank[edges[j].from] + 1
    ensures Justified(edges, rank[edges[j].to := rank[edges[j].from] + 1])
  {
    var raised := rank[edges[j].to := rank[edges[j].from] + 1];
    forall v | v in raised && raised[v] > 0
      ensures exists e :: e in edges && e.to == v && e.from in raised && raised[v] <= raised[e.from] + 1
    {
      if v == edges[j].to {
        assert edges[j] in edges && raised[v] <= raised[edges[j].from] + 1;
      } else {
        var e :| e in edges && e.to == v && e.from in rank && rank[v] <= rank[e.from] + 1;
        assert raised[v] <= raised[e.from] + 1;
      }
    }
  }

  /** Ranks at position `top` and after are what they were. */
  ghost predicate SameFrom(rank: map<Id, nat>, before: map<Id, nat>, order: seq<Id>, top: int) {
    rank.Keys == before.Keys && forall v :: v in order && v in rank && Pos(order, v) >= top ==> rank[v] == before[v]
  }

  /** An edge raised ends before `top`: what is settled stays, and one more edge goes down. */
  lemma RaiseKeepsSettled(edges: seq<Edge>, before: map<Id, nat>, rank: map<Id, nat>, order: seq<Id>, top: int, i: nat)
    requires Ranked(edges, before) && Descends(edges, order) && i < |edges|
    requires Down(edges, before, order, top, |edges|)
    requires SameFrom(rank, before, order, top) && Down(edges, rank, order, top - 1, i)
    requires rank[edges[i].to] < rank[edges[i].from] + 1
    ensures top > 0
    ensures SameFrom(rank[edges[i].to := rank[edges[i].from] + 1], before, order, top)
    ensures Down(edges, rank[edges[i].to := rank[edges[i].from] + 1], order, top - 1, i + 1)
  {
    var e := edges[i];
    var raised := rank[e.to := rank[e.from] + 1];
    assert e in edges && raised.Keys == before.Keys;
    assert Pos(order, e.to) < top;
    forall j | 0 <= j < i + 1 && edges[j].to in order && Pos(order, edges[j].to) >= top - 1
      ensures raised[edges[j].from] < raised[edges[j].to]
    {
      assert edges[j] in edges;
      assert edges[j].from != e.to;
    }
  }

  /** What a pass has done after its first `n` edges. */
  ghost predicate Passed(edges: seq<Edge>, before: map<Id, nat>, rank: map<Id, nat>, order: seq<Id>, top: int, n: nat,
                         moved: bool)
  {
    && Ranked(edges, rank) && Justified(edges, rank)
    && SameFrom(rank, before, order, top) && Down(edges, rank, order, top - 1, n)
    && if moved then top > 0 else rank == before && Down(edges, rank, order, 0, n)
  }

  lemma RaiseStep(edges: seq<Edge>, before: map<Id, nat>, rank: map<Id, nat>, order: seq<Id>, top: int, n: nat,
                  moved: bool)
    requires Ranked(edges, before) && Descends(edges, order) && n < |edges|
    requires Down(edges, before, order, top, |edges|)
    requires Passed(edges, before, rank, order, top, n, moved) && rank[edges[n].to] < rank[edges[n].from] + 1
    ensures Passed(edges, before, rank[edges[n].to := rank[edges[n].from] + 1], order, top, n + 1, true)
  {
    Raise(edges, rank, n);
    RaiseKeepsSettled(edges, before, rank, order, top, n);
  }

  lemma StayStep(edges: seq<Edge>, before: map<Id, nat>, rank: map<Id, nat>, order: seq<Id>, top: int, n: nat,
                 moved: bool)
    requires n < |edges| && Passed(edges, before, rank, order, top, n, moved)
    requires rank[edges[n].from] < rank[edges[n].to]
    ensures Passed(edges, before, rank, order, top, n + 1, moved)
  {
  }

  /** One pass over the edges settles one more node: those at `top` and after are, then `top - 1` is. */
  method Pass(edges: seq<Edge>, before: map<Id, nat>, ghost order: seq<Id>, ghost top: int)
    returns (rank: map<Id, nat>, moved: bool)
    requires Ranked(edges, before) && Justified(edges, before) && Descends(edges, order)
    requires Down(edges, before, order, top, |edges|)
    ensures Passed(edges, before, rank, order, top, |edges|, moved)
  {
    rank, moved := before, false;
    for i := 0 to |edges|
      invariant Passed(edges, before, rank, order, top, i, moved)
    {
      var e := edges[i];
      assert e in edges;
      if rank[e.to] < rank[e.from] + 1 {
        RaiseStep(edges, before, rank, order, top, i, moved);
        rank, moved := rank[e.to := rank[e.from] + 1], true;
      } else {
        StayStep(edges, before, rank, order, top, i, moved);
      }
    }
  }

  /**
   * Ranks start at 0 and passes follow one another, at most twice as many as nodes, until one moves
   * nothing. That happens in time: `passes` is the number made, the last one included.
   */
  method AssignRanks(nodes: seq<Id>, edges: seq<Edge>, ghost order: seq<Id>) returns (rank: map<Id, nat>, passes: nat)
    requires forall e :: e in edges ==> e.from in nodes && e.to in nodes
    requires Descends(edges, order) && |order| <= |nodes|
    ensures rank.Keys == set v | v in nodes
    ensures Layered(edges, rank)
    ensures passes <= |nodes| + 1
  {
    rank := map v | v in nodes :: 0;
    passes := 0;
    while passes < 2 * |nodes|
      invariant passes <= |order| && rank.Keys == set v | v in nodes
      invariant Justified(edges, rank) && Down(edges, rank, order, |order| - passes, |edges|)
    {
      var moved;
      rank, moved := Pass(edges, rank, order, |order| - passes);
      passes := passes + 1;
      if !moved { break; }
    }
    AllDown(edges, rank, order);
  }

  lemma AllDown(edges: seq<Edge>, rank: map<Id, nat>, order: seq<Id>)
    requires Ranked(edges, rank) && Justified(edges, rank) && Descends(edges, order)
    requires Down(edges, rank, order, 0, |edges|)
    ensures Layered(edges, rank)
  {
    forall e | e in edges ensures rank[e.from] < rank[e.to] {
      var j :| 0 <= j < |edges| && edges[j] == e;
    }
  }

  /* ── Ranks are longest paths ───────────────────────────────────────── */

  /** A walk that ends at `v` has at most `rank[v]` edges. */
  lemma {:induction false} WalksAreShort(edges: seq<Edge>, rank: map<Id, nat>, walk: seq<Id>)
    requires Layered(edges, rank) && walk != [] && Chain(edges, walk) && walk[|walk| - 1] in rank
    ensures |walk| - 1 <= rank[walk[|walk| - 1]]
  {
    if |walk| > 1 {
      var rest := walk[..|walk| - 1];
      assert Edge(walk[|walk| - 2], walk[|walk| - 1]) in edges;
      WalksAreShort(edges, rank, rest);
    }
  }

  /** And one has exactly that many. */
  lemma {:induction false} WalkOfRankExists(edges: seq<Edge>, rank: map<Id, nat>, v: Id) returns (walk: seq<Id>)
    requires Layered(edges, rank) && v in rank
    ensures |walk| == rank[v] + 1 && Chain(edges, walk) && walk[rank[v]] == v
    decreases rank[v]
  {
    walk := [v];
    if rank[v] > 0 {
      var e :| e in edges && e.to == v && e.from in rank && rank[v] == rank[e.from] + 1;
      var rest := WalkOfRankExists(edges, rank, e.from);
      walk := rest + [v];
      forall i | 0 <= i < |walk| - 1 ensures Edge(walk[i], walk[i + 1]) in edges {
        if i + 1 < |rest| { assert walk[i] == rest[i] && walk[i + 1] == rest[i + 1]; }
      }
    }
  }

  lemma RankAtMost(edges: seq<Edge>, rank: map<Id, nat>, other: map<Id, nat>, v: Id)
    requires Layered(edges, rank) && Layered(edges, other) && v in rank && v in other
    ensures rank[v] <= other[v]
  {
    var walk := WalkOfRankExists(edges, rank, v);
    WalksAreShort(edges, other, walk);
  }

  /** So the edges kept decide the ranks: two layered assignments of the same nodes agree. */
  lemma RanksAreDetermined(edges: seq<Edge>, rank: map<Id, nat>, other: map<Id, nat>)
    requires Layered(edges, rank) && Layered(edges, other) && rank.Keys == other.Keys
    ensures rank == other
  {
    forall v | v in rank ensures v in other && rank[v] == other[v] {
      assert v in rank.Keys;
      RankAtMost(edges, rank, other, v);
      RankAtMost(edges, other, rank, v);
    }
  }

  /* ── The whole ─────────────────────────────────────────────────────── */

  lemma {:induction false} DistinctIsShort(s: seq<Id>, all: set<Id>)
    requires Distinct(s) && forall v :: v in s ==> v in all
    ensures |s| <= |all|
  {
    if s != [] {
      var last := s[|s| - 1];
      DistinctIsShort(s[..|s| - 1], all - {last});
    }
  }

  lemma {:induction false} FewNodes(nodes: seq<Id>)
    ensures |set v | v in nodes| <= |nodes|
  {
    if nodes != [] {
      var n := |nodes| - 1;
      FewNodes(nodes[..n]);
      assert (set v | v in nodes) == (set v | v in nodes[..n]) + {nodes[n]};
    }
  }

  /**
   * Ranks of a graph: the edges kept are acyclic, each one dropped (self-loops apart) would make a cycle
   * if it came back, and the ranks are the lengths of the longest paths along the edges kept.
   */
  method RankNodes(g: Graph) returns (forward: seq<Edge>, rank: map<Id, nat>, ghost back: set<nat>)
    requires WellFormed(g)
    ensures forward == Forward(g.edges, back) && Acyclic(forward)
    ensures forall i :: i in back ==>
      i < |g.edges| && (g.edges[i].from != g.edges[i].to ==> !Acyclic(Forward(g.edges, back - {i})))
    ensures rank.Keys == NodeSet(g) && Layered(forward, rank)
  {
    var search := new Search(g);
    search.Run();
    back := search.back;
    forward := Forward(g.edges, search.back);
    ForwardMembers(g.edges, back, 0);
    ForwardDescends(g, search.state, back, search.finished);
    DescendsIsAcyclic(forward, search.finished);
    forall i | i in back && g.edges[i].from != g.edges[i].to ensures !Acyclic(Forward(g.edges, back - {i})) {
      DroppedEdgeClosesCycle(g.edges, search.state, back, search.tree, i);
    }
    DistinctIsShort(search.finished, NodeSet(g));
    FewNodes(g.nodes);
    var passes;
    rank, passes := AssignRanks(g.nodes, forward, search.finished);
  }

  lemma SubsetIsAcyclic(edges: seq<Edge>, part: seq<Edge>)
    requires Acyclic(edges) && forall e :: e in part ==> e in edges
    ensures Acyclic(part)
  {
    forall walk | |walk| >= 2 && Chain(part, walk) ensures walk[0] != walk[|walk| - 1] {
      assert Chain(edges, walk);
    }
  }

  /** A graph without cycles keeps all its edges. */
  lemma NothingDroppedWithoutCycles(g: Graph, back: set<nat>)
    requires Acyclic(g.edges)
    requires forall i :: i in back ==>
      i < |g.edges| && (g.edges[i].from != g.edges[i].to ==> !Acyclic(Forward(g.edges, back - {i})))
    ensures Forward(g.edges, back) == g.edges
  {
    forall i | 0 <= i < |g.edges| ensures g.edges[i].from != g.edges[i].to && i !in back {
      var loop := [g.edges[i].from, g.edges[i].to];
      assert Chain(g.edges, loop);
      ForwardMembers(g.edges, back - {i}, 0);
      SubsetIsAcyclic(g.edges, Forward(g.edges, back - {i}));
    }
    KeepsAll(g.edges, back, 0);
  }

  lemma {:induction false} KeepsAll(edges: seq<Edge>, back: set<nat>, i: nat)
    requires i <= |edges| && forall k :: 0 <= k < |edges| ==> edges[k].from != edges[k].to && k !in back
    ensures ForwardFrom(edges, back, i) == edges[i..]
    decreases |edges| - i
  {
    if i < |edges| {
      KeepsAll(edges, back, i + 1);
    }
  }
}
