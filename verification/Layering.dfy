/**
 * Ranks of a diagram's nodes (server/src/diagram.ts, layout): a depth-first search drops the edges
 * that go back, then repeated passes push every node below its predecessors. Diagrams without subgraphs.
 */
module Layering {
  type Id = string

  datatype Edge = Edge(from: Id, to: Id)

  datatype Graph = Graph(nodes: seq<Id>, edges: seq<Edge>)

  predicate Distinct(s: seq<Id>) {
    forall i, j :: 0 <= i < j < |s| ==> s[i] != s[j]
  }

  /** Nodes are the keys of a map; the line that declares an edge declares its ends. */
  predicate WellFormed(g: Graph) {
    Distinct(g.nodes) && forall e :: e in g.edges ==> e.from in g.nodes && e.to in g.nodes
  }

  /** A walk along edges; a single node is a walk. */
  predicate Chain(edges: seq<Edge>, walk: seq<Id>) {
    forall i :: 0 <= i < |walk| - 1 ==> Edge(walk[i], walk[i + 1]) in edges
  }

  ghost predicate Acyclic(edges: seq<Edge>) {
    forall walk :: |walk| >= 2 && Chain(edges, walk) ==> walk[0] != walk[|walk| - 1]
  }

  /** Edges the layout keeps: not dropped by the search (`back` holds positions), and no self-loop. */
  function Forward(edges: seq<Edge>, back: set<nat>): seq<Edge> {
    ForwardFrom(edges, back, 0)
  }

  function ForwardFrom(edges: seq<Edge>, back: set<nat>, i: nat): seq<Edge>
    decreases |edges| - i
  {
    if i >= |edges| then []
    else if i !in back && edges[i].from != edges[i].to then [edges[i]] + ForwardFrom(edges, back, i + 1)
    else ForwardFrom(edges, back, i + 1)
  }

  lemma {:induction false} ForwardMembers(edges: seq<Edge>, back: set<nat>, i: nat)
    requires i <= |edges|
    ensures forall e :: e in ForwardFrom(edges, back, i) <==>
      exists k :: i <= k < |edges| && edges[k] == e && k !in back && e.from != e.to
    decreases |edges| - i
  {
    if i < |edges| {
      ForwardMembers(edges, back, i + 1);
    }
  }

  /* ── Depth-first search ────────────────────────────────────────────── */

  /** Progress of a node seen: 1 and 2 in the source. */
  datatype Mark = InProgress | Done

  /**
   * `finished` lists the nodes done, in the order they were; an edge kept from one leads to one before
   * it. `stack` holds the nodes in progress, innermost last.
   */
  ghost predicate Searched(edges: seq<Edge>, stack: seq<Id>, state: map<Id, Mark>, back: set<nat>, finished: seq<Id>) {
    && (forall v :: v in state && state[v] == InProgress <==> v in stack)
    && (forall v :: v in state && state[v] == Done <==> v in finished)
    && Distinct(finished)
    && forall k, i :: 0 <= k < |finished| && 0 <= i < |edges| && edges[i].from == finished[k] && i !in back ==>
      edges[i].to in finished[..k]
  }

  /** The first `n` edges, where they leave `id`, are dropped or lead to a node done. */
  ghost predicate LeadsToFinished(edges: seq<Edge>, id: Id, back: set<nat>, finished: seq<Id>, n: nat) {
    n <= |edges| && forall j :: 0 <= j < n && edges[j].from == id && j !in back ==> edges[j].to in finished
  }

  lemma LeadsOn(edges: seq<Edge>, id: Id, back: set<nat>, finished: seq<Id>, back': set<nat>, finished': seq<Id>,
                n: nat)
    requires n < |edges| && LeadsToFinished(edges, id, back, finished, n)
    requires back <= back' && finished <= finished'
    requires edges[n].from == id ==> n in back' || edges[n].to in finished'
    ensures LeadsToFinished(edges, id, back', finished', n + 1)
  {
    assert forall v :: v in finished ==> v in finished';
  }

  lemma EnterSearched(edges: seq<Edge>, stack: seq<Id>, state: map<Id, Mark>, back: set<nat>, finished: seq<Id>, id: Id)
    requires Searched(edges, stack, state, back, finished) && id !in state
    ensures Searched(edges, stack + [id], state[id := InProgress], back, finished)
  {
    assert forall v :: v in stack + [id] <==> v in stack || v == id;
  }

  lemma LeaveSearched(edges: seq<Edge>, stack: seq<Id>, state: map<Id, Mark>, back: set<nat>, finished: seq<Id>, id: Id)
    requires Searched(edges, stack + [id], state, back, finished) && id !in stack
    requires LeadsToFinished(edges, id, back, finished, |edges|)
    ensures Searched(edges, stack, state[id := Done], back, finished + [id])
  {
    var done := finished + [id];
    assert forall v :: v in stack + [id] <==> v in stack || v == id;
    assert forall v :: v in done <==> v in finished || v == id;
    assert id in stack + [id];
    forall k, i | 0 <= k < |done| && 0 <= i < |edges| && edges[i].from == done[k] && i !in back
      ensures edges[i].to in done[..k]
    {
      if k < |finished| { assert done[..k] == finished[..k]; } else { assert done[..k] == finished; }
    }
  }

  /** Some edge of `tree`, a set of positions, goes from `a` to `b`. */
  ghost predicate Joined(edges: seq<Edge>, tree: set<nat>, a: Id, b: Id) {
    exists j :: j in tree && j < |edges| && edges[j] == Edge(a, b)
  }

  ghost predicate TreeWalk(edges: seq<Edge>, tree: set<nat>, walk: seq<Id>) {
    forall i :: 0 <= i < |walk| - 1 ==> Joined(edges, tree, walk[i], walk[i + 1])
  }

  /** The end of edge `i` leads back to its start along edges of `tree`. */
  ghost predicate ClosesCycle(edges: seq<Edge>, tree: set<nat>, i: nat) {
    i < |edges| && exists walk ::
      walk != [] && TreeWalk(edges, tree, walk) && walk[0] == edges[i].to && walk[|walk| - 1] == edges[i].from
  }

  /**
   * The edges gone down (`tree`) are never dropped, they join the nodes in progress in order, and each
   * edge dropped closes a cycle with them.
   */
  ghost predicate Rooted(edges: seq<Edge>, stack: seq<Id>, state: map<Id, Mark>, back: set<nat>, tree: set<nat>) {
    && back !! tree
    && (forall j :: j in tree + back ==> j < |edges| && edges[j].from in state)
    && (forall j :: j in tree ==> edges[j].from != edges[j].to)
    && TreeWalk(edges, tree, stack)
    && forall i :: i in back ==> ClosesCycle(edges, tree, i)
  }

  lemma TreeWalkGrows(edges: seq<Edge>, tree: set<nat>, tree': set<nat>, walk: seq<Id>)
    requires tree <= tree' && TreeWalk(edges, tree, walk)
    ensures TreeWalk(edges, tree', walk)
  {
  }

  lemma ClosesCycleGrows(edges: seq<Edge>, tree: set<nat>, tree': set<nat>, i: nat)
    requires tree <= tree' && ClosesCycle(edges, tree, i)
    ensures ClosesCycle(edges, tree', i)
  {
    var walk :| walk != [] && TreeWalk(edges, tree, walk) && walk[0] == edges[i].to
      && walk[|walk| - 1] == edges[i].from;
    TreeWalkGrows(edges, tree, tree', walk);
  }

  /** Edge `i` is gone down. */
  lemma TreeGrows(edges: seq<Edge>, stack: seq<Id>, state: map<Id, Mark>, back: set<nat>, tree: set<nat>, i: nat)
    requires Rooted(edges, stack, state, back, tree) && i < |edges| && i !in back
    requires edges[i].from in state && edges[i].from != edges[i].to
    ensures Rooted(edges, stack, state, back, tree + {i}) && Joined(edges, tree + {i}, edges[i].from, edges[i].to)
  {
    TreeWalkGrows(edges, tree, tree + {i}, stack);
    forall b | b in back ensures ClosesCycle(edges, tree + {i}, b) { ClosesCycleGrows(edges, tree, tree + {i}, b); }
  }

  lemma EnterRooted(edges: seq<Edge>, stack: seq<Id>, state: map<Id, Mark>, back: set<nat>, tree: set<nat>, id: Id)
    requires Rooted(edges, stack, state, back, tree) && id !in state
    requires stack != [] ==> Joined(edges, tree, stack[|stack| - 1], id)
    ensures Rooted(edges, stack + [id], state[id := InProgress], back, tree)
  {
    var path := stack + [id];
    forall k | 0 <= k < |path| - 1 ensures Joined(edges, tree, path[k], path[k + 1]) {
      if k + 1 < |stack| { assert path[k] == stack[k] && path[k + 1] == stack[k + 1]; }
    }
  }

  /** Dropping edge `i`, which leads to a node in progress. */
  lemma DropRooted(edges: seq<Edge>, stack: seq<Id>, state: map<Id, Mark>, back: set<nat>, tree: set<nat>, i: nat)
    requires Rooted(edges, stack, state, back, tree) && i < |edges| && i !in tree && edges[i].from in state
    requires stack != [] && edges[i].from == stack[|stack| - 1] && edges[i].to in stack
    ensures Rooted(edges, stack, state, back + {i}, tree)
  {
    var k :| 0 <= k < |stack| && stack[k] == edges[i].to;
    var walk := stack[k..];
    forall j | 0 <= j < |walk| - 1 ensures Joined(edges, tree, walk[j], walk[j + 1]) {
      assert walk[j] == stack[k + j] && walk[j + 1] == stack[k + j + 1];
    }
    assert ClosesCycle(edges, tree, i);
  }

  lemma LeaveRooted(edges: seq<Edge>, stack: seq<Id>, state: map<Id, Mark>, back: set<nat>, tree: set<nat>, id: Id)
    requires Rooted(edges, stack + [id], state, back, tree)
    ensures Rooted(edges, stack, state[id := Done], back, tree)
  {
    var path := stack + [id];
    forall k | 0 <= k < |stack| - 1 ensures Joined(edges, tree, stack[k], stack[k + 1]) {
      assert path[k] == stack[k] && path[k + 1] == stack[k + 1];
    }
  }

  /**
   Edges placed (dropped or gone down) since `was`: none leaves a node of `seen`, and those of `id` are among
   the first `n`.
   */
  ghost predicate Placed(edges: seq<Edge>, was: set<nat>, seen: set<Id>, placed: set<nat>, id: Id, n: nat) {
    && (forall j :: j in placed - was ==> j < |edges| && edges[j].from !in seen)
    && forall j :: j in placed && j < |edges| && edges[j].from == id ==> j < n
  }

  lemma PlacedGrows(edges: seq<Edge>, was: set<nat>, seen: set<Id>, placed: set<nat>, id: Id, n: nat, seen': set<Id>,
                    placed': set<nat>)
    requires n < |edges| && Placed(edges, was, seen, placed, id, n) && id !in seen
    requires seen + {id} <= seen'
      && forall j :: j in placed' - (placed + {n}) ==> j < |edges| && edges[j].from !in seen'
    requires n in placed' ==> n in placed || edges[n].from == id
    ensures Placed(edges, was, seen, placed', id, n + 1)
  {
  }

  ghost function NodeSet(g: Graph): set<Id> {
    set v | v in g.nodes
  }

  class Search {
    const g: Graph
    var state: map<Id, Mark>
    var back: set<nat>
    ghost var finished: seq<Id>
    ghost var tree: set<nat>

    constructor (g: Graph)
      ensures this.g == g && state == map[] && back == {} && finished == [] && tree == {}
    {
      this.g, state, back, finished, tree := g, map[], {}, [], {};
    }

    ghost predicate Valid(stack: seq<Id>)
      reads this
    {
      && WellFormed(g) && state.Keys <= NodeSet(g)
      && Searched(g.edges, stack, state, back, finished)
      && Rooted(g.edges, stack, state, back, tree)
    }

    /** Marks the node, drops edges to nodes in progress, goes down to nodes not seen. */
    method Visit(id: Id, ghost stack: seq<Id>)
      requires Valid(stack) && id in g.nodes && id !in state
      requires stack != [] ==> Joined(g.edges, tree, stack[|stack| - 1], id)
      modifies this
      ensures Valid(stack)
      ensures old(finished) <= finished && id in finished
      ensures old(state).Keys <= state.Keys && old(back) <= back
      ensures forall j :: j in tree + back - old(tree + back) ==> j < |g.edges| && g.edges[j].from !in old(state).Keys
      decreases NodeSet(g) - state.Keys, 0
    {
      ghost var path := stack + [id];
      EnterSearched(g.edges, stack, state, back, finished, id);
      EnterRooted(g.edges, stack, state, back, tree, id);
      state := state[id := InProgress];
      var i := 0;
      while i < |g.edges|
        invariant i <= |g.edges|
        invariant Valid(path)
        invariant old(finished) <= finished
        invariant old(state).Keys + {id} <= state.Keys && old(back) <= back
        invariant LeadsToFinished(g.edges, id, back, finished, i)
        invariant Placed(g.edges, old(tree + back), old(state).Keys, tree + back, id, i)
      {
        ghost var back', finished', placed', seen' := back, finished, tree + back, state.Keys;
        if g.edges[i].from == id {
          Follow(i, path);
        }
        assert id in seen';
        PlacedGrows(g.edges, old(tree + back), old(state).Keys, placed', id, i, seen', tree + back);
        LeadsOn(g.edges, id, back', finished', back, finished, i);
        i := i + 1;
      }
      LeaveSearched(g.edges, stack, state, back, finished, id);
      LeaveRooted(g.edges, stack, state, back, tree, id);
      state := state[id := Done];
      finished := finished + [id];
    }

    /** One turn of the loop of Visit: edge `i` leaves the innermost node in progress. */
    method Follow(i: nat, ghost path: seq<Id>)
      requires Valid(path) && i < |g.edges| && i !in tree + back
      requires path != [] && g.edges[i].from == path[|path| - 1]
      modifies this
      ensures Valid(path)
      ensures old(finished) <= finished && (i in back || g.edges[i].to in finished)
      ensures old(state).Keys <= state.Keys && old(back) <= back
      ensures forall j :: j in tree + back - old(tree + back) - {i} ==>
        j < |g.edges| && g.edges[j].from !in old(state).Keys
      decreases NodeSet(g) - state.Keys, 1
    {
      var e := g.edges[i];
      assert e in g.edges && e.from in path;
      if e.to in state && state[e.to] == InProgress {
        DropRooted(g.edges, path, state, back, tree, i);
        back := back + {i};
      } else if e.to !in state {
        TreeGrows(g.edges, path, state, back, tree, i);
        tree := tree + {i};
        Visit(e.to, path);
      }
    }

    /** Every node not seen yet starts a search. */
    method Run()
      requires Valid([]) && state == map[]
      modifies this
      ensures Valid([]) && forall v :: v in g.nodes <==> v in finished
    {
      for i := 0 to |g.nodes|
        invariant Valid([])
        invariant forall v :: v in g.nodes[..i] ==> v in finished
      {
        if g.nodes[i] !in state {
          Visit(g.nodes[i], []);
        }
        assert g.nodes[..i + 1] == g.nodes[..i] + [g.nodes[i]];
      }
      assert g.nodes[..|g.nodes|] == g.nodes;
    }
  }
}
