/**
 Particular runs of ClusterRuns, step by step: an account is created at "p", reaches every node, and
 each node writes once, apart from the others. The blob a node writes bears its name.
 */
module ConcreteRuns {
  import opened Collections
  import opened VersionVectors
  import opened VaultReplica
  import opened Restore
  import opened ClusterRuns

  lemma {:induction false} ExecConcat(sha: Blob -> Hash, s: System, a: seq<Event>, b: seq<Event>)
    ensures Exec(sha, s, a + b) == Exec(sha, Exec(sha, s, a), b)
    decreases |a|
  {
    if a == [] {
      assert a + b == b;
    } else {
      assert (a + b)[0] == a[0] && (a + b)[1..] == a[1..] + b;
      ExecConcat(sha, Step(sha, s, a[0]), a[1..], b);
    }
  }

  /** One more event of a run. */
  lemma Then(sha: Blob -> Hash, s: System, events: seq<Event>, e: Event)
    ensures Exec(sha, s, events + [e]) == Step(sha, Exec(sha, s, events), e)
  {
    ExecConcat(sha, s, events, [e]);
    assert [e][1..] == [];
  }

  /* ── What one event does ───────────────────────────────────────────── */

  lemma Sent(sha: Blob -> Hash, s: System, n: NodeId)
    requires n in s.replicas && s.replicas[n].vault.Some?
    ensures Step(sha, s, Send(n)) == s.(inflight := s.inflight + {Fetch(s.replicas[n])})
  {}

  lemma Delivered(sha: Blob -> Hash, s: System, n: NodeId, b: Bundle)
    requires n in s.replicas && b in s.inflight
    ensures Step(sha, s, Deliver(n, b)) == s.(replicas := s.replicas[n := Apply(sha, s.replicas[n], b)])
  {}

  function Rewritten(r: Replica, n: NodeId, blob: Blob): Replica
    requires r.vault.Some?
  {
    r.(vault := Some(VaultRow(r.vault.value.revision + 1, blob, Bump(r.vault.value.vv, n))))
  }

  lemma Written(sha: Blob -> Hash, s: System, n: NodeId, blob: Blob)
    requires n in s.replicas && s.replicas[n].vault.Some? && blob !in s.covers
    ensures var t := Step(sha, s, ClientPut(n, s.replicas[n].vault.value.revision, blob, []));
            && t == s.(replicas := s.replicas[n := Rewritten(s.replicas[n], n, blob)], covers := t.covers)
            && t.covers.Keys == s.covers.Keys + {blob}
  {
    assert Acknowledged([]) == {};
    assert s.replicas[n].conflicts - {} == s.replicas[n].conflicts;
  }

  /* ── Everyone writes once ──────────────────────────────────────────── */

  function FirstRow(): VaultRow {
    VaultRow(1, "", map["p" := 1])
  }

  function OwnRow(n: NodeId): VaultRow {
    VaultRow(2, n, Bump(map["p" := 1], n))
  }

  function Holding(row: VaultRow): Replica {
    Replica(Some(row), map[])
  }

  lemma Created(sha: Blob -> Hash, nodes: set<NodeId>) returns (events: seq<Event>)
    requires "p" in nodes
    ensures var s := Exec(sha, Start(nodes), events);
            && s.replicas == Start(nodes).replicas["p" := Holding(FirstRow())]
            && s.inflight == {Bundle(FirstRow(), map[])} && s.covers.Keys == {""}
  {
    var s0 := Start(nodes);
    var s1 := Step(sha, s0, CreateAccount("p", ""));
    Then(sha, s0, [], CreateAccount("p", ""));
    Then(sha, s0, [] + [CreateAccount("p", "")], Send("p"));
    Sent(sha, s1, "p");
    events := [] + [CreateAccount("p", "")] + [Send("p")];
  }

  lemma {:induction false} Spread(sha: Blob -> Hash, s: System, todo: set<NodeId>) returns (events: seq<Event>)
    requires todo <= s.replicas.Keys && Bundle(FirstRow(), map[]) in s.inflight
    requires forall n :: n in todo ==> s.replicas[n].vault.None?
    ensures Exec(sha, s, events)
      == s.(replicas := map n | n in s.replicas :: if n in todo then Holding(FirstRow()) else s.replicas[n])
    decreases todo
  {
    if todo == {} {
      events := [];
    } else {
      var n :| n in todo;
      Delivered(sha, s, n, Bundle(FirstRow(), map[]));
      var rest := Spread(sha, Step(sha, s, Deliver(n, Bundle(FirstRow(), map[]))), todo - {n});
      events := [Deliver(n, Bundle(FirstRow(), map[]))] + rest;
    }
  }

  lemma OneWrites(sha: Blob -> Hash, s: System, n: NodeId) returns (events: seq<Event>)
    requires n in s.replicas && s.replicas[n] == Holding(FirstRow()) && n !in s.covers
    ensures var t := Exec(sha, s, events);
            && t.replicas == s.replicas[n := Holding(OwnRow(n))] && t.covers.Keys == s.covers.Keys + {n}
            && t.inflight == s.inflight + {Bundle(OwnRow(n), map[])}
  {
    var put := ClientPut(n, 1, n, []);
    Written(sha, s, n, n);
    Sent(sha, Step(sha, s, put), n);
    Then(sha, s, [], put);
    Then(sha, s, [] + [put], Send(n));
    events := [] + [put] + [Send(n)];
  }

  /** What the nodes of `done` hold once they have written, the others being as in `s`. */
  ghost predicate Wrote(s: System, t: System, done: set<NodeId>) {
    && t.replicas == (map n | n in s.replicas :: if n in done then Holding(OwnRow(n)) else s.replicas[n])
    && t.covers.Keys == s.covers.Keys + done
    && forall n :: n in done ==> Bundle(OwnRow(n), map[]) in t.inflight
  }

  lemma {:induction false} AllWrite(sha: Blob -> Hash, s: System, todo: set<NodeId>) returns (events: seq<Event>)
    requires todo <= s.replicas.Keys && todo !! s.covers.Keys
    requires forall n :: n in todo ==> s.replicas[n] == Holding(FirstRow())
    ensures Wrote(s, Exec(sha, s, events), todo)
    decreases todo
  {
    if todo == {} {
      events := [];
    } else {
      var n :| n in todo;
      var before := AllWrite(sha, s, todo - {n});
      var t := Exec(sha, s, before);
      assert t.replicas[n] == s.replicas[n];
      var write := OneWrites(sha, t, n);
      ExecConcat(sha, s, before, write);
      events := before + write;
      LastWrote(s, t, Exec(sha, s, events), todo, n);
    }
  }

  lemma LastWrote(s: System, t: System, u: System, todo: set<NodeId>, n: NodeId)
    requires n in todo && todo <= s.replicas.Keys && Wrote(s, t, todo - {n})
    requires u.replicas == t.replicas[n := Holding(OwnRow(n))] && u.covers.Keys == t.covers.Keys + {n}
    requires u.inflight == t.inflight + {Bundle(OwnRow(n), map[])}
    ensures Wrote(s, u, todo)
  {
    assert todo - {n} + {n} == todo;
  }

  /** Every node holds its own write, and every node's bundle is in flight. */
  ghost predicate Prepared(s: System, nodes: set<NodeId>) {
    && s.replicas == (map n | n in nodes :: Holding(OwnRow(n)))
    && s.covers.Keys == nodes + {""}
    && forall n :: n in nodes ==> Bundle(OwnRow(n), map[]) in s.inflight
  }

  lemma Known(sha: Blob -> Hash, nodes: set<NodeId>) returns (events: seq<Event>)
    requires "p" in nodes
    ensures var s := Exec(sha, Start(nodes), events);
            s.replicas == (map n | n in nodes :: Holding(FirstRow())) && s.covers.Keys == {""}
  {
    var created := Created(sha, nodes);
    var spread := Spread(sha, Exec(sha, Start(nodes), created), nodes - {"p"});
    ExecConcat(sha, Start(nodes), created, spread);
    events := created + spread;
  }

  lemma Prepare(sha: Blob -> Hash, nodes: set<NodeId>) returns (events: seq<Event>)
    requires "p" in nodes && "" !in nodes
    ensures Prepared(Exec(sha, Start(nodes), events), nodes)
  {
    var known := Known(sha, nodes);
    var s := Exec(sha, Start(nodes), known);
    var written := AllWrite(sha, s, nodes);
    ExecConcat(sha, Start(nodes), known, written);
    events := known + written;
    assert Wrote(s, Exec(sha, Start(nodes), events), nodes);
  }
}
