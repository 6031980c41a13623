/**
 Any number of nodes replicating one account's vault, over whole runs.

 Bundles read from a node stay in flight for ever: a delivery may use a stale one, repeat it
 or overtake another. Client writes carry a history variable, the set of writes each blob
 accounts for: its own, those of the blob its author read, and those of the conflicts its
 author acknowledged (server/src/app.ts PUT /api/v1/vault, server/src/cluster.ts, restores of
 server/src/backup.ts).
 */
module ClusterRuns {
  import opened Collections
  import opened VersionVectors
  import opened VaultReplica
  import opened Restore

  /** The c-th write counted by a node. */
  datatype Write = Write(node: NodeId, counter: nat)

  type Coverage = map<Blob, set<Write>>

  /** A restore of the account under way: the row it read before it fetched the files it needs. */
  datatype Restoring = Restoring(node: NodeId, read: Option<VaultRow>, snapshot: Bundle)

  datatype System = System(
    replicas: map<NodeId, Replica>, inflight: set<Bundle>, backups: set<Bundle>, restoring: set<Restoring>,
      covers: Coverage)

  datatype Event =
    | CreateAccount(node: NodeId, blob: Blob)
    | ClientPut(node: NodeId, baseRevision: nat, blob: Blob, merged: seq<Hash>)
    | Send(node: NodeId)
    | Deliver(node: NodeId, bundle: Bundle)
    | Backup(node: NodeId)
    | BeginRestore(node: NodeId, snapshot: Bundle)
    | FinishRestore(node: NodeId, read: Option<VaultRow>, snapshot: Bundle) // at any later time
    | RestoreServer(node: NodeId, snapshot: Bundle)

  function Start(nodes: set<NodeId>): System {
    System(map n | n in nodes :: Replica(None, map[]), {}, {}, {}, map[])
  }

  /** The writes a new blob accounts for besides its own. */
  function Absorbed(r: Replica, merged: seq<Hash>, covers: Coverage): set<Write> {
    (if r.vault.Some? && r.vault.value.blob in covers then covers[r.vault.value.blob] else {})
    + set h, w | h in r.conflicts.Keys * Acknowledged(merged) && r.conflicts[h] in covers
      && w in covers[r.conflicts[h]] :: w
  }

  /** One step of the cluster; an event that cannot happen in `s` leaves it unchanged. */
  ghost function Step(sha: Blob -> Hash, s: System, e: Event): System {
    match e
    case CreateAccount(n, blob) =>
      if n in s.replicas && s.inflight == {} && s.backups == {} && blob !in s.covers
         && forall m :: m in s.replicas ==> s.replicas[m].vault.None?
      then s.(replicas := s.replicas[n := Replica(Some(VaultRow(1, blob, map[n := 1])), map[])],
              covers := s.covers[blob := {Write(n, 1)}])
      else s
    case ClientPut(n, base, blob, merged) =>
      if n in s.replicas && blob !in s.covers then
        var r := s.replicas[n];
        match Put(r, n, base, blob, merged)
        case None => s
        case Some(next) =>
          s.(replicas := s.replicas[n := next],
             covers := s.covers[blob := {Write(n, At(Vv(r), n) + 1)} + Absorbed(r, merged, s.covers)])
      else s
    case Send(n) =>
      if n in s.replicas && s.replicas[n].vault.Some? then s.(inflight := s.inflight + {Fetch(s.replicas[n])}) else s
    case Deliver(n, b) =>
      if n in s.replicas && b in s.inflight then s.(replicas := s.replicas[n := Apply(sha, s.replicas[n], b)]) else s
    case Backup(n) =>
      if n in s.replicas && s.replicas[n].vault.Some? then s.(backups := s.backups + {Fetch(s.replicas[n])}) else s
    case BeginRestore(n, b) =>
      if n in s.replicas && b in s.backups then s.(restoring := s.restoring + {Restoring(n, s.replicas[n].vault, b)})
        else s
    case FinishRestore(n, read, b) =>
      if n in s.replicas && Restoring(n, read, b) in s.restoring
      then s.(replicas := s.replicas[n := AccountRestored(s.replicas[n], n, read, b)])
      else s
    case RestoreServer(n, b) =>
      if n in s.replicas && b in s.backups then s.(replicas := s.replicas[n := ServerRestored(s.replicas[n], n, b)])
        else s
  }

  ghost function Exec(sha: Blob -> Hash, s: System, events: seq<Event>): System
    decreases |events|
  {
    if events == [] then s else Exec(sha, Step(sha, s, events[0]), events[1..])
  }

  /** Runs made of client writes and replication only: a restore discards content by design. */
  predicate NoRestore(events: seq<Event>) {
    forall e :: e in events ==> !e.FinishRestore? && !e.RestoreServer?
  }

  /* ── No write is lost ──────────────────────────────────────────────── */

  /** `w` is accounted for by the current blob or by a set-aside one. */
  ghost predicate Covered(b: Bundle, covers: Coverage, w: Write) {
    || (b.row.blob in covers && w in covers[b.row.blob])
    || exists h :: h in b.conflicts && b.conflicts[h] in covers && w in covers[b.conflicts[h]]
  }

  ghost predicate CoversAll(b: Bundle, covers: Coverage) {
    forall w: Write :: 1 <= w.counter <= At(b.row.vv, w.node) ==> Covered(b, covers, w)
  }

  ghost predicate Whole(sha: Blob -> Hash, b: Bundle, covers: Coverage) {
    Keyed(sha, b.conflicts) && CoversAll(b, covers)
  }

  ghost predicate Extends(covers: Coverage, more: Coverage) {
    forall b :: b in covers ==> b in more && more[b] == covers[b]
  }

  ghost predicate Sound(sha: Blob -> Hash, s: System) {
    && (forall n :: n in s.replicas && s.replicas[n].vault.Some? ==> Whole(sha, Fetch(s.replicas[n]), s.covers))
    && (forall n :: n in s.replicas && s.replicas[n].vault.None? ==> s.replicas[n].conflicts == map[])
    && (forall b :: b in s.inflight ==> Whole(sha, b, s.covers))
  }

  lemma WholeExtends(sha: Blob -> Hash, b: Bundle, covers: Coverage, more: Coverage)
    requires Whole(sha, b, covers) && Extends(covers, more)
    ensures Whole(sha, b, more)
  {
    forall w: Write | 1 <= w.counter <= At(b.row.vv, w.node) ensures Covered(b, more, w) {
      assert Covered(b, covers, w);
    }
  }

  /** A merge keeps the coverage of both sides: the loser and both conflict sets are in the result. */
  lemma ConcurrentKeepsWhole(sha: Blob -> Hash, local: Replica, b: Bundle, covers: Coverage)
    requires Injective(sha) && local.vault.Some?
    requires Compare(b.row.vv, local.vault.value.vv) == Concurrent
    requires Whole(sha, Fetch(local), covers) && Whole(sha, b, covers)
    ensures Whole(sha, Fetch(Apply(sha, local, b)), covers)
  {
    var mine, next := local.vault.value, Fetch(Apply(sha, local, b));
    var loser := Loser(sha, b.row, mine);
    forall h | h in next.conflicts ensures sha(next.conflicts[h]) == h {}
    forall h | h in b.conflicts ensures h in next.conflicts && next.conflicts[h] == b.conflicts[h] {
      assert sha(next.conflicts[h]) == sha(b.conflicts[h]);
    }
    assert next.conflicts[sha(loser)] == loser;
    forall w: Write | 1 <= w.counter <= At(next.row.vv, w.node) ensures Covered(next, covers, w) {
      MergeAt(b.row.vv, mine.vv);
      if w.counter <= At(mine.vv, w.node) {
        assert Covered(Fetch(local), covers, w);
        if h :| h in local.conflicts && local.conflicts[h] in covers && w in covers[local.conflicts[h]] {
          assert next.conflicts[h] == local.conflicts[h];
        }
      } else {
        assert Covered(b, covers, w);
      }
    }
  }

  lemma ApplyKeepsWhole(sha: Blob -> Hash, local: Replica, b: Bundle, covers: Coverage)
    requires Injective(sha)
    requires local.vault.Some? ==> Whole(sha, Fetch(local), covers)
    requires Whole(sha, b, covers)
    ensures Whole(sha, Fetch(Apply(sha, local, b)), covers)
  {
    if local.vault.Some? && Compare(b.row.vv, local.vault.value.vv) == Concurrent {
      ConcurrentKeepsWhole(sha, local, b, covers);
    }
  }

  /** An accepted write accounts for what it replaces and for the conflicts it removes. */
  lemma PutKeepsWhole(sha: Blob -> Hash, r: Replica, n: NodeId, base: nat, blob: Blob, merged: seq<Hash>,
                      covers: Coverage)
    requires r.vault.Some? && Whole(sha, Fetch(r), covers)
    requires blob !in covers && Put(r, n, base, blob, merged).Some?
    ensures var next := Put(r, n, base, blob, merged).value;
            Whole(sha, Fetch(next), covers[blob := {Write(n, At(Vv(r), n) + 1)} + Absorbed(r, merged, covers)])
  {
    var next := Fetch(Put(r, n, base, blob, merged).value);
    var more := covers[blob := {Write(n, At(Vv(r), n) + 1)} + Absorbed(r, merged, covers)];
    forall w: Write | 1 <= w.counter <= At(next.row.vv, w.node) ensures Covered(next, more, w) {
      if w != Write(n, At(Vv(r), n) + 1) {
        assert w.counter <= At(Vv(r), w.node);
        assert Covered(Fetch(r), covers, w);
        if w !in more[blob] {
          var h :| h in r.conflicts && r.conflicts[h] in covers && w in covers[r.conflicts[h]];
          assert h in next.conflicts && next.conflicts[h] == r.conflicts[h];
        }
      }
    }
  }

  /** A node takes a whole vault, and blobs may be added to the coverage. */
  lemma ReplacingKeepsSound(sha: Blob -> Hash, s: System, n: NodeId, next: Replica, more: Coverage)
    requires Sound(sha, s) && n in s.replicas && Extends(s.covers, more)
    requires next.vault.Some? && Whole(sha, Fetch(next), more)
    ensures Sound(sha, s.(replicas := s.replicas[n := next], covers := more))
  {
    forall m | m in s.replicas && s.replicas[m].vault.Some? ensures Whole(sha, Fetch(s.replicas[m]), more) {
      WholeExtends(sha, Fetch(s.replicas[m]), s.covers, more);
    }
    forall b | b in s.inflight ensures Whole(sha, b, more) {
      WholeExtends(sha, b, s.covers, more);
    }
  }

  lemma StepKeepsSound(sha: Blob -> Hash, s: System, e: Event)
    requires Injective(sha) && Sound(sha, s)
    requires !e.FinishRestore? && !e.RestoreServer?
    ensures Sound(sha, Step(sha, s, e))
    ensures Extends(s.covers, Step(sha, s, e).covers)
  {
    var t := Step(sha, s, e);
    if t != s {
      match e
      case CreateAccount(n, blob) =>
        var next := Replica(Some(VaultRow(1, blob, map[n := 1])), map[]);
        assert Covered(Fetch(next), t.covers, Write(n, 1));
        ReplacingKeepsSound(sha, s, n, next, t.covers);
      case ClientPut(n, base, blob, merged) =>
        PutKeepsWhole(sha, s.replicas[n], n, base, blob, merged, s.covers);
        ReplacingKeepsSound(sha, s, n, t.replicas[n], t.covers);
      case Deliver(n, b) =>
        ApplyKeepsWhole(sha, s.replicas[n], b, s.covers);
        ApplyJoinsVectors(sha, s.replicas[n], b);
        ReplacingKeepsSound(sha, s, n, t.replicas[n], t.covers);
      case _ =>
    }
  }

  lemma {:induction false} ExecKeepsSound(sha: Blob -> Hash, s: System, events: seq<Event>)
    requires Injective(sha) && Sound(sha, s) && NoRestore(events)
    ensures Sound(sha, Exec(sha, s, events))
    ensures Extends(s.covers, Exec(sha, s, events).covers)
    decreases |events|
  {
    if events != [] {
      StepKeepsSound(sha, s, events[0]);
      ExecKeepsSound(sha, Step(sha, s, events[0]), events[1..]);
    }
  }

  /** In every run, every write counted by a node's vector is accounted for at that node. */
  lemma NoWriteLost(sha: Blob -> Hash, nodes: set<NodeId>, events: seq<Event>, node: NodeId, w: Write)
    requires Injective(sha) && NoRestore(events)
    requires var s := Exec(sha, Start(nodes), events);
             node in s.replicas && s.replicas[node].vault.Some? && 1 <= w.counter <= At(Vv(s.replicas[node]), w.node)
    ensures var s := Exec(sha, Start(nodes), events);
            Covered(Fetch(s.replicas[node]), s.covers, w)
  {
    ExecKeepsSound(sha, Start(nodes), events);
  }

  /* ── Vectors only grow, and each node leads on its own counter ─────── */

  /** `after` adds to `before` at most this node's own writes and what `other` already shows. */
  ghost predicate GrowsFrom(before: VersionVector, after: VersionVector, other: VersionVector, n: NodeId) {
    && Below(before, after)
    && forall k :: k != n ==> At(after, k) <= Max(At(before, k), At(other, k))
  }

  lemma PutGrows(r: Replica, n: NodeId, base: nat, blob: Blob, merged: seq<Hash>)
    requires Put(r, n, base, blob, merged).Some?
    ensures GrowsFrom(Vv(r), Vv(Put(r, n, base, blob, merged).value), map[], n)
  {
    BumpIsNewer(Vv(r), n);
  }

  lemma ApplyGrows(sha: Blob -> Hash, r: Replica, b: Bundle, n: NodeId)
    ensures GrowsFrom(Vv(r), Vv(Apply(sha, r, b)), b.row.vv, n)
  {
    ApplyJoinsVectors(sha, r, b);
    MergeAt(b.row.vv, Vv(r));
    assert forall k :: At(Vv(Apply(sha, r, b)), k) == At(Merge(b.row.vv, Vv(r)), k);
  }

  lemma AccountRestoredGrows(r: Replica, n: NodeId, read: Option<VaultRow>, b: Bundle)
    ensures GrowsFrom(Vv(r), Vv(AccountRestored(r, n, read, b)), ReadVv(read), n)
  {
    if r.vault.Some? {
      var bumped, after := Bump(Vv(r), n), Vv(AccountRestored(r, n, read, b));
      DominateIsAbove(ReadVv(read), bumped, n);
      BumpIsNewer(Vv(r), n);
      BelowTransitive(Vv(r), bumped, after);
      assert forall k :: k != n ==> At(bumped, k) == At(Vv(r), k);
    }
  }

  lemma ServerRestoredGrows(r: Replica, n: NodeId, b: Bundle)
    ensures GrowsFrom(Vv(r), Vv(ServerRestored(r, n, b)), b.row.vv, n)
  {
    DominateIsAbove(Vv(r), b.row.vv, n);
  }

  /** The vector a step may learn other nodes' counters from. */
  function Source(e: Event): VersionVector {
    match e
    case Deliver(_, b) => b.row.vv
    case RestoreServer(_, b) => b.row.vv
    case FinishRestore(_, read, _) => ReadVv(read)
    case _ => map[]
  }

  lemma StepGrows(sha: Blob -> Hash, s: System, e: Event, n: NodeId)
    requires n in s.replicas
    ensures n in Step(sha, s, e).replicas
    ensures s.replicas[n].vault.Some? ==> Step(sha, s, e).replicas[n].vault.Some?
    ensures Below(Vv(s.replicas[n]), Vv(Step(sha, s, e).replicas[n]))
    ensures Step(sha, s, e) != s ==> GrowsFrom(Vv(s.replicas[n]), Vv(Step(sha, s, e).replicas[n]), Source(e), n)
  {
    var r := s.replicas[n];
    if n == e.node {
      match e
      case ClientPut(m, base, blob, merged) =>
        if Put(r, n, base, blob, merged).Some? { PutGrows(r, n, base, blob, merged); }
      case Deliver(m, b) => ApplyGrows(sha, r, b, n); ApplyJoinsVectors(sha, r, b);
      case FinishRestore(m, read, b) => AccountRestoredGrows(r, n, read, b);
      case RestoreServer(m, b) => ServerRestoredGrows(r, n, b);
      case _ =>
    }
  }

  lemma {:induction false} ExecGrows(sha: Blob -> Hash, s: System, events: seq<Event>, n: NodeId)
    requires n in s.replicas
    ensures n in Exec(sha, s, events).replicas
    ensures s.replicas[n].vault.Some? ==> Exec(sha, s, events).replicas[n].vault.Some?
    ensures Below(Vv(s.replicas[n]), Vv(Exec(sha, s, events).replicas[n]))
    decreases |events|
  {
    if events != [] {
      StepGrows(sha, s, events[0], n);
      ExecGrows(sha, Step(sha, s, events[0]), events[1..], n);
      BelowTransitive(Vv(s.replicas[n]), Vv(Step(sha, s, events[0]).replicas[n]), Vv(Exec(sha, s, events).replicas[n]));
    }
  }

  /**
   A write accepted by a node is still accounted for there at the end of every continuation:
   the node never forgets it, whatever it merges, adopts or lets clients acknowledge.
   */
  lemma AcceptedWriteSurvives(sha: Blob -> Hash, nodes: set<NodeId>, past: seq<Event>, put: Event, future: seq<Event>)
    requires Injective(sha) && NoRestore(past) && NoRestore(future) && put.ClientPut?
    requires var s := Exec(sha, Start(nodes), past);
             put.node in s.replicas && put.blob !in s.covers
             && Put(s.replicas[put.node], put.node, put.baseRevision, put.blob, put.merged).Some?
    ensures var s := Exec(sha, Start(nodes), past);
            var t := Exec(sha, Step(sha, s, put), future);
            && put.node in t.replicas && t.replicas[put.node].vault.Some?
            && Covered(Fetch(t.replicas[put.node]), t.covers,
                       Write(put.node, At(Vv(s.replicas[put.node]), put.node) + 1))
  {
    var n, s := put.node, Exec(sha, Start(nodes), past);
    var s' := Step(sha, s, put);
    ExecKeepsSound(sha, Start(nodes), past);
    StepKeepsSound(sha, s, put);
    ExecKeepsSound(sha, s', future);
    ExecGrows(sha, s', future, n);
    BelowMeaning(Vv(s'.replicas[n]), Vv(Exec(sha, s', future).replicas[n]));
    assert At(Vv(s'.replicas[n]), n) == At(Vv(s.replicas[n]), n) + 1;
  }

  /** No vector shows more writes of a node than that node itself has counted. */
  ghost predicate OwnBound(s: System, vv: VersionVector) {
    forall k :: k in vv && vv[k] > 0 ==> k in s.replicas && vv[k] <= At(Vv(s.replicas[k]), k)
  }

  ghost predicate Led(s: System) {
    && (forall n :: n in s.replicas ==> OwnBound(s, Vv(s.replicas[n])))
    && (forall b :: b in s.inflight ==> OwnBound(s, b.row.vv))
    && (forall b :: b in s.backups ==> OwnBound(s, b.row.vv))
    && (forall p :: p in s.restoring ==> OwnBound(s, ReadVv(p.read)))
  }

  lemma OwnBoundGrows(sha: Blob -> Hash, s: System, e: Event, vv: VersionVector)
    requires OwnBound(s, vv)
    ensures OwnBound(Step(sha, s, e), vv)
  {
    forall k | k in vv && vv[k] > 0
      ensures k in Step(sha, s, e).replicas && vv[k] <= At(Vv(Step(sha, s, e).replicas[k]), k)
    {
      StepGrows(sha, s, e, k);
      BelowMeaning(Vv(s.replicas[k]), Vv(Step(sha, s, e).replicas[k]));
    }
  }

  /** What a step writes into a node's vector: its own counter, plus counters already known elsewhere. */
  lemma ChangedVectorIsLed(sha: Blob -> Hash, s: System, e: Event, n: NodeId)
    requires Led(s) && n in s.replicas
    ensures OwnBound(Step(sha, s, e), Vv(Step(sha, s, e).replicas[n]))
  {
    var t := Step(sha, s, e);
    if t != s {
      var before, after := Vv(s.replicas[n]), Vv(t.replicas[n]);
      StepGrows(sha, s, e, n);
      assert OwnBound(s, Source(e));
      OwnBoundGrows(sha, s, e, before);
      OwnBoundGrows(sha, s, e, Source(e));
      forall k | k in after && after[k] > 0
        ensures k in t.replicas && after[k] <= At(Vv(t.replicas[k]), k)
      {
        if k != n {
          assert At(after, k) <= Max(At(before, k), At(Source(e), k));
        }
      }
    }
  }

  lemma StepKeepsLed(sha: Blob -> Hash, s: System, e: Event)
    requires Led(s)
    ensures Led(Step(sha, s, e))
  {
    var t := Step(sha, s, e);
    forall n | n in t.replicas ensures OwnBound(t, Vv(t.replicas[n])) {
      ChangedVectorIsLed(sha, s, e, n);
    }
    forall b | b in t.inflight || b in t.backups ensures OwnBound(t, b.row.vv) {
      if b in s.inflight || b in s.backups {
        OwnBoundGrows(sha, s, e, b.row.vv);
      } else {
        OwnBoundGrows(sha, s, e, Vv(s.replicas[e.node]));
      }
    }
    forall p | p in t.restoring ensures OwnBound(t, ReadVv(p.read)) {
      OwnBoundGrows(sha, s, e, if p in s.restoring then ReadVv(p.read) else Vv(s.replicas[e.node]));
    }
  }

  lemma {:induction false} ExecKeepsLed(sha: Blob -> Hash, s: System, events: seq<Event>)
    requires Led(s)
    ensures Led(Exec(sha, s, events))
    decreases |events|
  {
    if events != [] {
      StepKeepsLed(sha, s, events[0]);
      ExecKeepsLed(sha, Step(sha, s, events[0]), events[1..]);
    }
  }

  /** In every run, restores included, vv_n[k] never exceeds vv_k[k]. */
  lemma OwnCounterLeads(sha: Blob -> Hash, nodes: set<NodeId>, events: seq<Event>, n: NodeId, k: NodeId)
    requires n in Exec(sha, Start(nodes), events).replicas && k in Exec(sha, Start(nodes), events).replicas
    ensures var s := Exec(sha, Start(nodes), events);
            At(Vv(s.replicas[n]), k) <= At(Vv(s.replicas[k]), k)
  {
    ExecKeepsLed(sha, Start(nodes), events);
    var s := Exec(sha, Start(nodes), events);
    assert OwnBound(s, Vv(s.replicas[n]));
  }

  /* ── A restored vault prevails ─────────────────────────────────────── */

  /** Conflict tables hold every blob under its own fingerprint, restores included. */
  ghost predicate AllKeyed(sha: Blob -> Hash, s: System) {
    && (forall n :: n in s.replicas ==> Keyed(sha, s.replicas[n].conflicts))
    && (forall b :: b in s.inflight ==> Keyed(sha, b.conflicts))
  }

  lemma StepKeepsKeyed(sha: Blob -> Hash, s: System, e: Event)
    requires AllKeyed(sha, s)
    ensures AllKeyed(sha, Step(sha, s, e))
  {
    var t := Step(sha, s, e);
    if e.node in s.replicas {
      assert Keyed(sha, s.replicas[e.node].conflicts);
      assert Keyed(sha, t.replicas[e.node].conflicts);
    }
  }

  lemma {:induction false} ExecKeepsKeyed(sha: Blob -> Hash, s: System, events: seq<Event>)
    requires AllKeyed(sha, s)
    ensures AllKeyed(sha, Exec(sha, s, events))
    decreases |events|
  {
    if events != [] {
      StepKeepsKeyed(sha, s, events[0]);
      ExecKeepsKeyed(sha, Step(sha, s, events[0]), events[1..]);
    }
  }

  /** The row a restore read is still below the one there is: vectors never go back. */
  ghost predicate ReadsBehind(s: System) {
    forall p :: p in s.restoring ==>
      && p.node in s.replicas && (p.read.Some? ==> s.replicas[p.node].vault.Some?)
      && Below(ReadVv(p.read), Vv(s.replicas[p.node])) && p.snapshot in s.backups
  }

  lemma StepKeepsReadsBehind(sha: Blob -> Hash, s: System, e: Event)
    requires ReadsBehind(s)
    ensures ReadsBehind(Step(sha, s, e))
  {
    var t := Step(sha, s, e);
    assert s.backups <= t.backups;
    forall p | p in t.restoring
      ensures p.node in t.replicas && (p.read.Some? ==> t.replicas[p.node].vault.Some?)
      ensures Below(ReadVv(p.read), Vv(t.replicas[p.node])) && p.snapshot in t.backups
    {
      if p in s.restoring {
        StepGrows(sha, s, e, p.node);
        BelowTransitive(ReadVv(p.read), Vv(s.replicas[p.node]), Vv(t.replicas[p.node]));
      }
    }
  }

  lemma {:induction false} ExecKeepsReadsBehind(sha: Blob -> Hash, s: System, events: seq<Event>)
    requires ReadsBehind(s)
    ensures ReadsBehind(Exec(sha, s, events))
    decreases |events|
  {
    if events != [] {
      StepKeepsReadsBehind(sha, s, events[0]);
      ExecKeepsReadsBehind(sha, Step(sha, s, events[0]), events[1..]);
    }
  }

  /**
   A restore that ends at `node`, in any reachable state, whatever happened to the row since it was
   read: the new vector is strictly above the row overwritten and the row read; every other node at
   or below the row overwritten adopts the restored one as it is; one that has diverged keeps both
   blobs; none judges it older or equal.
   The revision rises exactly when the row overwritten has no greater revision than the row read.
   restoreAccount does not read the snapshot's vector: the new one is above it exactly when this node
   has seen every other node's write in the snapshot.
   */
  lemma RestoreAccountPrevails(sha: Blob -> Hash, nodes: set<NodeId>, events: seq<Event>, restore: Restoring,
                               peer: NodeId)
    requires Injective(sha)
    requires var s := Exec(sha, Start(nodes), events);
             restore in s.restoring && peer in s.replicas && peer != restore.node
    ensures var s := Exec(sha, Start(nodes), events);
            restore.node in s.replicas &&
            var now := s.replicas[restore.node];
            var restored := AccountRestored(now, restore.node, restore.read, restore.snapshot);
            now.vault.Some? ==>
              && Prevails(sha, now, restored, restore.snapshot, s.replicas[peer])
              && Compare(Vv(restored), Vv(now)) == Newer && Compare(Vv(restored), ReadVv(restore.read)) == Newer
              && (restored.vault.value.revision > now.vault.value.revision
                  <==> now.vault.value.revision <= ReadRevision(restore.read))
              && (Compare(Vv(restored), restore.snapshot.row.vv) == Newer
                  <==> forall k :: k != restore.node ==> At(restore.snapshot.row.vv, k) <= At(Vv(now), k))
  {
    ExecKeepsReadsBehind(sha, Start(nodes), events);
    ExecKeepsKeyed(sha, Start(nodes), events);
    ExecKeepsLed(sha, Start(nodes), events);
    OwnCounterLeads(sha, nodes, events, peer, restore.node);
    var s := Exec(sha, Start(nodes), events);
    var node, now := restore.node, s.replicas[restore.node];
    if now.vault.Some? {
      RestoredStands(now, node, restore.read, restore.snapshot);
      LeadingRowPrevails(sha, now, AccountRestored(now, node, restore.read, restore.snapshot), restore.snapshot,
                         s.replicas[peer], node);
      assert OwnBound(s, restore.snapshot.row.vv);
      RestoredAgainstSnapshot(now, node, restore.read, restore.snapshot);
    }
  }

  /** A copy the node made itself earlier in the run is never ahead of it, so a restore from it dominates it. */
  lemma OwnBackupIsBehind(sha: Blob -> Hash, nodes: set<NodeId>, past: seq<Event>, future: seq<Event>, node: NodeId,
                          read: Option<VaultRow>)
    requires var s := Exec(sha, Start(nodes), past);
             node in s.replicas && s.replicas[node].vault.Some?
    requires var s := Exec(sha, Start(nodes), past);
             Restoring(node, read, Fetch(s.replicas[node])) in Exec(sha, Step(sha, s, Backup(node)), future).restoring
    ensures var s := Exec(sha, Start(nodes), past);
            var t := Exec(sha, Step(sha, s, Backup(node)), future);
            && Fetch(s.replicas[node]) in Step(sha, s, Backup(node)).backups
            && node in t.replicas
            && Compare(Vv(AccountRestored(t.replicas[node], node, read, Fetch(s.replicas[node]))),
                       Vv(s.replicas[node])) == Newer
  {
    var s := Exec(sha, Start(nodes), past);
    var s' := Step(sha, s, Backup(node));
    ExecGrows(sha, s', future, node);
    ExecKeepsReadsBehind(sha, Start(nodes), past);
    StepKeepsReadsBehind(sha, s, Backup(node));
    ExecKeepsReadsBehind(sha, s', future);
    var t := Exec(sha, s', future);
    BelowMeaning(Vv(s.replicas[node]), Vv(t.replicas[node]));
    RestoredAgainstSnapshot(t.replicas[node], node, read, Fetch(s.replicas[node]));
  }

  lemma RestoreServerPrevails(sha: Blob -> Hash, nodes: set<NodeId>, events: seq<Event>, node: NodeId,
                              snapshot: Bundle, peer: NodeId)
    requires Injective(sha)
    requires var s := Exec(sha, Start(nodes), events);
             node in s.replicas && snapshot in s.backups && peer in s.replicas && peer != node
    ensures var s := Exec(sha, Start(nodes), events);
            var before, restored := s.replicas[node], ServerRestored(s.replicas[node], node, snapshot);
            && Prevails(sha, before, restored, snapshot, s.replicas[peer])
            && Compare(Vv(restored), Vv(before)) == Newer
            && Compare(Vv(restored), snapshot.row.vv) == Newer
  {
    var s := Exec(sha, Start(nodes), events);
    var before, restored := s.replicas[node], ServerRestored(s.replicas[node], node, snapshot);
    OwnCounterLeads(sha, nodes, events, peer, node);
    ExecKeepsKeyed(sha, Start(nodes), events);
    DominateIsAbove(Vv(before), snapshot.row.vv, node);
    LeadingRowPrevails(sha, before, restored, snapshot, s.replicas[peer], node);
  }
}
