/**
 What restoring one account does not promise, each shown by a run of ClusterRuns: its revision and its
 vector depend on what was read before the files were fetched (server/src/backup.ts restoreAccount).
 */
module RestoreLimits {
  import opened Collections
  import opened VersionVectors
  import opened VaultReplica
  import opened Restore
  import opened ClusterRuns
  import opened ConcreteRuns
  import opened MergeLimits

  /** `node` reads its row for a restore of the present vault of `from`. */
  lemma Begin(sha: Blob -> Hash, start: System, before: seq<Event>, from: NodeId, node: NodeId)
    returns (events: seq<Event>)
    requires var s := Exec(sha, start, before); from in s.replicas && node in s.replicas && s.replicas[from].vault.Some?
    ensures var s, t := Exec(sha, start, before), Exec(sha, start, events);
            && t.replicas == s.replicas && t.covers == s.covers && Fetch(s.replicas[from]) in t.backups
            && Restoring(node, s.replicas[node].vault, Fetch(s.replicas[from])) in t.restoring
  {
    var s := Exec(sha, start, before);
    var snapshot := Fetch(s.replicas[from]);
    Then(sha, start, before, Backup(from));
    var backedUp := before + [Backup(from)];
    Then(sha, start, backedUp, BeginRestore(node, snapshot));
    events := backedUp + [BeginRestore(node, snapshot)];
  }

  lemma Finish(sha: Blob -> Hash, start: System, before: seq<Event>, r: Restoring) returns (events: seq<Event>)
    requires var s := Exec(sha, start, before); r in s.restoring && r.node in s.replicas
    ensures var s, t := Exec(sha, start, before), Exec(sha, start, events);
            && t.replicas == s.replicas[r.node := AccountRestored(s.replicas[r.node], r.node, r.read, r.snapshot)]
            && t.backups == s.backups
  {
    Then(sha, start, before, FinishRestore(r.node, r.read, r.snapshot));
    events := before + [FinishRestore(r.node, r.read, r.snapshot)];
  }

  /**
   `written` is the row as a device left it, `restored` the row after the restore: the device's blob is gone
   and the next write is accepted on the revision the device was given.
   */
  predicate Repeats(written: Replica, restored: Replica, node: NodeId, next: Blob) {
    && written.vault.Some? && restored.vault.Some?
    && written.vault.value.blob != restored.vault.value.blob
    && written.vault.value.revision == restored.vault.value.revision
    && Put(restored, node, written.vault.value.revision, next, []).Some?
  }

  /** The vector of a restored row and its snapshot's: neither is above the other. */
  predicate Beside(restored: Replica, snapshot: Bundle) {
    && restored.vault.Some? && restored.vault.value.blob == snapshot.row.blob
    && Compare(restored.vault.value.vv, snapshot.row.vv) == Concurrent
  }

  /**
   A device writes while a restore fetches files. The restore gives the restored vault the revision of
   that write: another device that has read the write may then overwrite the restored vault.
   */
  lemma RestoreMayRepeatRevision(sha: Blob -> Hash, blob: Blob) returns (written: seq<Event>, restored: seq<Event>)
    ensures var s, t := Exec(sha, Start({"p"}), written), Exec(sha, Start({"p"}), restored);
            && written < restored && "p" in s.replicas && "p" in t.replicas
            && Repeats(s.replicas["p"], t.replicas["p"], "p", blob)
  {
    var nodes: set<NodeId> := {"p"};
    var start := Start(nodes);
    var e0 := Prepare(sha, nodes);
    var own := Holding(OwnRow("p"));
    var snapshot := Fetch(own);
    var e1 := Begin(sha, start, e0, "p", "p");
    Then(sha, start, e1, ClientPut("p", 2, "new", []));
    Written(sha, Exec(sha, start, e1), "p", "new");
    written := e1 + [ClientPut("p", 2, "new", [])];
    Then(sha, start, written, FinishRestore("p", own.vault, snapshot));
    restored := written + [FinishRestore("p", own.vault, snapshot)];
  }

  /** "p" restores a copy made by "q", which has a write "p" has not seen: neither vector is above the other. */
  lemma RestoreMayStandBesideItsSnapshot(sha: Blob -> Hash) returns (events: seq<Event>, snapshot: Bundle)
    ensures var t := Exec(sha, Start({"p", "q"}), events);
            "p" in t.replicas && snapshot in t.backups && Beside(t.replicas["p"], snapshot)
  {
    var nodes: set<NodeId> := {"p", "q"};
    var start := Start(nodes);
    var e0 := Prepare(sha, nodes);
    var own, other := Holding(OwnRow("p")), Holding(OwnRow("q"));
    snapshot := Fetch(other);
    var e1 := Begin(sha, start, e0, "q", "p");
    events := Finish(sha, start, e1, Restoring("p", own.vault, snapshot));
    OwnsAreBeside(own, other);
  }

  lemma OwnsAreBeside(own: Replica, other: Replica)
    requires own == Holding(OwnRow("p")) && other == Holding(OwnRow("q"))
    ensures Compare(Vv(AccountRestored(own, "p", own.vault, Fetch(other))), Vv(other)) == Concurrent
  {
    var vv := Vv(AccountRestored(own, "p", own.vault, Fetch(other)));
    OwnHolds("p");
    OwnHolds("q");
    BelowMeaning(Vv(own), Vv(own));
    RestoredStands(own, "p", own.vault, Fetch(other));
    assert Reads(vv, Four(4, 0, 0, 0)) by {
      assert forall k :: At(Vv(own), k) == Get(Four(2, 0, 0, 0), k);
    }
    ReadsBelow(vv, Four(4, 0, 0, 0), Vv(other), OwnFour("q"));
    ReadsBelow(Vv(other), OwnFour("q"), vv, Four(4, 0, 0, 0));
  }
}
