/**
 Restoring a vault on a node of the cluster (server/src/backup.ts): the restored row must win
 over the versions the other nodes still hold.
 */
module Restore {
  import opened Collections
  import opened VersionVectors
  import opened VaultReplica

  /** Vector given to a restored row: above the one before the restore and the one it just received. */
  function Dominate(before: VersionVector, current: VersionVector, node: NodeId): VersionVector {
    Bump(Merge(before, current), node)
  }

  /** The same, by the loop of the source. */
  method DominateRow(before: VersionVector, current: VersionVector, node: NodeId) returns (merged: VersionVector)
    ensures merged == Dominate(before, current, node)
  {
    merged := before;
    var keys := current.Keys;
    while keys != {}
      invariant keys <= current.Keys
      invariant merged.Keys == before.Keys + (current.Keys - keys)
      invariant forall k :: k in merged ==>
        merged[k] == if k in keys then At(before, k) else Max(At(before, k), At(current, k))
      decreases keys
    {
      var k :| k in keys;
      merged := merged[k := Max(At(merged, k), current[k])];
      keys := keys - {k};
    }
    assert merged == Merge(before, current);
    merged := merged[node := At(merged, node) + 1];
  }

  lemma DominateIsAbove(before: VersionVector, current: VersionVector, node: NodeId)
    ensures Compare(Dominate(before, current, node), before) == Newer
    ensures Compare(Dominate(before, current, node), current) == Newer
    ensures Below(before, Dominate(before, current, node)) && Below(current, Dominate(before, current, node))
    ensures forall k ::
      At(Dominate(before, current, node), k) == Max(At(before, k), At(current, k)) + if k == node then 1 else 0
  {
    var d := Dominate(before, current, node);
    MergeAt(before, current);
    BumpIsNewer(Merge(before, current), node);
    BelowMeaning(before, d);
    BelowMeaning(current, d);
    assert At(d, node) > At(before, node) && At(d, node) > At(current, node);
    BelowMeaning(d, before);
    BelowMeaning(d, current);
  }

  function ReadVv(read: Option<VaultRow>): VersionVector {
    if read.Some? then read.value.vv else map[]
  }

  function ReadRevision(read: Option<VaultRow>): nat {
    if read.Some? then read.value.revision else 0
  }

  /**
   Restoring one account: the snapshot's blob under the revision after the one read before the files
   were fetched, over the row there is now. The row's trigger counts a write first.
   */
  function AccountRestored(r: Replica, node: NodeId, read: Option<VaultRow>, snapshot: Bundle): Replica {
    if r.vault.None? then r
    else
      var vv := Dominate(ReadVv(read), Bump(r.vault.value.vv, node), node);
      r.(vault := Some(VaultRow(ReadRevision(read) + 1, snapshot.row.blob, vv)))
  }

  /** Restoring a server: the snapshot's row replaces the live one, set-aside versions stay. */
  function ServerRestored(r: Replica, node: NodeId, snapshot: Bundle): Replica {
    r.(vault := Some(snapshot.row.(vv := Dominate(Vv(r), snapshot.row.vv, node))))
  }

  /** End of restoreAccount: `read` was read before the files were fetched, and the row may have changed since. */
  method RestoreVault(store: VaultStore, read: Option<VaultRow>, snapshot: Bundle)
    modifies store
    ensures store.State() == AccountRestored(old(store.State()), store.node, read, snapshot)
    ensures store.conflicts == old(store.conflicts) && (store.vault.Some? <==> old(store.vault).Some?)
    ensures store.vault.Some? ==>
      && store.vault.value.blob == snapshot.row.blob
      && store.vault.value.revision == if read.Some? then read.value.revision + 1 else 1
    ensures store.vault.Some? ==> forall k ::
      var own := if k == store.node then 1 else 0;
      At(store.vault.value.vv, k) == Max(At(ReadVv(read), k), At(old(store.vault).value.vv, k) + own) + own
  {
    var revision := (if read.Some? then read.value.revision else 0) + 1;
    var before := if read.Some? then read.value.vv else map[];
    if store.vault.Some? {
      // The update's trigger counts a local write
      var current := Bump(store.vault.value.vv, store.node);
      store.vault := Some(VaultRow(revision, snapshot.row.blob, current));
      var lifted := DominateRow(before, current, store.node);
      BumpIsNewer(old(store.vault).value.vv, store.node);
      DominateIsAbove(before, current, store.node);
      store.vault := Some(store.vault.value.(vv := lifted));
    }
  }

  /** restoreServer, for one account: replace the row, then lift its vector above the one noted before. */
  method ReplaceVault(store: VaultStore, snapshot: Bundle)
    modifies store
    ensures store.State() == ServerRestored(old(store.State()), store.node, snapshot)
    ensures store.conflicts == old(store.conflicts) && store.vault.Some?
    ensures store.vault.value.blob == snapshot.row.blob && store.vault.value.revision == snapshot.row.revision
    ensures forall k ::
      At(store.vault.value.vv, k)
      == Max(At(Vv(old(store.State())), k), At(snapshot.row.vv, k)) + if k == store.node then 1 else 0
  {
    var before := if store.vault.Some? then store.vault.value.vv else map[];
    store.vault := Some(snapshot.row);
    var lifted := DominateRow(before, snapshot.row.vv, store.node);
    DominateIsAbove(before, snapshot.row.vv, store.node);
    store.vault := Some(snapshot.row.(vv := lifted));
  }

  /** What a restore promises about the replica it produces, against any version a peer may hold or send. */
  ghost predicate Prevails(sha: Blob -> Hash, before: Replica, restored: Replica, snapshot: Bundle, peer: Replica) {
    && restored.vault.Some?
    && restored.vault.value.blob == snapshot.row.blob
    && (peer.vault.Some? ==>
          var mine, theirs := restored.vault.value, peer.vault.value;
          && Compare(mine.vv, theirs.vv) in {Newer, Concurrent}
          && (Below(theirs.vv, Vv(before)) ==> Apply(sha, peer, Fetch(restored)) == restored)
          && (Compare(mine.vv, theirs.vv) == Concurrent ==>
                var met := Fetch(Apply(sha, peer, Fetch(restored)));
                && met.row.blob in {mine.blob, theirs.blob}
                && {mine.blob, theirs.blob} <= {met.row.blob} + met.conflicts.Values))
    && (peer.vault.None? ==> Apply(sha, peer, Fetch(restored)) == restored)
  }

  /** A row whose own-node counter is above everyone else's is never judged older or equal. */
  lemma LeadingRowPrevails(sha: Blob -> Hash, before: Replica, restored: Replica, snapshot: Bundle, peer: Replica,
                           node: NodeId)
    requires Injective(sha)
    requires restored.vault.Some? && restored.vault.value.blob == snapshot.row.blob
    requires Below(Vv(before), restored.vault.value.vv)
    requires At(Vv(peer), node) < At(restored.vault.value.vv, node)
    requires peer.vault.Some? ==> Keyed(sha, peer.conflicts)
    ensures Prevails(sha, before, restored, snapshot, peer)
  {
    if peer.vault.Some? {
      var mine, theirs := restored.vault.value, peer.vault.value;
      BelowMeaning(mine.vv, theirs.vv);
      if Below(theirs.vv, Vv(before)) {
        BelowTransitive(theirs.vv, Vv(before), mine.vv);
      }
      if Compare(mine.vv, theirs.vv) == Concurrent {
        var met := Fetch(Apply(sha, peer, Fetch(restored)));
        var loser := Loser(sha, mine, theirs);
        assert sha(loser) in met.conflicts && met.conflicts[sha(loser)] == loser;
      }
    }
  }

  /** A restore over a row at or above the one read: where its vector stands. */
  lemma RestoredStands(now: Replica, node: NodeId, read: Option<VaultRow>, snapshot: Bundle)
    requires now.vault.Some? && Below(ReadVv(read), Vv(now))
    ensures var after := AccountRestored(now, node, read, snapshot);
            && Compare(Vv(after), Vv(now)) == Newer && Below(Vv(now), Vv(after))
            && Compare(Vv(after), ReadVv(read)) == Newer
            && forall k :: At(Vv(after), k) == At(Vv(now), k) + if k == node then 2 else 0
  {
    var bumped, after := Bump(Vv(now), node), Vv(AccountRestored(now, node, read, snapshot));
    BumpIsNewer(Vv(now), node);
    DominateIsAbove(ReadVv(read), bumped, node);
    BelowMeaning(ReadVv(read), Vv(now));
    assert forall k :: At(bumped, k) == At(Vv(now), k) + if k == node then 1 else 0;
    assert forall k :: At(after, k) == At(Vv(now), k) + if k == node then 2 else 0;
    BelowMeaning(Vv(now), after);
    BelowMeaning(after, Vv(now));
    assert At(after, node) > At(Vv(now), node);
  }

  /** Against the snapshot itself: its writes by other nodes must have been seen here already. */
  lemma RestoredAgainstSnapshot(now: Replica, node: NodeId, read: Option<VaultRow>, snapshot: Bundle)
    requires now.vault.Some? && Below(ReadVv(read), Vv(now)) && At(snapshot.row.vv, node) <= At(Vv(now), node)
    ensures Compare(Vv(AccountRestored(now, node, read, snapshot)), snapshot.row.vv) == Newer
            <==> forall k :: k != node ==> At(snapshot.row.vv, k) <= At(Vv(now), k)
  {
    var after, snap := Vv(AccountRestored(now, node, read, snapshot)), snapshot.row.vv;
    RestoredStands(now, node, read, snapshot);
    assert At(snap, node) < At(after, node);
    assert forall k :: k != node ==> At(after, k) == At(Vv(now), k);
    CompareMeaning(after, snap);
  }
}
