/**
 One account's encrypted vault on one node, with the versions set aside by concurrent writes
 (applyVaultRow and the conflict handling of applyAccountBundle in server/src/cluster.ts,
 PUT /api/v1/vault in server/src/app.ts).
 */
module VaultReplica {
  import opened Collections
  import opened VersionVectors

  /** Ciphertext produced by a client; a node never looks inside. */
  type Blob = string

  datatype VaultRow = VaultRow(revision: nat, blob: Blob, vv: VersionVector)

  /** The vaults row of an account and its vault_conflicts rows, keyed by fingerprint. */
  datatype Replica = Replica(vault: Option<VaultRow>, conflicts: map<Hash, Blob>)

  /** The vault part of an account bundle: row and conflict set read in one go. */
  datatype Bundle = Bundle(row: VaultRow, conflicts: map<Hash, Blob>)

  /** What applyVaultRow decided. */
  datatype Decision = Decision(taken: bool, changed: bool, order: Order)

  const MAX_MERGED := 100

  ghost predicate Injective(sha: Blob -> Hash) {
    forall x, y :: sha(x) == sha(y) ==> x == y
  }

  /** INSERT OR IGNORE on the conflict table. */
  function InsertOrIgnore(conflicts: map<Hash, Blob>, hash: Hash, blob: Blob): map<Hash, Blob> {
    if hash in conflicts then conflicts else conflicts[hash := blob]
  }

  ghost function RowWinner(sha: Blob -> Hash, incoming: VaultRow, local: VaultRow): Side {
    Winner(incoming.vv, sha(incoming.blob), local.vv, sha(local.blob))
  }

  /** The row two concurrent rows merge into; its revision exceeds both. */
  ghost function MergedRow(sha: Blob -> Hash, incoming: VaultRow, local: VaultRow): VaultRow {
    VaultRow(Max(incoming.revision, local.revision) + 1,
             if RowWinner(sha, incoming, local) == A then incoming.blob else local.blob,
             Merge(incoming.vv, local.vv))
  }

  ghost function Loser(sha: Blob -> Hash, incoming: VaultRow, local: VaultRow): Blob {
    if RowWinner(sha, incoming, local) == A then local.blob else incoming.blob
  }

  /** Effect of a bundle on the replica that receives it. */
  ghost function Apply(sha: Blob -> Hash, local: Replica, incoming: Bundle): Replica {
    if local.vault.None? then Replica(Some(incoming.row), incoming.conflicts)
    else
      var mine := local.vault.value;
      match Compare(incoming.row.vv, mine.vv)
      case Equal => local
      case Older => local
      case Newer => Replica(Some(incoming.row), incoming.conflicts)
      case Concurrent =>
        var loser := Loser(sha, incoming.row, mine);
        Replica(Some(MergedRow(sha, incoming.row, mine)),
                incoming.conflicts + InsertOrIgnore(local.conflicts, sha(loser), loser))
  }

  /** applyVaultRow alone: the row and, for concurrent rows, the loser set aside. */
  ghost function ResolveRow(sha: Blob -> Hash, local: Replica, incoming: VaultRow): Replica {
    if local.vault.None? then local.(vault := Some(incoming))
    else
      var mine := local.vault.value;
      match Compare(incoming.vv, mine.vv)
      case Equal => local
      case Older => local
      case Newer => local.(vault := Some(incoming))
      case Concurrent =>
        var loser := Loser(sha, incoming, mine);
        Replica(Some(MergedRow(sha, incoming, mine)), InsertOrIgnore(local.conflicts, sha(loser), loser))
  }

  ghost function Decide(sha: Blob -> Hash, local: Replica, incoming: VaultRow): Decision {
    if local.vault.None? then Decision(true, true, Newer)
    else
      var mine := local.vault.value;
      match Compare(incoming.vv, mine.vv)
      case Equal => Decision(false, false, Equal)
      case Older => Decision(false, false, Older)
      case Newer => Decision(true, true, Newer)
      case Concurrent => Decision(RowWinner(sha, incoming, mine) == A, true, Concurrent)
  }

  function Acknowledged(merged: seq<Hash>): set<Hash> {
    set h | h in merged[..Min(|merged|, MAX_MERGED)]
  }

  /** PUT of a vault: refused (None, HTTP 409) unless the base revision is the current one. */
  function Put(r: Replica, node: NodeId, baseRevision: nat, blob: Blob, merged: seq<Hash>): Option<Replica> {
    if r.vault.None? || r.vault.value.revision != baseRevision then None
    else Some(Replica(Some(VaultRow(baseRevision + 1, blob, Bump(r.vault.value.vv, node))),
                      r.conflicts - Acknowledged(merged)))
  }

  function Vv(r: Replica): VersionVector {
    if r.vault.Some? then r.vault.value.vv else map[]
  }

  function Fetch(r: Replica): Bundle
    requires r.vault.Some?
  {
    Bundle(r.vault.value, r.conflicts)
  }

  /** Every set-aside blob is stored under its own fingerprint. */
  ghost predicate Keyed(sha: Blob -> Hash, conflicts: map<Hash, Blob>) {
    forall h :: h in conflicts ==> sha(conflicts[h]) == h
  }

  /** A blob was put among the set-aside ones: under its fingerprint, unless something is there already. */
  ghost predicate SetAside(before: map<Hash, Blob>, hash: Hash, blob: Blob, after: map<Hash, Blob>) {
    && after.Keys == before.Keys + {hash}
    && (forall h :: h in before ==> after[h] == before[h])
    && (hash !in before ==> after[hash] == blob)
  }

  /** All set-aside blobs of both sides and the one that lost, those of this side first. */
  ghost predicate United(sha: Blob -> Hash, lost: Blob, mine: map<Hash, Blob>, theirs: map<Hash, Blob>,
                         after: map<Hash, Blob>)
  {
    && after.Keys == mine.Keys + theirs.Keys + {sha(lost)}
    && (forall h :: h in mine ==> after[h] == mine[h])
    && (sha(lost) !in mine ==> after[sha(lost)] == lost)
    && (forall h :: h in theirs && h !in mine && h != sha(lost) ==> after[h] == theirs[h])
  }

  /** The larger total wins, then the larger fingerprint, then the version that arrives. */
  ghost predicate Prefers(sha: Blob -> Hash, incoming: VaultRow, local: VaultRow) {
    || Sum(incoming.vv) > Sum(local.vv)
    || (Sum(incoming.vv) == Sum(local.vv) && sha(incoming.blob) >= sha(local.blob))
  }

  /** One of two concurrent rows lives on with the counters of both, under a revision above both. */
  ghost predicate LivesOn(kept: VaultRow, incoming: VaultRow, local: VaultRow, row: VaultRow) {
    && row.blob == kept.blob
    && row.revision == Max(incoming.revision, local.revision) + 1
    && forall k :: At(row.vv, k) == Max(At(incoming.vv, k), At(local.vv, k))
  }

  /** The tables of one node for one account, updated in place as the server does. */
  class VaultStore {
    const node: NodeId
    const sha: Blob -> Hash
    var vault: Option<VaultRow>
    var conflicts: map<Hash, Blob>

    function State(): Replica
      reads this
    {
      Replica(vault, conflicts)
    }

    constructor (node: NodeId, sha: Blob -> Hash)
      ensures State() == Replica(None, map[]) && this.node == node && this.sha == sha
    {
      this.node, this.sha, vault, conflicts := node, sha, None, map[];
    }

    method ApplyVaultRow(incoming: VaultRow) returns (decision: Decision)
      modifies this
      ensures State() == ResolveRow(sha, old(State()), incoming)
      ensures decision == Decide(sha, old(State()), incoming)
      ensures old(vault).None? ==> decision.order == Newer
      ensures old(vault).Some? ==> decision.order == Compare(incoming.vv, old(vault).value.vv)
      ensures decision.order == Newer ==>
        decision.taken && decision.changed && vault == Some(incoming) && conflicts == old(conflicts)
      ensures decision.order in {Equal, Older} ==>
        !decision.taken && !decision.changed && vault == old(vault) && conflicts == old(conflicts)
      ensures decision.order == Concurrent ==>
        var mine := old(vault).value;
        var kept, lost := if decision.taken then incoming else mine, if decision.taken then mine else incoming;
        && decision.changed && (decision.taken <==> Prefers(sha, incoming, mine))
        && vault.Some? && LivesOn(kept, incoming, mine, vault.value)
        && SetAside(old(conflicts), sha(lost.blob), lost.blob, conflicts)
    {
      if vault.None? {
        vault := Some(incoming);
        return Decision(true, true, Newer);
      }
      var local := vault.value;
      var order := CompareVv(incoming.vv, local.vv);
      if order == Equal || order == Older {
        return Decision(false, false, order);
      }
      if order == Newer {
        vault := Some(incoming);
        return Decision(true, true, order);
      }
      var taken := SettleRows(incoming, local);
      return Decision(taken, true, order);
    }

    /** Two concurrent rows: one is kept under the joined vector, the other set aside. */
    method SettleRows(incoming: VaultRow, local: VaultRow) returns (taken: bool)
      modifies this
      ensures taken <==> RowWinner(sha, incoming, local) == A
      ensures taken <==> Prefers(sha, incoming, local)
      ensures vault == Some(MergedRow(sha, incoming, local))
      ensures LivesOn(if taken then incoming else local, incoming, local, vault.value)
      ensures var loser := Loser(sha, incoming, local); conflicts == InsertOrIgnore(old(conflicts), sha(loser), loser)
      ensures var lost := if taken then local else incoming;
              SetAside(old(conflicts), sha(lost.blob), lost.blob, conflicts)
    {
      var side := PickWinner(incoming.vv, sha(incoming.blob), local.vv, sha(local.blob));
      var winner, loser := if side == A then incoming else local, if side == A then local else incoming;
      var merged := MergeVv(incoming.vv, local.vv);
      MergeAt(incoming.vv, local.vv);
      conflicts := InsertOrIgnore(conflicts, sha(loser.blob), loser.blob);
      vault := Some(winner.(vv := merged, revision := Max(incoming.revision, local.revision) + 1));
      taken := side == A;
    }

    method ApplyBundle(incoming: Bundle) returns (changed: bool)
      modifies this
      ensures State() == Apply(sha, old(State()), incoming)
      ensures changed <==> (old(vault).None? || Compare(incoming.row.vv, old(vault).value.vv) in {Newer, Concurrent})
      ensures !changed ==> vault == old(vault) && conflicts == old(conflicts)
      ensures old(vault).None? || Compare(incoming.row.vv, old(vault).value.vv) == Newer ==>
        vault == Some(incoming.row) && conflicts == incoming.conflicts
      ensures old(vault).Some? && Compare(incoming.row.vv, old(vault).value.vv) == Concurrent ==>
        var mine, taken := old(vault).value, Prefers(sha, incoming.row, old(vault).value);
        && vault.Some? && LivesOn(if taken then incoming.row else mine, incoming.row, mine, vault.value)
        && United(sha, if taken then mine.blob else incoming.row.blob, old(conflicts), incoming.conflicts, conflicts)
    {
      var decision := ApplyVaultRow(incoming.row);
      changed := decision.changed;
      if decision.order == Newer {
        ReplaceConflicts(incoming.conflicts);
      } else if decision.order == Concurrent {
        UniteConflicts(incoming.conflicts);
      }
    }

    method ReplaceConflicts(incoming: map<Hash, Blob>)
      modifies this`conflicts
      ensures conflicts == incoming
    {
      conflicts := map[];
      var keys := incoming.Keys;
      while keys != {}
        invariant keys <= incoming.Keys
        invariant conflicts == incoming - keys
        decreases keys
      {
        var h :| h in keys;
        conflicts := conflicts[h := incoming[h]];
        keys := keys - {h};
      }
    }

    method UniteConflicts(incoming: map<Hash, Blob>)
      modifies this`conflicts
      ensures conflicts == incoming + old(conflicts)
    {
      ghost var kept := conflicts;
      var keys := incoming.Keys;
      while keys != {}
        invariant keys <= incoming.Keys
        invariant conflicts == (incoming - keys) + kept
        decreases keys
      {
        var h :| h in keys;
        conflicts := InsertOrIgnore(conflicts, h, incoming[h]);
        keys := keys - {h};
      }
    }

    method PutVault(baseRevision: nat, blob: Blob, merged: seq<Hash>) returns (accepted: bool)
      modifies this
      ensures var next := Put(old(State()), node, baseRevision, blob, merged);
              accepted == next.Some? && State() == if accepted then next.value else old(State())
      ensures accepted <==> old(vault).Some? && old(vault).value.revision == baseRevision
      ensures !accepted ==> vault == old(vault) && conflicts == old(conflicts)
      ensures accepted ==>
        && vault.Some? && vault.value.blob == blob && vault.value.revision == baseRevision + 1
        && forall k :: At(vault.value.vv, k) == At(old(vault).value.vv, k) + if k == node then 1 else 0
      ensures accepted ==> forall h ::
        h in conflicts <==> h in old(conflicts) && forall i :: 0 <= i < |merged| && i < 100 ==> merged[i] != h
      ensures forall h :: h in conflicts ==> conflicts[h] == old(conflicts)[h]
    {
      if vault.None? || vault.value.revision != baseRevision {
        return false;
      }
      // The row's trigger advances this node's counter
      BumpIsNewer(vault.value.vv, node);
      vault := Some(VaultRow(baseRevision + 1, blob, Bump(vault.value.vv, node)));
      ghost var row, before := vault, conflicts;
      var list := merged[..Min(|merged|, MAX_MERGED)];
      for i := 0 to |list|
        invariant vault == row
        invariant conflicts == before - (set h | h in list[..i])
      {
        assert list[..i + 1] == list[..i] + [list[i]];
        conflicts := conflicts - {list[i]};
      }
      assert list[..|list|] == list;
      return true;
    }
  }

  /* ── Laws of the merge ─────────────────────────────────────────────── */

  /** Whatever the order, applying a bundle joins its vector into the local one. */
  lemma ApplyJoinsVectors(sha: Blob -> Hash, local: Replica, incoming: Bundle)
    ensures Apply(sha, local, incoming).vault.Some?
    ensures Same(Vv(Apply(sha, local, incoming)), Merge(incoming.row.vv, Vv(local)))
    ensures Below(Vv(local), Vv(Apply(sha, local, incoming)))
    ensures Below(incoming.row.vv, Vv(Apply(sha, local, incoming)))
  {
    var a, b := incoming.row.vv, Vv(local);
    MergeAt(a, b);
    BelowMeaning(a, b);
    BelowMeaning(b, a);
    MergeUpper(a, b);
  }

  /** Re-applying a bundle changes nothing. */
  lemma ApplyIdempotent(sha: Blob -> Hash, local: Replica, incoming: Bundle)
    ensures Apply(sha, Apply(sha, local, incoming), incoming) == Apply(sha, local, incoming)
  {
    ApplyJoinsVectors(sha, local, incoming);
  }

  lemma MergedRowSymmetric(sha: Blob -> Hash, l: VaultRow, r: VaultRow)
    requires Injective(sha)
    ensures MergedRow(sha, l, r) == MergedRow(sha, r, l)
    ensures Loser(sha, l, r) == Loser(sha, r, l)
  {
    MergeCommutes(l.vv, r.vv);
    if sha(l.blob) == sha(r.blob) {
      assert l.blob == r.blob;
    }
  }

  lemma CompareConverse(a: VersionVector, b: VersionVector)
    ensures Compare(a, b) == Concurrent <==> Compare(b, a) == Concurrent
  {}

  /** Two nodes that exchange their concurrent versions end up with the same row and the same conflict set. */
  lemma CrossApplyAgrees(sha: Blob -> Hash, left: Replica, right: Replica)
    requires Injective(sha)
    requires left.vault.Some? && right.vault.Some?
    requires Compare(left.vault.value.vv, right.vault.value.vv) == Concurrent
    ensures Apply(sha, left, Fetch(right)).vault == Apply(sha, right, Fetch(left)).vault
    ensures Apply(sha, left, Fetch(right)).conflicts.Keys == Apply(sha, right, Fetch(left)).conflicts.Keys
    ensures Keyed(sha, left.conflicts) && Keyed(sha, right.conflicts) ==>
              Apply(sha, left, Fetch(right)) == Apply(sha, right, Fetch(left))
  {
    var l, r := left.vault.value, right.vault.value;
    CompareConverse(l.vv, r.vv);
    MergedRowSymmetric(sha, l, r);
    ConflictUnion(sha, left.conflicts, right.conflicts, Loser(sha, l, r));
  }

  lemma ConflictUnion(sha: Blob -> Hash, left: map<Hash, Blob>, right: map<Hash, Blob>, loser: Blob)
    ensures var x := right + InsertOrIgnore(left, sha(loser), loser);
            var y := left + InsertOrIgnore(right, sha(loser), loser);
            x.Keys == y.Keys && (Injective(sha) && Keyed(sha, left) && Keyed(sha, right) ==> x == y)
  {
    var l, r := InsertOrIgnore(left, sha(loser), loser), InsertOrIgnore(right, sha(loser), loser);
    assert (right + l).Keys == left.Keys + right.Keys + {sha(loser)} == (left + r).Keys;
    if Injective(sha) && Keyed(sha, left) && Keyed(sha, right) {
      KeyedTogether(sha, right, l);
      KeyedTogether(sha, left, r);
      KeysDetermine(sha, right + l, left + r);
    }
  }

  lemma KeyedTogether(sha: Blob -> Hash, left: map<Hash, Blob>, right: map<Hash, Blob>)
    requires Keyed(sha, left) && Keyed(sha, right)
    ensures Keyed(sha, left + right)
  {}

  lemma KeysDetermine(sha: Blob -> Hash, x: map<Hash, Blob>, y: map<Hash, Blob>)
    requires Injective(sha) && Keyed(sha, x) && Keyed(sha, y) && x.Keys == y.Keys
    ensures x == y
  {
    forall h | h in x ensures x[h] == y[h] {
      assert h in y && sha(x[h]) == h && sha(y[h]) == h;
    }
  }

  ghost function ApplyAll(sha: Blob -> Hash, local: Replica, bundles: seq<Bundle>): Replica
    decreases |bundles|
  {
    if bundles == [] then local else ApplyAll(sha, Apply(sha, local, bundles[0]), bundles[1..])
  }

  /** The vector after any sequence of bundles is the least one above the start and every bundle. */
  lemma {:induction false} ApplyAllIsJoin(sha: Blob -> Hash, local: Replica, bundles: seq<Bundle>, bound: VersionVector)
    ensures Below(Vv(ApplyAll(sha, local, bundles)), bound) <==>
            Below(Vv(local), bound) && forall b :: b in bundles ==> Below(b.row.vv, bound)
    decreases |bundles|
  {
    if bundles != [] {
      var b, next := bundles[0], Apply(sha, local, bundles[0]);
      ApplyAllIsJoin(sha, next, bundles[1..], bound);
      ApplyJoinsVectors(sha, local, b);
      MergeLeast(b.row.vv, Vv(local), bound);
      SameBound(Vv(next), Merge(b.row.vv, Vv(local)), bound);
      assert forall x :: x in bundles <==> x == b || x in bundles[1..];
    }
  }

  lemma SameBound(a: VersionVector, b: VersionVector, bound: VersionVector)
    requires Same(a, b)
    ensures Below(a, bound) <==> Below(b, bound)
  {
    BelowMeaning(a, bound);
    BelowMeaning(b, bound);
  }

  /** Delivery order, duplication and repetition do not matter to the vector. */
  lemma DeliveryOrderIrrelevant(sha: Blob -> Hash, local: Replica, some: seq<Bundle>, other: seq<Bundle>)
    requires forall b :: b in some <==> b in other
    ensures Compare(Vv(ApplyAll(sha, local, some)), Vv(ApplyAll(sha, local, other))) == Equal
  {
    var x, y := Vv(ApplyAll(sha, local, some)), Vv(ApplyAll(sha, local, other));
    ApplyAllIsJoin(sha, local, some, x);
    ApplyAllIsJoin(sha, local, other, x);
    ApplyAllIsJoin(sha, local, some, y);
    ApplyAllIsJoin(sha, local, other, y);
  }
}
