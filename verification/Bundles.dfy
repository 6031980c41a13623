/**
 What a bundle or a deletion pulled from a peer leaves in each table, row by row, and what crossing and
 copying bundles come to (accountBundle, applyAccountBundle, applySharedBundle and applyTombstone of
 server/src/cluster.ts).
 */
module Bundles {
  import opened Collections
  import opened VersionVectors
  import opened VaultReplica
  import opened ClusterDb

  /* ── Users rows ────────────────────────────────────────────────────── */

  ghost predicate InjectiveUsers(h: Hashes) {
    forall x, y :: h.user(x) == h.user(y) ==> x == y
  }

  /** Two nodes that pull each other's concurrent users row end with the same one. */
  lemma CrossedUsersAgree(h: Hashes, left: UserRow, right: UserRow)
    requires InjectiveUsers(h) && Compare(left.vv, right.vv) == Concurrent
    ensures ResolveUser(h, right, left) == ResolveUser(h, left, right)
    ensures exists kept ::
      kept in {left, right} && ResolveUser(h, right, left) == kept.(vv := Merge(left.vv, right.vv))
  {
    CompareConverse(left.vv, right.vv);
    MergeCommutes(left.vv, right.vv);
  }

  /* ── Rows of an account bundle ─────────────────────────────────────── */

  /** Attachments after a bundle: those there stay, those unseen come with the rows given for them. */
  ghost predicate Joined(before: Tables, rows: map<Id, Attachment>, after: map<Id, Attachment>) {
    && (forall x :: x in after <==> x in before.attachments || (x in rows && Tomb(AttachmentKind, x) !in before.tombs))
    && (forall x :: x in before.attachments ==> after[x] == before.attachments[x])
    && (forall x :: x in after && x !in before.attachments ==> after[x] == rows[x])
  }

  /** Only entries about one subject were added to the log. */
  predicate Noted(before: seq<Subject>, subject: Subject, after: seq<Subject>) {
    before <= after && forall i :: |before| <= i < |after| ==> after[i] == subject
  }

  lemma {:induction false} LoggedNotes(log: seq<Subject>, s: Subject, n: nat)
    ensures |Logged(log, s, n)| == |log| + n && Noted(log, s, Logged(log, s, n))
  {
    if n > 0 { LoggedNotes(log, s, n - 1); }
  }

  lemma AddedJoins(db: Tables, rows: map<Id, Attachment>)
    ensures Joined(db, rows, Added(db.attachments, rows, Fresh(db, rows.Keys)))
  {}

  /** When an account bundle is refused, and why: then nothing changes. */
  lemma AccountBundleRefused(h: Hashes, db: Tables, b: AccountBundle)
    ensures var outcome := AccountOutcome(db, b);
            var alias := b.id !in db.accounts
              && exists x :: x in db.accounts && db.accounts[x].user.email == b.user.email;
            && (outcome == Refused <==> Tomb(AccountKind, b.id) in db.tombs)
            && (outcome == SameEmail <==> Tomb(AccountKind, b.id) !in db.tombs && alias)
            && (outcome.Applied? <==> Tomb(AccountKind, b.id) !in db.tombs && !alias)
            && (!outcome.Applied? ==> ApplyAccountBundle(h, db, b) == db)
  {}

  /** What an account bundle that is not refused leaves in each table. */
  lemma AccountBundleBrings(h: Hashes, db: Tables, b: AccountBundle)
    requires AccountOutcome(db, b).Applied?
    ensures var after := ApplyAccountBundle(h, db, b);
            && after.shared == db.shared && after.tombs == db.tombs
            && after.accounts.Keys == db.accounts.Keys + {b.id}
            && (forall x :: x in db.accounts && x != b.id ==> after.accounts[x] == db.accounts[x])
            && Joined(db, map x | x in b.attachments :: Attachment(b.id, None), after.attachments)
            && Noted(db.log, AccountChanged(b.id), after.log)
            && (AccountOutcome(db, b).changed <==> |after.log| > |db.log|)
  {
    var after := ApplyAccountBundle(h, db, b);
    assert OwnRows(b) == map x | x in b.attachments :: Attachment(b.id, None);
    AddedJoins(db, OwnRows(b));
    LoggedNotes(db.log, AccountChanged(b.id), AccountWrites(db, b));
  }

  /** And in the account's own row: an unknown account starts with no vault and no subscription. */
  lemma AccountBundleSettles(h: Hashes, db: Tables, b: AccountBundle)
    requires AccountOutcome(db, b).Applied?
    ensures var after := ApplyAccountBundle(h, db, b).accounts[b.id];
            var vault := if b.id in db.accounts then db.accounts[b.id].vault else Replica(None, map[]);
            var mine := if b.id in db.accounts then db.accounts[b.id].subscription else None;
            var later := b.subscription.Some? && (mine.Some? ==> b.subscription.value.updatedAt > mine.value.updatedAt);
            && after.user == (if b.id in db.accounts then ResolveUser(h, b.user, db.accounts[b.id].user) else b.user)
            && after.vault == (if b.vault.None? then vault
                               else Apply(h.blob, vault, Bundle(b.vault.value, b.conflicts)))
            && after.subscription == (if later then b.subscription else mine)
  {}

  /** A node that knows nothing of an account copies it from one bundle, attachments included. */
  lemma FetchedAccountIsCopied(h: Hashes, source: Tables, empty: Tables, id: Id)
    requires id in source.accounts && empty == Tables(map[], map[], map[], {}, [])
    ensures var after := ApplyAccountBundle(h, empty, FetchAccount(source, id));
            var account := source.accounts[id];
            && after.accounts.Keys == {id}
            && after.accounts[id] == (if account.vault.vault.Some? then account else account.(vault := NoVault))
            && (forall x ::
                  x in after.attachments <==> x in source.attachments && source.attachments[x] == Attachment(id, None))
            && (forall x :: x in after.attachments ==> after.attachments[x] == source.attachments[x])
  {
    var b := FetchAccount(source, id);
    AccountBundleBrings(h, empty, b);
    AccountBundleSettles(h, empty, b);
  }

  /* ── Shared bundles ────────────────────────────────────────────────── */

  lemma SharedBundleRefused(h: Hashes, db: Tables, b: SharedBundle)
    ensures var outcome := SharedOutcome(h, db, b);
            var absent := set x | x in {b.owner} + b.members && x !in db.accounts && Tomb(AccountKind, x) !in db.tombs;
            var dangling := exists x ::
              x in b.attachments && x !in db.attachments && Tomb(AttachmentKind, x) !in db.tombs
              && b.attachments[x] !in db.accounts;
            var gone := Tomb(SharedKind, b.id) in db.tombs;
            && (outcome == Refused <==> gone || (absent == {} && Tomb(AccountKind, b.owner) in db.tombs))
            && (outcome.NeedsAccounts? <==> !gone && absent != {})
            && (outcome.NeedsAccounts? ==> outcome.absent == absent)
            && (outcome == RolledBack <==>
                  !gone && absent == {} && Tomb(AccountKind, b.owner) !in db.tombs && dangling)
            && (!outcome.Applied? ==> ApplySharedBundle(h, db, b) == db)
  {
    assert Absent(db, b) ==
           set x | x in {b.owner} + b.members && x !in db.accounts && Tomb(AccountKind, x) !in db.tombs;
  }

  lemma SharedBundleBrings(h: Hashes, db: Tables, b: SharedBundle)
    requires SharedOutcome(h, db, b).Applied?
    ensures var after := ApplySharedBundle(h, db, b);
            && after.accounts == db.accounts && after.tombs == db.tombs
            && after.shared.Keys == db.shared.Keys + {b.id}
            && (forall x :: x in db.shared && x != b.id ==> after.shared[x] == db.shared[x])
            && Joined(db, map x | x in b.attachments :: Attachment(b.attachments[x], Some(b.id)), after.attachments)
            && Noted(db.log, SharedChanged(b.id), after.log)
            && (SharedOutcome(h, db, b).changed <==> |after.log| > |db.log|)
  {
    var after := ApplySharedBundle(h, db, b);
    assert SharedRows(b) == map x | x in b.attachments :: Attachment(b.attachments[x], Some(b.id));
    AddedJoins(db, SharedRows(b));
    var changed := Decide(h.blob, SharedReplica(db, b.id), b.row).changed;
    LoggedNotes(db.log, SharedChanged(b.id), Count(changed) + |Fresh(db, b.attachments.Keys)|);
  }

  /** The owner comes with the row that is kept; the row is settled as a personal vault's is. */
  lemma SharedBundleSettles(h: Hashes, db: Tables, b: SharedBundle)
    requires SharedOutcome(h, db, b).Applied?
    ensures var after := ApplySharedBundle(h, db, b).shared[b.id];
            b.id !in db.shared ==> after == SharedVault(b.owner, Replica(Some(b.row), map[]))
    ensures var after := ApplySharedBundle(h, db, b).shared[b.id];
            b.id in db.shared ==>
              var local := db.shared[b.id];
              && after.vault == ResolveRow(h.blob, local.vault, b.row)
              && after.owner == if Decide(h.blob, local.vault, b.row).taken then b.owner else local.owner
  {}

  /* ── Deletions ─────────────────────────────────────────────────────── */

  /** Rows that go with `t`: itself, the shared vaults of an account, and the attachments of either. */
  predicate SharedFalls(db: Tables, t: Tomb, s: Id) {
    s in db.shared
    && (t == Tomb(SharedKind, s) || (t.kind == AccountKind && t.id in db.accounts && db.shared[s].owner == t.id))
  }

  predicate AttachmentFalls(db: Tables, t: Tomb, a: Id) {
    a in db.attachments
    && (|| t == Tomb(AttachmentKind, a)
        || (t.kind == AccountKind && t.id in db.accounts && db.attachments[a].owner == t.id)
        || (db.attachments[a].vault.Some? && SharedFalls(db, t, db.attachments[a].vault.value)))
  }

  lemma CascadeIds(db: Tables, t: Tomb)
    ensures forall kind: Kind, x: Id :: x in Ids(Cascade(db, t), kind) <==> Tomb(kind, x) in Cascade(db, t)
  {}

  lemma CascadeShared(db: Tables, t: Tomb)
    ensures forall s :: Tomb(SharedKind, s) in Cascade(db, t) <==> SharedFalls(db, t, s)
  {}

  lemma CascadeAttachments(db: Tables, t: Tomb)
    ensures forall a :: Tomb(AttachmentKind, a) in Cascade(db, t) <==> AttachmentFalls(db, t, a)
  {}

  /** Exactly those rows go. */
  lemma DeletionTakes(db: Tables, t: Tomb)
    ensures var after := ApplyTombstone(db, t);
            && after.accounts == (map x | x in db.accounts && t != Tomb(AccountKind, x) :: db.accounts[x])
            && after.shared == (map s | s in db.shared && !SharedFalls(db, t, s) :: db.shared[s])
            && after.attachments == (map a | a in db.attachments && !AttachmentFalls(db, t, a) :: db.attachments[a])
  {
    CascadeIds(db, t);
    CascadeShared(db, t);
    CascadeAttachments(db, t);
  }

  /** Each leaves a tombstone beside the one pulled; a subscription that falls is logged. */
  lemma DeletionLeaves(db: Tables, t: Tomb)
    ensures var after := ApplyTombstone(db, t);
            forall u :: u in after.tombs <==>
              || u in db.tombs || u == t
              || (u.kind == SharedKind && SharedFalls(db, t, u.id))
              || (u.kind == AttachmentKind && AttachmentFalls(db, t, u.id))
    ensures var subscribed := t.kind == AccountKind && t.id in db.accounts && db.accounts[t.id].subscription.Some?;
            ApplyTombstone(db, t).log == if subscribed then db.log + [AccountChanged(t.id)] else db.log
  {
    assert Logged(db.log, AccountChanged(t.id), 1) == Logged(db.log, AccountChanged(t.id), 0) + [AccountChanged(t.id)];
  }
}
