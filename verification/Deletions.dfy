/**
 A deletion always wins: whatever bundles and tombstones reach a node, in whatever order, a
 deleted account, shared vault or attachment never comes back (tombstone guards of
 server/src/cluster.ts; runs without a restore).
 */
module Deletions {
  import opened Collections
  import opened VersionVectors
  import opened VaultReplica
  import opened ClusterDb

  type Cluster = map<NodeId, Tables>

  /** Bundles are unconstrained: stale, repeated or from a peer that has not heard of a deletion. */
  datatype Event =
    | WriteAccount(node: NodeId, id: Id, account: Account)
    | WriteShared(node: NodeId, id: Id, vault: SharedVault)
    | AddAttachment(node: NodeId, id: Id, attachment: Attachment)
    | DeleteLocally(node: NodeId, tomb: Tomb)
    | PullAccount(node: NodeId, accountBundle: AccountBundle)
    | PullShared(node: NodeId, sharedBundle: SharedBundle)
    | PullTombstone(node: NodeId, tomb: Tomb)

  const EmptyTables: Tables := Tables(map[], map[], map[], {}, [])

  /** Identifiers are random: a local creation never reuses a deleted one. Foreign keys are enforced. */
  ghost function Act(h: Hashes, db: Tables, e: Event): Tables {
    match e
    case WriteAccount(_, id, account) =>
      if Tomb(AccountKind, id) in db.tombs then db else db.(accounts := db.accounts[id := account])
    case WriteShared(_, id, vault) =>
      if Tomb(SharedKind, id) in db.tombs || vault.owner !in db.accounts then db
        else db.(shared := db.shared[id := vault])
    case AddAttachment(_, id, attachment) =>
      if Tomb(AttachmentKind, id) in db.tombs || !Anchored(db, attachment) then db
      else db.(attachments := db.attachments[id := attachment])
    case DeleteLocally(_, t) => Delete(db, t)
    case PullAccount(_, b) => ApplyAccountBundle(h, db, b)
    case PullShared(_, b) => ApplySharedBundle(h, db, b)
    case PullTombstone(_, t) => ApplyTombstone(db, t)
  }

  ghost function Step(h: Hashes, s: Cluster, e: Event): Cluster {
    if e.node in s then s[e.node := Act(h, s[e.node], e)] else s
  }

  ghost function Exec(h: Hashes, s: Cluster, events: seq<Event>): Cluster
    decreases |events|
  {
    if events == [] then s else Exec(h, Step(h, s, events[0]), events[1..])
  }

  function Start(nodes: set<NodeId>): Cluster {
    map n | n in nodes :: EmptyTables
  }

  /** An attachment's owner, and the shared vault it sits in, exist. */
  predicate Anchored(db: Tables, a: Attachment) {
    a.owner in db.accounts && (a.vault.Some? ==> a.vault.value in db.shared)
  }

  predicate Integrity(db: Tables) {
    && (forall s :: s in db.shared ==> db.shared[s].owner in db.accounts)
    && (forall a :: a in db.attachments ==> Anchored(db, db.attachments[a]))
  }

  predicate Present(db: Tables, t: Tomb) {
    match t.kind
    case AccountKind => t.id in db.accounts
    case SharedKind => t.id in db.shared
    case AttachmentKind => t.id in db.attachments
  }

  predicate Clean(db: Tables) {
    forall t :: t in db.tombs ==> !Present(db, t)
  }

  /** What deleting `t` removes, with foreign keys enforced: nothing hangs on an absent row. */
  lemma DeleteShape(db: Tables, t: Tomb)
    requires Integrity(db)
    ensures var after := Delete(db, t);
            match t.kind
            case AccountKind =>
              && after.accounts == db.accounts - {t.id}
              && after.shared == db.shared - OwnedShared(db, t.id)
              && after.attachments == db.attachments - OwnedAttachments(db, t.id)
              && after.tombs + {t}
                == db.tombs + {t} + Tombs(SharedKind, OwnedShared(db, t.id))
                  + Tombs(AttachmentKind, OwnedAttachments(db, t.id))
            case SharedKind =>
              && after.accounts == db.accounts
              && after.shared == db.shared - {t.id}
              && after.attachments == db.attachments - VaultAttachments(db, t.id)
              && after.tombs + {t} == db.tombs + {t} + Tombs(AttachmentKind, VaultAttachments(db, t.id))
            case AttachmentKind =>
              && after.accounts == db.accounts
              && after.shared == db.shared
              && after.attachments == db.attachments - {t.id}
              && after.tombs + {t} == db.tombs + {t}
  {
    var gone := Cascade(db, t);
    match t.kind
    case AccountKind =>
      if t.id in db.accounts {
        assert Ids(gone, AccountKind) == {t.id};
        IdsOfTombs(gone, SharedKind, OwnedShared(db, t.id));
        IdsOfTombs(gone, AttachmentKind, OwnedAttachments(db, t.id));
      } else {
        NothingOwned(db, t.id);
      }
    case SharedKind =>
      if t.id in db.shared {
        assert Ids(gone, SharedKind) == {t.id};
        IdsOfTombs(gone, AttachmentKind, VaultAttachments(db, t.id));
      } else {
        forall a | a in db.attachments ensures db.attachments[a].vault != Some(t.id) {
          assert Anchored(db, db.attachments[a]);
        }
        assert VaultAttachments(db, t.id) == {};
      }
    case AttachmentKind =>
      if t.id in db.attachments { assert Ids(gone, AttachmentKind) == {t.id}; }
  }

  lemma NothingOwned(db: Tables, id: Id)
    requires Integrity(db) && id !in db.accounts
    ensures OwnedShared(db, id) == {} && OwnedAttachments(db, id) == {}
  {
    forall a | a in db.attachments ensures a !in OwnedAttachments(db, id) {
      assert Anchored(db, db.attachments[a]);
    }
  }

  lemma DeleteKeepsClean(db: Tables, t: Tomb)
    requires Clean(db) && Integrity(db)
    ensures Clean(Delete(db, t)) && Integrity(Delete(db, t))
    ensures Clean(ApplyTombstone(db, t)) && Integrity(ApplyTombstone(db, t))
    ensures db.tombs <= Delete(db, t).tombs
  {
    var after, pulled := Delete(db, t), ApplyTombstone(db, t);
    DeleteShape(db, t);
    forall x | x in pulled.tombs ensures !Present(after, x) {
      if x in db.tombs { assert !Present(db, x); }
    }
    forall a | a in after.attachments ensures Anchored(after, after.attachments[a]) {
      assert Anchored(db, db.attachments[a]);
    }
  }

  /** All that matters here of an applied account bundle: one account row, and new attachments of that account. */
  predicate Brought(db: Tables, mid: Tables, id: Id, news: set<Id>) {
    && mid.accounts.Keys == db.accounts.Keys + {id}
    && (forall x :: x in db.accounts && x != id ==> mid.accounts[x] == db.accounts[x])
    && mid.shared == db.shared && mid.tombs == db.tombs
    && mid.attachments.Keys == db.attachments.Keys + news && news !! db.attachments.Keys
    && (forall a :: a in db.attachments ==> mid.attachments[a] == db.attachments[a])
    && (forall a :: a in news ==> mid.attachments[a] == Attachment(id, None) && Tomb(AttachmentKind, a) !in db.tombs)
  }

  lemma BundleBrings(h: Hashes, db: Tables, b: AccountBundle)
    requires AccountOutcome(db, b).Applied?
    ensures Brought(db, ApplyAccountBundle(h, db, b), b.id, Fresh(db, b.attachments))
    ensures Tomb(AccountKind, b.id) !in db.tombs
  {
    RowsBrought(db, ResolveAccount(h, Lookup(db, b.id), b), b,
                Logged(db.log, AccountChanged(b.id), AccountWrites(db, b)));
  }

  lemma RowsBrought(db: Tables, account: Account, b: AccountBundle, log: seq<Subject>)
    ensures var mid := db.(accounts := db.accounts[b.id := account],
                           attachments := Added(db.attachments, OwnRows(b), Fresh(db, b.attachments)),
                           log := log);
            Brought(db, mid, b.id, Fresh(db, b.attachments))
  {
    AddedKeys(db.attachments, OwnRows(b), Fresh(db, b.attachments));
  }

  lemma AccountBundleKeepsClean(h: Hashes, db: Tables, b: AccountBundle)
    requires Clean(db) && Integrity(db)
    ensures Clean(ApplyAccountBundle(h, db, b)) && Integrity(ApplyAccountBundle(h, db, b))
  {
    if AccountOutcome(db, b).Applied? {
      BundleBrings(h, db, b);
      BroughtKeepsClean(db, ApplyAccountBundle(h, db, b), b.id, Fresh(db, b.attachments));
    }
  }

  lemma BroughtKeepsClean(db: Tables, mid: Tables, id: Id, news: set<Id>)
    requires Clean(db) && Integrity(db) && Brought(db, mid, id, news) && Tomb(AccountKind, id) !in db.tombs
    ensures Clean(mid) && Integrity(mid)
  {
    forall x | x in mid.tombs ensures !Present(mid, x) {
      assert !Present(db, x);
    }
    forall a | a in mid.attachments ensures Anchored(mid, mid.attachments[a]) {
      if a in db.attachments { assert Anchored(db, db.attachments[a]); }
    }
  }

  /** The same for an applied shared bundle. */
  predicate SharedBrought(db: Tables, mid: Tables, id: Id, news: set<Id>) {
    && mid.accounts == db.accounts && mid.tombs == db.tombs
    && mid.shared.Keys == db.shared.Keys + {id} && mid.shared[id].owner in db.accounts
    && (forall x :: x in db.shared && x != id ==> mid.shared[x] == db.shared[x])
    && mid.attachments.Keys == db.attachments.Keys + news && news !! db.attachments.Keys
    && (forall a :: a in db.attachments ==> mid.attachments[a] == db.attachments[a])
    && (forall a :: a in news ==>
          mid.attachments[a].vault == Some(id) && mid.attachments[a].owner in db.accounts
            && Tomb(AttachmentKind, a) !in db.tombs)
  }

  lemma SharedBundleBrings(h: Hashes, db: Tables, b: SharedBundle)
    requires SharedOutcome(h, db, b).Applied? && Integrity(db)
    ensures SharedBrought(db, ApplySharedBundle(h, db, b), b.id, Fresh(db, b.attachments.Keys))
    ensures Tomb(SharedKind, b.id) !in db.tombs
  {
    assert b.owner !in Absent(db, b);
    var local := SharedReplica(db, b.id);
    var decision := Decide(h.blob, local, b.row);
    var owner := if decision.taken || b.id !in db.shared then b.owner else db.shared[b.id].owner;
    SharedRowsBrought(db, SharedVault(owner, ResolveRow(h.blob, local, b.row)), b,
                      Logged(db.log, SharedChanged(b.id), Count(decision.changed) + |Fresh(db, b.attachments.Keys)|));
  }

  lemma SharedRowsBrought(db: Tables, vault: SharedVault, b: SharedBundle, log: seq<Subject>)
    requires vault.owner in db.accounts
    requires forall x :: x in Fresh(db, b.attachments.Keys) ==> b.attachments[x] in db.accounts
    ensures var mid := db.(shared := db.shared[b.id := vault],
                           attachments := Added(db.attachments, SharedRows(b), Fresh(db, b.attachments.Keys)),
                           log := log);
            SharedBrought(db, mid, b.id, Fresh(db, b.attachments.Keys))
  {
    AddedKeys(db.attachments, SharedRows(b), Fresh(db, b.attachments.Keys));
  }

  lemma SharedBundleKeepsClean(h: Hashes, db: Tables, b: SharedBundle)
    requires Clean(db) && Integrity(db)
    ensures Clean(ApplySharedBundle(h, db, b)) && Integrity(ApplySharedBundle(h, db, b))
  {
    if SharedOutcome(h, db, b).Applied? {
      SharedBundleBrings(h, db, b);
      SharedBroughtKeepsClean(db, ApplySharedBundle(h, db, b), b.id, Fresh(db, b.attachments.Keys));
    }
  }

  lemma SharedBroughtKeepsClean(db: Tables, mid: Tables, id: Id, news: set<Id>)
    requires Clean(db) && Integrity(db) && SharedBrought(db, mid, id, news) && Tomb(SharedKind, id) !in db.tombs
    ensures Clean(mid) && Integrity(mid)
  {
    forall x | x in mid.tombs ensures !Present(mid, x) {
      assert !Present(db, x);
    }
    forall a | a in mid.attachments ensures Anchored(mid, mid.attachments[a]) {
      if a in db.attachments { assert Anchored(db, db.attachments[a]); }
    }
  }

  lemma ActKeepsClean(h: Hashes, db: Tables, e: Event)
    requires Clean(db) && Integrity(db)
    ensures Clean(Act(h, db, e)) && Integrity(Act(h, db, e))
    ensures db.tombs <= Act(h, db, e).tombs
  {
    match e
    case DeleteLocally(_, t) => DeleteKeepsClean(db, t);
    case PullTombstone(_, t) => DeleteKeepsClean(db, t);
    case PullAccount(_, b) => AccountBundleKeepsClean(h, db, b);
    case PullShared(_, b) => SharedBundleKeepsClean(h, db, b);
    case _ =>
  }

  ghost predicate AllClean(s: Cluster) {
    forall n :: n in s ==> Clean(s[n]) && Integrity(s[n])
  }

  lemma {:induction false} ExecKeepsClean(h: Hashes, s: Cluster, events: seq<Event>)
    requires AllClean(s)
    ensures AllClean(Exec(h, s, events))
    ensures forall n :: n in s ==> n in Exec(h, s, events) && s[n].tombs <= Exec(h, s, events)[n].tombs
    decreases |events|
  {
    if events != [] {
      var e := events[0];
      if e.node in s { ActKeepsClean(h, s[e.node], e); }
      ExecKeepsClean(h, Step(h, s, e), events[1..]);
    }
  }

  /**
   In every run: no node holds both a row and a tombstone for the same thing, and what a node has
   once known as deleted stays deleted there, whatever it receives next.
   */
  lemma DeletionWins(h: Hashes, nodes: set<NodeId>, past: seq<Event>, future: seq<Event>, n: NodeId, t: Tomb)
    requires n in Exec(h, Start(nodes), past) && t in Exec(h, Start(nodes), past)[n].tombs
    ensures !Present(Exec(h, Start(nodes), past)[n], t)
    ensures var later := Exec(h, Exec(h, Start(nodes), past), future);
            n in later && t in later[n].tombs && !Present(later[n], t)
  {
    ExecKeepsClean(h, Start(nodes), past);
    ExecKeepsClean(h, Exec(h, Start(nodes), past), future);
  }

  /** A shared vault whose owner was deleted here is never taken, nor is a deleted shared vault. */
  lemma TombstonedOwnerIsRefused(h: Hashes, db: Tables, b: SharedBundle)
    requires Tomb(AccountKind, b.owner) in db.tombs || Tomb(SharedKind, b.id) in db.tombs
    ensures ApplySharedBundle(h, db, b) == db
    ensures SharedOutcome(h, db, b) in {Refused, NeedsAccounts(Absent(db, b))}
  {}

  predicate SameRows(x: Tables, y: Tables) {
    x.accounts == y.accounts && x.shared == y.shared && x.attachments == y.attachments
  }

  /**
   An account deleted then updated, or updated then deleted: the same rows. The tombstones are the
   same too, except that the second order leaves one for each attachment the bundle had brought.
   */
  lemma AccountOrderIrrelevant(h: Hashes, db: Tables, b: AccountBundle)
    requires Integrity(db)
    ensures var t := Tomb(AccountKind, b.id);
            var deletedFirst := ApplyAccountBundle(h, ApplyTombstone(db, t), b);
            var updatedFirst := ApplyTombstone(ApplyAccountBundle(h, db, b), t);
            var news := if AccountOutcome(db, b).Applied? then Fresh(db, b.attachments) else {};
            && SameRows(deletedFirst, updatedFirst)
            && updatedFirst.tombs == deletedFirst.tombs + Tombs(AttachmentKind, news)
            && (updatedFirst.tombs == deletedFirst.tombs <==> news == {})
  {
    var t := Tomb(AccountKind, b.id);
    assert ApplyAccountBundle(h, ApplyTombstone(db, t), b) == ApplyTombstone(db, t) by {
      assert t in ApplyTombstone(db, t).tombs;
    }
    if AccountOutcome(db, b).Applied? {
      BundleBrings(h, db, b);
      DeletionAfterBundle(db, ApplyAccountBundle(h, db, b), b.id, Fresh(db, b.attachments));
    } else {
      assert Tombs(AttachmentKind, {}) == {};
    }
  }

  /**
   The difference is real: a node knows the account, and a bundle brings an attachment. After the
   deletion then the bundle, nobody has heard of the attachment; the other way round it is tombstoned.
   */
  lemma OrderMayShowInTombstones(h: Hashes, account: Account)
    ensures var b := AccountBundle("u", account.user, None, map[], None, {"f"});
            var known, t := WriteAccount("n", "u", account), Tomb(AccountKind, "u");
            var deletedFirst := Exec(h, Start({"n"}), [known, PullTombstone("n", t), PullAccount("n", b)]);
            var updatedFirst := Exec(h, Start({"n"}), [known, PullAccount("n", b), PullTombstone("n", t)]);
            && "n" in deletedFirst && "n" in updatedFirst && SameRows(deletedFirst["n"], updatedFirst["n"])
            && Tomb(AttachmentKind, "f") in updatedFirst["n"].tombs
            && Tomb(AttachmentKind, "f") !in deletedFirst["n"].tombs
  {
    var b, t := AccountBundle("u", account.user, None, map[], None, {"f"}), Tomb(AccountKind, "u");
    var known, pull, delete := WriteAccount("n", "u", account), PullAccount("n", b), PullTombstone("n", t);
    var db := EmptyTables.(accounts := map["u" := account]);
    assert Act(h, EmptyTables, known) == db;
    ThreeSteps(h, known, delete, pull);
    ThreeSteps(h, known, pull, delete);
    OrdersDiffer(h, db, b, t);
  }

  lemma OrdersDiffer(h: Hashes, db: Tables, b: AccountBundle, t: Tomb)
    requires db.shared == map[] && db.attachments == map[] && db.tombs == {}
    requires t == Tomb(AccountKind, b.id) && b.id in db.accounts && b.attachments == {"f"}
    ensures var deletedFirst := ApplyAccountBundle(h, ApplyTombstone(db, t), b);
            var updatedFirst := ApplyTombstone(ApplyAccountBundle(h, db, b), t);
            && SameRows(deletedFirst, updatedFirst)
            && Tomb(AttachmentKind, "f") in updatedFirst.tombs && Tomb(AttachmentKind, "f") !in deletedFirst.tombs
  {
    AccountOrderIrrelevant(h, db, b);
    assert Fresh(db, b.attachments) == {"f"};
    DeletedUnheard(h, db, b, t);
    assert Tomb(AttachmentKind, "f") in Tombs(AttachmentKind, {"f"});
  }

  lemma ThreeSteps(h: Hashes, a: Event, b: Event, c: Event)
    requires a.node == "n" && b.node == "n" && c.node == "n"
    ensures var s := Exec(h, Start({"n"}), [a, b, c]);
            "n" in s && s["n"] == Act(h, Act(h, Act(h, EmptyTables, a), b), c)
  {
    var s1 := Step(h, Start({"n"}), a);
    var s2 := Step(h, s1, b);
    assert [a, b, c][1..] == [b, c] && [b, c][1..] == [c] && [c][1..] == [];
    assert Exec(h, s2, [c]) == Step(h, s2, c);
    assert Exec(h, s1, [b, c]) == Exec(h, s2, [c]);
  }

  /** Deleting an account of which no row hangs leaves its own tombstone alone. */
  lemma DeletedUnheard(h: Hashes, db: Tables, b: AccountBundle, t: Tomb)
    requires db.shared == map[] && db.attachments == map[] && db.tombs == {} && t == Tomb(AccountKind, b.id)
    requires b.id in db.accounts
    ensures ApplyAccountBundle(h, ApplyTombstone(db, t), b).tombs == {t}
  {
    AccountGone(db, b.id);
    assert OwnedShared(db, b.id) == {} && Inside(db.attachments, {}) == {} && OwnedBy(db.attachments - {}, b.id) == {};
    assert Tombs(SharedKind, {}) == {} && Tombs(AttachmentKind, {}) == {};
    assert t in ApplyTombstone(db, t).tombs;
  }

  lemma DeletionAfterBundle(db: Tables, mid: Tables, id: Id, news: set<Id>)
    requires Integrity(db) && Brought(db, mid, id, news)
    ensures var t := Tomb(AccountKind, id);
            var base, last := ApplyTombstone(db, t), ApplyTombstone(mid, t);
            && SameRows(base, last)
            && last.tombs == base.tombs + Tombs(AttachmentKind, news)
            && (last.tombs == base.tombs <==> news == {})
  {
    var t := Tomb(AccountKind, id);
    DeleteShape(db, t);
    BroughtKeepsIntegrity(db, mid, id, news);
    DeleteShape(mid, t);
    OwnedAfterBundle(db, mid, id, news);
    TombsUnion(OwnedAttachments(db, id), news);
    NewTombs(ApplyTombstone(db, t), db, news);
  }

  lemma OwnedAfterBundle(db: Tables, mid: Tables, id: Id, news: set<Id>)
    requires Integrity(db) && Brought(db, mid, id, news)
    ensures OwnedShared(mid, id) == OwnedShared(db, id)
    ensures OwnedAttachments(mid, id) == OwnedAttachments(db, id) + news
    ensures mid.attachments - OwnedAttachments(mid, id) == db.attachments - OwnedAttachments(db, id)
    ensures mid.accounts - {id} == db.accounts - {id}
  {
    assert OwnedShared(mid, id) == OwnedShared(db, id);
    assert OwnedAttachments(mid, id) == OwnedAttachments(db, id) + news;
  }

  lemma TombsUnion(before: set<Id>, news: set<Id>)
    ensures Tombs(AttachmentKind, before + news) == Tombs(AttachmentKind, before) + Tombs(AttachmentKind, news)
  {}

  /** Tombstones of attachments that are new to `db` cannot follow from a deletion there. */
  lemma NewTombs(base: Tables, db: Tables, news: set<Id>)
    requires news !! db.attachments.Keys && forall a :: a in news ==> Tomb(AttachmentKind, a) !in db.tombs
    requires forall x :: x in base.tombs && x.kind == AttachmentKind ==> x in db.tombs || x.id in db.attachments
    ensures base.tombs + Tombs(AttachmentKind, news) == base.tombs <==> news == {}
  {
    if x :| x in news {
      assert Tomb(AttachmentKind, x) in Tombs(AttachmentKind, news);
      assert Tomb(AttachmentKind, x) !in base.tombs;
    }
  }

  lemma BroughtKeepsIntegrity(db: Tables, mid: Tables, id: Id, news: set<Id>)
    requires Integrity(db) && Brought(db, mid, id, news)
    ensures Integrity(mid)
  {
    forall a | a in mid.attachments ensures Anchored(mid, mid.attachments[a]) {
      if a in db.attachments { assert Anchored(db, db.attachments[a]); }
    }
  }

  /** The same for a shared vault. */
  lemma SharedOrderIrrelevant(h: Hashes, db: Tables, b: SharedBundle)
    requires Integrity(db)
    ensures var t := Tomb(SharedKind, b.id);
            var deletedFirst := ApplySharedBundle(h, ApplyTombstone(db, t), b);
            var updatedFirst := ApplyTombstone(ApplySharedBundle(h, db, b), t);
            var news := if SharedOutcome(h, db, b).Applied? then Fresh(db, b.attachments.Keys) else {};
            && SameRows(deletedFirst, updatedFirst)
            && updatedFirst.tombs == deletedFirst.tombs + Tombs(AttachmentKind, news)
            && (updatedFirst.tombs == deletedFirst.tombs <==> news == {})
  {
    var t := Tomb(SharedKind, b.id);
    assert ApplySharedBundle(h, ApplyTombstone(db, t), b) == ApplyTombstone(db, t) by {
      assert t in ApplyTombstone(db, t).tombs;
    }
    if SharedOutcome(h, db, b).Applied? {
      SharedBundleBrings(h, db, b);
      DeletionAfterShared(db, ApplySharedBundle(h, db, b), b.id, Fresh(db, b.attachments.Keys));
    } else {
      assert Tombs(AttachmentKind, {}) == {};
    }
  }

  lemma DeletionAfterShared(db: Tables, mid: Tables, id: Id, news: set<Id>)
    requires Integrity(db) && SharedBrought(db, mid, id, news)
    ensures var t := Tomb(SharedKind, id);
            var base, last := ApplyTombstone(db, t), ApplyTombstone(mid, t);
            && SameRows(base, last)
            && last.tombs == base.tombs + Tombs(AttachmentKind, news)
            && (last.tombs == base.tombs <==> news == {})
  {
    var t := Tomb(SharedKind, id);
    DeleteShape(db, t);
    SharedKeepsIntegrity(db, mid, id, news);
    DeleteShape(mid, t);
    VaultAfterBundle(db, mid, id, news);
    TombsUnion(VaultAttachments(db, id), news);
    NewTombs(ApplyTombstone(db, t), db, news);
  }

  lemma SharedKeepsIntegrity(db: Tables, mid: Tables, id: Id, news: set<Id>)
    requires Integrity(db) && SharedBrought(db, mid, id, news)
    ensures Integrity(mid)
  {
    forall a | a in mid.attachments ensures Anchored(mid, mid.attachments[a]) {
      if a in db.attachments { assert Anchored(db, db.attachments[a]); }
    }
  }

  lemma VaultAfterBundle(db: Tables, mid: Tables, id: Id, news: set<Id>)
    requires SharedBrought(db, mid, id, news)
    ensures VaultAttachments(mid, id) == VaultAttachments(db, id) + news
    ensures mid.attachments - VaultAttachments(mid, id) == db.attachments - VaultAttachments(db, id)
    ensures mid.shared - {id} == db.shared - {id}
  {
    assert VaultAttachments(mid, id) == VaultAttachments(db, id) + news;
  }

  lemma AttachmentGone(db: Tables, x: Id)
    ensures var t := Tomb(AttachmentKind, x);
            ApplyTombstone(db, t) == db.(attachments := db.attachments - {x}, tombs := db.tombs + {t})
  {
    var t := Tomb(AttachmentKind, x);
    var gone := Cascade(db, t);
    assert gone == if x in db.attachments then {t} else {};
    assert Ids(gone, AccountKind) == {} && Ids(gone, SharedKind) == {};
    assert x in db.attachments ==> t in gone && Ids(gone, AttachmentKind) == {x};
    assert db.accounts - {} == db.accounts && db.shared - {} == db.shared;
    assert db.attachments - Ids(gone, AttachmentKind) == db.attachments - {x};
    assert db.tombs + gone + {t} == db.tombs + {t};
  }

  /** An attachment deleted before or after the bundle that mentions it: the same rows and tombstones. */
  lemma AttachmentOrderIrrelevant(h: Hashes, db: Tables, b: AccountBundle, x: Id)
    ensures var t := Tomb(AttachmentKind, x);
            var deletedFirst := ApplyAccountBundle(h, ApplyTombstone(db, t), b);
            var updatedFirst := ApplyTombstone(ApplyAccountBundle(h, db, b), t);
            SameRows(deletedFirst, updatedFirst) && deletedFirst.tombs == updatedFirst.tombs
              && x !in updatedFirst.attachments
  {
    var t := Tomb(AttachmentKind, x);
    var gone := db.(attachments := db.attachments - {x}, tombs := db.tombs + {t});
    AttachmentGone(db, x);
    AttachmentGone(ApplyAccountBundle(h, db, b), x);
    BundleWithout(h, db, gone, b, x);
  }

  /** A bundle brings the same to the tables without an attachment, except that attachment. */
  lemma BundleWithout(h: Hashes, db: Tables, gone: Tables, b: AccountBundle, x: Id)
    requires gone == db.(attachments := db.attachments - {x}, tombs := db.tombs + {Tomb(AttachmentKind, x)})
    ensures var after, without := ApplyAccountBundle(h, db, b), ApplyAccountBundle(h, gone, b);
            && without.accounts == after.accounts && without.shared == after.shared
            && without.attachments == after.attachments - {x}
            && without.tombs == after.tombs + {Tomb(AttachmentKind, x)}
  {
    assert AccountOutcome(gone, b).Applied? <==> AccountOutcome(db, b).Applied?;
    if AccountOutcome(db, b).Applied? { AddedWithout(db, OwnRows(b), b.attachments, x); }
  }

  lemma AddedWithout(db: Tables, rows: map<Id, Attachment>, ids: set<Id>, x: Id)
    requires rows.Keys == ids
    ensures var gone := db.(attachments := db.attachments - {x}, tombs := db.tombs + {Tomb(AttachmentKind, x)});
            Added(gone.attachments, rows, Fresh(gone, ids)) == Added(db.attachments, rows, Fresh(db, ids)) - {x}
  {
    var gone := db.(attachments := db.attachments - {x}, tombs := db.tombs + {Tomb(AttachmentKind, x)});
    assert Fresh(gone, ids) == Fresh(db, ids) - {x};
  }
}
