/**
 The replicated tables of one node and what a bundle or a tombstone pulled from a peer does to
 them (accountBundle, applyAccountBundle, applySharedBundle, applyTombstone and the deletion
 triggers of server/src/cluster.ts).
 */
module ClusterDb {
  import opened Collections
  import opened VersionVectors
  import opened VaultReplica

  type Id = string

  datatype UserRow = UserRow(email: string, data: string, vv: VersionVector)
  datatype Subscription = Subscription(updatedAt: int, data: string)

  /** A users row with the rows that live and die with it. */
  datatype Account = Account(user: UserRow, vault: Replica, subscription: Option<Subscription>)

  datatype SharedVault = SharedVault(owner: Id, vault: Replica)
  datatype Attachment = Attachment(owner: Id, vault: Option<Id>)

  datatype Kind = AccountKind | SharedKind | AttachmentKind
  datatype Tomb = Tomb(kind: Kind, id: Id)

  /** What an entry of cluster_log is about. */
  datatype Subject = AccountChanged(id: Id) | SharedChanged(id: Id)

  /** `log` holds the entries of cluster_log about live rows; those about deletions mirror `tombs`. */
  datatype Tables = Tables(
    accounts: map<Id, Account>,
    shared: map<Id, SharedVault>,
    attachments: map<Id, Attachment>,
    tombs: set<Tomb>,
    log: seq<Subject>)

  /** Fingerprints of vault blobs and of users rows. */
  datatype Hashes = Hashes(blob: Blob -> Hash, user: UserRow -> Hash)

  datatype AccountBundle = AccountBundle(
    id: Id, user: UserRow, vault: Option<VaultRow>, conflicts: map<Hash, Blob>,
    subscription: Option<Subscription>, attachments: set<Id>)

  datatype SharedBundle = SharedBundle(id: Id, owner: Id, row: VaultRow, members: set<Id>, attachments: map<Id, Id>)

  datatype Outcome =
    | Applied(changed: bool)
    | Refused                       // the account, or the shared vault's owner, is tombstoned here
    | SameEmail                     // another account holds the address: nothing is merged
    | NeedsAccounts(absent: set<Id>)
    | RolledBack                    // a foreign key would dangle

  /* ── Accounts ──────────────────────────────────────────────────────── */

  function FetchAccount(db: Tables, id: Id): AccountBundle
    requires id in db.accounts
  {
    var a := db.accounts[id];
    AccountBundle(id, a.user, a.vault.vault, a.vault.conflicts, a.subscription,
                  set x | x in db.attachments && db.attachments[x] == Attachment(id, None))
  }

  ghost function UserTaken(h: Hashes, incoming: UserRow, local: UserRow): bool {
    var order := Compare(incoming.vv, local.vv);
    order == Newer || (order == Concurrent && Winner(incoming.vv, h.user(incoming), local.vv, h.user(local)) == A)
  }

  /** A newer users row is taken; of two concurrent rows one is kept, under the joined vector either way. */
  ghost function ResolveUser(h: Hashes, incoming: UserRow, local: UserRow): UserRow {
    var vv := if Compare(incoming.vv, local.vv) == Concurrent then Merge(incoming.vv, local.vv) else incoming.vv;
    if UserTaken(h, incoming, local) then incoming.(vv := vv)
    else if Compare(incoming.vv, local.vv) == Concurrent then local.(vv := vv)
    else local
  }

  predicate UserChanges(incoming: UserRow, local: Option<UserRow>) {
    local.None? || Compare(incoming.vv, local.value.vv) in {Newer, Concurrent}
  }

  predicate VaultChanges(incoming: Option<VaultRow>, local: Replica) {
    incoming.Some? && (local.vault.None? || Compare(incoming.value.vv, local.vault.value.vv) in {Newer, Concurrent})
  }

  predicate SubscriptionChanges(incoming: Option<Subscription>, local: Option<Subscription>) {
    incoming.Some? && (local.None? || incoming.value.updatedAt > local.value.updatedAt)
  }

  const NoVault: Replica := Replica(None, map[])

  /** The account's own rows after the bundle, whether the account was known or not. */
  ghost function ResolveAccount(h: Hashes, local: Option<Account>, b: AccountBundle): Account {
    var vault := if local.Some? then local.value.vault else NoVault;
    var subscription := if local.Some? then local.value.subscription else None;
    Account(
      if local.Some? then ResolveUser(h, b.user, local.value.user) else b.user,
      if b.vault.Some? then Apply(h.blob, vault, Bundle(b.vault.value, b.conflicts)) else vault,
      if SubscriptionChanges(b.subscription, subscription) then b.subscription else subscription)
  }

  /** An account with the vault and subscription of a bundle settled against its own. */
  ghost function WithRows(h: Hashes, known: Account, b: AccountBundle): Account {
    Account(
      known.user,
      if b.vault.Some? then Apply(h.blob, known.vault, Bundle(b.vault.value, b.conflicts)) else known.vault,
      if SubscriptionChanges(b.subscription, known.subscription) then b.subscription else known.subscription)
  }

  /** An account with the users row of a bundle settled against its own. */
  ghost function WithUser(h: Hashes, local: Option<Account>, b: AccountBundle): Account {
    if local.Some? then local.value.(user := ResolveUser(h, b.user, local.value.user))
      else Account(b.user, NoVault, None)
  }

  lemma RowsResolve(h: Hashes, local: Option<Account>, b: AccountBundle, known: Account)
    requires known == WithUser(h, local, b)
    ensures WithRows(h, known, b) == ResolveAccount(h, local, b)
  {}

  function Lookup(db: Tables, id: Id): Option<Account> {
    if id in db.accounts then Some(db.accounts[id]) else None
  }

  /** Attachments of a bundle that are inserted: neither here already nor deleted. */
  function Unseen(here: map<Id, Attachment>, tombs: set<Tomb>, ids: set<Id>): set<Id> {
    set x | x in ids && x !in here && Tomb(AttachmentKind, x) !in tombs
  }

  function Fresh(db: Tables, ids: set<Id>): set<Id> {
    Unseen(db.attachments, db.tombs, ids)
  }

  /** `here` with the rows of `incoming` at `ids` added. */
  function Added(here: map<Id, Attachment>, incoming: map<Id, Attachment>, ids: set<Id>): map<Id, Attachment> {
    here + (incoming - (incoming.Keys - ids))
  }

  lemma AddedOne(here: map<Id, Attachment>, incoming: map<Id, Attachment>, ids: set<Id>, x: Id)
    requires x in incoming && ids <= incoming.Keys
    ensures Added(here, incoming, ids + {x}) == Added(here, incoming, ids)[x := incoming[x]]
  {
    assert (incoming - (incoming.Keys - (ids + {x}))).Keys == ids + {x};
    assert (incoming - (incoming.Keys - ids)).Keys == ids;
  }

  lemma AddedNone(here: map<Id, Attachment>, incoming: map<Id, Attachment>)
    ensures Added(here, incoming, {}) == here
  {}

  lemma AddedKeys(here: map<Id, Attachment>, incoming: map<Id, Attachment>, ids: set<Id>)
    requires ids <= incoming.Keys
    ensures Added(here, incoming, ids).Keys == here.Keys + ids
  {}

  lemma UnseenOne(here: map<Id, Attachment>, tombs: set<Tomb>, ids: set<Id>, x: Id)
    ensures Unseen(here, tombs, ids + {x}) ==
            if x !in here && Tomb(AttachmentKind, x) !in tombs then Unseen(here, tombs, ids) + {x}
              else Unseen(here, tombs, ids)
  {}

  /** A personal attachment belongs to the account and to no shared vault. */
  function OwnRows(b: AccountBundle): map<Id, Attachment> {
    map x | x in b.attachments :: Attachment(b.id, None)
  }

  function SharedRows(b: SharedBundle): map<Id, Attachment> {
    map x | x in b.attachments :: Attachment(b.attachments[x], Some(b.id))
  }

  /** Another account already uses the bundle's address. */
  predicate Homonym(db: Tables, b: AccountBundle) {
    b.id !in db.accounts && exists x :: x in db.accounts && db.accounts[x].user.email == b.user.email
  }

  /** One more entry per row written: a trigger fires on each. */
  function Logged(log: seq<Subject>, s: Subject, n: nat): seq<Subject> {
    if n == 0 then log else Logged(log, s, n - 1) + [s]
  }

  function Count(b: bool): nat { if b then 1 else 0 }

  /** Account rows written by the bundle. */
  function RowWrites(local: Option<Account>, b: AccountBundle): nat {
    var user := if local.Some? then Some(local.value.user) else None;
    var vault := if local.Some? then local.value.vault else NoVault;
    var subscription := if local.Some? then local.value.subscription else None;
    Count(UserChanges(b.user, user)) + Count(VaultChanges(b.vault, vault))
      + Count(SubscriptionChanges(b.subscription, subscription))
  }

  /** All rows written by the bundle, one log entry each. */
  function AccountWrites(db: Tables, b: AccountBundle): nat {
    RowWrites(Lookup(db, b.id), b) + |Fresh(db, b.attachments)|
  }

  lemma {:induction false} LoggedTwice(log: seq<Subject>, s: Subject, m: nat, n: nat)
    ensures Logged(Logged(log, s, m), s, n) == Logged(log, s, m + n)
  {
    if n > 0 { LoggedTwice(log, s, m, n - 1); }
  }

  lemma RowsLogged(log: seq<Subject>, local: Option<Account>, b: AccountBundle, known: Account, userChanged: bool)
    requires known.vault == (if local.Some? then local.value.vault else NoVault)
    requires known.subscription == (if local.Some? then local.value.subscription else None)
    requires userChanged <==> UserChanges(b.user, if local.Some? then Some(local.value.user) else None)
    ensures var writes := Count(VaultChanges(b.vault, known.vault))
              + Count(SubscriptionChanges(b.subscription, known.subscription));
            Logged(Logged(log, AccountChanged(b.id), Count(userChanged)), AccountChanged(b.id), writes)
            == Logged(log, AccountChanged(b.id), RowWrites(local, b))
  {
    var writes :=
      Count(VaultChanges(b.vault, known.vault)) + Count(SubscriptionChanges(b.subscription, known.subscription));
    LoggedTwice(log, AccountChanged(b.id), Count(userChanged), writes);
  }

  ghost function AccountOutcome(db: Tables, b: AccountBundle): Outcome {
    if Tomb(AccountKind, b.id) in db.tombs then Refused
    else if Homonym(db, b) then SameEmail
    else Applied(AccountWrites(db, b) > 0)
  }

  ghost function ApplyAccountBundle(h: Hashes, db: Tables, b: AccountBundle): Tables {
    if !AccountOutcome(db, b).Applied? then db
    else
      db.(accounts := db.accounts[b.id := ResolveAccount(h, Lookup(db, b.id), b)],
          attachments := Added(db.attachments, OwnRows(b), Fresh(db, b.attachments)),
          log := Logged(db.log, AccountChanged(b.id), AccountWrites(db, b)))
  }

  /* ── Shared vaults ─────────────────────────────────────────────────── */

  function Absent(db: Tables, b: SharedBundle): set<Id> {
    set x | x in {b.owner} + b.members && x !in db.accounts && Tomb(AccountKind, x) !in db.tombs
  }

  ghost function SharedReplica(db: Tables, id: Id): Replica {
    if id in db.shared then db.shared[id].vault else NoVault
  }

  ghost function SharedOutcome(h: Hashes, db: Tables, b: SharedBundle): Outcome {
    if Tomb(SharedKind, b.id) in db.tombs then Refused
    else if Absent(db, b) != {} then NeedsAccounts(Absent(db, b))
    else if Tomb(AccountKind, b.owner) in db.tombs then Refused
    else if exists x :: x in Fresh(db, b.attachments.Keys) && b.attachments[x] !in db.accounts then RolledBack
    else Applied(Decide(h.blob, SharedReplica(db, b.id), b.row).changed || Fresh(db, b.attachments.Keys) != {})
  }

  ghost function ApplySharedBundle(h: Hashes, db: Tables, b: SharedBundle): Tables {
    if !SharedOutcome(h, db, b).Applied? then db else WithShared(h, db, b)
  }

  /** The tables with the rows of a shared bundle settled against theirs. */
  ghost function WithShared(h: Hashes, db: Tables, b: SharedBundle): Tables {
    var local := SharedReplica(db, b.id);
    var decision := Decide(h.blob, local, b.row);
    var owner := if decision.taken || b.id !in db.shared then b.owner else db.shared[b.id].owner;
    db.(shared := db.shared[b.id := SharedVault(owner, ResolveRow(h.blob, local, b.row))],
        attachments := Added(db.attachments, SharedRows(b), Fresh(db, b.attachments.Keys)),
        log := Logged(db.log, SharedChanged(b.id), Count(decision.changed) + |Fresh(db, b.attachments.Keys)|))
  }

  /* ── Deletions ─────────────────────────────────────────────────────── */

  function OwnedShared(db: Tables, owner: Id): set<Id> {
    set s | s in db.shared && db.shared[s].owner == owner
  }

  /** Attachments that fall with an account: its own, and those in the shared vaults it owns. */
  function OwnedAttachments(db: Tables, owner: Id): set<Id> {
    set a | a in db.attachments
            && (db.attachments[a].owner == owner
                || (db.attachments[a].vault.Some? && db.attachments[a].vault.value in OwnedShared(db, owner)))
  }

  function VaultAttachments(db: Tables, vault: Id): set<Id> {
    set a | a in db.attachments && db.attachments[a].vault == Some(vault)
  }

  function Tombs(kind: Kind, ids: set<Id>): set<Tomb> {
    set x | x in ids :: Tomb(kind, x)
  }

  /** Rows that go when `t` is deleted, cascades included: each leaves a tombstone. */
  function Cascade(db: Tables, t: Tomb): set<Tomb> {
    if t.kind == AccountKind && t.id in db.accounts then
      {t} + Tombs(SharedKind, OwnedShared(db, t.id)) + Tombs(AttachmentKind, OwnedAttachments(db, t.id))
    else if t.kind == SharedKind && t.id in db.shared then {t} + Tombs(AttachmentKind, VaultAttachments(db, t.id))
    else if t.kind == AttachmentKind && t.id in db.attachments then {t}
    else {}
  }

  function Ids(tombs: set<Tomb>, kind: Kind): set<Id> {
    set t | t in tombs && t.kind == kind :: t.id
  }

  /** DELETE with its cascades and triggers. */
  function Delete(db: Tables, t: Tomb): Tables {
    var gone := Cascade(db, t);
    var subscribed := t.kind == AccountKind && t.id in db.accounts && db.accounts[t.id].subscription.Some?;
    Tables(db.accounts - Ids(gone, AccountKind),
           db.shared - Ids(gone, SharedKind),
           db.attachments - Ids(gone, AttachmentKind),
           db.tombs + gone,
           Logged(db.log, AccountChanged(t.id), Count(subscribed)))
  }

  lemma TombsAdd(kind: Kind, ids: set<Id>, x: Id)
    ensures Tombs(kind, ids + {x}) == Tombs(kind, ids) + {Tomb(kind, x)}
  {}

  /** Attachments of these shared vaults. */
  function Inside(attachments: map<Id, Attachment>, vaults: set<Id>): set<Id> {
    set a | a in attachments && attachments[a].vault.Some? && attachments[a].vault.value in vaults
  }

  lemma InsideAdd(attachments: map<Id, Attachment>, vaults: set<Id>, v: Id)
    requires v !in vaults
    ensures Inside(attachments, vaults + {v})
      == Inside(attachments, vaults) + Inside(attachments - Inside(attachments, vaults), {v})
    ensures attachments - Inside(attachments, vaults + {v}) ==
            attachments - Inside(attachments, vaults) - Inside(attachments - Inside(attachments, vaults), {v})
  {}

  lemma IdsOfTombs(gone: set<Tomb>, kind: Kind, ids: set<Id>)
    requires forall x: Tomb :: x.kind == kind ==> (x in gone <==> x in Tombs(kind, ids))
    ensures Ids(gone, kind) == ids
  {
    forall x | x in ids ensures x in Ids(gone, kind) {
      assert Tomb(kind, x) in Tombs(kind, ids);
      assert Tomb(kind, x) in gone;
    }
  }

  function OwnedBy(attachments: map<Id, Attachment>, owner: Id): set<Id> {
    set a | a in attachments && attachments[a].owner == owner
  }

  /** What goes with an account: the shared vaults it owns with their attachments, then its own. */
  lemma AccountGone(db: Tables, id: Id)
    requires id in db.accounts
    ensures var t, vaults := Tomb(AccountKind, id), OwnedShared(db, id);
            var inside := Inside(db.attachments, vaults);
            var own := OwnedBy(db.attachments - inside, id);
            var after := Delete(db, t);
            && after.accounts == db.accounts - {id} && after.shared == db.shared - vaults
            && after.attachments == db.attachments - inside - own
            && after.tombs
              == db.tombs + Tombs(SharedKind, vaults) + Tombs(AttachmentKind, inside) + Tombs(AttachmentKind, own) + {t}
  {
    var t, vaults := Tomb(AccountKind, id), OwnedShared(db, id);
    var inside := Inside(db.attachments, vaults);
    var own := OwnedBy(db.attachments - inside, id);
    var gone := Cascade(db, t);
    assert t in gone && Ids(gone, AccountKind) == {id};
    assert OwnedAttachments(db, id) == inside + own;
    TombsSum(AttachmentKind, inside, own);
    IdsOfTombs(gone, SharedKind, vaults);
    IdsOfTombs(gone, AttachmentKind, inside + own);
  }

  lemma TombsSum(kind: Kind, some: set<Id>, others: set<Id>)
    ensures Tombs(kind, some + others) == Tombs(kind, some) + Tombs(kind, others)
  {}

  lemma SharedGone(db: Tables, id: Id)
    requires id in db.shared
    ensures var t, inside := Tomb(SharedKind, id), Inside(db.attachments, {id});
            && Delete(db, t).accounts == db.accounts && Delete(db, t).shared == db.shared - {id}
            && Delete(db, t).attachments == db.attachments - inside
            && Delete(db, t).tombs == db.tombs + {t} + Tombs(AttachmentKind, inside)
  {
    var t := Tomb(SharedKind, id);
    var gone := Cascade(db, t);
    assert t in gone && Ids(gone, SharedKind) == {id} && Ids(gone, AccountKind) == {};
    assert VaultAttachments(db, id) == Inside(db.attachments, {id});
    IdsOfTombs(gone, AttachmentKind, VaultAttachments(db, id));
  }

  lemma NothingGone(db: Tables, t: Tomb)
    ensures Cascade(db, t) == {} ==> Delete(db, t) == db
  {
    if Cascade(db, t) == {} {
      assert Ids({}, AccountKind) == {} && Ids({}, SharedKind) == {} && Ids({}, AttachmentKind) == {};
      assert t.kind == AccountKind && t.id in db.accounts ==> t in Cascade(db, t);
      assert db.accounts - {} == db.accounts && db.shared - {} == db.shared && db.attachments - {} == db.attachments;
    }
  }

  /** A deletion pulled from a peer leaves a tombstone even where there was nothing to delete. */
  function ApplyTombstone(db: Tables, t: Tomb): Tables {
    var after := Delete(db, t);
    after.(tombs := after.tombs + {t})
  }

  predicate Inserted(here: map<Id, Attachment>, tombs: set<Tomb>, incoming: map<Id, Attachment>, done: set<Id>,
                     after: map<Id, Attachment>, count: nat)
  {
    after == Added(here, incoming, Unseen(here, tombs, done)) && count == |Unseen(here, tombs, done)|
  }

  lemma OthersThan(ids: set<Id>)
    ensures ids - ids == {} && ids - {} == ids
  {}

  lemma OneLess(ids: set<Id>, todo: set<Id>, x: Id)
    requires todo <= ids && x in todo
    ensures ids - (todo - {x}) == ids - todo + {x}
  {}

  lemma InsertOne(here: map<Id, Attachment>, tombs: set<Tomb>, incoming: map<Id, Attachment>, done: set<Id>,
                  after: map<Id, Attachment>, count: nat, x: Id)
    requires Inserted(here, tombs, incoming, done, after, count) && done <= incoming.Keys && x in incoming.Keys - done
    ensures
      if Tomb(AttachmentKind, x) !in tombs && x !in after
      then Inserted(here, tombs, incoming, done + {x}, after[x := incoming[x]], count + 1)
      else Inserted(here, tombs, incoming, done + {x}, after, count)
  {
    var unseen := Unseen(here, tombs, done);
    UnseenOne(here, tombs, done, x);
    AddedKeys(here, incoming, unseen);
    AddedOne(here, incoming, unseen, x);
  }

  /** One row at a time, an attachment already here or tombstoned being passed over. */
  method InsertUnseen(here: map<Id, Attachment>, tombs: set<Tomb>, incoming: map<Id, Attachment>)
    returns (after: map<Id, Attachment>, count: nat)
    ensures var unseen := Unseen(here, tombs, incoming.Keys);
            after == Added(here, incoming, unseen) && count == |unseen|
  {
    after, count := here, 0;
    var todo := incoming.Keys;
    AddedNone(here, incoming);
    OthersThan(incoming.Keys);
    while todo != {}
      invariant todo <= incoming.Keys
      invariant Inserted(here, tombs, incoming, incoming.Keys - todo, after, count)
      decreases todo
    {
      var x :| x in todo;
      OneLess(incoming.Keys, todo, x);
      InsertOne(here, tombs, incoming, incoming.Keys - todo, after, count, x);
      if Tomb(AttachmentKind, x) !in tombs && x !in after {
        after := after[x := incoming[x]];
        count := count + 1;
      }
      todo := todo - {x};
    }
  }

  /** One of two users rows lives on, with the counters of both. */
  ghost predicate UserLivesOn(kept: UserRow, incoming: UserRow, local: UserRow, row: UserRow) {
    && row.email == kept.email && row.data == kept.data
    && forall k :: At(row.vv, k) == Max(At(incoming.vv, k), At(local.vv, k))
  }

  /** The larger total wins, then the larger fingerprint of the row, then the row that arrives. */
  ghost predicate PrefersUser(h: Hashes, incoming: UserRow, local: UserRow) {
    || Sum(incoming.vv) > Sum(local.vv)
    || (Sum(incoming.vv) == Sum(local.vv) && h.user(incoming) >= h.user(local))
  }

  /** The tables as the server updates them. */
  class NodeDb {
    const h: Hashes
    var accounts: map<Id, Account>
    var shared: map<Id, SharedVault>
    var attachments: map<Id, Attachment>
    var tombs: set<Tomb>
    var log: seq<Subject>

    function State(): Tables
      reads this
    {
      Tables(accounts, shared, attachments, tombs, log)
    }

    constructor (h: Hashes)
      ensures State() == Tables(map[], map[], map[], {}, []) && this.h == h
    {
      this.h := h;
      accounts, shared, attachments, tombs, log := map[], map[], map[], {}, [];
    }

    /** The trigger on attachments logs the account or shared vault concerned. */
    method InsertAttachments(incoming: map<Id, Attachment>, subject: Subject) returns (changed: bool)
      modifies this`attachments, this`log
      ensures var unseen := Unseen(old(attachments), tombs, incoming.Keys);
              && attachments == Added(old(attachments), incoming, unseen)
              && log == Logged(old(log), subject, |unseen|)
              && (changed <==> unseen != {})
    {
      var count: nat;
      attachments, count := InsertUnseen(attachments, tombs, incoming);
      log := Logged(log, subject, count);
      changed := count > 0;
    }

    method ApplyUser(id: Id, incoming: UserRow) returns (changed: bool)
      requires id in accounts
      modifies this`accounts, this`log
      ensures var user := ResolveUser(h, incoming, old(accounts[id].user));
              accounts == old(accounts)[id := old(accounts[id]).(user := user)]
      ensures changed <==> UserChanges(incoming, Some(old(accounts[id].user)))
      ensures log == Logged(old(log), AccountChanged(id), Count(changed))
      ensures var local, order := old(accounts[id].user), Compare(incoming.vv, old(accounts[id].user).vv);
              && (order == Newer ==> changed && accounts[id].user == incoming)
              && (order in {Older, Equal} ==> !changed && accounts[id].user == local)
              && (order == Concurrent ==>
                    var kept := if PrefersUser(h, incoming, local) then incoming else local;
                    changed && UserLivesOn(kept, incoming, local, accounts[id].user))
    {
      var local := accounts[id].user;
      MergeAt(incoming.vv, local.vv);
      var order := CompareVv(incoming.vv, local.vv);
      var take := order == Newer;
      if order == Concurrent {
        var side := PickWinner(incoming.vv, h.user(incoming), local.vv, h.user(local));
        take := side == A;
      }
      var merged := MergeVv(incoming.vv, local.vv);
      if take {
        var user := incoming.(vv := if order == Concurrent then merged else incoming.vv);
        accounts := accounts[id := accounts[id].(user := user)];
      } else if order == Concurrent {
        accounts := accounts[id := accounts[id].(user := local.(vv := merged))];
      }
      changed := take || order == Concurrent;
      log := Logged(log, AccountChanged(id), if changed then 1 else 0);
    }

    /** Inserts an unknown account's users row, or settles it against the local one. */
    method ApplyUserRow(b: AccountBundle) returns (changed: bool)
      modifies this`accounts, this`log
      ensures b.id in accounts
      ensures var local := Lookup(old(State()), b.id);
              && accounts == old(accounts)[b.id := WithUser(h, local, b)]
              && (changed <==> UserChanges(b.user, if local.Some? then Some(local.value.user) else None))
      ensures log == Logged(old(log), AccountChanged(b.id), Count(changed))
    {
      if b.id !in accounts {
        accounts := accounts[b.id := Account(b.user, NoVault, None)];
        log := Logged(log, AccountChanged(b.id), 1);
        changed := true;
      } else {
        changed := ApplyUser(b.id, b.user);
      }
    }

    method ApplyVault(id: Id, row: VaultRow, conflicts: map<Hash, Blob>) returns (changed: bool)
      requires id in accounts
      modifies this`accounts, this`log
      ensures var vault := Apply(h.blob, old(accounts[id].vault), Bundle(row, conflicts));
              accounts == old(accounts)[id := old(accounts[id]).(vault := vault)]
      ensures changed <==> VaultChanges(Some(row), old(accounts[id].vault))
      ensures log == Logged(old(log), AccountChanged(id), Count(changed))
    {
      var store := new VaultStore(id, h.blob);
      store.vault, store.conflicts := accounts[id].vault.vault, accounts[id].vault.conflicts;
      changed := store.ApplyBundle(Bundle(row, conflicts));
      accounts := accounts[id := accounts[id].(vault := store.State())];
      log := Logged(log, AccountChanged(id), Count(changed));
    }

    method ApplySubscription(id: Id, incoming: Option<Subscription>) returns (changed: bool)
      requires id in accounts
      modifies this`accounts, this`log
      ensures changed <==> SubscriptionChanges(incoming, old(accounts[id].subscription))
      ensures var local := old(accounts[id].subscription);
              changed <==> incoming.Some? && (local.Some? ==> incoming.value.updatedAt > local.value.updatedAt)
      ensures var subscription := if changed then incoming else old(accounts[id].subscription);
              accounts == old(accounts)[id := old(accounts[id]).(subscription := subscription)]
      ensures log == Logged(old(log), AccountChanged(id), Count(changed))
    {
      var local := accounts[id].subscription;
      changed := incoming.Some? && (local.None? || incoming.value.updatedAt > local.value.updatedAt);
      if changed {
        accounts := accounts[id := accounts[id].(subscription := incoming)];
      }
      log := Logged(log, AccountChanged(id), Count(changed));
    }

    /** The vault and subscription rows of a bundle, for an account that is known. */
    method ApplyVaultRows(b: AccountBundle) returns (changed: bool)
      requires b.id in accounts
      modifies this`accounts, this`log
      ensures accounts == old(accounts)[b.id := WithRows(h, old(accounts[b.id]), b)]
      ensures var mine := old(accounts[b.id]);
              var writes :=
                Count(VaultChanges(b.vault, mine.vault))
                  + Count(SubscriptionChanges(b.subscription, mine.subscription));
              log == Logged(old(log), AccountChanged(b.id), writes) && (changed <==> writes > 0)
    {
      ghost var was := log;
      var vaultChanged := false;
      if b.vault.Some? {
        vaultChanged := ApplyVault(b.id, b.vault.value, b.conflicts);
      }
      var subscriptionChanged := ApplySubscription(b.id, b.subscription);
      LoggedTwice(was, AccountChanged(b.id), Count(vaultChanged), Count(subscriptionChanged));
      changed := vaultChanged || subscriptionChanged;
    }

    /** The user, vault and subscription rows of a bundle. */
    method ApplyRows(b: AccountBundle) returns (changed: bool)
      modifies this`accounts, this`log
      ensures accounts == old(accounts)[b.id := ResolveAccount(h, Lookup(old(State()), b.id), b)]
      ensures log == Logged(old(log), AccountChanged(b.id), RowWrites(Lookup(old(State()), b.id), b))
      ensures changed <==> RowWrites(Lookup(old(State()), b.id), b) > 0
    {
      ghost var was, local := log, Lookup(State(), b.id);
      var userChanged := ApplyUserRow(b);
      ghost var known := accounts[b.id];
      var rowsChanged := ApplyVaultRows(b);
      RowsResolve(h, local, b, known);
      RowsLogged(was, local, b, known, userChanged);
      changed := userChanged || rowsChanged;
    }

    method ApplyAccount(b: AccountBundle) returns (outcome: Outcome)
      modifies this
      ensures State() == ApplyAccountBundle(h, old(State()), b)
      ensures outcome == AccountOutcome(old(State()), b)
    {
      ghost var was := State();
      if Tomb(AccountKind, b.id) in tombs { return Refused; }
      if b.id !in accounts {
        if exists x :: x in accounts && accounts[x].user.email == b.user.email { return SameEmail; }
      }
      var changed := ApplyRows(b);
      var rows := OwnRows(b);
      assert rows.Keys == b.attachments;
      var added := InsertAttachments(rows, AccountChanged(b.id));
      LoggedTwice(was.log, AccountChanged(b.id), RowWrites(Lookup(was, b.id), b), |Fresh(was, b.attachments)|);
      return Applied(changed || added);
    }

    method ApplyShared(b: SharedBundle) returns (outcome: Outcome)
      modifies this
      ensures State() == ApplySharedBundle(h, old(State()), b)
      ensures outcome == SharedOutcome(h, old(State()), b)
    {
      if Tomb(SharedKind, b.id) in tombs { return Refused; }
      var absent := Absent(State(), b);
      if absent != {} { return NeedsAccounts(absent); }
      if Tomb(AccountKind, b.owner) in tombs { return Refused; }
      var unseen := Fresh(State(), b.attachments.Keys);
      if exists x :: x in unseen && b.attachments[x] !in accounts { return RolledBack; }
      var changed := ApplySharedRows(b);
      return Applied(changed);
    }

    method ApplySharedRows(b: SharedBundle) returns (changed: bool)
      modifies this`shared, this`attachments, this`log
      ensures State() == WithShared(h, old(State()), b)
      ensures var db := old(State());
              changed <==> Decide(h.blob, SharedReplica(db, b.id), b.row).changed || Fresh(db, b.attachments.Keys) != {}
    {
      ghost var was := State();
      var decision := ApplySharedRow(b);
      var rows := SharedRows(b);
      assert rows.Keys == b.attachments.Keys;
      var added := InsertAttachments(rows, SharedChanged(b.id));
      LoggedTwice(was.log, SharedChanged(b.id), Count(decision.changed), |Fresh(was, b.attachments.Keys)|);
      changed := decision.changed || added;
    }

    method ApplySharedRow(b: SharedBundle) returns (decision: Decision)
      modifies this`shared, this`log
      ensures decision == Decide(h.blob, SharedReplica(old(State()), b.id), b.row)
      ensures shared == old(shared)[b.id := SharedVault(
                          if decision.taken || b.id !in old(shared) then b.owner else old(shared)[b.id].owner,
                          ResolveRow(h.blob, SharedReplica(old(State()), b.id), b.row))]
      ensures log == Logged(old(log), SharedChanged(b.id), Count(decision.changed))
    {
      var store := new VaultStore(b.id, h.blob);
      if b.id in shared {
        store.vault, store.conflicts := shared[b.id].vault.vault, shared[b.id].vault.conflicts;
      }
      decision := store.ApplyVaultRow(b.row);
      var owner := if decision.taken || b.id !in shared then b.owner else shared[b.id].owner;
      shared := shared[b.id := SharedVault(owner, store.State())];
      log := Logged(log, SharedChanged(b.id), Count(decision.changed));
    }

    /** Row by row, each leaving a tombstone. */
    method DeleteAttachmentRows(ids: set<Id>)
      requires ids <= attachments.Keys
      modifies this`attachments, this`tombs
      ensures attachments == old(attachments) - ids
      ensures tombs == old(tombs) + Tombs(AttachmentKind, ids)
    {
      var todo := ids;
      while todo != {}
        invariant todo <= ids
        invariant attachments == old(attachments) - (ids - todo)
        invariant tombs == old(tombs) + Tombs(AttachmentKind, ids - todo)
        decreases todo
      {
        var x :| x in todo;
        TombsAdd(AttachmentKind, ids - todo, x);
        attachments, tombs := attachments - {x}, tombs + {Tomb(AttachmentKind, x)};
        assert ids - (todo - {x}) == ids - todo + {x};
        todo := todo - {x};
      }
      assert ids - todo == ids;
    }

    /** Shared vaults go with their attachments. */
    method DeleteSharedRows(ids: set<Id>)
      requires ids <= shared.Keys
      modifies this`shared, this`attachments, this`tombs
      ensures shared == old(shared) - ids
      ensures attachments == old(attachments) - Inside(old(attachments), ids)
      ensures tombs == old(tombs) + Tombs(SharedKind, ids) + Tombs(AttachmentKind, Inside(old(attachments), ids))
    {
      var todo := ids;
      ghost var all := attachments;
      assert Inside(all, ids - todo) == {};
      while todo != {}
        invariant todo <= ids
        invariant shared == old(shared) - (ids - todo)
        invariant attachments == all - Inside(all, ids - todo)
        invariant tombs == old(tombs) + Tombs(SharedKind, ids - todo) + Tombs(AttachmentKind, Inside(all, ids - todo))
        decreases todo
      {
        var v :| v in todo;
        InsideAdd(all, ids - todo, v);
        TombsAdd(SharedKind, ids - todo, v);
        DeleteAttachmentRows(Inside(attachments, {v}));
        shared, tombs := shared - {v}, tombs + {Tomb(SharedKind, v)};
        assert ids - (todo - {v}) == ids - todo + {v};
        todo := todo - {v};
      }
      assert ids - todo == ids;
    }

    method DeleteAccountRow(id: Id)
      requires id in accounts
      modifies this
      ensures State() == Delete(old(State()), Tomb(AccountKind, id))
    {
      AccountGone(State(), id);
      log := Logged(log, AccountChanged(id), Count(accounts[id].subscription.Some?));
      DeleteSharedRows(OwnedShared(State(), id));
      DeleteAttachmentRows(OwnedBy(attachments, id));
      accounts, tombs := accounts - {id}, tombs + {Tomb(AccountKind, id)};
    }

    method DeleteSharedRow(id: Id)
      requires id in shared
      modifies this
      ensures State() == Delete(old(State()), Tomb(SharedKind, id))
    {
      SharedGone(State(), id);
      DeleteSharedRows({id});
      assert Tombs(SharedKind, {id}) == {Tomb(SharedKind, id)};
    }

    method DeleteAttachmentRow(id: Id)
      requires id in attachments
      modifies this
      ensures State() == Delete(old(State()), Tomb(AttachmentKind, id))
    {
      ghost var gone := Cascade(State(), Tomb(AttachmentKind, id));
      assert Ids(gone, AccountKind) == {} && Ids(gone, SharedKind) == {} && Ids(gone, AttachmentKind) == {id} by {
        assert Tomb(AttachmentKind, id) in gone;
      }
      assert Tombs(AttachmentKind, {id}) == {Tomb(AttachmentKind, id)};
      DeleteAttachmentRows({id});
    }

    /** The row goes with what hangs on it; the tombstone is kept even when there was no row. */
    method ApplyDeletion(t: Tomb)
      modifies this
      ensures State() == ApplyTombstone(old(State()), t)
    {
      NothingGone(State(), t);
      if t.kind == AccountKind && t.id in accounts {
        DeleteAccountRow(t.id);
      } else if t.kind == SharedKind && t.id in shared {
        DeleteSharedRow(t.id);
      } else if t.kind == AttachmentKind && t.id in attachments {
        DeleteAttachmentRow(t.id);
      }
      tombs := tombs + {t};
    }
  }
}
