/**
 Storage quotas: what an owner's files use plus what its pending uploads have reserved never
 exceeds its quota (server/src/attachments.ts usedBytes, reservedBytes and the routes that change
 them). Quotas and the owners of shared vaults are fixed.
 */
module Quota {
  import opened Collections

  type Id = string

  const UPLOAD_TTL := 24 * 3_600_000

  datatype Attachment = Attachment(owner: Id, vault: Option<Id>, size: nat)
  datatype Pending = Pending(owner: Id, quotaOwner: Id, vault: Option<Id>, size: nat, createdAt: int)

  datatype Store = Store(attachments: map<Id, Attachment>, uploads: map<Id, Pending>)

  /** Quota of each account, and owner of each shared vault. */
  datatype Setting = Setting(quota: Id -> nat, vaultOwner: map<Id, Id>)

  /** Who pays for a file: its owner, or the owner of the shared vault it sits in. */
  function Payer(c: Setting, owner: Id, vault: Option<Id>): Option<Id> {
    if vault.None? then Some(owner)
    else if vault.value in c.vaultOwner then Some(c.vaultOwner[vault.value])
    else None
  }

  function Charged(c: Setting, s: Store, o: Id): map<Id, nat> {
    map x | x in s.attachments && Payer(c, s.attachments[x].owner, s.attachments[x].vault) == Some(o)
      :: s.attachments[x].size
  }

  function Promised(s: Store, o: Id): map<Id, nat> {
    map x | x in s.uploads && s.uploads[x].quotaOwner == o :: s.uploads[x].size
  }

  ghost function UsedBytes(c: Setting, s: Store, o: Id): nat {
    Sum(Charged(c, s, o))
  }

  ghost function ReservedBytes(s: Store, o: Id): nat {
    Sum(Promised(s, o))
  }

  /** The check of both upload routes, for a file of `size` bytes. */
  ghost predicate Fits(c: Setting, s: Store, payer: Id, size: nat) {
    UsedBytes(c, s, payer) + ReservedBytes(s, payer) + size <= c.quota(payer)
  }

  function Stale(s: Store, now: int): set<Id> {
    set x | x in s.uploads && s.uploads[x].createdAt < now - UPLOAD_TTL
  }

  datatype Event =
    | UploadDirectly(id: Id, user: Id, vault: Option<Id>, size: nat)
    | StartUpload(id: Id, user: Id, vault: Option<Id>, size: nat, now: int)
    | SendChunk(id: Id)
    | CompleteUpload(id: Id)
    | CancelUpload(id: Id)
    | PurgeStale(now: int)
    | DeleteFile(id: Id)
    | DeleteVaultFiles(shared: Id)
    | DeleteUserFiles(user: Id)

  /** Identifiers are random: a new one is nowhere yet. */
  predicate NewId(s: Store, id: Id) {
    id !in s.attachments && id !in s.uploads
  }

  function OwnedFiles(c: Setting, s: Store, user: Id): set<Id> {
    set x | x in s.attachments
            && (s.attachments[x].owner == user
                || (s.attachments[x].vault.Some? && s.attachments[x].vault.value in c.vaultOwner
                    && c.vaultOwner[s.attachments[x].vault.value] == user))
  }

  ghost function Step(c: Setting, s: Store, e: Event): Store {
    match e
    case UploadDirectly(id, user, vault, size) =>
      var payer := Payer(c, user, vault);
      if NewId(s, id) && payer.Some? && size > 0 && Fits(c, s, payer.value, size)
      then s.(attachments := s.attachments[id := Attachment(user, vault, size)])
      else s
    case StartUpload(id, user, vault, size, now) =>
      var p := s.(uploads := s.uploads - Stale(s, now));
      var payer := Payer(c, user, vault);
      if NewId(p, id) && payer.Some? && size > 0 && Fits(c, p, payer.value, size)
      then p.(uploads := p.uploads[id := Pending(user, payer.value, vault, size, now)])
      else p
    case SendChunk(_) => s
    case CompleteUpload(id) =>
      if id in s.uploads && id !in s.attachments
      then Store(s.attachments[id := Attachment(s.uploads[id].owner, s.uploads[id].vault, s.uploads[id].size)],
                 s.uploads - {id})
      else s
    case CancelUpload(id) => s.(uploads := s.uploads - {id})
    case PurgeStale(now) => s.(uploads := s.uploads - Stale(s, now))
    case DeleteFile(id) => s.(attachments := s.attachments - {id})
    case DeleteVaultFiles(v) =>
      s.(attachments := s.attachments - set x | x in s.attachments && s.attachments[x].vault == Some(v))
    case DeleteUserFiles(user) => s.(attachments := s.attachments - OwnedFiles(c, s, user))
  }

  ghost function Exec(c: Setting, s: Store, events: seq<Event>): Store
    decreases |events|
  {
    if events == [] then s else Exec(c, Step(c, s, events[0]), events[1..])
  }

  /** Each pending upload is charged to whoever will pay for the file. */
  predicate Consistent(c: Setting, s: Store) {
    forall x :: x in s.uploads ==> Payer(c, s.uploads[x].owner, s.uploads[x].vault) == Some(s.uploads[x].quotaOwner)
  }

  ghost predicate WithinQuota(c: Setting, s: Store) {
    Consistent(c, s) && forall o :: UsedBytes(c, s, o) + ReservedBytes(s, o) <= c.quota(o)
  }

  /* ── How each change moves the two sums ────────────────────────────── */

  /** What is used and what is reserved go up by these amounts for one account, and by nothing for the others. */
  ghost predicate Raises(c: Setting, before: Store, after: Store, payer: Option<Id>, used: nat, reserved: nat) {
    forall o ::
      && UsedBytes(c, after, o) == UsedBytes(c, before, o) + (if payer == Some(o) then used else 0)
      && ReservedBytes(after, o) == ReservedBytes(before, o) + (if payer == Some(o) then reserved else 0)
  }

  /** One row counts for exactly its size; no row, for nothing. */
  lemma NothingStored(c: Setting, o: Id)
    ensures UsedBytes(c, Store(map[], map[]), o) == 0 && ReservedBytes(Store(map[], map[]), o) == 0
  {
    assert Charged(c, Store(map[], map[]), o) == map[];
    assert Promised(Store(map[], map[]), o) == map[];
  }

  lemma FileRaises(c: Setting, s: Store, id: Id, a: Attachment)
    requires id !in s.attachments
    ensures Raises(c, s, s.(attachments := s.attachments[id := a]), Payer(c, a.owner, a.vault), a.size, 0)
  {
    var t := s.(attachments := s.attachments[id := a]);
    forall o
      ensures UsedBytes(c, t, o) == UsedBytes(c, s, o) + (if Payer(c, a.owner, a.vault) == Some(o) then a.size else 0)
      ensures ReservedBytes(t, o) == ReservedBytes(s, o)
    {
      AddedFile(c, s, id, a, o);
      assert Promised(t, o) == Promised(s, o);
    }
  }

  lemma UploadRaises(c: Setting, s: Store, id: Id, p: Pending)
    requires id !in s.uploads
    ensures Raises(c, s, s.(uploads := s.uploads[id := p]), Some(p.quotaOwner), 0, p.size)
  {
    var t := s.(uploads := s.uploads[id := p]);
    forall o
      ensures UsedBytes(c, t, o) == UsedBytes(c, s, o)
      ensures ReservedBytes(t, o) == ReservedBytes(s, o) + (if p.quotaOwner == o then p.size else 0)
    {
      AddedUpload(s, id, p, o);
      assert Charged(c, t, o) == Charged(c, s, o);
    }
  }

  /** Deleting a file gives its size back to the one who paid for it. */
  lemma DeletionGivesBack(c: Setting, s: Store, id: Id)
    requires id in s.attachments
    ensures var a := s.attachments[id];
            Raises(c, Step(c, s, DeleteFile(id)), s, Payer(c, a.owner, a.vault), a.size, 0)
  {
    var a, rest := s.attachments[id], Step(c, s, DeleteFile(id));
    FileRaises(c, rest, id, a);
    assert rest.attachments[id := a] == s.attachments;
  }

  /** A shared vault's files are paid by its owner, others by their own; nobody pays in an unknown vault. */
  lemma WhoPays(c: Setting, user: Id, vault: Option<Id>)
    ensures vault == None ==> Payer(c, user, vault) == Some(user)
    ensures vault.Some? && vault.value in c.vaultOwner ==> Payer(c, user, vault) == Some(c.vaultOwner[vault.value])
    ensures vault.Some? && vault.value !in c.vaultOwner ==> Payer(c, user, vault) == None
  {}

  lemma AddedFile(c: Setting, s: Store, id: Id, a: Attachment, o: Id)
    requires id !in s.attachments
    ensures UsedBytes(c, s.(attachments := s.attachments[id := a]), o) ==
            UsedBytes(c, s, o) + if Payer(c, a.owner, a.vault) == Some(o) then a.size else 0
  {
    var t := s.(attachments := s.attachments[id := a]);
    if Payer(c, a.owner, a.vault) == Some(o) {
      SumInsert(Charged(c, s, o), id, a.size);
      assert Charged(c, t, o) == Charged(c, s, o)[id := a.size];
    } else {
      assert Charged(c, t, o) == Charged(c, s, o);
    }
  }

  lemma AddedUpload(s: Store, id: Id, p: Pending, o: Id)
    requires id !in s.uploads
    ensures ReservedBytes(s.(uploads := s.uploads[id := p]), o) ==
            ReservedBytes(s, o) + if p.quotaOwner == o then p.size else 0
  {
    var t := s.(uploads := s.uploads[id := p]);
    if p.quotaOwner == o {
      SumInsert(Promised(s, o), id, p.size);
      assert Promised(t, o) == Promised(s, o)[id := p.size];
    } else {
      assert Promised(t, o) == Promised(s, o);
    }
  }

  /** Taking rows away never raises either sum. */
  lemma FewerRows(c: Setting, s: Store, files: set<Id>, uploads: set<Id>, o: Id)
    ensures var t := Store(s.attachments - files, s.uploads - uploads);
            UsedBytes(c, t, o) <= UsedBytes(c, s, o) && ReservedBytes(t, o) <= ReservedBytes(s, o)
  {
    var t := Store(s.attachments - files, s.uploads - uploads);
    SumMonotone(Charged(c, t, o), Charged(c, s, o));
    SumMonotone(Promised(t, o), Promised(s, o));
  }

  /** Completion moves exactly the announced size from reserved to used for the one who pays, and nothing else. */
  lemma CompletionMovesSize(c: Setting, s: Store, id: Id, o: Id)
    requires Consistent(c, s) && id in s.uploads && id !in s.attachments
    ensures var t, up := Step(c, s, CompleteUpload(id)), s.uploads[id];
            var moved := if up.quotaOwner == o then up.size else 0;
            && UsedBytes(c, t, o) == UsedBytes(c, s, o) + moved
            && ReservedBytes(t, o) + moved == ReservedBytes(s, o)
  {
    var up := s.uploads[id];
    var rest := s.(uploads := s.uploads - {id});
    AddedUpload(rest, id, up, o);
    assert rest.uploads[id := up] == s.uploads;
    AddedFile(c, rest, id, Attachment(up.owner, up.vault, up.size), o);
    assert Charged(c, rest, o) == Charged(c, s, o);
    assert Promised(Step(c, s, CompleteUpload(id)), o) == Promised(rest, o);
  }

  lemma RemovalKeepsQuota(c: Setting, s: Store, files: set<Id>, uploads: set<Id>)
    requires WithinQuota(c, s)
    ensures WithinQuota(c, Store(s.attachments - files, s.uploads - uploads))
  {
    forall o ensures UsedBytes(c, Store(s.attachments - files, s.uploads - uploads), o)
                     + ReservedBytes(Store(s.attachments - files, s.uploads - uploads), o) <= c.quota(o)
    {
      FewerRows(c, s, files, uploads, o);
    }
  }

  lemma DirectUploadKeepsQuota(c: Setting, s: Store, id: Id, user: Id, vault: Option<Id>, size: nat)
    requires WithinQuota(c, s) && NewId(s, id)
    requires Payer(c, user, vault).Some? && Fits(c, s, Payer(c, user, vault).value, size)
    ensures WithinQuota(c, s.(attachments := s.attachments[id := Attachment(user, vault, size)]))
  {
    var t := s.(attachments := s.attachments[id := Attachment(user, vault, size)]);
    forall o ensures UsedBytes(c, t, o) + ReservedBytes(t, o) <= c.quota(o) {
      AddedFile(c, s, id, Attachment(user, vault, size), o);
      assert Promised(t, o) == Promised(s, o);
    }
  }

  lemma StartKeepsQuota(c: Setting, s: Store, id: Id, p: Pending)
    requires WithinQuota(c, s) && NewId(s, id)
    requires Payer(c, p.owner, p.vault) == Some(p.quotaOwner) && Fits(c, s, p.quotaOwner, p.size)
    ensures WithinQuota(c, s.(uploads := s.uploads[id := p]))
  {
    var t := s.(uploads := s.uploads[id := p]);
    forall o ensures UsedBytes(c, t, o) + ReservedBytes(t, o) <= c.quota(o) {
      AddedUpload(s, id, p, o);
      assert Charged(c, t, o) == Charged(c, s, o);
    }
  }

  lemma NoneRemoved<V>(m: map<Id, V>)
    ensures m - {} == m
  {}

  lemma UploadsLeaving(c: Setting, s: Store, uploads: set<Id>)
    requires WithinQuota(c, s)
    ensures WithinQuota(c, s.(uploads := s.uploads - uploads))
  {
    NoneRemoved(s.attachments);
    RemovalKeepsQuota(c, s, {}, uploads);
  }

  lemma FilesLeaving(c: Setting, s: Store, files: set<Id>)
    requires WithinQuota(c, s)
    ensures WithinQuota(c, s.(attachments := s.attachments - files))
  {
    NoneRemoved(s.uploads);
    RemovalKeepsQuota(c, s, files, {});
  }

  lemma CompletionKeepsQuota(c: Setting, s: Store, id: Id)
    requires WithinQuota(c, s) && id in s.uploads && id !in s.attachments
    ensures WithinQuota(c, Step(c, s, CompleteUpload(id)))
  {
    var t := Step(c, s, CompleteUpload(id));
    forall o ensures UsedBytes(c, t, o) + ReservedBytes(t, o) <= c.quota(o) {
      CompletionMovesSize(c, s, id, o);
    }
  }

  lemma StartUploadKeepsQuota(c: Setting, s: Store, e: Event)
    requires WithinQuota(c, s) && e.StartUpload?
    ensures WithinQuota(c, Step(c, s, e))
  {
    UploadsLeaving(c, s, Stale(s, e.now));
    var p := s.(uploads := s.uploads - Stale(s, e.now));
    var payer := Payer(c, e.user, e.vault);
    if NewId(p, e.id) && payer.Some? && e.size > 0 && Fits(c, p, payer.value, e.size) {
      StartKeepsQuota(c, p, e.id, Pending(e.user, payer.value, e.vault, e.size, e.now));
    }
  }

  lemma StepKeepsQuota(c: Setting, s: Store, e: Event)
    requires WithinQuota(c, s)
    ensures WithinQuota(c, Step(c, s, e))
  {
    match e
    case UploadDirectly(id, user, vault, size) =>
      if Step(c, s, e) != s { DirectUploadKeepsQuota(c, s, id, user, vault, size); }
    case StartUpload(_, _, _, _, _) => StartUploadKeepsQuota(c, s, e);
    case SendChunk(_) =>
    case CompleteUpload(id) =>
      if id in s.uploads && id !in s.attachments { CompletionKeepsQuota(c, s, id); }
    case CancelUpload(id) => UploadsLeaving(c, s, {id});
    case PurgeStale(now) => UploadsLeaving(c, s, Stale(s, now));
    case DeleteFile(id) => FilesLeaving(c, s, {id});
    case DeleteVaultFiles(v) => FilesLeaving(c, s, set x | x in s.attachments && s.attachments[x].vault == Some(v));
    case DeleteUserFiles(user) => FilesLeaving(c, s, OwnedFiles(c, s, user));
  }

  /** In every run, for every account: used + reserved never exceeds the quota. */
  lemma {:induction false} QuotaIsKept(c: Setting, s: Store, events: seq<Event>)
    requires WithinQuota(c, s)
    ensures WithinQuota(c, Exec(c, s, events))
    decreases |events|
  {
    if events != [] {
      StepKeepsQuota(c, s, events[0]);
      QuotaIsKept(c, Step(c, s, events[0]), events[1..]);
    }
  }

  lemma EmptyStoreWithinQuota(c: Setting)
    ensures WithinQuota(c, Store(map[], map[]))
  {
    forall o ensures UsedBytes(c, Store(map[], map[]), o) + ReservedBytes(Store(map[], map[]), o) <= c.quota(o) {
      NothingStored(c, o);
    }
  }

  /** So it does from an empty server on. */
  lemma QuotaHoldsFromTheStart(c: Setting, events: seq<Event>, o: Id)
    ensures var s := Exec(c, Store(map[], map[]), events); UsedBytes(c, s, o) + ReservedBytes(s, o) <= c.quota(o)
  {
    EmptyStoreWithinQuota(c);
    QuotaIsKept(c, Store(map[], map[]), events);
  }

  /** Dropping an upload frees what it had reserved, for its payer alone. */
  lemma CancelFrees(s: Store, id: Id, o: Id)
    ensures var t := s.(uploads := s.uploads - {id});
            ReservedBytes(s, o) == ReservedBytes(t, o)
              + if id in s.uploads && s.uploads[id].quotaOwner == o then s.uploads[id].size else 0
  {
    var t := s.(uploads := s.uploads - {id});
    if id in s.uploads {
      AddedUpload(t, id, s.uploads[id], o);
      assert t.uploads[id := s.uploads[id]] == s.uploads;
    } else {
      assert t.uploads == s.uploads;
    }
  }

  /* ── The tables, as the server updates them ────────────────────────── */

  class Files {
    const c: Setting
    var attachments: map<Id, Attachment>
    var uploads: map<Id, Pending>

    function State(): Store
      reads this
    {
      Store(attachments, uploads)
    }

    constructor (c: Setting)
      ensures State() == Store(map[], map[]) && this.c == c
    {
      this.c, attachments, uploads := c, map[], map[];
    }

    method CheckQuota(payer: Id, size: nat) returns (ok: bool)
      ensures ok <==> Fits(c, State(), payer, size)
      ensures ok <==> UsedBytes(c, State(), payer) + ReservedBytes(State(), payer) + size <= c.quota(payer)
    {
      var used := SumOf(Charged(c, State(), payer));
      var reserved := SumOf(Promised(State(), payer));
      ok := used + reserved + size <= c.quota(payer);
    }

    method PurgeStaleUploads(now: int)
      modifies this`uploads
      ensures State() == Step(c, old(State()), PurgeStale(now))
      ensures uploads == map x | x in old(uploads) && now - old(uploads)[x].createdAt <= 86_400_000 :: old(uploads)[x]
    {
      var stale := Stale(State(), now);
      ghost var all := stale;
      NoneRemoved(uploads);
      while stale != {}
        invariant stale <= all
        invariant uploads == old(uploads) - (all - stale)
        decreases stale
      {
        var id :| id in stale;
        uploads := uploads - {id};
        stale := stale - {id};
      }
      assert all - stale == all;
    }

    method Start(id: Id, user: Id, vault: Option<Id>, size: nat, now: int) returns (ok: bool)
      requires NewId(State(), id)
      modifies this`uploads
      ensures State() == Step(c, old(State()), StartUpload(id, user, vault, size, now))
      ensures ok <==> id in uploads
      ensures var kept := map x | x in old(uploads) && now - old(uploads)[x].createdAt <= 86_400_000 :: old(uploads)[x];
              var before, payer := Store(attachments, kept), Payer(c, user, vault);
              && (ok <==>
                    && size > 0 && payer.Some?
                    && UsedBytes(c, before, payer.value) + ReservedBytes(before, payer.value) + size
                       <= c.quota(payer.value))
              && Raises(c, before, State(), payer, 0, if ok then size else 0)
              && (!ok ==> uploads == kept)
              && (ok ==> uploads == kept[id := Pending(user, payer.value, vault, size, now)])
    {
      PurgeStaleUploads(now);
      ok := Reserve(id, user, vault, size, now);
    }

    /** Room is reserved for an upload if it fits. */
    method Reserve(id: Id, user: Id, vault: Option<Id>, size: nat, now: int) returns (ok: bool)
      requires NewId(State(), id)
      modifies this`uploads
      ensures var before, payer := old(State()), Payer(c, user, vault);
              && (ok <==>
                    && size > 0 && payer.Some?
                    && UsedBytes(c, before, payer.value) + ReservedBytes(before, payer.value) + size
                       <= c.quota(payer.value))
              && Raises(c, before, State(), payer, 0, if ok then size else 0)
              && (!ok ==> uploads == old(uploads))
              && (ok ==> uploads == old(uploads)[id := Pending(user, payer.value, vault, size, now)])
    {
      ghost var before := State();
      var payer := Payer(c, user, vault);
      if size == 0 || payer.None? { return false; }
      ok := CheckQuota(payer.value, size);
      if ok {
        UploadRaises(c, before, id, Pending(user, payer.value, vault, size, now));
        uploads := uploads[id := Pending(user, payer.value, vault, size, now)];
      }
    }

    method Put(id: Id, user: Id, vault: Option<Id>, size: nat) returns (ok: bool)
      requires NewId(State(), id)
      modifies this`attachments
      ensures State() == Step(c, old(State()), UploadDirectly(id, user, vault, size))
      ensures ok <==> id in attachments
      ensures var before, payer := old(State()), Payer(c, user, vault);
              && (ok <==>
                    && size > 0 && payer.Some?
                    && UsedBytes(c, before, payer.value) + ReservedBytes(before, payer.value) + size
                       <= c.quota(payer.value))
              && Raises(c, before, State(), payer, if ok then size else 0, 0)
              && (!ok ==> State() == before)
      ensures ok ==> attachments == old(attachments)[id := attachments[id]]
      ensures ok ==> attachments[id].owner == user && attachments[id].vault == vault && attachments[id].size == size
    {
      ghost var before := State();
      var payer := Payer(c, user, vault);
      if size == 0 || payer.None? { return false; }
      ok := CheckQuota(payer.value, size);
      if ok {
        FileRaises(c, before, id, Attachment(user, vault, size));
        attachments := attachments[id := Attachment(user, vault, size)];
      }
    }

    /**
     An upload whose part is whole (see Uploads); an unknown or expired one is refused. Its size moves
     from what its payer has reserved to what it uses, and nothing changes for the others.
     */
    method Complete(id: Id) returns (ok: bool)
      modifies this
      ensures State() == Step(c, old(State()), CompleteUpload(id))
      ensures ok <==> id in old(uploads) && id !in old(attachments)
      ensures ok && Consistent(c, old(State())) ==> forall o ::
                var moved := if old(uploads)[id].quotaOwner == o then old(uploads)[id].size else 0;
                && UsedBytes(c, State(), o) == UsedBytes(c, old(State()), o) + moved
                && ReservedBytes(State(), o) + moved == ReservedBytes(old(State()), o)
      ensures WithinQuota(c, old(State())) ==> WithinQuota(c, State())
    {
      ghost var was := State();
      ok := id in uploads && id !in attachments;
      if ok {
        var up := uploads[id];
        uploads := uploads - {id};
        attachments := attachments[id := Attachment(up.owner, up.vault, up.size)];
        if Consistent(c, was) {
          forall o { CompletionMovesSize(c, was, id, o); }
        }
      }
      if WithinQuota(c, was) { StepKeepsQuota(c, was, CompleteUpload(id)); }
    }

    /** The payer gets back exactly what was reserved; nothing else changes. */
    method Cancel(id: Id) returns (ok: bool)
      modifies this`uploads
      ensures State() == Step(c, old(State()), CancelUpload(id))
      ensures ok <==> id in old(uploads)
      ensures forall o :: ReservedBytes(old(State()), o) ==
                ReservedBytes(State(), o) + if ok && old(uploads)[id].quotaOwner == o then old(uploads)[id].size else 0
      ensures WithinQuota(c, old(State())) ==> WithinQuota(c, State())
    {
      ghost var was := State();
      ok := id in uploads;
      uploads := uploads - {id};
      forall o
        ensures ReservedBytes(was, o) == ReservedBytes(State(), o)
          + if ok && was.uploads[id].quotaOwner == o then was.uploads[id].size else 0
      {
        CancelFrees(was, id, o);
      }
      if WithinQuota(c, was) { StepKeepsQuota(c, was, CancelUpload(id)); }
    }

    /**
     Every file an account owns or pays for goes when the account is deleted: it uses nothing any more,
     and no other file is touched.
     */
    method DeleteUserAttachments(user: Id)
      modifies this`attachments
      ensures State() == Step(c, old(State()), DeleteUserFiles(user))
      ensures UsedBytes(c, State(), user) == 0
      ensures forall x :: x in attachments ==>
        x in old(attachments) && attachments[x] == old(attachments)[x] && attachments[x].owner != user
      ensures forall x :: x in old(attachments) && x !in attachments ==>
                old(attachments)[x].owner == user
                  || Payer(c, old(attachments)[x].owner, old(attachments)[x].vault) == Some(user)
      ensures WithinQuota(c, old(State())) ==> WithinQuota(c, State())
    {
      ghost var was := State();
      attachments := attachments - OwnedFiles(c, State(), user);
      assert Charged(c, State(), user) == map[];
      if WithinQuota(c, was) { StepKeepsQuota(c, was, DeleteUserFiles(user)); }
    }
  }
}
