/**
 One node pulling from another over any interleaving of writes, deletions and compaction at the
 source, local changes at the puller, page fetches, applications and pages abandoned half-way:
 everything the cursor has moved past has really been received (server/src/cluster.ts /changes,
 syncPeer and the log triggers).
 */
module CursorSoundness {
  import opened Collections
  import opened VersionVectors
  import opened VaultReplica
  import opened ClusterDb
  import opened ChangeFeed
  import Quiescence

  /** The answer to a request for one account: its bundle at that moment, or nothing (404). */
  datatype Held = Held(id: Id, bundle: Option<AccountBundle>)

  /** Items of the page left to apply, an answer not applied yet, and where the cursor goes in the end. */
  datatype Batch = Batch(items: seq<Entry>, held: Option<Held>, reached: nat)

  datatype Link = Link(source: Tables, log: seq<Entry>, last: nat, puller: Tables, cursor: nat, batch: Option<Batch>)

  datatype Event =
    | SourceWrites(id: Id, account: Account)      // a local write, or a bundle the source itself applied
    | SourceDeletes(tomb: Tomb, order: seq<Topic>) // rows gone, logged in the order the triggers fire
    | SourceCompacts
    | PullerWrites(id: Id, account: Account)
    | PullerDeletes(tomb: Tomb)
    | FetchPage(limit: int)
    | FetchBundle(index: nat)                     // the source answers for an account of the page
    | ApplyBundle                                 // the answer, however old, is applied
    | ApplyOther(index: nat)                      // a shared vault or a deletion of the page
    | FinishPage
    | AbandonPage

  /** Fixed surroundings: fingerprints, the accounts of this zone, and whose each address is. */
  datatype Setting = Setting(h: Hashes, zone: set<Id>, holder: string -> Id)

  function Visible(zone: set<Id>): Topic -> bool {
    (t: Topic) => t.Changed? && t.subject.AccountChanged? ==> t.subject.id in zone
  }

  /** Versions never go back: a write or a merge only raises the vectors of the rows there are. */
  predicate Grows(before: Option<Account>, after: Account) {
    before.Some? ==>
      && Below(before.value.user.vv, after.user.vv)
      && (before.value.vault.vault.Some? ==> after.vault.vault.Some?)
      && Below(Vv(before.value.vault), Vv(after.vault))
  }

  /** A row may be written unless it was deleted; addresses are unique across the cluster. */
  predicate Writable(c: Setting, db: Tables, id: Id, account: Account) {
    Tomb(AccountKind, id) !in db.tombs && c.holder(account.user.email) == id && Grows(Lookup(db, id), account)
  }

  function LogAll(log: seq<Entry>, last: nat, topics: seq<Topic>): seq<Entry> {
    log + seq(|topics|, (i: nat) requires i < |topics| => Entry(last + 1 + i, topics[i]))
  }

  /** What a deletion logs: each row gone, and the account itself if a subscription falls with it. */
  function DeletionTopics(db: Tables, t: Tomb): set<Topic> {
    var gone := set g | g in Cascade(db, t) :: Deleted(g);
    if t.kind == AccountKind && t.id in db.accounts && db.accounts[t.id].subscription.Some?
    then gone + {Changed(AccountChanged(t.id))} else gone
  }

  predicate IsAccountTopic(t: Topic) {
    t.Changed? && t.subject.AccountChanged?
  }

  /** Gone, or of another zone: 404. */
  function Ask(c: Setting, source: Tables, id: Id): Held {
    Held(id, if id in source.accounts && id in c.zone then Some(FetchAccount(source, id)) else None)
  }

  ghost function Receive(c: Setting, puller: Tables, held: Held): Tables {
    if held.bundle.Some? then ApplyAccountBundle(c.h, puller, held.bundle.value) else puller
  }

  function Without(items: seq<Entry>, i: nat): seq<Entry>
    requires i < |items|
  {
    items[..i] + items[i + 1..]
  }

  predicate AtItem(s: Link, i: nat, account: bool) {
    && s.batch.Some? && s.batch.value.held.None? && i < |s.batch.value.items|
    && IsAccountTopic(s.batch.value.items[i].topic) == account
  }

  ghost function Step(c: Setting, s: Link, e: Event): Link {
    match e
    case SourceWrites(id, account) =>
      if Writable(c, s.source, id, account)
      then s.(source := s.source.(accounts := s.source.accounts[id := account]),
              log := s.log + [Entry(s.last + 1, Changed(AccountChanged(id)))],
              last := s.last + 1)
      else s
    case SourceDeletes(t, order) =>
      if (set x | x in order) == DeletionTopics(s.source, t)
      then s.(source := Delete(s.source, t), log := LogAll(s.log, s.last, order), last := s.last + |order|)
      else s
    case SourceCompacts => s.(log := Latest(s.log))
    case PullerWrites(id, account) =>
      if Writable(c, s.puller, id, account) then s.(puller := s.puller.(accounts := s.puller.accounts[id := account]))
        else s
    case PullerDeletes(t) => s.(puller := Delete(s.puller, t))
    case FetchPage(limit) =>
      if s.batch.None? then
        var page := Answer(s.log, s.cursor, limit, Visible(c.zone));
        s.(batch := Some(Batch(page.items, None, page.reached)))
      else s
    case FetchBundle(i) =>
      if AtItem(s, i, true) then
        var b := s.batch.value;
        s.(batch := Some(Batch(Without(b.items, i), Some(Ask(c, s.source, b.items[i].topic.subject.id)), b.reached)))
      else s
    case ApplyBundle =>
      if s.batch.Some? && s.batch.value.held.Some?
      then s.(puller := Receive(c, s.puller, s.batch.value.held.value), batch := Some(s.batch.value.(held := None)))
      else s
    case ApplyOther(i) =>
      if AtItem(s, i, false) then
        var b := s.batch.value;
        s.(puller := if b.items[i].topic.Deleted? then ApplyTombstone(s.puller, b.items[i].topic.tomb) else s.puller,
           batch := Some(b.(items := Without(b.items, i))))
      else s
    case FinishPage =>
      if s.batch.Some? && s.batch.value.items == [] && s.batch.value.held.None?
      then s.(cursor := Max(s.cursor, s.batch.value.reached), batch := None) else s
    case AbandonPage => s.(batch := None)
  }

  ghost function Exec(c: Setting, s: Link, events: seq<Event>): Link
    decreases |events|
  {
    if events == [] then s else Exec(c, Step(c, s, events[0]), events[1..])
  }

  /** The topic is in the log and its latest entry is at most `bound`. */
  ghost predicate Quiet(log: seq<Entry>, topic: Topic, bound: nat) {
    Mentions(log, topic) && forall e :: e in log && e.topic == topic ==> e.number <= bound
  }

  predicate HasReceived(source: Account, puller: Account) {
    && Below(source.user.vv, puller.user.vv)
    && (source.vault.vault.Some? ==> puller.vault.vault.Some?)
    && Below(Vv(source.vault), Vv(puller.vault))
  }

  /** The puller is up to date about a topic. */
  ghost predicate Settled(zone: set<Id>, source: Tables, puller: Tables, topic: Topic) {
    match topic
    case Changed(AccountChanged(id)) =>
      id in zone && id in source.accounts && Tomb(AccountKind, id) !in puller.tombs ==>
        id in puller.accounts && HasReceived(source.accounts[id], puller.accounts[id])
    case Changed(SharedChanged(_)) => true
    case Deleted(t) => t in puller.tombs
  }

  predicate Remaining(items: seq<Entry>, topic: Topic) {
    exists e :: e in items && e.topic == topic
  }

  /** The bundle carries the account's rows. */
  predicate Carries(b: AccountBundle, id: Id, account: Account) {
    b.id == id && b.user == account.user && b.vault == account.vault.vault
      && (b.vault.Some? ==> b.conflicts == account.vault.conflicts)
  }

  /** The answer held is about this topic, and still what the source would answer. */
  predicate Current(zone: set<Id>, source: Tables, held: Option<Held>, topic: Topic) {
    && held.Some? && topic == Changed(AccountChanged(held.value.id))
    && (held.value.id in zone && held.value.id in source.accounts ==>
          held.value.bundle.Some? && Carries(held.value.bundle.value, held.value.id, source.accounts[held.value.id]))
  }

  /** On the page, in the answer held, or done. */
  ghost predicate Handled(zone: set<Id>, source: Tables, puller: Tables, b: Batch, topic: Topic) {
    Remaining(b.items, topic) || Current(zone, source, b.held, topic) || Settled(zone, source, puller, topic)
  }

  /** An answer held is about the account of its address. */
  predicate HeldAddress(c: Setting, held: Option<Held>) {
    held.Some? && held.value.bundle.Some? ==>
      held.value.bundle.value.id == held.value.id && c.holder(held.value.bundle.value.user.email) == held.value.id
  }

  predicate Numbered(log: seq<Entry>, last: nat) {
    Sorted(log) && forall e :: e in log ==> 0 < e.number <= last
  }

  predicate AddressesHeld(c: Setting, db: Tables) {
    forall id :: id in db.accounts ==> c.holder(db.accounts[id].user.email) == id
  }

  ghost predicate Good(c: Setting, s: Link) {
    && Numbered(s.log, s.last) && s.cursor <= s.last
    && AddressesHeld(c, s.source) && AddressesHeld(c, s.puller)
    && (forall t :: Quiet(s.log, t, s.cursor) ==> Settled(c.zone, s.source, s.puller, t))
    && (s.batch.Some? ==>
          && s.cursor <= s.batch.value.reached <= s.last && HeldAddress(c, s.batch.value.held)
          && forall t :: Quiet(s.log, t, s.batch.value.reached) ==>
            Handled(c.zone, s.source, s.puller, s.batch.value, t))
  }

  /* ── The puller only moves forward ─────────────────────────────────── */

  /** Every account of the puller keeps what it has, unless it becomes tombstoned. */
  ghost predicate Forward(before: Tables, after: Tables) {
    && before.tombs <= after.tombs
    && forall id :: id in before.accounts ==>
         Tomb(AccountKind, id) in after.tombs
           || (id in after.accounts && HasReceived(before.accounts[id], after.accounts[id]))
  }

  lemma SettledForward(zone: set<Id>, source: Tables, before: Tables, after: Tables, topic: Topic)
    requires Settled(zone, source, before, topic) && Forward(before, after)
    ensures Settled(zone, source, after, topic)
  {
    if topic.Changed? && topic.subject.AccountChanged? {
      var id := topic.subject.id;
      if id in zone && id in source.accounts && Tomb(AccountKind, id) !in after.tombs {
        var a, b, d := source.accounts[id], before.accounts[id], after.accounts[id];
        BelowTransitive(a.user.vv, b.user.vv, d.user.vv);
        BelowTransitive(Vv(a.vault), Vv(b.vault), Vv(d.vault));
      }
    }
  }

  lemma DeleteForward(c: Setting, db: Tables, t: Tomb)
    requires AddressesHeld(c, db)
    ensures Forward(db, Delete(db, t)) && Forward(db, ApplyTombstone(db, t))
    ensures AddressesHeld(c, Delete(db, t)) && AddressesHeld(c, ApplyTombstone(db, t))
    ensures forall id :: id in Delete(db, t).accounts ==>
      id in db.accounts && Delete(db, t).accounts[id] == db.accounts[id]
  {
    var gone := Cascade(db, t);
    forall id | id in db.accounts && id !in Delete(db, t).accounts ensures Tomb(AccountKind, id) in gone {
      assert id in Ids(gone, AccountKind);
    }
  }

  /** Applying any bundle of an account, however old, only moves the puller forward. */
  lemma BundleForward(c: Setting, puller: Tables, b: AccountBundle)
    requires AddressesHeld(c, puller) && c.holder(b.user.email) == b.id
    ensures Forward(puller, ApplyAccountBundle(c.h, puller, b)) && AddressesHeld(c, ApplyAccountBundle(c.h, puller, b))
  {
    if AccountOutcome(puller, b).Applied? {
      var local := Lookup(puller, b.id);
      KeepsAddress(c, b, local);
      if local.Some? { ResolvedReceives(c, b, local.value); }
    }
  }

  /** The account's rows after a bundle are at least as recent as before. */
  lemma ResolvedReceives(c: Setting, b: AccountBundle, mine: Account)
    ensures HasReceived(mine, ResolveAccount(c.h, Some(mine), b))
  {
    Quiescence.ResolveUserJoins(c.h, b.user, mine.user);
    if b.vault.Some? {
      ApplyJoinsVectors(c.h.blob, mine.vault, Bundle(b.vault.value, b.conflicts));
    }
  }

  /** And at least as recent as the bundle. */
  lemma ResolvedReceivesBundle(c: Setting, b: AccountBundle, local: Option<Account>, sent: Account)
    requires Carries(b, b.id, sent)
    ensures HasReceived(sent, ResolveAccount(c.h, local, b))
  {
    if local.Some? {
      Quiescence.ResolveUserJoins(c.h, b.user, local.value.user);
    }
    if b.vault.Some? {
      ApplyJoinsVectors(c.h.blob, if local.Some? then local.value.vault else NoVault,
                        Bundle(b.vault.value, b.conflicts));
    }
  }

  /** Applying what the source would answer now settles the account. */
  lemma BundleSettles(c: Setting, source: Tables, puller: Tables, b: AccountBundle)
    requires b.id in source.accounts && Carries(b, b.id, source.accounts[b.id])
    requires AddressesHeld(c, puller) && c.holder(b.user.email) == b.id
    ensures Settled(c.zone, source, ApplyAccountBundle(c.h, puller, b), Changed(AccountChanged(b.id)))
  {
    if Tomb(AccountKind, b.id) !in puller.tombs {
      assert !Homonym(puller, b);
      ResolvedReceivesBundle(c, b, Lookup(puller, b.id), source.accounts[b.id]);
    }
  }

  lemma KeepsAddress(c: Setting, b: AccountBundle, local: Option<Account>)
    requires c.holder(b.user.email) == b.id && (local.Some? ==> c.holder(local.value.user.email) == b.id)
    ensures c.holder(ResolveAccount(c.h, local, b).user.email) == b.id
  {}

  /* ── The log ───────────────────────────────────────────────────────── */

  lemma QuietBeforeAppend(log: seq<Entry>, more: seq<Entry>, topic: Topic, bound: nat)
    requires Quiet(log + more, topic, bound) && forall e :: e in more ==> bound < e.number
    ensures Quiet(log, topic, bound) && !Remaining(more, topic)
  {
    assert forall e :: e in log + more <==> e in log || e in more;
  }

  lemma QuietBeforeCompaction(log: seq<Entry>, topic: Topic, bound: nat)
    requires Sorted(log) && Quiet(Latest(log), topic, bound)
    ensures Quiet(log, topic, bound)
  {
    LatestMentions(log, topic);
    var e :| e in log && e.topic == topic;
    var last := LastOf(log, topic);
    LatestKeepsLast(log, last);
  }

  /** The entry of a topic with the greatest number. */
  lemma {:induction false} LastOf(log: seq<Entry>, topic: Topic) returns (last: Entry)
    requires Sorted(log) && Mentions(log, topic)
    ensures last in log && last.topic == topic
    ensures forall e :: e in log && e.topic == topic ==> e.number <= last.number
  {
    SortedHead(log);
    if Mentions(log[1..], topic) {
      last := LastOf(log[1..], topic);
    } else {
      last := log[0];
    }
  }

  /** A topic whose latest entry lies between the position and the end of the page is on the page. */
  lemma QuietIsOnPage(zone: set<Id>, log: seq<Entry>, since: nat, limit: int, topic: Topic)
    requires Sorted(log)
    requires var page := Answer(log, since, limit, Visible(zone));
             Quiet(log, topic, page.reached) && !Quiet(log, topic, since) && Visible(zone)(topic)
    ensures Remaining(Answer(log, since, limit, Visible(zone)).items, topic)
  {
    var e := LastOf(log, topic);
    assert e.number > since;
    LastIsPending(log, since, e);
    var page := Pending(log, since)[..Min(|Pending(log, since)|, Clamp(limit))];
    LatestAfter(log, since);
    AfterSorted(log, since);
    LatestSubset(After(log, since));
    InPrefix(Pending(log, since), |page|, e, since);
    SelectKeeps(page, Visible(zone), e);
  }

  lemma LastIsPending(log: seq<Entry>, since: nat, e: Entry)
    requires Sorted(log) && e in log && since < e.number
    requires forall x :: x in log && x.topic == e.topic ==> x.number <= e.number
    ensures e in Pending(log, since)
  {
    AfterMembers(log, since);
    AfterSorted(log, since);
    LatestKeepsLast(After(log, since), e);
  }

  /** An entry not above the last one of a prefix is in that prefix. */
  lemma InPrefix(all: seq<Entry>, n: nat, e: Entry, since: nat)
    requires Sorted(all) && e in all && n <= |all| && since < e.number
    requires e.number <= if n == 0 then since else all[n - 1].number
    ensures e in all[..n]
  {
    var i :| 0 <= i < |all| && all[i] == e;
    assert i < n;
    assert all[..n][i] == e;
  }

  lemma {:induction false} SelectKeeps(entries: seq<Entry>, visible: Topic -> bool, e: Entry)
    requires e in entries && visible(e.topic)
    ensures e in Select(entries, visible)
  {
    if entries[0] != e {
      SelectKeeps(entries[1..], visible, e);
    }
  }

  /** The cursor never runs ahead of the log, nor does a page stop before its starting point. */
  lemma PageRange(log: seq<Entry>, last: nat, since: nat, limit: int, visible: Topic -> bool)
    requires Numbered(log, last) && since <= last
    ensures since <= Answer(log, since, limit, visible).reached <= last
  {
    var all := Pending(log, since);
    var page := all[..Min(|all|, Clamp(limit))];
    if page != [] {
      AfterMembers(log, since);
      LatestSubset(After(log, since));
      assert page[|page| - 1] in all;
    }
  }

  /* ── Every step keeps the cursor sound ─────────────────────────────── */

  /** A source step that appends entries: only the topics it appends may change at the source. */
  lemma SourceStepKeepsGood(c: Setting, s: Link, t: Link, more: seq<Entry>)
    requires Good(c, s) && t == s.(source := t.source, log := s.log + more, last := t.last)
    requires s.last <= t.last && Numbered(t.log, t.last) && AddressesHeld(c, t.source)
    requires forall e :: e in more ==> s.last < e.number
    requires forall id :: id in t.source.accounts && !Remaining(more, Changed(AccountChanged(id))) ==>
               id in s.source.accounts && t.source.accounts[id] == s.source.accounts[id]
    ensures Good(c, t)
  {
    forall topic | Quiet(t.log, topic, t.cursor) ensures Settled(c.zone, t.source, t.puller, topic) {
      QuietBeforeAppend(s.log, more, topic, t.cursor);
    }
    if t.batch.Some? {
      var b := t.batch.value;
      forall topic | Quiet(t.log, topic, b.reached) ensures Handled(c.zone, t.source, t.puller, b, topic) {
        QuietBeforeAppend(s.log, more, topic, b.reached);
        assert Handled(c.zone, s.source, s.puller, b, topic);
      }
    }
  }

  /** A step of the puller alone. */
  lemma PullerStepKeepsGood(c: Setting, s: Link, t: Link)
    requires Good(c, s) && t == s.(puller := t.puller) && Forward(s.puller, t.puller) && AddressesHeld(c, t.puller)
    ensures Good(c, t)
  {
    forall topic | Settled(c.zone, s.source, s.puller, topic) ensures Settled(c.zone, t.source, t.puller, topic) {
      SettledForward(c.zone, s.source, s.puller, t.puller, topic);
    }
    if s.batch.Some? {
      forall topic | Handled(c.zone, s.source, s.puller, s.batch.value, topic)
        ensures Handled(c.zone, t.source, t.puller, t.batch.value, topic) {}
    }
  }

  lemma WriteForward(c: Setting, db: Tables, id: Id, account: Account)
    requires Writable(c, db, id, account) && AddressesHeld(c, db)
    ensures Forward(db, db.(accounts := db.accounts[id := account]))
    ensures AddressesHeld(c, db.(accounts := db.accounts[id := account]))
  {}

  lemma DeletionLogged(s: Link, order: seq<Topic>)
    requires Numbered(s.log, s.last)
    ensures var log := LogAll(s.log, s.last, order);
            && Numbered(log, s.last + |order|)
            && log[..|s.log|] == s.log
            && (forall e :: e in log[|s.log|..] ==> s.last < e.number)
  {
    var log := LogAll(s.log, s.last, order);
    forall i, j | 0 <= i < j < |log| ensures log[i].number < log[j].number {
      if i < |s.log| { assert log[i] in s.log; }
    }
    assert forall i :: |s.log| <= i < |log| ==> log[i].number == s.last + 1 + (i - |s.log|);
  }

  lemma FetchKeepsGood(c: Setting, s: Link, limit: int)
    requires Good(c, s)
    ensures Good(c, Step(c, s, FetchPage(limit)))
  {
    var t := Step(c, s, FetchPage(limit));
    if s.batch.None? {
      PageRange(s.log, s.last, s.cursor, limit, Visible(c.zone));
      var b := t.batch.value;
      forall topic | Quiet(t.log, topic, b.reached) ensures Handled(c.zone, t.source, t.puller, b, topic) {
        if !Quiet(s.log, topic, s.cursor) && Visible(c.zone)(topic) {
          QuietIsOnPage(c.zone, s.log, s.cursor, limit, topic);
        }
      }
    }
  }

  lemma RemainingWithout(items: seq<Entry>, i: nat, topic: Topic)
    requires i < |items| && Remaining(items, topic) && topic != items[i].topic
    ensures Remaining(Without(items, i), topic)
  {
    var e :| e in items && e.topic == topic;
    var j :| 0 <= j < |items| && items[j] == e;
    if j < i {
      assert Without(items, i)[j] == e;
    } else {
      assert Without(items, i)[j - 1] == e;
    }
  }

  lemma FetchBundleKeepsGood(c: Setting, s: Link, i: nat)
    requires Good(c, s) && AtItem(s, i, true)
    ensures Good(c, Step(c, s, FetchBundle(i)))
  {
    var t := Step(c, s, FetchBundle(i));
    var b, b' := s.batch.value, t.batch.value;
    forall topic | Quiet(t.log, topic, b'.reached) ensures Handled(c.zone, t.source, t.puller, b', topic) {
      assert Handled(c.zone, s.source, s.puller, b, topic);
      if topic == b.items[i].topic {
        assert Current(c.zone, t.source, b'.held, topic);
      } else if Remaining(b.items, topic) {
        RemainingWithout(b.items, i, topic);
      }
    }
  }

  /** The puller goes forward with one answer or deletion: what it was about is settled, the rest is left as it was. */
  lemma ProgressKeepsGood(c: Setting, s: Link, t: Link)
    requires Good(c, s) && s.batch.Some? && t.batch.Some?
    requires t == s.(puller := t.puller, batch := t.batch) && t.batch.value.reached == s.batch.value.reached
    requires t.batch.value.held.None?
    requires Forward(s.puller, t.puller) && AddressesHeld(c, t.puller)
    requires forall topic ::
      Handled(c.zone, s.source, s.puller, s.batch.value, topic) ==>
        Settled(c.zone, s.source, s.puller, topic) || Handled(c.zone, t.source, t.puller, t.batch.value, topic)
    ensures Good(c, t)
  {
    forall x | Settled(c.zone, s.source, s.puller, x) ensures Settled(c.zone, t.source, t.puller, x) {
      SettledForward(c.zone, s.source, s.puller, t.puller, x);
    }
  }

  lemma ApplyBundleKeepsGood(c: Setting, s: Link)
    requires Good(c, s) && s.batch.Some? && s.batch.value.held.Some?
    ensures Good(c, Step(c, s, ApplyBundle))
  {
    var t, held := Step(c, s, ApplyBundle), s.batch.value.held.value;
    if held.bundle.Some? {
      BundleForward(c, s.puller, held.bundle.value);
      if held.id in s.source.accounts && Carries(held.bundle.value, held.id, s.source.accounts[held.id]) {
        BundleSettles(c, s.source, s.puller, held.bundle.value);
      }
    } else {
      StandsStill(s.puller);
    }
    ProgressKeepsGood(c, s, t);
  }

  lemma StandsStill(db: Tables)
    ensures Forward(db, db)
  {}

  lemma ApplyOtherKeepsGood(c: Setting, s: Link, i: nat)
    requires Good(c, s) && AtItem(s, i, false)
    ensures Good(c, Step(c, s, ApplyOther(i)))
  {
    var t := Step(c, s, ApplyOther(i));
    var items := s.batch.value.items;
    var topic := items[i].topic;
    if topic.Deleted? { DeleteForward(c, s.puller, topic.tomb); } else { StandsStill(s.puller); }
    forall x | Remaining(items, x) ensures x == topic || Remaining(t.batch.value.items, x) {
      if x != topic { RemainingWithout(items, i, x); }
    }
    assert Settled(c.zone, t.source, t.puller, topic);
    ProgressKeepsGood(c, s, t);
  }

  lemma SourceKeepsGood(c: Setting, s: Link, e: Event)
    requires Good(c, s) && (e.SourceWrites? || e.SourceDeletes? || e.SourceCompacts?)
    ensures Good(c, Step(c, s, e))
  {
    var t := Step(c, s, e);
    match e
    case SourceWrites(id, account) =>
      if Writable(c, s.source, id, account) {
        SourceStepKeepsGood(c, s, t, [Entry(s.last + 1, Changed(AccountChanged(id)))]);
      }
    case SourceDeletes(tomb, order) =>
      if (set x | x in order) == DeletionTopics(s.source, tomb) {
        DeletionLogged(s, order);
        DeleteForward(c, s.source, tomb);
        assert t.log == s.log + t.log[|s.log|..];
        SourceStepKeepsGood(c, s, t, t.log[|s.log|..]);
      }
    case SourceCompacts =>
      LatestSubset(s.log);
      forall topic, bound | Quiet(t.log, topic, bound) ensures Quiet(s.log, topic, bound) {
        QuietBeforeCompaction(s.log, topic, bound);
      }
  }

  lemma FinishKeepsGood(c: Setting, s: Link)
    requires Good(c, s)
    ensures Good(c, Step(c, s, FinishPage))
  {
    if s.batch.Some? && s.batch.value.items == [] && s.batch.value.held.None? {
      forall topic | Quiet(s.log, topic, s.batch.value.reached) ensures Settled(c.zone, s.source, s.puller, topic) {
        assert Handled(c.zone, s.source, s.puller, s.batch.value, topic);
      }
    }
  }

  lemma StepKeepsGood(c: Setting, s: Link, e: Event)
    requires Good(c, s)
    ensures Good(c, Step(c, s, e))
  {
    var t := Step(c, s, e);
    match e
    case PullerWrites(id, account) =>
      if Writable(c, s.puller, id, account) {
        WriteForward(c, s.puller, id, account);
        PullerStepKeepsGood(c, s, t);
      }
    case PullerDeletes(tomb) =>
      DeleteForward(c, s.puller, tomb);
      PullerStepKeepsGood(c, s, t);
    case FetchPage(limit) => FetchKeepsGood(c, s, limit);
    case FetchBundle(i) => if AtItem(s, i, true) { FetchBundleKeepsGood(c, s, i); }
    case ApplyBundle => if s.batch.Some? && s.batch.value.held.Some? { ApplyBundleKeepsGood(c, s); }
    case ApplyOther(i) => if AtItem(s, i, false) { ApplyOtherKeepsGood(c, s, i); }
    case FinishPage => FinishKeepsGood(c, s);
    case AbandonPage =>
    case _ => SourceKeepsGood(c, s, e);
  }

  lemma {:induction false} ExecKeepsGood(c: Setting, s: Link, events: seq<Event>)
    requires Good(c, s)
    ensures Good(c, Exec(c, s, events))
    decreases |events|
  {
    if events != [] {
      StepKeepsGood(c, s, events[0]);
      ExecKeepsGood(c, Step(c, s, events[0]), events[1..]);
    }
  }

  lemma NothingQuietAtZero(log: seq<Entry>, last: nat, topic: Topic)
    requires Numbered(log, last)
    ensures !Quiet(log, topic, 0)
  {}

  /** A puller that has not read anything yet, whatever both servers hold. */
  predicate Begins(c: Setting, s: Link) {
    Numbered(s.log, s.last) && s.cursor == 0 && s.batch.None? && AddressesHeld(c, s.source)
      && AddressesHeld(c, s.puller)
  }

  /**
   Whatever happens on either side, an account of the zone whose latest log entry the cursor has
   passed is at least as recent on the puller as on the source, and a deletion whose log entry it
   has passed is known to the puller.
   */
  lemma CursorSound(c: Setting, start: Link, events: seq<Event>, id: Id, tomb: Tomb)
    requires Begins(c, start)
    ensures var s := Exec(c, start, events);
            && (Quiet(s.log, Changed(AccountChanged(id)), s.cursor)
                && id in c.zone && id in s.source.accounts && Tomb(AccountKind, id) !in s.puller.tombs ==>
                  id in s.puller.accounts && HasReceived(s.source.accounts[id], s.puller.accounts[id]))
            && (Quiet(s.log, Deleted(tomb), s.cursor) ==> tomb in s.puller.tombs)
  {
    forall t ensures !Quiet(start.log, t, start.cursor) {
      NothingQuietAtZero(start.log, start.last, t);
    }
    ExecKeepsGood(c, start, events);
    var s := Exec(c, start, events);
    if Quiet(s.log, Changed(AccountChanged(id)), s.cursor) {
      assert Settled(c.zone, s.source, s.puller, Changed(AccountChanged(id)));
    }
    if Quiet(s.log, Deleted(tomb), s.cursor) {
      assert Settled(c.zone, s.source, s.puller, Deleted(tomb));
    }
  }

  /** Once the page loop has nothing pending, every logged account of the zone has been received. */
  lemma CaughtUp(c: Setting, start: Link, events: seq<Event>, id: Id)
    requires Begins(c, start)
    requires var s := Exec(c, start, events);
             && Pending(s.log, s.cursor) == [] && Mentions(s.log, Changed(AccountChanged(id)))
             && id in c.zone && id in s.source.accounts && Tomb(AccountKind, id) !in s.puller.tombs
    ensures var s := Exec(c, start, events);
            id in s.puller.accounts && HasReceived(s.source.accounts[id], s.puller.accounts[id])
  {
    var s := Exec(c, start, events);
    AfterMembers(s.log, s.cursor);
    forall e | e in s.log ensures e.number <= s.cursor {
      if e.number > s.cursor {
        assert e in After(s.log, s.cursor);
        LatestMentions(After(s.log, s.cursor), e.topic);
      }
    }
    CursorSound(c, start, events, id, Tomb(AccountKind, id));
  }
}
