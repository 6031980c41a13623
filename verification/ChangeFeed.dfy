/**
 The change log of a node and the page loop that reads it behind a cursor: GET /changes,
 compaction in syncNow, and the pages of syncPeer (server/src/cluster.ts).
 */
module ChangeFeed {
  import opened Collections
  import opened ClusterDb

  /** What a line of cluster_log is about: a live account or shared vault, or a deletion. */
  datatype Topic = Changed(subject: Subject) | Deleted(tomb: Tomb)

  datatype Entry = Entry(number: nat, topic: Topic)

  const PAGE := 200
  const MAX_PAGES := 1000

  /** Numbers come from an AUTOINCREMENT column: increasing, never reused. */
  predicate Sorted(log: seq<Entry>) {
    forall i, j :: 0 <= i < j < |log| ==> log[i].number < log[j].number
  }

  predicate Mentions(log: seq<Entry>, topic: Topic) {
    exists e :: e in log && e.topic == topic
  }

  /** The last entry of each topic, in order: what compaction keeps. */
  function Latest(log: seq<Entry>): seq<Entry> {
    if log == [] then []
    else if Mentions(log[1..], log[0].topic) then Latest(log[1..])
    else [log[0]] + Latest(log[1..])
  }

  /** WHERE seq > since. */
  function After(log: seq<Entry>, since: nat): seq<Entry> {
    if log == [] then []
    else if log[0].number > since then [log[0]] + After(log[1..], since)
    else After(log[1..], since)
  }

  /** One row per topic with its greatest number, by number: what a reader at `since` has left to see. */
  function Pending(log: seq<Entry>, since: nat): seq<Entry> {
    Latest(After(log, since))
  }

  function Select(entries: seq<Entry>, visible: Topic -> bool): seq<Entry> {
    if entries == [] then []
    else if visible(entries[0].topic) then [entries[0]] + Select(entries[1..], visible)
    else Select(entries[1..], visible)
  }

  function Head(log: seq<Entry>): nat {
    if log == [] then 0 else log[|log| - 1].number
  }

  datatype Page = Page(items: seq<Entry>, reached: nat, full: bool, head: nat)

  /** Answer to /changes: entries of another zone are dropped, the position moves past them all the same. */
  function Answer(log: seq<Entry>, since: nat, limit: int, visible: Topic -> bool): Page {
    var all := Pending(log, since);
    var page := all[..Min(|all|, Clamp(limit))];
    Page(Select(page, visible), if page == [] then since else page[|page| - 1].number, |page| == Clamp(limit),
         Head(log))
  }

  /** A limit of 0 reads as none given. */
  function Clamp(limit: int): nat {
    if limit == 0 then PAGE else Min(PAGE, Max(1, limit))
  }

  predicate IsAccount(e: Entry) {
    e.topic.Changed? && e.topic.subject.AccountChanged?
  }

  function Accounts(items: seq<Entry>): seq<Entry> {
    if items == [] then [] else if IsAccount(items[0]) then [items[0]] + Accounts(items[1..]) else Accounts(items[1..])
  }

  function Others(items: seq<Entry>): seq<Entry> {
    if items == [] then [] else if IsAccount(items[0]) then Others(items[1..]) else [items[0]] + Others(items[1..])
  }

  /** Accounts are pulled before the shared vaults that cite them; the order is otherwise kept. */
  function AccountsFirst(items: seq<Entry>): seq<Entry> {
    Accounts(items) + Others(items)
  }

  /* ── Facts about the log ───────────────────────────────────────────── */

  lemma SortedHead(log: seq<Entry>)
    requires Sorted(log) && log != []
    ensures Sorted(log[1..])
    ensures forall e :: e in log[1..] ==> log[0].number < e.number
    ensures forall e :: e in log <==> e == log[0] || e in log[1..]
  {}

  lemma {:induction false} LatestSubset(log: seq<Entry>)
    ensures forall e :: e in Latest(log) ==> e in log
    ensures Sorted(log) ==> Sorted(Latest(log))
  {
    if log != [] {
      LatestSubset(log[1..]);
      assert forall e :: e in log <==> e == log[0] || e in log[1..];
      if Sorted(log) { SortedHead(log); }
    }
  }

  lemma {:induction false} LatestMentions(log: seq<Entry>, t: Topic)
    ensures Mentions(Latest(log), t) <==> Mentions(log, t)
  {
    if log != [] {
      LatestMentions(log[1..], t);
      MentionsCons(log[0], log[1..], t);
      assert log == [log[0]] + log[1..];
      MentionsCons(log[0], Latest(log[1..]), t);
    }
  }

  lemma MentionsCons(e: Entry, rest: seq<Entry>, t: Topic)
    ensures Mentions([e] + rest, t) <==> e.topic == t || Mentions(rest, t)
  {
    assert e in [e] + rest;
    assert forall x :: x in [e] + rest <==> x == e || x in rest;
    if Mentions(rest, t) {
      var x :| x in rest && x.topic == t;
      assert x in [e] + rest;
    }
  }

  /** The entry with the greatest number of its topic survives compaction. */
  lemma {:induction false} LatestKeepsLast(log: seq<Entry>, e: Entry)
    requires Sorted(log) && e in log
    requires forall x :: x in log && x.topic == e.topic ==> x.number <= e.number
    ensures e in Latest(log)
  {
    SortedHead(log);
    if e != log[0] {
      LatestKeepsLast(log[1..], e);
    }
  }

  lemma {:induction false} AfterMembers(log: seq<Entry>, since: nat)
    ensures forall e :: e in After(log, since) <==> e in log && e.number > since
  {
    if log != [] {
      AfterMembers(log[1..], since);
      assert forall e :: e in log <==> e == log[0] || e in log[1..];
    }
  }

  lemma {:induction false} AfterSorted(log: seq<Entry>, since: nat)
    requires Sorted(log)
    ensures Sorted(After(log, since))
  {
    if log != [] {
      SortedHead(log);
      AfterSorted(log[1..], since);
      AfterMembers(log[1..], since);
    }
  }

  lemma {:induction false} AfterAll(log: seq<Entry>, since: nat)
    requires forall e :: e in log ==> e.number > since
    ensures After(log, since) == log
  {
    if log != [] {
      AfterAll(log[1..], since);
      assert log[0] in log;
    }
  }

  /** Selecting the recent entries and keeping the last of each topic can be done in either order. */
  lemma {:induction false} LatestAfter(log: seq<Entry>, since: nat)
    requires Sorted(log)
    ensures Latest(After(log, since)) == After(Latest(log), since)
  {
    if log != [] {
      SortedHead(log);
      if log[0].number > since {
        AfterAll(log, since);
        LatestSubset(log);
        AfterAll(Latest(log), since);
      } else {
        LatestAfter(log[1..], since);
        if !Mentions(log[1..], log[0].topic) {
          assert Latest(log)[1..] == Latest(log[1..]);
        }
      }
    }
  }

  lemma {:induction false} LatestIdempotent(log: seq<Entry>)
    ensures Latest(Latest(log)) == Latest(log)
  {
    if log != [] {
      LatestIdempotent(log[1..]);
      if !Mentions(log[1..], log[0].topic) {
        LatestMentions(log[1..], log[0].topic);
        var kept := Latest(log);
        assert kept[0] == log[0] && kept[1..] == Latest(log[1..]);
      }
    }
  }

  lemma {:induction false} LatestKeepsHead(log: seq<Entry>)
    ensures Head(Latest(log)) == Head(log)
  {
    if |log| > 1 {
      LatestKeepsHead(log[1..]);
      assert log[1] in log[1..];
      assert Mentions(log[1..], log[1].topic);
      LatestMentions(log[1..], log[1].topic);
    }
  }

  /** Compaction never shows: every page, for every position and limit, is the same before and after. */
  lemma CompactionInvisible(log: seq<Entry>, since: nat, limit: int, visible: Topic -> bool)
    requires Sorted(log)
    ensures Answer(Latest(log), since, limit, visible) == Answer(log, since, limit, visible)
  {
    LatestAfter(log, since);
    LatestSubset(log);
    LatestAfter(Latest(log), since);
    LatestIdempotent(log);
    LatestKeepsHead(log);
  }

  /** In a sorted log, going past the n-th entry leaves exactly the entries behind it. */
  lemma {:induction false} AfterDrops(log: seq<Entry>, n: nat)
    requires Sorted(log) && 0 < n <= |log|
    ensures After(log, log[n - 1].number) == log[n..]
  {
    var rest, since := log[1..], log[n - 1].number;
    assert Sorted(rest);
    if n == 1 {
      SortedHead(log);
      AfterAll(rest, since);
    } else {
      assert log[0].number <= log[n - 1].number;
      assert rest[n - 2] == log[n - 1];
      AfterDrops(rest, n - 1);
      assert rest[n - 1..] == log[n..];
    }
  }

  lemma {:induction false} AfterTwice(log: seq<Entry>, since: nat, later: nat)
    requires since <= later
    ensures After(After(log, since), later) == After(log, later)
  {
    if log != [] {
      AfterTwice(log[1..], since, later);
      if log[0].number > since {
        var kept := After(log, since);
        assert kept[0] == log[0] && kept[1..] == After(log[1..], since);
      }
    }
  }

  /** A page of n entries leaves the reader with the rest of what it had to see. */
  lemma PageAdvances(log: seq<Entry>, since: nat, n: nat)
    requires Sorted(log) && 0 < n <= |Pending(log, since)|
    ensures since < Pending(log, since)[n - 1].number
    ensures Pending(log, Pending(log, since)[n - 1].number) == Pending(log, since)[n..]
  {
    var all := Pending(log, since);
    LatestAfter(log, since);
    AfterMembers(log, since);
    AfterSorted(log, since);
    LatestSubset(After(log, since));
    assert all[n - 1] in all;
    var reached := all[n - 1].number;
    LatestAfter(log, reached);
    AfterTwice(Latest(log), since, reached);
    AfterDrops(all, n);
  }

  /* ── What the log, a compacted log and a page hold ──────────────────── */

  /** The entry is the last one of its topic. */
  predicate IsLast(log: seq<Entry>, e: Entry) {
    e in log && forall x :: x in log && x.topic == e.topic ==> x.number <= e.number
  }

  lemma {:induction false} LatestMembers(log: seq<Entry>, e: Entry)
    requires Sorted(log)
    ensures e in Latest(log) <==> IsLast(log, e)
  {
    if log != [] {
      SortedHead(log);
      LatestMembers(log[1..], e);
      if e == log[0] {
        LatestSubset(log[1..]);
        assert e !in log[1..];
        if Mentions(log[1..], e.topic) {
          var x :| x in log[1..] && x.topic == e.topic;
          assert x in log && x.number > e.number;
        }
      }
    }
  }

  lemma PendingMembers(log: seq<Entry>, since: nat, e: Entry)
    requires Sorted(log)
    ensures e in Pending(log, since) <==> IsLast(log, e) && since < e.number
  {
    LatestAfter(log, since);
    LatestMembers(log, e);
    LatestSubset(log);
    AfterMembers(Latest(log), since);
  }

  lemma {:induction false} SelectMembers(entries: seq<Entry>, visible: Topic -> bool)
    ensures forall e :: e in Select(entries, visible) <==> e in entries && visible(e.topic)
    ensures Sorted(entries) ==> Sorted(Select(entries, visible))
  {
    if entries != [] {
      assert forall e :: e in entries <==> e == entries[0] || e in entries[1..];
      SelectMembers(entries[1..], visible);
      if Sorted(entries) { SortedHead(entries); }
    }
  }

  /** In a sorted sequence a prefix holds what is numbered up to its end. */
  lemma PrefixMembers(all: seq<Entry>, n: nat, e: Entry)
    requires Sorted(all) && 0 < n <= |all|
    ensures e in all[..n] <==> e in all && e.number <= all[n - 1].number
  {
    if e in all && e.number <= all[n - 1].number {
      var i :| 0 <= i < |all| && all[i] == e;
      assert i < n;
      assert all[..n][i] == e;
    }
  }

  /**
   A page, told from the log: the last entries of the visible topics, from the position to where the
   page ends; a page that is not full ends after everything there is to see.
   */
  ghost predicate TellsLog(log: seq<Entry>, since: nat, visible: Topic -> bool, page: Page) {
    && Sorted(page.items) && since <= page.reached
    && (forall e :: e in page.items <==> IsLast(log, e) && since < e.number <= page.reached && visible(e.topic))
    && (!page.full ==> forall e :: e in log && since < e.number ==> e.number <= page.reached)
    && (forall e :: e in log ==> e.number <= page.head)
  }

  lemma PageTellsLog(log: seq<Entry>, since: nat, limit: int, visible: Topic -> bool)
    requires Sorted(log)
    ensures TellsLog(log, since, visible, Answer(log, since, limit, visible))
  {
    var all := Pending(log, since);
    var n := Min(|all|, Clamp(limit));
    var page := Answer(log, since, limit, visible);
    LatestAfter(log, since);
    AfterSorted(log, since);
    LatestSubset(After(log, since));
    SelectMembers(all[..n], visible);
    forall e ensures e in page.items <==> IsLast(log, e) && since < e.number <= page.reached && visible(e.topic) {
      PendingMembers(log, since, e);
      if n > 0 { PrefixMembers(all, n, e); }
    }
    if n > 0 { PendingMembers(log, since, all[n - 1]); }
    if !page.full {
      forall e | e in log && since < e.number ensures e.number <= page.reached {
        LastCovers(log, since, e);
        var last :| last in all && last.topic == e.topic && e.number <= last.number;
        PrefixMembers(all, n, last);
      }
    }
  }

  /** A page passes as many pending entries as are asked for, or all there are. */
  lemma PageSize(log: seq<Entry>, since: nat, limit: int, visible: Topic -> bool)
    requires Sorted(log)
    ensures var page := Answer(log, since, limit, visible);
            && |Pending(log, since)| - |Pending(log, page.reached)| == Min(|Pending(log, since)|, Clamp(limit))
            && (page.full <==> Min(|Pending(log, since)|, Clamp(limit)) == Clamp(limit))
  {
    var n := Min(|Pending(log, since)|, Clamp(limit));
    if n > 0 { PageAdvances(log, since, n); }
  }

  /* ── What the page loop applies ────────────────────────────────────── */

  /** The part of the pending entries that the page of this rank covers. */
  function Slice(pending: seq<Entry>, rank: nat): seq<Entry> {
    pending[Min(|pending|, rank * PAGE)..Min(|pending|, rank * PAGE + PAGE)]
  }

  /** Visible entries of the first pages, in the order they are applied page by page. */
  function Served(pending: seq<Entry>, pages: nat, visible: Topic -> bool): seq<Entry> {
    if pages == 0 then []
    else Served(pending, pages - 1, visible) + AccountsFirst(Select(Slice(pending, pages - 1), visible))
  }

  lemma {:induction false} AccountsMembers(items: seq<Entry>)
    ensures forall e :: e in Accounts(items) <==> e in items && IsAccount(e)
    ensures forall e :: e in Others(items) <==> e in items && !IsAccount(e)
    ensures Sorted(items) ==> Sorted(Accounts(items)) && Sorted(Others(items))
  {
    if items != [] {
      assert forall e :: e in items <==> e == items[0] || e in items[1..];
      AccountsMembers(items[1..]);
      if Sorted(items) { SortedHead(items); }
    }
  }

  /** Each entry once, and in the order of the log, but for accounts that go before other entries. */
  ghost predicate InTurn(applied: seq<Entry>) {
    forall i, j :: 0 <= i < j < |applied| ==>
      applied[i].number < applied[j].number
      || (applied[i].number > applied[j].number && IsAccount(applied[i]) && !IsAccount(applied[j]))
  }

  lemma PageInTurn(items: seq<Entry>)
    requires Sorted(items)
    ensures InTurn(AccountsFirst(items))
    ensures forall e :: e in AccountsFirst(items) <==> e in items
  {
    AccountsMembers(items);
    var all, n := AccountsFirst(items), |Accounts(items)|;
    forall i, j | 0 <= i < j < |all|
      ensures all[i].number < all[j].number
              || (all[i].number > all[j].number && IsAccount(all[i]) && !IsAccount(all[j]))
    {
      if i < n <= j {
        assert all[i] in Accounts(items) && all[j] in Others(items);
        NumbersTell(items, all[i], all[j]);
      }
    }
  }

  lemma NumbersTell(items: seq<Entry>, a: Entry, b: Entry)
    requires Sorted(items) && a in items && b in items && a != b
    ensures a.number != b.number
  {
    var i :| 0 <= i < |items| && items[i] == a;
    var j :| 0 <= j < |items| && items[j] == b;
  }

  lemma LaterInTurn(before: seq<Entry>, page: seq<Entry>)
    requires InTurn(before) && InTurn(page)
    requires forall x, y :: x in before && y in page ==> x.number < y.number
    ensures InTurn(before + page)
  {
    var all := before + page;
    forall i, j | 0 <= i < j < |all|
      ensures all[i].number < all[j].number
              || (all[i].number > all[j].number && IsAccount(all[i]) && !IsAccount(all[j]))
    {
      if i < |before| <= j { assert all[i] in before && all[j] in page; }
    }
  }

  /** The visible entries among the first `n`, each in its turn. */
  ghost predicate HoldsFirst(pending: seq<Entry>, n: nat, visible: Topic -> bool, served: seq<Entry>)
    requires n <= |pending|
  {
    (forall e :: e in served <==> e in pending[..n] && visible(e.topic)) && InTurn(served)
  }

  lemma NumbersFollow(pending: seq<Entry>, a: nat, b: nat, x: Entry, y: Entry)
    requires Sorted(pending) && a <= b <= |pending| && x in pending[..a] && y in pending[a..b]
    ensures x.number < y.number
  {
    var i :| 0 <= i < a && pending[..a][i] == x;
    var j :| 0 <= j < b - a && pending[a..b][j] == y;
    assert pending[i] == x && pending[a + j] == y;
  }

  lemma MembersOfSlices(pending: seq<Entry>, a: nat, b: nat, e: Entry)
    requires a <= b <= |pending|
    ensures e in pending[..b] <==> e in pending[..a] || e in pending[a..b]
  {
    assert pending[..b] == pending[..a] + pending[a..b];
  }

  lemma SliceInTurn(pending: seq<Entry>, a: nat, b: nat, visible: Topic -> bool, before: seq<Entry>)
    requires Sorted(pending) && a <= b <= |pending| && HoldsFirst(pending, a, visible, before)
    ensures HoldsFirst(pending, b, visible, before + AccountsFirst(Select(pending[a..b], visible)))
  {
    var slice := pending[a..b];
    var page := AccountsFirst(Select(slice, visible));
    SelectMembers(slice, visible);
    PageInTurn(Select(slice, visible));
    forall x, y | x in before && y in page ensures x.number < y.number { NumbersFollow(pending, a, b, x, y); }
    LaterInTurn(before, page);
    forall e ensures e in before + page <==> e in pending[..b] && visible(e.topic) {
      MembersOfSlices(pending, a, b, e);
    }
  }

  lemma {:induction false} ServedMembers(pending: seq<Entry>, pages: nat, visible: Topic -> bool)
    requires Sorted(pending)
    ensures HoldsFirst(pending, Min(|pending|, pages * PAGE), visible, Served(pending, pages, visible))
  {
    if pages > 0 {
      ServedMembers(pending, pages - 1, visible);
      var a, b := Min(|pending|, (pages - 1) * PAGE), Min(|pending|, pages * PAGE);
      assert Slice(pending, pages - 1) == pending[a..b];
      SliceInTurn(pending, a, b, visible, Served(pending, pages - 1, visible));
    }
  }

  /** What is applied up to a position, told from the log. */
  lemma ServedTellsLog(log: seq<Entry>, cursor: nat, position: nat, pages: nat, visible: Topic -> bool)
    requires Sorted(log) && cursor <= position
    requires var pending := Pending(log, cursor);
             Pending(log, position) == pending[Min(|pending|, pages * PAGE)..]
    ensures var applied := Served(Pending(log, cursor), pages, visible);
            && (forall e :: e in applied <==> IsLast(log, e) && cursor < e.number <= position && visible(e.topic))
            && InTurn(applied)
  {
    var pending := Pending(log, cursor);
    var n := Min(|pending|, pages * PAGE);
    LatestAfter(log, cursor);
    AfterSorted(log, cursor);
    LatestSubset(After(log, cursor));
    ServedMembers(pending, pages, visible);
    forall e ensures e in pending[..n] <==> IsLast(log, e) && cursor < e.number <= position {
      PendingMembers(log, cursor, e);
      PendingMembers(log, position, e);
      SplitMembers(pending, n, e);
    }
  }

  lemma SplitMembers(all: seq<Entry>, n: nat, e: Entry)
    requires Sorted(all) && n <= |all|
    ensures e in all <==> e in all[..n] || e in all[n..]
    ensures e in all[..n] ==> e !in all[n..]
  {
    assert all == all[..n] + all[n..];
    if e in all[..n] {
      forall x | x in all[n..] ensures x != e {
        assert all[n..] == all[n..|all|];
        NumbersFollow(all, n, |all|, e, x);
      }
    }
  }

  /** Whatever is logged after the position has its topic's last entry pending. */
  lemma LastCovers(log: seq<Entry>, since: nat, e: Entry)
    requires Sorted(log) && e in log && since < e.number
    ensures exists last :: last in Pending(log, since) && last.topic == e.topic && e.number <= last.number
  {
    var later := After(log, since);
    AfterMembers(log, since);
    LatestMentions(later, e.topic);
    assert Mentions(later, e.topic);
    var last :| last in Latest(later) && last.topic == e.topic;
    PendingMembers(log, since, last);
  }

  /* ── The log and its reader, as the servers run them ───────────────── */

  class ChangeLog {
    var entries: seq<Entry>
    var last: nat

    ghost predicate Valid()
      reads this
    {
      Sorted(entries) && forall e :: e in entries ==> 0 < e.number <= last
    }

    constructor ()
      ensures Valid() && entries == []
    {
      entries, last := [], 0;
    }

    /** A trigger's INSERT. */
    method Append(topic: Topic)
      requires Valid()
      modifies this
      ensures Valid()
      ensures last == old(last) + 1 && entries == old(entries) + [Entry(last, topic)]
    {
      last := last + 1;
      entries := entries + [Entry(last, topic)];
    }

    /** DELETE of every entry that is not the last of its topic. */
    method Compact()
      requires Valid()
      modifies this
      ensures Valid() && last == old(last)
      ensures entries == Latest(old(entries))
      ensures forall e :: e in entries <==> IsLast(old(entries), e)
    {
      LatestSubset(entries);
      forall e ensures e in Latest(entries) <==> IsLast(entries, e) { LatestMembers(entries, e); }
      entries := Latest(entries);
    }

    method Changes(since: nat, limit: int, visible: Topic -> bool) returns (page: Page)
      requires Valid()
      ensures TellsLog(entries, since, visible, page)
      ensures page == Answer(entries, since, limit, visible)
      ensures var wanted := if limit == 0 || limit > 200 then 200 else if limit < 1 then 1 else limit;
              var passed := |Pending(entries, since)| - |Pending(entries, page.reached)|;
              passed == Min(|Pending(entries, since)|, wanted) && (page.full <==> passed == wanted)
      ensures if entries == [] then page.head == 0 else exists e :: e in entries && e.number == page.head
    {
      PageTellsLog(entries, since, limit, visible);
      PageSize(entries, since, limit, visible);
      page := Answer(entries, since, limit, visible);
    }
  }

  /** One turn of the loop: the page is the next slice, and what is left is the slices behind it. */
  lemma NextPage(log: seq<Entry>, pending: seq<Entry>, position: nat, rank: nat, visible: Topic -> bool)
    requires Sorted(log) && rank * PAGE <= |pending|
    requires Pending(log, position) == pending[rank * PAGE..]
    ensures var page := Answer(log, position, PAGE, visible);
            && page.items == Select(Slice(pending, rank), visible)
            && (page.full <==> rank * PAGE + PAGE <= |pending|)
            && Pending(log, Max(position, page.reached)) == pending[Min(|pending|, rank * PAGE + PAGE)..]
  {
    var left := Pending(log, position);
    var n := Min(|left|, PAGE);
    assert left[..n] == Slice(pending, rank);
    if n > 0 {
      PageAdvances(log, position, n);
      assert left[n..] == pending[Min(|pending|, rank * PAGE + PAGE)..];
    }
  }

  /** One request of the loop, and the cursor after its page has been applied. */
  method ReadPage(source: ChangeLog, cursor: nat, ghost pending: seq<Entry>, ghost rank: nat, visible: Topic -> bool)
    returns (items: seq<Entry>, position: nat, full: bool)
    requires source.Valid() && InLoop(source.entries, pending, cursor, rank, true)
    ensures cursor <= position
    ensures items == Select(Slice(pending, rank), visible)
    ensures InLoop(source.entries, pending, position, rank + 1, full)
  {
    NextPage(source.entries, pending, cursor, rank, visible);
    var page := source.Changes(cursor, PAGE, visible);
    items, position, full := page.items, Max(cursor, page.reached), page.full;
  }

  /**
   The page loop of syncPeer against a source that does not change meanwhile: with k pending
   entries it asks for k / PAGE + 1 pages (MAX_PAGES at most), applies every visible entry once, in
   order, and leaves nothing above the cursor unless the page cap was reached.
   */
  method SyncPeer(source: ChangeLog, cursor: nat, visible: Topic -> bool)
    returns (position: nat, pages: nat, applied: seq<Entry>)
    requires source.Valid()
    ensures var pending := Pending(source.entries, cursor);
            && pages == Min(|pending| / PAGE + 1, MAX_PAGES)
            && applied == Served(pending, pages, visible)
            && Pending(source.entries, position) == pending[Min(|pending|, PAGE * MAX_PAGES)..]
            && (|pending| < PAGE * MAX_PAGES ==> Pending(source.entries, position) == [])
    ensures cursor <= position
    ensures forall e ::
      e in applied <==> IsLast(source.entries, e) && cursor < e.number <= position && visible(e.topic)
    ensures InTurn(applied)
    ensures pages < MAX_PAGES ==> forall e :: e in source.entries && cursor < e.number ==> e.number <= position
  {
    position, pages, applied := cursor, 0, [];
    ghost var log, pending := source.entries, Pending(source.entries, cursor);
    var full := true;
    while pages < MAX_PAGES && full
      invariant pages <= MAX_PAGES && cursor <= position
      invariant InLoop(log, pending, position, pages, full)
      invariant applied == Served(pending, pages, visible)
      decreases MAX_PAGES - pages, full
    {
      var items;
      ghost var before := applied;
      items, position, full := ReadPage(source, position, pending, pages, visible);
      applied := applied + AccountsFirst(items);
      ServedNext(pending, pages, visible, before, items);
      pages := pages + 1;
    }
    PageCount(|pending|, pages, full);
    ServedTellsLog(log, cursor, position, pages, visible);
    if pages < MAX_PAGES { NothingLeft(log, cursor, position); }
  }

  lemma NothingLeft(log: seq<Entry>, cursor: nat, position: nat)
    requires Sorted(log) && Pending(log, position) == []
    ensures forall e :: e in log && cursor < e.number ==> e.number <= position
  {
    forall e | e in log && cursor < e.number ensures e.number <= position {
      if position < e.number { LastCovers(log, position, e); }
    }
  }

  /** Where the loop stands: more to ask for, or nothing left. */
  ghost predicate InLoop(log: seq<Entry>, pending: seq<Entry>, position: nat, pages: nat, full: bool) {
    if full then pages * PAGE <= |pending| && Pending(log, position) == pending[pages * PAGE..]
    else 0 < pages && pages * PAGE - PAGE <= |pending| < pages * PAGE && Pending(log, position) == []
  }

  lemma ServedNext(pending: seq<Entry>, rank: nat, visible: Topic -> bool, before: seq<Entry>, items: seq<Entry>)
    requires before == Served(pending, rank, visible) && items == Select(Slice(pending, rank), visible)
    ensures before + AccountsFirst(items) == Served(pending, rank + 1, visible)
  {}

  lemma PageCount(k: nat, pages: nat, full: bool)
    requires if full then pages == MAX_PAGES && pages * PAGE <= k
      else 0 < pages <= MAX_PAGES && pages * PAGE - PAGE <= k < pages * PAGE
    ensures pages == Min(k / PAGE + 1, MAX_PAGES)
    ensures if full then Min(k, PAGE * MAX_PAGES) == pages * PAGE else Min(k, PAGE * MAX_PAGES) == k
  {}
}
