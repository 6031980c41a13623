/**
 From wherever the interleavings of CursorSoundness have led, the puller can go on: a page can be
 finished, each round moves the cursor, and enough rounds bring everything (server/src/cluster.ts
 syncPeer).
 */
module PullRounds {
  import opened Collections
  import opened ClusterDb
  import opened ChangeFeed
  import opened CursorSoundness

  /** Only the puller, its cursor and its page moved. */
  predicate SourceStays(s: Link, t: Link) {
    t.source == s.source && t.log == s.log && t.last == s.last
  }

  lemma {:induction false} ExecConcat(c: Setting, s: Link, a: seq<Event>, b: seq<Event>)
    ensures Exec(c, s, a + b) == Exec(c, Exec(c, s, a), b)
    decreases |a|
  {
    if a == [] {
      assert a + b == b;
    } else {
      assert (a + b)[0] == a[0] && (a + b)[1..] == a[1..] + b;
      ExecConcat(c, Step(c, s, a[0]), a[1..], b);
    }
  }

  /** Events that take the first item of the page, and where they lead. */
  lemma FirstItemTaken(c: Setting, s: Link) returns (events: seq<Event>)
    requires s.batch.Some? && s.batch.value.held.None? && s.batch.value.items != []
    ensures var t, b := Exec(c, s, events), s.batch.value;
            && SourceStays(s, t) && t.cursor == s.cursor
            && t.batch == Some(Batch(b.items[1..], None, b.reached))
  {
    var b := s.batch.value;
    assert Without(b.items, 0) == b.items[1..];
    if IsAccountTopic(b.items[0].topic) {
      events := [FetchBundle(0), ApplyBundle];
      assert events[1..] == [ApplyBundle] && events[1..][1..] == [];
      var s1 := Step(c, s, FetchBundle(0));
      assert Exec(c, s1, [ApplyBundle]) == Step(c, s1, ApplyBundle);
    } else {
      events := [ApplyOther(0)];
      assert Exec(c, s, events) == Step(c, s, ApplyOther(0));
    }
  }

  lemma {:induction false} PageCanBeFinished(c: Setting, s: Link) returns (events: seq<Event>)
    requires s.batch.Some? && s.batch.value.held.None?
    ensures var t := Exec(c, s, events);
            SourceStays(s, t) && t.batch.None? && t.cursor == Max(s.cursor, s.batch.value.reached)
    decreases |s.batch.value.items|
  {
    if s.batch.value.items == [] {
      events := [FinishPage];
      assert Exec(c, s, events) == Step(c, s, FinishPage);
    } else {
      var first := FirstItemTaken(c, s);
      var rest := PageCanBeFinished(c, Exec(c, s, first));
      events := first + rest;
      ExecConcat(c, s, first, rest);
    }
  }

  /** A round asks for a page and applies it: `limit` entries fewer are pending, or none. */
  lemma RoundAdvances(c: Setting, s: Link, limit: nat) returns (events: seq<Event>)
    requires Sorted(s.log) && s.batch.None? && 1 <= limit <= PAGE
    ensures var t := Exec(c, s, events);
            && SourceStays(s, t) && t.batch.None? && s.cursor <= t.cursor
            && |Pending(t.log, t.cursor)| == Max(|Pending(s.log, s.cursor)| - limit, 0)
  {
    var s1 := Step(c, s, FetchPage(limit));
    var rest := PageCanBeFinished(c, s1);
    events := [FetchPage(limit)] + rest;
    assert events[1..] == rest;
    PageSize(s.log, s.cursor, limit, Visible(c.zone));
    PageTellsLog(s.log, s.cursor, limit, Visible(c.zone));
  }

  /** Enough rounds leave nothing pending, whatever was under way. */
  lemma {:induction false} RoundsCatchUp(c: Setting, s: Link) returns (events: seq<Event>)
    requires Sorted(s.log) && s.batch.None?
    ensures var t := Exec(c, s, events); SourceStays(s, t) && Pending(t.log, t.cursor) == []
    decreases |Pending(s.log, s.cursor)|
  {
    if Pending(s.log, s.cursor) == [] {
      events := [];
    } else {
      var first := RoundAdvances(c, s, PAGE);
      var rest := RoundsCatchUp(c, Exec(c, s, first));
      events := first + rest;
      ExecConcat(c, s, first, rest);
    }
  }

  lemma ReachableLogsAreSorted(c: Setting, start: Link, past: seq<Event>)
    requires Begins(c, start)
    ensures Sorted(Exec(c, start, past).log)
  {
    forall t ensures !Quiet(start.log, t, start.cursor) {
      NothingQuietAtZero(start.log, start.last, t);
    }
    ExecKeepsGood(c, start, past);
  }

  /**
   After every history, the puller can catch up without the source doing anything: then each logged
   account of its zone is at least as recent there, unless it was deleted there.
   */
  lemma PullerCanCatchUp(c: Setting, start: Link, past: seq<Event>) returns (future: seq<Event>)
    requires Begins(c, start)
    ensures var s, t := Exec(c, start, past), Exec(c, start, past + future);
            && SourceStays(s, t)
            && forall id :: id in c.zone && id in s.source.accounts && Mentions(s.log, Changed(AccountChanged(id)))
                            && Tomb(AccountKind, id) !in t.puller.tombs ==>
                 id in t.puller.accounts && HasReceived(s.source.accounts[id], t.puller.accounts[id])
  {
    var s := Exec(c, start, past);
    ReachableLogsAreSorted(c, start, past);
    var s1 := Step(c, s, AbandonPage);
    var rest := RoundsCatchUp(c, s1);
    future := [AbandonPage] + rest;
    assert future[1..] == rest;
    ExecConcat(c, start, past, future);
    var t := Exec(c, start, past + future);
    forall id | id in c.zone && id in s.source.accounts && Mentions(s.log, Changed(AccountChanged(id)))
                && Tomb(AccountKind, id) !in t.puller.tombs
      ensures id in t.puller.accounts && HasReceived(s.source.accounts[id], t.puller.accounts[id])
    {
      CaughtUp(c, start, past + future, id);
    }
  }
}
