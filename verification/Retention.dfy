/**
 Backups to one destination: files first, the database copy last, then what is too old goes
 (server/src/backup.ts uploadTo and runNow, server/src/attachments.ts removeFiles). A run may be cut
 short after any single operation, and users keep adding and deleting files meanwhile.
 */
module Retention {
  import opened Collections

  type FileId = string

  /** A database copy at the destination: the files its rows refer to, when it was read, when it was written. */
  datatype Copy = Copy(refs: set<FileId>, taken: int, modified: int)

  /** A run under way: the snapshot it will upload, and how far it is. */
  datatype Phase =
    | Snapshotted
    | Sending(todo: set<FileId>)
    | Cleaning(cutoff: int, aged: set<nat>)

  datatype Run = Run(refs: set<FileId>, taken: int, phase: Phase)

  /**
   The live server (attachment rows, files on disk, the deleted_files table) and the destination.
   `history` remembers every deletion, beyond what the table keeps.
   */
  datatype State = State(
    now: int, rows: set<FileId>, disk: set<FileId>, deleted: map<FileId, int>, history: map<FileId, int>,
    files: set<FileId>, copies: map<nat, Copy>, run: Option<Run>)

  datatype Event =
    | Wait(elapsed: nat)
    | AddFile(file: FileId)
    | LeaveOrphan(file: FileId)          // the file was written, its row was not
    | DeleteFile(file: FileId)
    | BeginRun                           // databaseSnapshot
    | ListFiles                          // what is on disk and not at the destination
    | SendFile(file: FileId)
    | SendDatabase(key: nat, retention: nat)
    | DropCopy(key: nat)
    | PurgeFile(file: FileId)
    | StopRun                            // the end, or an interruption anywhere
    | ForgetDeletions(before: int)

  /** The newest copy always stays, whatever its age. */
  function OldCopies(copies: map<nat, Copy>, newest: nat, cutoff: int): set<nat> {
    set k | k in copies && k != newest && copies[k].modified < cutoff
  }

  function Step(s: State, e: Event): State {
    match e
    case Wait(elapsed) => s.(now := s.now + elapsed)
    case AddFile(f) =>
      if f in s.disk || f in s.history then s else s.(rows := s.rows + {f}, disk := s.disk + {f})
    case LeaveOrphan(f) =>
      if f in s.disk || f in s.history then s else s.(disk := s.disk + {f})
    case DeleteFile(f) =>
      if f in s.rows
      then s.(rows := s.rows - {f}, disk := s.disk - {f}, deleted := s.deleted[f := s.now],
              history := s.history[f := s.now])
      else s
    case BeginRun => if s.run.None? then s.(run := Some(Run(s.rows, s.now, Snapshotted))) else s
    case ListFiles =>
      if s.run.Some? && s.run.value.phase.Snapshotted?
      then s.(run := Some(s.run.value.(phase := Sending(s.disk - s.files)))) else s
    case SendFile(f) =>
      if s.run.Some? && s.run.value.phase.Sending? && f in s.run.value.phase.todo then
        // Reading a file deleted since the listing fails, and the run with it
        if f in s.disk
          then s.(files := s.files + {f}, run := Some(s.run.value.(phase := Sending(s.run.value.phase.todo - {f}))))
        else s.(run := None)
      else s
    case SendDatabase(k, retention) =>
      if s.run.Some? && s.run.value.phase == Sending({}) && k !in s.copies then
        var copies := s.copies[k := Copy(s.run.value.refs, s.run.value.taken, s.now)];
        var cutoff := s.now - retention;
        s.(copies := copies, run := Some(s.run.value.(phase := Cleaning(cutoff, OldCopies(copies, k, cutoff)))))
      else s
    case DropCopy(k) =>
      if s.run.Some? && s.run.value.phase.Cleaning? && k in s.run.value.phase.aged
      then s.(copies := s.copies - {k},
              run := Some(s.run.value.(phase := s.run.value.phase.(aged := s.run.value.phase.aged - {k}))))
      else s
    case PurgeFile(f) =>
      if s.run.Some? && s.run.value.phase.Cleaning? && s.run.value.phase.aged == {} && f in s.deleted
        && s.deleted[f] < s.run.value.phase.cutoff
      then s.(files := s.files - {f})
      else s
    case StopRun => s.(run := None)
    case ForgetDeletions(before) => s.(deleted := map f | f in s.deleted && s.deleted[f] >= before :: s.deleted[f])
  }

  function Exec(s: State, events: seq<Event>): State
    decreases |events|
  {
    if events == [] then s else Exec(Step(s, events[0]), events[1..])
  }

  function Start(now: int): State {
    State(now, {}, {}, map[], map[], {}, map[], None)
  }

  /** `f` was deleted between reading the database for a copy and writing the copy. */
  predicate DeletedMeanwhile(s: State, f: FileId, taken: int, modified: int) {
    f in s.history && taken <= s.history[f] <= modified
  }

  /** A file some snapshot refers to is still live, or was deleted after the snapshot. */
  predicate Accounted(s: State, refs: set<FileId>, taken: int) {
    forall f :: f in refs ==> f in s.rows || (f in s.history && taken <= s.history[f])
  }

  predicate CopyWhole(s: State, c: Copy) {
    forall f :: f in c.refs ==> f in s.files || DeletedMeanwhile(s, f, c.taken, c.modified)
  }

  predicate RunSound(s: State, r: Run) {
    && r.taken <= s.now && Accounted(s, r.refs, r.taken)
    && match r.phase
       case Snapshotted => true
       case Sending(todo) => forall f :: f in r.refs ==>
         f in s.files || f in todo || (f in s.history && r.taken <= s.history[f])
       case Cleaning(cutoff, aged) =>
         cutoff <= s.now && forall k :: k in s.copies ==> (k in aged <==> s.copies[k].modified < cutoff)
  }

  predicate Sound(s: State) {
    && s.rows <= s.disk && s.disk !! s.history.Keys
    && (forall f :: f in s.history ==> s.history[f] <= s.now)
    && (forall f :: f in s.deleted ==> f in s.history && s.deleted[f] == s.history[f])
    && (forall k :: k in s.copies ==> s.copies[k].taken <= s.copies[k].modified <= s.now)
    && (forall k :: k in s.copies ==> Accounted(s, s.copies[k].refs, s.copies[k].taken))
    && (forall k :: k in s.copies ==> CopyWhole(s, s.copies[k]))
    && (s.run.Some? ==> RunSound(s, s.run.value))
  }

  lemma DeletionKeepsSound(s: State, f: FileId)
    requires Sound(s)
    ensures Sound(Step(s, DeleteFile(f)))
  {
    var t := Step(s, DeleteFile(f));
    if f in s.rows {
      assert f !in s.history;
      forall k | k in t.copies ensures CopyWhole(t, t.copies[k]) && Accounted(t, t.copies[k].refs, t.copies[k].taken) {
        assert CopyWhole(s, s.copies[k]);
      }
    }
  }

  lemma SendDatabaseKeepsSound(s: State, k: nat, retention: nat)
    requires Sound(s)
    ensures Sound(Step(s, SendDatabase(k, retention)))
  {
    var t := Step(s, SendDatabase(k, retention));
    forall j | j in t.copies
      ensures CopyWhole(t, t.copies[j]) && Accounted(t, t.copies[j].refs, t.copies[j].taken)
    {
      if j in s.copies { assert CopyWhole(s, s.copies[j]) && Accounted(s, s.copies[j].refs, s.copies[j].taken); }
    }
  }

  /** A purged file is one that every remaining copy either does not refer to, or lost while it was being made. */
  lemma PurgeKeepsSound(s: State, f: FileId)
    requires Sound(s)
    ensures Sound(Step(s, PurgeFile(f)))
  {
    var t := Step(s, PurgeFile(f));
    if t != s {
      forall k | k in t.copies ensures CopyWhole(t, t.copies[k]) {
        assert CopyWhole(s, s.copies[k]);
        assert Accounted(s, s.copies[k].refs, s.copies[k].taken);
        assert f !in s.rows;
      }
    }
  }

  lemma OthersKeepSound(s: State, e: Event)
    requires Sound(s) && !e.DeleteFile? && !e.SendDatabase? && !e.PurgeFile? && !e.SendFile? && !e.AddFile?
    ensures Sound(Step(s, e))
  {
    var t := Step(s, e);
    forall k | k in t.copies
      ensures CopyWhole(t, t.copies[k]) && Accounted(t, t.copies[k].refs, t.copies[k].taken)
    {
      assert k in s.copies && CopyWhole(s, s.copies[k]) && Accounted(s, s.copies[k].refs, s.copies[k].taken);
    }
  }

  lemma MoreFilesKeepSound(s: State, e: Event)
    requires Sound(s) && (e.SendFile? || e.AddFile?)
    ensures Sound(Step(s, e))
  {
    var t := Step(s, e);
    forall k | k in t.copies
      ensures CopyWhole(t, t.copies[k]) && Accounted(t, t.copies[k].refs, t.copies[k].taken)
    {
      assert k in s.copies && CopyWhole(s, s.copies[k]) && Accounted(s, s.copies[k].refs, s.copies[k].taken);
    }
  }

  lemma StepKeepsSound(s: State, e: Event)
    requires Sound(s)
    ensures Sound(Step(s, e))
  {
    match e
    case DeleteFile(f) => DeletionKeepsSound(s, f);
    case SendDatabase(k, retention) => SendDatabaseKeepsSound(s, k, retention);
    case PurgeFile(f) => PurgeKeepsSound(s, f);
    case SendFile(_) => MoreFilesKeepSound(s, e);
    case AddFile(_) => MoreFilesKeepSound(s, e);
    case _ => OthersKeepSound(s, e);
  }

  lemma {:induction false} ExecKeepsSound(s: State, events: seq<Event>)
    requires Sound(s)
    ensures Sound(Exec(s, events))
    decreases |events|
  {
    if events != [] {
      StepKeepsSound(s, events[0]);
      ExecKeepsSound(Step(s, events[0]), events[1..]);
    }
  }

  /**
   In every run, whatever the retention and wherever runs stop: a database copy kept at the
   destination has every file it refers to there, except files their owner deleted while that very
   copy was being made, between the reading of the database and the writing of the copy.
   */
  lemma KeptCopiesAreComplete(now: int, events: seq<Event>, k: nat, f: FileId)
    requires var s := Exec(Start(now), events);
             k in s.copies && f in s.copies[k].refs
    ensures var s := Exec(Start(now), events);
            f in s.files || DeletedMeanwhile(s, f, s.copies[k].taken, s.copies[k].modified)
  {
    ExecKeepsSound(Start(now), events);
    var s := Exec(Start(now), events);
    assert CopyWhole(s, s.copies[k]);
  }

  /** The exception is real: a file deleted before the copy was written can be purged while the copy is kept. */
  lemma DeletionDuringRunMayLoseFile()
    ensures var s := Exec(Start(0), FirstHalf() + SecondHalf() + SecondRun());
            1 in s.copies && "f" in s.copies[1].refs && "f" !in s.files
  {
    FirstHalfLeaves();
    SecondHalfLeaves();
    SecondRunLeaves();
    ExecConcat(Start(0), FirstHalf() + SecondHalf(), SecondRun());
    ExecConcat(Start(0), FirstHalf(), SecondHalf());
  }

  function FirstHalf(): seq<Event> {
    [AddFile("f"), BeginRun, ListFiles, SendFile("f")]
  }

  function SecondHalf(): seq<Event> {
    [Wait(1), DeleteFile("f"), Wait(1), SendDatabase(1, 10), StopRun]
  }

  function SecondRun(): seq<Event> {
    [Wait(10), BeginRun, ListFiles, SendDatabase(2, 10), PurgeFile("f")]
  }

  function FileSent(): State {
    State(0, {"f"}, {"f"}, map[], map[], {"f"}, map[], Some(Run({"f"}, 0, Sending({}))))
  }

  function AfterFirstRun(): State {
    State(2, {}, {}, map["f" := 1], map["f" := 1], {"f"}, map[1 := Copy({"f"}, 0, 2)], None)
  }

  lemma FirstHalfLeaves()
    ensures Exec(Start(0), FirstHalf()) == FileSent()
  {
    var e, s0 := FirstHalf(), Start(0);
    var s1 := Step(s0, e[0]);
    assert s1.rows == {"f"} && s1.disk == {"f"};
    var s2 := Step(s1, e[1]);
    var s3 := Step(s2, e[2]);
    assert s3.run.value.phase.todo == {"f"};
    var s4 := Step(s3, e[3]);
    assert s4.files == {"f"} && s4.run.value.phase.todo == {};
    ExecSteps(s0, e, [s0, s1, s2, s3, s4]);
  }

  lemma SecondHalfLeaves()
    ensures Exec(FileSent(), SecondHalf()) == AfterFirstRun()
  {
    var e, s0 := SecondHalf(), FileSent();
    var s1 := Step(s0, e[0]);
    var s2 := Step(s1, e[1]);
    assert s2.rows == {} && s2.disk == {};
    var s3 := Step(s2, e[2]);
    var s4 := Step(s3, e[3]);
    assert s4.copies == map[1 := Copy({"f"}, 0, 2)];
    var s5 := Step(s4, e[4]);
    ExecSteps(s0, e, [s0, s1, s2, s3, s4, s5]);
  }

  lemma SecondRunLeaves()
    ensures Exec(AfterFirstRun(), SecondRun()).copies.Keys == {1, 2}
    ensures Exec(AfterFirstRun(), SecondRun()).copies[1] == Copy({"f"}, 0, 2)
    ensures Exec(AfterFirstRun(), SecondRun()).files == {}
  {
    var e, s0 := SecondRun(), AfterFirstRun();
    var s1 := Step(s0, e[0]);
    var s2 := Step(s1, e[1]);
    var s3 := Step(s2, e[2]);
    assert s3 == s1.(run := Some(Run({}, 12, Sending({})))) by {
      assert {} - {"f"} == {};
    }
    var s4 := Step(s3, e[3]);
    assert s4.run.value.phase == Cleaning(2, {});
    var s5 := Step(s4, e[4]);
    ExecSteps(s0, e, [s0, s1, s2, s3, s4, s5]);
  }

  lemma {:induction false} ExecConcat(s: State, a: seq<Event>, b: seq<Event>)
    ensures Exec(s, a + b) == Exec(Exec(s, a), b)
    decreases |a|
  {
    if a == [] {
      assert a + b == b;
    } else {
      ExecConcat(Step(s, a[0]), a[1..], b);
      assert (a + b)[1..] == a[1..] + b;
    }
  }

  lemma {:induction false} ExecSteps(s: State, events: seq<Event>, states: seq<State>)
    requires |states| == |events| + 1 && states[0] == s
    requires forall i :: 0 <= i < |events| ==> states[i + 1] == Step(states[i], events[i])
    ensures Exec(s, events) == states[|events|]
    decreases |events|
  {
    if events != [] {
      assert states[1] == Step(states[0], events[0]);
      ExecSteps(Step(s, events[0]), events[1..], states[1..]);
    }
  }

  /** The destination holds this very copy; another one under the same key would be newer. */
  predicate Keeps(s: State, k: nat, c: Copy) {
    k in s.copies && s.copies[k] == c
  }

  /** The file is at the destination, and its deletion, if it is remembered, is no older than the copy. */
  predicate Protected(s: State, c: Copy, f: FileId) {
    f in s.files && (f in s.deleted ==> s.deleted[f] >= c.modified)
  }

  predicate ProtectedWhileKept(s: State, k: nat, c: Copy, f: FileId) {
    if Keeps(s, k, c) then Protected(s, c, f) else c.modified < s.now
  }

  lemma StepKeepsProtected(s: State, e: Event, k: nat, c: Copy, f: FileId)
    requires Sound(s) && ProtectedWhileKept(s, k, c, f)
    ensures ProtectedWhileKept(Step(s, e), k, c, f)
  {
  }

  lemma {:induction false} ExecKeepsProtected(s: State, events: seq<Event>, k: nat, c: Copy, f: FileId)
    requires Sound(s) && ProtectedWhileKept(s, k, c, f)
    ensures ProtectedWhileKept(Exec(s, events), k, c, f)
    decreases |events|
  {
    if events != [] {
      StepKeepsSound(s, events[0]);
      StepKeepsProtected(s, events[0], k, c, f);
      ExecKeepsProtected(Step(s, events[0]), events[1..], k, c, f);
    }
  }

  /** The files of a listing, sent one after the other. */
  lemma {:induction false} SendingAll(s: State) returns (events: seq<Event>)
    requires s.run.Some? && s.run.value.phase.Sending? && s.run.value.phase.todo <= s.disk
    ensures Exec(s, events)
      == s.(files := s.files + s.run.value.phase.todo, run := Some(s.run.value.(phase := Sending({}))))
    decreases s.run.value.phase.todo
  {
    var todo := s.run.value.phase.todo;
    if todo == {} {
      events := [];
      assert s.files + todo == s.files;
    } else {
      var f :| f in todo;
      var t := Step(s, SendFile(f));
      var rest := SendingAll(t);
      events := [SendFile(f)] + rest;
      assert s.files + {f} + (todo - {f}) == s.files + todo;
    }
  }

  /** The old copies, dropped one after the other. */
  lemma {:induction false} DroppingAll(s: State) returns (events: seq<Event>)
    requires s.run.Some? && s.run.value.phase.Cleaning?
    ensures Exec(s, events)
      == s.(copies := s.copies - s.run.value.phase.aged,
            run := Some(s.run.value.(phase := s.run.value.phase.(aged := {}))))
    decreases s.run.value.phase.aged
  {
    var aged := s.run.value.phase.aged;
    if aged == {} {
      events := [];
      assert s.copies - aged == s.copies;
    } else {
      var k :| k in aged;
      var t := Step(s, DropCopy(k));
      var rest := DroppingAll(t);
      events := [DropCopy(k)] + rest;
      assert s.copies - {k} - (aged - {k}) == s.copies - aged;
    }
  }

  lemma {:induction false} UnusedKey(keys: set<nat>) returns (k: nat)
    ensures forall j :: j in keys ==> j < k
  {
    if keys == {} {
      k := 0;
    } else {
      var j :| j in keys;
      k := UnusedKey(keys - {j});
      if k <= j { k := j + 1; }
      assert forall i :: i in keys ==> i == j || i in keys - {j};
    }
  }

  /** A new run begins, whatever was under way, and sends the files that are missing. */
  lemma FilesSent(s: State) returns (events: seq<Event>, sent: State)
    ensures sent == Exec(s, events)
    ensures sent == s.(files := s.files + (s.disk - s.files), run := Some(Run(s.rows, s.now, Sending({}))))
  {
    var t1 := Step(s, StopRun);
    var t2 := Step(t1, BeginRun);
    var t3 := Step(t2, ListFiles);
    ExecSteps(s, [StopRun, BeginRun, ListFiles], [s, t1, t2, t3]);
    var rest := SendingAll(t3);
    events := [StopRun, BeginRun, ListFiles] + rest;
    ExecConcat(s, [StopRun, BeginRun, ListFiles], rest);
    sent := Exec(s, events);
  }

  /** It writes its copy with a cutoff at a given time, and drops the copies older than that. */
  lemma CopiesCleaned(s: State, cutoff: int) returns (events: seq<Event>, cleaned: State)
    requires s.run.Some? && s.run.value.phase == Sending({}) && cutoff <= s.now
    ensures cleaned == Exec(s, events)
    ensures cleaned.deleted == s.deleted && cleaned.files == s.files
    ensures cleaned.run.Some? && cleaned.run.value.phase == Cleaning(cutoff, {})
    ensures forall k :: k in s.copies && s.copies[k].modified >= cutoff ==> Keeps(cleaned, k, s.copies[k])
  {
    var key := UnusedKey(s.copies.Keys);
    var write := SendDatabase(key, s.now - cutoff);
    var t := Step(s, write);
    var rest := DroppingAll(t);
    events := [write] + rest;
    ExecSteps(s, [write], [s, t]);
    ExecConcat(s, [write], rest);
    cleaned := Exec(s, events);
  }

  /** A file deleted before the copy was written can be purged while the copy is kept. */
  lemma PurgeIsPossible(s: State, k: nat, f: FileId) returns (events: seq<Event>)
    requires Sound(s) && k in s.copies && f in s.deleted && s.deleted[f] < s.copies[k].modified
    ensures Keeps(Exec(s, events), k, s.copies[k]) && f !in Exec(s, events).files
  {
    var first, sent := FilesSent(s);
    var second, cleaned := CopiesCleaned(sent, s.copies[k].modified);
    ExecConcat(s, first, second);
    ExecSteps(cleaned, [PurgeFile(f)], [cleaned, Step(cleaned, PurgeFile(f))]);
    ExecConcat(s, first + second, [PurgeFile(f)]);
    events := first + second + [PurgeFile(f)];
  }

  /**
   Exactly which files a kept copy can still lose: from every reachable state, a file it refers to
   stays as long as the copy does, in every continuation, unless its deletion is on record and older
   than the writing of the copy.
   */
  lemma KeptCopyLosesExactly(now: int, past: seq<Event>, k: nat, f: FileId)
    requires var s := Exec(Start(now), past); k in s.copies && f in s.copies[k].refs && f in s.files
    ensures var s := Exec(Start(now), past);
            (forall events :: Keeps(Exec(s, events), k, s.copies[k]) ==> f in Exec(s, events).files)
            <==> !(f in s.deleted && s.deleted[f] < s.copies[k].modified)
  {
    ExecKeepsSound(Start(now), past);
    var s := Exec(Start(now), past);
    if f in s.deleted && s.deleted[f] < s.copies[k].modified {
      var events := PurgeIsPossible(s, k, f);
      assert Keeps(Exec(s, events), k, s.copies[k]) && f !in Exec(s, events).files;
    } else {
      forall events | Keeps(Exec(s, events), k, s.copies[k]) ensures f in Exec(s, events).files {
        ExecKeepsProtected(s, events, k, s.copies[k], f);
      }
    }
  }

  /** The event removes the file from the destination: its deletion is older than the cutoff of the run. */
  predicate Purges(s: State, e: Event, f: FileId) {
    && e == PurgeFile(f) && f in s.files && s.run.Some? && s.run.value.phase.Cleaning?
    && f in s.deleted && s.deleted[f] < s.run.value.phase.cutoff
  }

  lemma OnlyPurgeRemoves(s: State, e: Event, f: FileId)
    requires f in s.files && f !in Step(s, e).files
    ensures Purges(s, e, f)
  {}

  /** Only the purge of an expired deletion removes a file from the destination. */
  lemma {:induction false} FilesStay(s: State, events: seq<Event>, f: FileId)
    requires f in s.files && f !in Exec(s, events).files
    ensures exists i :: 0 <= i < |events| && Purges(Exec(s, events[..i]), events[i], f)
    decreases |events|
  {
    var t := Step(s, events[0]);
    if f in t.files {
      FilesStay(t, events[1..], f);
      var i :| 0 <= i < |events| - 1 && Purges(Exec(t, events[1..][..i]), events[1..][i], f);
      assert events[..i + 1][0] == events[0] && events[..i + 1][1..] == events[1..][..i];
      assert Exec(s, events[..i + 1]) == Exec(t, events[1..][..i]);
      assert Purges(Exec(s, events[..i + 1]), events[i + 1], f);
    } else {
      OnlyPurgeRemoves(s, events[0], f);
      assert events[..0] == [];
      assert Purges(Exec(s, events[..0]), events[0], f);
    }
  }

  /* ── The upload itself ─────────────────────────────────────────────── */

  /** The destination's objects as uploadTo changes them, operation by operation. */
  class Backup {
    var s: State

    constructor (s: State)
      ensures this.s == s
    {
      this.s := s;
    }

    /** One operation; `trace` records those done so far. */
    method Do(e: Event, ghost start: State, ghost trace: seq<Event>) returns (ghost after: seq<Event>)
      requires s == Exec(start, trace)
      modifies this
      ensures after == trace + [e]
      ensures s == Step(old(s), e) && s == Exec(start, after)
    {
      ExecConcat(start, trace, [e]);
      assert Exec(s, [e]) == Step(s, e);
      s := Step(s, e);
      after := trace + [e];
    }

    /** Files that are missing at the destination; with no budget left the run has been interrupted. */
    method SendFiles(budget: nat, ghost start: State, ghost trace: seq<Event>)
      returns (left: nat, ghost after: seq<Event>, done: bool)
      requires s == Exec(start, trace) && s.run.Some? && s.run.value.phase.Sending?
      requires s.run.value.phase.todo <= s.disk
      modifies this
      ensures s == Exec(start, after)
      ensures done ==>
        s == old(s).(files := old(s).files + old(s).run.value.phase.todo,
                     run := Some(old(s).run.value.(phase := Sending({}))))
    {
      left, after := budget, trace;
      var todo := s.run.value.phase.todo;
      ghost var was, all := s, todo;
      while todo != {}
        invariant s == Exec(start, after)
        invariant todo <= all
        invariant s.files == was.files + (all - todo)
        invariant s == was.(files := s.files, run := Some(was.run.value.(phase := Sending(todo))))
        decreases todo
      {
        if left == 0 { done := false; return; }
        var name :| name in todo;
        after := Do(SendFile(name), start, after);
        left, todo := left - 1, todo - {name};
      }
      assert s.files == was.files + all;
      done := true;
    }

    /** Copies older than the cutoff, but the newest. */
    method DropOld(budget: nat, ghost start: State, ghost trace: seq<Event>)
      returns (left: nat, ghost after: seq<Event>, done: bool)
      requires s == Exec(start, trace) && s.run.Some? && s.run.value.phase.Cleaning?
      modifies this
      ensures s == Exec(start, after)
      ensures done ==>
        var cleaning := old(s).run.value.phase;
        s == old(s).(copies := old(s).copies - cleaning.aged,
                     run := Some(old(s).run.value.(phase := Cleaning(cleaning.cutoff, {}))))
    {
      left, after := budget, trace;
      var aged := s.run.value.phase.aged;
      ghost var was, all := s, aged;
      assert was.copies - {} == was.copies;
      while aged != {}
        invariant s == Exec(start, after)
        invariant aged <= all
        invariant s.copies == was.copies - (all - aged)
        invariant s == was.(copies := s.copies,
                            run := Some(was.run.value.(phase := Cleaning(was.run.value.phase.cutoff, aged))))
        decreases aged
      {
        if left == 0 { done := false; return; }
        var k :| k in aged;
        after := Do(DropCopy(k), start, after);
        left, aged := left - 1, aged - {k};
      }
      assert all - aged == all;
      done := true;
    }

    /** Files users deleted before the cutoff. */
    method PurgeExpired(budget: nat, ghost start: State, ghost trace: seq<Event>)
      returns (ghost after: seq<Event>, done: bool)
      requires s == Exec(start, trace) && s.run.Some? && s.run.value.phase.Cleaning? && s.run.value.phase.aged == {}
      modifies this
      ensures s == Exec(start, after)
      ensures done ==> s == old(s).(files := old(s).files - Expired(old(s), old(s).run.value.phase.cutoff))
      ensures done ==> forall f :: f in s.files <==>
        f in old(s).files && !(f in old(s).deleted && old(s).deleted[f] < old(s).run.value.phase.cutoff)
    {
      after := trace;
      var left, expired := budget, Expired(s, s.run.value.phase.cutoff);
      ghost var was, all := s, expired;
      while expired != {}
        invariant s == Exec(start, after)
        invariant expired <= all
        invariant s.files == was.files - (all - expired)
        invariant s == was.(files := s.files)
        decreases expired
      {
        if left == 0 { done := false; return; }
        var f :| f in expired;
        after := Do(PurgeFile(f), start, after);
        left, expired := left - 1, expired - {f};
      }
      assert all - expired == all;
      done := true;
    }

    /**
     uploadTo, stopped after `budget` operations. Every state it can leave behind is that of one of
     the runs above; when it finishes, the destination has the new copy, the files of the listing, no
     copy older than the cutoff but the new one, and none of the expired deletions.
     */
    method UploadTo(key: nat, retention: nat, budget: nat) returns (finished: bool, ghost trace: seq<Event>)
      requires s.run.Some? && s.run.value.phase.Snapshotted? && key !in s.copies
      modifies this
      ensures s == Exec(old(s), trace)
      ensures finished ==>
                var cutoff := old(s).now - retention;
                var copies := old(s).copies[key := Copy(old(s).run.value.refs, old(s).run.value.taken, old(s).now)];
                && s.copies == copies - OldCopies(copies, key, cutoff)
                && s.files == (old(s).files + (old(s).disk - old(s).files)) - Expired(old(s), cutoff)
      ensures finished ==>
        var was, cutoff := old(s), old(s).now - retention;
        && (forall f :: f in s.files <==>
              (f in was.files || f in was.disk) && !(f in was.deleted && was.deleted[f] < cutoff))
        && (forall k :: k in s.copies <==> k == key || (k in was.copies && was.copies[k].modified >= cutoff))
        && s.copies[key] == Copy(was.run.value.refs, was.run.value.taken, was.now)
        && (forall k :: k in s.copies && k != key ==> s.copies[k] == was.copies[k])
    {
      ghost var start := s;
      trace := Do(ListFiles, start, []);
      var left;
      left, trace, finished := SendFiles(budget, start, trace);
      if !finished || left == 0 { return false, trace; }
      trace := Do(SendDatabase(key, retention), start, trace);
      left, trace, finished := DropOld(left - 1, start, trace);
      if !finished { return false, trace; }
      trace, finished := PurgeExpired(left, start, trace);
    }
  }

  function Expired(s: State, cutoff: int): set<FileId> {
    set f | f in s.deleted && s.deleted[f] < cutoff
  }
}
