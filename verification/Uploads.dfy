/**
 One resumable upload: chunks arrive late, twice, out of order or at the same time, the process may
 stop or the disk refuse bytes right after the row was advanced, and the file is reassembled exactly
 or not at all (server/src/attachments.ts, "Envoi par morceaux, avec reprise").
 */
module Uploads {
  import opened Collections

  type Byte = bv8
  type Bytes = seq<Byte>

  const CHUNK_BYTES := 4 * 1024 * 1024

  /** attachment_uploads: announced size and bytes counted so far. */
  datatype Row = Row(size: nat, received: nat)

  /**
   `part` is the temporary file, `stored` the final one, `attached` the attachments row. A ticket is
   the value of `received` that a chunk request read before waiting for its body; the requests still
   waiting hold theirs.
   */
  datatype Upload = Upload(row: Option<Row>, part: Option<Bytes>, stored: Option<Bytes>, attached: bool,
                           tickets: set<nat>)

  function OnDisk(u: Upload): Bytes {
    if u.part.Some? then u.part.value else []
  }

  /** ownUpload: after an abrupt stop the disk is right, not the row. */
  function Own(u: Upload): Upload {
    if u.row.Some? && |OnDisk(u)| < u.row.value.received
    then u.(row := Some(u.row.value.(received := |OnDisk(u)|)))
    else u
  }

  predicate AcceptsOffset(u: Upload, offset: nat) {
    Own(u).row.Some? && offset == Own(u).row.value.received
  }

  /** A chunk request that passed the offset check now waits for its body. */
  function Begin(u: Upload, offset: nat): Upload {
    if AcceptsOffset(u, offset) then Own(u).(tickets := u.tickets + {offset}) else Own(u)
  }

  /** The row is advanced only if nobody advanced it since the ticket was read. */
  predicate Advances(u: Upload, size: nat, ticket: nat, length: nat) {
    && 0 < length <= CHUNK_BYTES && ticket + length <= size
    && u.row.Some? && u.row.value.received == ticket
  }

  /** The body arrived; `written` of its bytes reach the disk (all of them unless something breaks). */
  function Finish(u: Upload, size: nat, ticket: nat, chunk: Bytes, written: nat): Upload
    requires written <= |chunk|
  {
    if Advances(u, size, ticket, |chunk|)
    then u.(row := Some(u.row.value.(received := ticket + |chunk|)), part := Some(OnDisk(u) + chunk[..written]))
    else u
  }

  predicate Completes(u: Upload) {
    var o := Own(u);
    o.row.Some? && o.row.value.received == o.row.value.size && o.part.Some? && |o.part.value| == o.row.value.size
  }

  /** Moves the part into place; a stop between the rename and the commit leaves the row behind. */
  function Complete(u: Upload, committed: bool): Upload {
    if !Completes(u) then Own(u)
    else if committed then Upload(None, None, u.part, true, u.tickets)
    else Own(u).(part := None, stored := u.part, tickets := {})
  }

  /** Cancellation or purge; a stop between the two deletions leaves the row. */
  function Drop(u: Upload, finished: bool): Upload {
    if u.row.None? then u
    else if finished then u.(row := None, part := None)
    else u.(part := None, tickets := {})
  }

  function Started(size: nat): Upload {
    Upload(Some(Row(size, 0)), Some([]), None, false, {})
  }

  /** The server's side, updated in place. */
  class UploadServer {
    const size: nat
    var row: Option<Row>
    var part: Option<Bytes>
    var stored: Option<Bytes>
    var attached: bool
    ghost var tickets: set<nat>

    ghost function State(): Upload
      reads this
    {
      Upload(row, part, stored, attached, tickets)
    }

    constructor (size: nat)
      ensures State() == Started(size) && this.size == size
    {
      this.size := size;
      row, part, stored, attached, tickets := Some(Row(size, 0)), Some([]), None, false, {};
    }

    method OwnUpload() returns (found: Option<Row>)
      modifies this`row
      ensures State() == Own(old(State()))
      ensures found == row && (row.Some? <==> old(row).Some?)
      ensures row.Some? ==>
        && row.value.size == old(row).value.size
        && row.value.received == Min(old(row).value.received, if part.Some? then |part.value| else 0)
    {
      if row.Some? {
        var onDisk := if part.Some? then |part.value| else 0;
        if onDisk < row.value.received {
          row := Some(row.value.(received := onDisk));
        }
      }
      found := row;
    }

    /** PUT of a chunk, up to where it waits for the body. */
    method BeginChunk(offset: nat) returns (ticket: Option<nat>)
      modifies this`row, this`tickets
      ensures State() == Begin(old(State()), offset)
      ensures ticket == if AcceptsOffset(old(State()), offset) then Some(offset) else None
      ensures ticket.Some? <==>
        old(row).Some? && offset == Min(old(row).value.received, if part.Some? then |part.value| else 0)
      ensures tickets == if ticket == Some(offset) then old(tickets) + {offset} else old(tickets)
    {
      var found := OwnUpload();
      if found.None? || offset != found.value.received { return None; }
      tickets := tickets + {offset};
      return Some(found.value.received);
    }

    /** PUT of a chunk, once the body is there. */
    method FinishChunk(ticket: nat, chunk: Bytes, written: nat) returns (ok: bool)
      requires written <= |chunk|
      modifies this`row, this`part
      ensures State() == Finish(old(State()), size, ticket, chunk, written)
      ensures ok <==> Advances(old(State()), size, ticket, |chunk|)
      ensures ok <==>
        && 0 < |chunk| <= 4 * 1024 * 1024 && ticket + |chunk| <= size
        && old(row).Some? && old(row).value.received == ticket
      ensures !ok ==> row == old(row) && part == old(part)
      ensures ok ==>
        && row == Some(Row(old(row).value.size, ticket + |chunk|))
        && part == Some((if old(part).Some? then old(part).value else []) + chunk[..written])
    {
      if |chunk| == 0 || |chunk| > CHUNK_BYTES || ticket + |chunk| > size { return false; }
      if row.None? || row.value.received != ticket { return false; }
      row := Some(row.value.(received := ticket + |chunk|));
      var bytes := if part.Some? then part.value else [];
      part := Some(bytes + chunk[..written]);
      return true;
    }

    method CompleteUpload() returns (ok: bool)
      modifies this`row, this`part, this`stored, this`attached
      ensures State() == Complete(old(State()), true)
      ensures ok <==> Completes(old(State()))
      ensures ok <==>
        && old(row).Some? && old(part).Some?
        && old(row).value.received >= old(row).value.size == |old(part).value|
      ensures ok ==> row == None && part == None && stored == old(part) && attached
      ensures !ok ==> part == old(part) && stored == old(stored) && attached == old(attached)
    {
      var found := OwnUpload();
      if found.None? || found.value.received != found.value.size { return false; }
      if part.None? || |part.value| != found.value.size { return false; }
      row, attached, stored := None, true, part;
      part := None;
      return true;
    }
  }

  /* ── Runs ──────────────────────────────────────────────────────────── */

  datatype Event =
    | Ask                                             // GET: where does the upload stand
    | BeginPut(offset: nat)
    | FinishPut(ticket: nat, length: nat, written: nat)
    | CompletePost(committed: bool)
    | Cancel(finished: bool)
    | Crash                                           // every waiting request is gone

  /** The client sends bytes of its own file, at the offset it names. */
  function Step(u: Upload, file: Bytes, e: Event): Upload {
    match e
    case Ask => Own(u)
    case BeginPut(offset) => Begin(u, offset)
    case FinishPut(ticket, length, written) =>
      if ticket in u.tickets && ticket + length <= |file| && written <= length
      then Finish(u, |file|, ticket, file[ticket..ticket + length], written)
      else u
    case CompletePost(committed) => Complete(u, committed)
    case Cancel(finished) => Drop(u, finished)
    case Crash => u.(tickets := {})
  }

  function Exec(u: Upload, file: Bytes, events: seq<Event>): Upload
    decreases |events|
  {
    if events == [] then u else Exec(Step(u, file, events[0]), file, events[1..])
  }

  /** The part is a prefix of the file, the row is never behind it, and no waiting request is ahead of it. */
  predicate Faithful(u: Upload, file: Bytes) {
    && (u.row.Some? ==>
          && u.row.value.size == |file|
          && |OnDisk(u)| <= u.row.value.received <= |file|
          && OnDisk(u) == file[..|OnDisk(u)|]
          && (forall t :: t in u.tickets ==> t <= |OnDisk(u)|)
          && !u.attached)
    && (u.attached ==> u.stored == Some(file))
    && (u.row.None? ==> u.part.None?)
  }

  lemma OwnKeepsFaithful(u: Upload, file: Bytes)
    requires Faithful(u, file)
    ensures Faithful(Own(u), file)
    ensures u.row.Some? ==> Own(u).row.value.received == |OnDisk(u)|
  {}

  lemma FinishKeepsFaithful(u: Upload, file: Bytes, ticket: nat, length: nat, written: nat)
    requires Faithful(u, file) && ticket in u.tickets && ticket + length <= |file| && written <= length
    ensures Faithful(Finish(u, |file|, ticket, file[ticket..ticket + length], written), file)
  {
    var chunk := file[ticket..ticket + length];
    if Advances(u, |file|, ticket, length) {
      assert |OnDisk(u)| == ticket;
      assert OnDisk(u) + chunk[..written] == file[..ticket + written];
    }
  }

  lemma StepKeepsFaithful(u: Upload, file: Bytes, e: Event)
    requires Faithful(u, file)
    ensures Faithful(Step(u, file, e), file)
  {
    OwnKeepsFaithful(u, file);
    if e.FinishPut? && e.ticket in u.tickets && e.ticket + e.length <= |file| && e.written <= e.length {
      FinishKeepsFaithful(u, file, e.ticket, e.length, e.written);
    }
    if e.CompletePost? && Completes(u) {
      assert OnDisk(u) == file[..|file|] == file;
    }
  }

  /**
   Whatever the requests, retries and interruptions: the part file is a prefix of the client's file,
   |part| <= received <= size, and a file ends up attached only as the whole file.
   */
  lemma {:induction false} UploadReassemblesExactly(u: Upload, file: Bytes, events: seq<Event>)
    requires Faithful(u, file)
    ensures Faithful(Exec(u, file, events), file)
    decreases |events|
  {
    if events != [] {
      StepKeepsFaithful(u, file, events[0]);
      UploadReassemblesExactly(Step(u, file, events[0]), file, events[1..]);
    }
  }

  /** complete answers with success exactly when the part is the whole file. */
  lemma CompletesOnlyWhole(file: Bytes, events: seq<Event>)
    ensures var u := Exec(Started(|file|), file, events);
            Completes(u) <==> u.row.Some? && u.part == Some(file)
  {
    UploadReassemblesExactly(Started(|file|), file, events);
    var u := Exec(Started(|file|), file, events);
    if Completes(u) {
      assert OnDisk(u) == file[..|file|] == file;
    }
  }

  /** A finished cancellation leaves nothing, and nothing it was sent is attached afterwards. */
  lemma {:induction false} CancelledIsGone(u: Upload, file: Bytes, events: seq<Event>)
    requires Faithful(u, file) && u.row.Some?
    ensures var after := Exec(Step(u, file, Cancel(true)), file, events);
            after.row == None && after.part == None && !after.attached && after.stored == u.stored
  {
    NothingComesBack(Step(u, file, Cancel(true)), file, events);
  }

  lemma {:induction false} NothingComesBack(u: Upload, file: Bytes, events: seq<Event>)
    requires u.row.None? && u.part.None?
    ensures var after := Exec(u, file, events);
            after.row == None && after.part == None && after.attached == u.attached && after.stored == u.stored
    decreases |events|
  {
    if events != [] { NothingComesBack(Step(u, file, events[0]), file, events[1..]); }
  }

  /** What a client does after an interruption: ask, then send the rest chunk by chunk from there. */
  function Resume(from: nat, size: nat): seq<Event>
    decreases size - from
  {
    if from >= size then [CompletePost(true)]
    else
      var length := Min(CHUNK_BYTES, size - from);
      [BeginPut(from), FinishPut(from, length, length)] + Resume(from + length, size)
  }

  /** One chunk sent at the position the server reports reaches the disk. */
  lemma ChunkArrives(u: Upload, file: Bytes, from: nat, length: nat) returns (v: Upload)
    requires Faithful(u, file) && u.row.Some? && from == |OnDisk(u)|
    requires 0 < length <= CHUNK_BYTES && from + length <= |file|
    ensures v == Step(Step(u, file, BeginPut(from)), file, FinishPut(from, length, length))
    ensures Faithful(v, file) && v.row.Some? && v.part.Some? && |OnDisk(v)| == from + length
  {
    OwnKeepsFaithful(u, file);
    var u1 := Step(u, file, BeginPut(from));
    StepKeepsFaithful(u, file, BeginPut(from));
    StepKeepsFaithful(u1, file, FinishPut(from, length, length));
    assert from in u1.tickets && u1.row.value.received == from;
    v := Step(u1, file, FinishPut(from, length, length));
  }

  lemma ExecTwo(u: Upload, file: Bytes, a: Event, b: Event, rest: seq<Event>)
    ensures Exec(u, file, [a, b] + rest) == Exec(Step(Step(u, file, a), file, b), file, rest)
  {
    var events := [a, b] + rest;
    assert events[1..] == [b] + rest && events[1..][1..] == rest;
    assert Exec(Step(u, file, a), file, events[1..]) == Exec(Step(Step(u, file, a), file, b), file, rest);
  }

  lemma {:induction false} ResumeFrom(u: Upload, file: Bytes)
    requires Faithful(u, file) && u.row.Some? && (u.part.Some? || |file| > 0)
    ensures Exec(u, file, Resume(|OnDisk(u)|, |file|)).attached
    decreases |file| - |OnDisk(u)|
  {
    var from := |OnDisk(u)|;
    if from >= |file| {
      OwnKeepsFaithful(u, file);
      assert Completes(u);
      assert Resume(from, |file|)[1..] == [];
    } else {
      var length := Min(CHUNK_BYTES, |file| - from);
      var v := ChunkArrives(u, file, from, length);
      ResumeFrom(v, file);
      ExecTwo(u, file, BeginPut(from), FinishPut(from, length, length), Resume(from + length, |file|));
    }
  }

  /** From every state an upload can be in, resuming from what the server reports attaches the whole file. */
  lemma ResumeCompletes(u: Upload, file: Bytes)
    requires Faithful(u, file) && u.row.Some? && (u.part.Some? || |file| > 0)
    ensures Exec(u, file, Resume(Own(u).row.value.received, |file|)).attached
  {
    OwnKeepsFaithful(u, file);
    ResumeFrom(u, file);
  }
}
