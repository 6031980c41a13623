/**
 Two nodes of a zone, each pull fetching and applying in one step: they agree, revisions order
 versions, and a conditional write replaces exactly what its author read (server/src/cluster.ts
 applyVaultRow, server/src/app.ts PUT /api/v1/vault).
 */
module TwoNodes {
  import opened Collections
  import opened VersionVectors
  import opened VaultReplica

  const LEFT: NodeId := "n-left"
  const RIGHT: NodeId := "n-right"

  datatype Pair = Pair(left: Replica, right: Replica)

  /** `onLeft` names the node that acts. */
  datatype Event =
    | CreateAccount(onLeft: bool, blob: Blob)
    | ClientPut(onLeft: bool, baseRevision: nat, blob: Blob, merged: seq<Hash>)
    | Pull(onLeft: bool)

  const Empty: Pair := Pair(Replica(None, map[]), Replica(None, map[]))

  function Node(p: Pair, onLeft: bool): Replica {
    if onLeft then p.left else p.right
  }

  function Name(onLeft: bool): NodeId {
    if onLeft then LEFT else RIGHT
  }

  function With(p: Pair, onLeft: bool, r: Replica): Pair {
    if onLeft then p.(left := r) else p.(right := r)
  }

  ghost function Step(sha: Blob -> Hash, p: Pair, e: Event): Pair {
    var r, other := Node(p, e.onLeft), Node(p, !e.onLeft);
    match e
    case CreateAccount(onLeft, blob) =>
      if r.vault.None? && other.vault.None?
      then With(p, onLeft, Replica(Some(VaultRow(1, blob, map[Name(onLeft) := 1])), map[])) else p
    case ClientPut(onLeft, base, blob, merged) =>
      var next := Put(r, Name(onLeft), base, blob, merged);
      if next.Some? then With(p, onLeft, next.value) else p
    case Pull(onLeft) =>
      if other.vault.Some? then With(p, onLeft, Apply(sha, r, Fetch(other))) else p
  }

  ghost function Exec(sha: Blob -> Hash, p: Pair, events: seq<Event>): Pair
    decreases |events|
  {
    if events == [] then p else Exec(sha, Step(sha, p, events[0]), events[1..])
  }

  /** Same revision, blob and set-aside versions. */
  predicate SameContent(a: Replica, b: Replica) {
    && a.vault.Some? && b.vault.Some?
    && a.vault.value.revision == b.vault.value.revision
    && a.vault.value.blob == b.vault.value.blob
    && a.conflicts == b.conflicts
  }

  /** Content and revision follow the vectors. */
  predicate Ordered(a: Replica, b: Replica) {
    a.vault.Some? && b.vault.Some? ==>
      match Compare(a.vault.value.vv, b.vault.value.vv)
      case Equal => SameContent(a, b)
      case Newer => a.vault.value.revision > b.vault.value.revision
      case Older => a.vault.value.revision < b.vault.value.revision
      case Concurrent => true
  }

  /** Only the two nodes count writes, and each leads on its own counter. */
  predicate Led(p: Pair) {
    && Vv(p.left).Keys <= {LEFT, RIGHT} && Vv(p.right).Keys <= {LEFT, RIGHT}
    && At(Vv(p.right), LEFT) <= At(Vv(p.left), LEFT)
    && At(Vv(p.left), RIGHT) <= At(Vv(p.right), RIGHT)
  }

  predicate Agreement(p: Pair) {
    && Led(p)
    && Ordered(p.left, p.right)
  }

  /** With two counters, comparing vectors is comparing them on both. */
  lemma CompareOnTwo(a: VersionVector, b: VersionVector)
    requires a.Keys <= {LEFT, RIGHT} && b.Keys <= {LEFT, RIGHT}
    ensures Below(a, b) <==> At(a, LEFT) <= At(b, LEFT) && At(a, RIGHT) <= At(b, RIGHT)
  {}

  lemma PutKeepsAgreement(sha: Blob -> Hash, p: Pair, e: Event)
    requires e.ClientPut? && Agreement(p)
    ensures Agreement(Step(sha, p, e))
  {
    var q := Step(sha, p, e);
    if q != p {
      BumpIsNewer(Vv(Node(p, e.onLeft)), Name(e.onLeft));
      CompareOnTwo(Vv(p.left), Vv(p.right));
      CompareOnTwo(Vv(p.right), Vv(p.left));
      CompareOnTwo(Vv(q.left), Vv(q.right));
      CompareOnTwo(Vv(q.right), Vv(q.left));
    }
  }

  lemma PullKeepsAgreement(sha: Blob -> Hash, p: Pair, e: Event)
    requires e.Pull? && Agreement(p)
    ensures Agreement(Step(sha, p, e))
  {
    var q := Step(sha, p, e);
    if q != p {
      ApplyJoinsVectors(sha, Node(p, e.onLeft), Fetch(Node(p, !e.onLeft)));
      MergeAt(Vv(Node(p, !e.onLeft)), Vv(Node(p, e.onLeft)));
      CompareOnTwo(Vv(p.left), Vv(p.right));
      CompareOnTwo(Vv(p.right), Vv(p.left));
      CompareOnTwo(Vv(q.left), Vv(q.right));
      CompareOnTwo(Vv(q.right), Vv(q.left));
    }
  }

  lemma {:induction false} ExecKeepsAgreement(sha: Blob -> Hash, p: Pair, events: seq<Event>)
    requires Agreement(p)
    ensures Agreement(Exec(sha, p, events))
    decreases |events|
  {
    if events != [] {
      if events[0].ClientPut? { PutKeepsAgreement(sha, p, events[0]); }
      if events[0].Pull? { PullKeepsAgreement(sha, p, events[0]); }
      ExecKeepsAgreement(sha, Step(sha, p, events[0]), events[1..]);
    }
  }

  /**
   In every reachable state: equal vectors mean equal blob, revision and set-aside versions, and
   a strictly smaller vector means a strictly smaller revision.
   */
  lemma TwoNodeAgreement(sha: Blob -> Hash, events: seq<Event>)
    ensures var p := Exec(sha, Empty, events);
            p.left.vault.Some? && p.right.vault.Some? ==>
              var order := Compare(Vv(p.left), Vv(p.right));
              && (order == Equal ==> SameContent(p.left, p.right))
              && (order == Newer ==> p.left.vault.value.revision > p.right.vault.value.revision)
              && (order == Older ==> p.left.vault.value.revision < p.right.vault.value.revision)
  {
    ExecKeepsAgreement(sha, Empty, events);
  }

  /** A step leaves a node alone or raises its revision. */
  lemma StepRaisesRevision(sha: Blob -> Hash, p: Pair, e: Event, onLeft: bool)
    requires Agreement(p) && Node(p, onLeft).vault.Some?
    ensures var r, next := Node(p, onLeft), Node(Step(sha, p, e), onLeft);
            next == r || (next.vault.Some? && next.vault.value.revision > r.vault.value.revision)
  {}

  lemma {:induction false} ExecRaisesRevision(sha: Blob -> Hash, p: Pair, events: seq<Event>, onLeft: bool)
    requires Agreement(p) && Node(p, onLeft).vault.Some?
    ensures var r, next := Node(p, onLeft), Node(Exec(sha, p, events), onLeft);
            next == r || (next.vault.Some? && next.vault.value.revision > r.vault.value.revision)
    decreases |events|
  {
    if events != [] {
      StepRaisesRevision(sha, p, events[0], onLeft);
      ExecKeepsAgreement(sha, p, events[..1]);
      assert Exec(sha, p, events[..1]) == Step(sha, p, events[0]) by {
        assert events[..1][1..] == [];
        assert events[..1][0] == events[0];
      }
      ExecRaisesRevision(sha, Step(sha, p, events[0]), events[1..], onLeft);
    }
  }

  /**
   A client reads a node's vault, then writes there on the revision it read. However many writes
   and pulls happened in between on both nodes, the write is accepted exactly when the node still
   holds the row and set-aside versions that were read.
   */
  lemma AcceptedPutReplacesWhatWasRead(sha: Blob -> Hash, past: seq<Event>, between: seq<Event>, onLeft: bool,
                                       blob: Blob, merged: seq<Hash>)
    requires Node(Exec(sha, Empty, past), onLeft).vault.Some?
    ensures var read := Node(Exec(sha, Empty, past), onLeft);
            var found := Node(Exec(sha, Exec(sha, Empty, past), between), onLeft);
            Put(found, Name(onLeft), read.vault.value.revision, blob, merged).Some? <==> found == read
  {
    ExecKeepsAgreement(sha, Empty, past);
    ExecRaisesRevision(sha, Exec(sha, Empty, past), between, onLeft);
  }

  /** One pull each way, with no write in between, makes both nodes identical. */
  lemma OneRoundConverges(sha: Blob -> Hash, events: seq<Event>, first: bool)
    requires var p := Exec(sha, Empty, events);
             p.left.vault.Some? || p.right.vault.Some?
    ensures var p := Step(sha, Step(sha, Exec(sha, Empty, events), Pull(first)), Pull(!first));
            SameContent(p.left, p.right) && Compare(Vv(p.left), Vv(p.right)) == Equal
  {
    var p := Exec(sha, Empty, events);
    ExecKeepsAgreement(sha, Empty, events);
    PullKeepsAgreement(sha, p, Pull(first));
    var q := Step(sha, p, Pull(first));
    PullKeepsAgreement(sha, q, Pull(!first));
    var x, y := Node(p, first), Node(p, !first);
    if y.vault.Some? {
      ApplyJoinsVectors(sha, x, Fetch(y));
    }
    var x' := Node(q, first);
    ApplyJoinsVectors(sha, y, Fetch(x'));
    var t := Step(sha, q, Pull(!first));
    MergeAbsorbs(Vv(y), Vv(x'));
    MergeCommutes(Vv(y), Vv(x'));
    var m := Merge(Vv(x'), Vv(y));
    assert Same(Vv(Node(t, !first)), m);
    assert Same(m, Vv(x'));
    CompareMeaning(Vv(t.left), Vv(t.right));
    CompareMeaning(Vv(t.right), Vv(t.left));
    assert forall k :: At(Vv(Node(t, !first)), k) == At(m, k) == At(Vv(x'), k);
  }
}
