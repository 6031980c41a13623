/**
 The list of nodes over every run: one row per node, who may come back after a revocation, and who
 replicates with whom (server/src/clusterTrust.ts, the admin actions and peers).
 */
module NodeLists {
  import opened Collections
  import opened Manifest
  import opened ManifestRuns

  /** What every epoch keeps: one row per node, the root node active, requests only from unlisted nodes. */
  predicate WellListed(r: Root) {
    && r.history != []
    && DistinctIds(Current(r).nodes)
    && ListsActive(Current(r).nodes, r.self)
    && forall id :: id in r.requests ==> !Listed(Current(r).nodes, id)
  }

  /** A revoked node stays revoked from one list to the next, unless it is taken off the list. */
  predicate RevokedStays(before: seq<ManifestNode>, after: seq<ManifestNode>) {
    forall n, m :: n in before && m in after && n.id == m.id && n.status == Revoked ==>
      m.status == Revoked && m.publicKey == n.publicKey
  }

  lemma MappedList(nodes: seq<ManifestNode>, id: NodeId, change: ManifestNode -> ManifestNode, self: NodeId)
    requires DistinctIds(nodes) && ListsActive(nodes, self)
    requires forall n :: change(n).id == n.id
    requires forall n :: n in nodes && n.id == id && n.status == Revoked ==>
      change(n).status == Revoked && change(n).publicKey == n.publicKey
    requires forall n :: n in nodes && n.id == id && n.id == self && n.status == Active ==> change(n).status == Active
    ensures var after := MapNode(nodes, id, change);
            && DistinctIds(after) && ListsActive(after, self) && RevokedStays(nodes, after)
            && forall x :: Listed(after, x) <==> Listed(nodes, x)
  {
    var after := MapNode(nodes, id, change);
    MapFacts(nodes, id, change);
    var k :| 0 <= k < |nodes| && nodes[k].id == self && nodes[k].status == Active;
    assert after[k].id == self && after[k].status == Active;
    RowForRow(nodes, after);
    RowForRowRevoked(nodes, after);
  }

  lemma RowForRow(nodes: seq<ManifestNode>, after: seq<ManifestNode>)
    requires |nodes| == |after| && forall i :: 0 <= i < |nodes| ==> nodes[i].id == after[i].id
    ensures DistinctIds(nodes) ==> DistinctIds(after)
    ensures forall x :: Listed(after, x) <==> Listed(nodes, x)
  {
    forall x ensures Listed(after, x) <==> Listed(nodes, x) {
      if Listed(nodes, x) {
        var i :| 0 <= i < |nodes| && nodes[i].id == x;
        assert after[i] in after;
      }
      if Listed(after, x) {
        var i :| 0 <= i < |after| && after[i].id == x;
        assert nodes[i] in nodes;
      }
    }
  }

  lemma RowForRowRevoked(nodes: seq<ManifestNode>, after: seq<ManifestNode>)
    requires DistinctIds(nodes)
    requires |nodes| == |after| && forall i :: 0 <= i < |nodes| ==> nodes[i].id == after[i].id
    requires forall i :: 0 <= i < |nodes| && nodes[i].status == Revoked ==>
      after[i].status == Revoked && after[i].publicKey == nodes[i].publicKey
    ensures RevokedStays(nodes, after)
  {
    forall n, m | n in nodes && m in after && n.id == m.id && n.status == Revoked
      ensures m.status == Revoked && m.publicKey == n.publicKey
    {
      var i :| 0 <= i < |nodes| && nodes[i] == n;
      var j :| 0 <= j < |after| && after[j] == m;
      assert i == j;
    }
  }

  lemma SameList(nodes: seq<ManifestNode>)
    requires DistinctIds(nodes)
    ensures RevokedStays(nodes, nodes)
  {}

  lemma ApprovedList(nodes: seq<ManifestNode>, added: ManifestNode, self: NodeId)
    requires DistinctIds(nodes) && ListsActive(nodes, self) && !Listed(nodes, added.id)
    ensures var after := nodes + [added];
            && DistinctIds(after) && ListsActive(after, self) && RevokedStays(nodes, after)
            && forall x :: Listed(after, x) <==> x == added.id || Listed(nodes, x)
  {
    var after := nodes + [added];
    assert forall n :: n in after <==> n in nodes || n == added;
    forall x ensures Listed(after, x) <==> x == added.id || Listed(nodes, x) {
      if x == added.id { assert added in after; }
    }
  }

  lemma RemovedList(nodes: seq<ManifestNode>, id: NodeId, self: NodeId)
    requires DistinctIds(nodes) && ListsActive(nodes, self)
    requires Find(nodes, id).Some? && Find(nodes, id).value.status == Revoked
    ensures var after := DropNode(nodes, id);
            && DistinctIds(after) && ListsActive(after, self) && RevokedStays(nodes, after)
            && forall x :: Listed(after, x) <==> x != id && Listed(nodes, x)
  {
    DropFacts(nodes, id);
    FindFacts(nodes, id);
  }

  /** Every administrative action keeps the list well formed and never gives a revoked node its place back. */
  lemma ActKeepsList(r: Root, a: Action)
    requires WellListed(r)
    ensures WellListed(Act(r, a))
    ensures RevokedStays(Current(r).nodes, Current(Act(r, a)).nodes)
  {
    var nodes := Current(r).nodes;
    SameList(nodes);
    if !a.RotateRootKey? && Allowed(r, a) {
      FindFacts(nodes, a.id);
      match a
      case AskToJoin(_, _) =>
      case Reject(_) =>
      case Approve(id) =>
        ApprovedList(nodes,
                     ManifestNode(id, r.requests[id].zone, r.requests[id].details, r.requests[id].publicKey, Active,
                                  None), r.self);
      case Update(id, status, zone, details) => MappedList(nodes, id, n => Patch(n, status, zone, details), r.self);
      case Revoke(id, replacement) => MappedList(nodes, id, n => RevokedNode(n, replacement), r.self);
      case Remove(id) => RemovedList(nodes, id, r.self);
      case Rekey(id, key) => MappedList(nodes, id, (n: ManifestNode) => n.(publicKey := key), r.self);
    }
  }

  /** From each published list to the next, a revoked node stays revoked or is taken off. */
  predicate RevokedStaysAlong(h: seq<Signed>) {
    forall i :: 0 < i < |h| ==> RevokedStays(h[i - 1].manifest.nodes, h[i].manifest.nodes)
  }

  /** In every run the list stays well formed, and every list follows from the one before. */
  lemma {:induction false} ListStaysWellFormed(secret: Key -> bool, s: Trust, events: seq<Event>)
    requires WellListed(s.root) && RevokedStaysAlong(s.root.history)
    ensures WellListed(Exec(secret, s, events).root) && RevokedStaysAlong(Exec(secret, s, events).root.history)
    decreases |events|
  {
    if events != [] {
      if events[0].Admin? {
        ActKeepsList(s.root, events[0].action);
        ActKeepsLists(s.root, events[0].action);
      }
      ListStaysWellFormed(secret, Step(secret, s, events[0]), events[1..]);
    }
  }

  lemma ActKeepsLists(r: Root, a: Action)
    requires r.history != [] && RevokedStaysAlong(r.history)
    requires RevokedStays(Current(r).nodes, Current(Act(r, a)).nodes)
    ensures RevokedStaysAlong(Act(r, a).history)
  {
    var h, more := r.history, Act(r, a).history;
    assert h <= more && |more| <= |h| + 1;
  }

  function NodesAt(h: seq<Signed>, epoch: nat): seq<ManifestNode>
    requires 1 <= epoch <= |h|
  {
    h[epoch - 1].manifest.nodes
  }

  lemma BeginsListed(secret: Key -> bool, s: Trust)
    requires Begins(secret, s)
    ensures WellListed(s.root) && RevokedStaysAlong(s.root.history)
  {
    assert Current(s.root).nodes[0] in Current(s.root).nodes;
  }

  /** So in every run, a node revoked at one epoch is revoked, with the same key, at every later one that lists it. */
  lemma RevokedUntilRemoved(secret: Key -> bool, start: Trust, events: seq<Event>, n: ManifestNode, e: nat, f: nat)
    requires Begins(secret, start)
    requires var h := Exec(secret, start, events).root.history;
             && 1 <= e <= f <= |h| && n in NodesAt(h, e) && n.status == Revoked
             && forall i :: e <= i <= f ==> Listed(NodesAt(h, i), n.id)
    ensures exists m ::
      && m in NodesAt(Exec(secret, start, events).root.history, f)
      && m.id == n.id && m.status == Revoked && m.publicKey == n.publicKey
  {
    BeginsListed(secret, start);
    ListStaysWellFormed(secret, start, events);
    RevokedAlong(Exec(secret, start, events).root.history, n, e, f);
  }

  lemma {:induction false} RevokedAlong(h: seq<Signed>, n: ManifestNode, e: nat, f: nat)
    requires RevokedStaysAlong(h) && 1 <= e <= f <= |h| && n in NodesAt(h, e) && n.status == Revoked
    requires forall i :: e <= i <= f ==> Listed(NodesAt(h, i), n.id)
    ensures exists m :: m in NodesAt(h, f) && m.id == n.id && m.status == Revoked && m.publicKey == n.publicKey
    decreases f
  {
    if e < f {
      RevokedAlong(h, n, e, f - 1);
      var m :| m in NodesAt(h, f - 1) && m.id == n.id && m.status == Revoked && m.publicKey == n.publicKey;
      assert Listed(NodesAt(h, f), n.id);
      var k :| k in NodesAt(h, f) && k.id == n.id;
      assert RevokedStays(h[f - 2].manifest.nodes, h[f - 1].manifest.nodes);
    }
  }

  /** What a revocation that is allowed leaves: a revoked row, at the epoch it publishes. */
  lemma RevokeRevokes(r: Root, id: NodeId, replacement: Option<NodeId>)
    requires WellListed(r) && Allowed(r, Revoke(id, replacement))
    ensures var after := Act(r, Revoke(id, replacement));
            && r.history <= after.history && |after.history| == |r.history| + 1
            && exists n :: n in Current(after).nodes && n.id == id && n.status == Revoked
  {
    var nodes := Current(r).nodes;
    FindFacts(nodes, id);
    MapFacts(nodes, id, n => RevokedNode(n, replacement));
    var k :| 0 <= k < |nodes| && nodes[k].id == id;
    var after := Current(Act(r, Revoke(id, replacement))).nodes;
    assert after[k] in after;
  }

  /** The node is on every list from an epoch on. */
  predicate ListedSince(h: seq<Signed>, epoch: nat, id: NodeId) {
    1 <= epoch <= |h| && forall e :: epoch <= e <= |h| ==> Listed(NodesAt(h, e), id)
  }

  lemma RevocationIsKept(secret: Key -> bool, t: Trust, future: seq<Event>, id: NodeId)
    requires WellListed(t.root) && RevokedStaysAlong(t.root.history)
    requires exists n :: n in Current(t.root).nodes && n.id == id && n.status == Revoked
    requires ListedSince(Exec(secret, t, future).root.history, |t.root.history|, id)
    ensures exists n :: n in Current(Exec(secret, t, future).root).nodes && n.id == id && n.status == Revoked
  {
    ListStaysWellFormed(secret, t, future);
    ExecKeepsHistory(secret, t, future);
    var h, e := Exec(secret, t, future).root.history, |t.root.history|;
    var n :| n in Current(t.root).nodes && n.id == id && n.status == Revoked;
    assert NodesAt(h, e) == Current(t.root).nodes;
    RevokedAlong(h, n, e, |h|);
  }

  /**
   From an allowed revocation on, whatever happens next, the node is listed as revoked for as long as
   it is listed.
   */
  lemma RevocationLasts(secret: Key -> bool, start: Trust, past: seq<Event>, future: seq<Event>, id: NodeId,
                        replacement: Option<NodeId>)
    requires Begins(secret, start) && Allowed(Exec(secret, start, past).root, Revoke(id, replacement))
    requires var t := Step(secret, Exec(secret, start, past), Admin(Revoke(id, replacement)));
             ListedSince(Exec(secret, t, future).root.history, |t.root.history|, id)
    ensures var t := Step(secret, Exec(secret, start, past), Admin(Revoke(id, replacement)));
            exists n :: n in Current(Exec(secret, t, future).root).nodes && n.id == id && n.status == Revoked
  {
    var s := Exec(secret, start, past);
    BeginsListed(secret, start);
    ListStaysWellFormed(secret, start, past);
    RevokeRevokes(s.root, id, replacement);
    ActKeepsList(s.root, Revoke(id, replacement));
    ActKeepsLists(s.root, Revoke(id, replacement));
    RevocationIsKept(secret, Step(secret, s, Admin(Revoke(id, replacement))), future, id);
  }

  lemma {:induction false} ExecKeepsHistory(secret: Key -> bool, s: Trust, events: seq<Event>)
    requires s.root.history != []
    ensures s.root.history <= Exec(secret, s, events).root.history
    decreases |events|
  {
    if events != [] {
      StepKeepsHistory(secret, s, events[0]);
      ExecKeepsHistory(secret, Step(secret, s, events[0]), events[1..]);
    }
  }

  /* ── Membership ────────────────────────────────────────────────────── */

  /** A node is a member exactly if some list it may have taken showed it active, its present one in particular. */
  predicate MemberAsListed(h: seq<Signed>, m: Membership, n: NodeId) {
    && (m.joined ==> exists e :: 1 <= e <= m.epoch && e <= |h| && ListsActive(NodesAt(h, e), n))
    && (m.manifest.Some? && ListsActive(m.manifest.value.nodes, n) ==> m.joined)
  }

  lemma AcceptedAsListed(h: seq<Signed>, m: Membership, n: NodeId, signed: Signed)
    requires MemberAsListed(h, m, n)
    requires Acceptable(m, signed) ==> 1 <= signed.manifest.epoch <= |h| && h[signed.manifest.epoch - 1] == signed
    ensures MemberAsListed(h, Accepted(m, n, signed), n)
  {
    if Acceptable(m, signed) {
      if m.joined {
        var e :| 1 <= e <= m.epoch && e <= |h| && ListsActive(NodesAt(h, e), n);
        assert e <= signed.manifest.epoch;
      } else if ListsActive(signed.manifest.nodes, n) {
        assert ListsActive(NodesAt(h, signed.manifest.epoch), n);
      }
    }
  }

  lemma MemberOnLongerList(h: seq<Signed>, more: seq<Signed>, m: Membership, n: NodeId)
    requires MemberAsListed(h, m, n) && h <= more
    ensures MemberAsListed(more, m, n)
  {
    if m.joined {
      var e :| 1 <= e <= m.epoch && e <= |h| && ListsActive(NodesAt(h, e), n);
      assert NodesAt(more, e) == NodesAt(h, e);
    }
  }

  predicate MembersAsListed(h: seq<Signed>, followers: map<NodeId, Membership>) {
    forall n :: n in followers ==> MemberAsListed(h, followers[n], n)
  }

  lemma MembersOnLongerList(h: seq<Signed>, more: seq<Signed>, followers: map<NodeId, Membership>)
    requires MembersAsListed(h, followers) && h <= more
    ensures MembersAsListed(more, followers)
  {
    forall n | n in followers ensures MemberAsListed(more, followers[n], n) {
      MemberOnLongerList(h, more, followers[n], n);
    }
  }

  lemma DeliveryKeepsMembers(secret: Key -> bool, s: Trust, n: NodeId, signed: Signed)
    requires Sound(secret, s) && MembersAsListed(s.root.history, s.followers) && n in s.followers
    requires signed in s.root.history || !secret(signed.signer)
    ensures MembersAsListed(s.root.history, s.followers[n := Accepted(s.followers[n], n, signed)])
  {
    assert Trusting(s.root.history, s.followers[n], s.pins[n]);
    OnlyPublishedIsTaken(secret, s.root.history, s.followers[n], signed);
    AcceptedAsListed(s.root.history, s.followers[n], n, signed);
  }

  lemma PinKeepsMembers(h: seq<Signed>, followers: map<NodeId, Membership>, n: NodeId, clusterId: string, key: Key)
    requires MembersAsListed(h, followers)
    ensures MembersAsListed(h, followers[n := Membership(clusterId, key, false, None, 0)])
  {}

  lemma StepKeepsMembers(secret: Key -> bool, s: Trust, e: Event)
    requires Sound(secret, s) && MembersAsListed(s.root.history, s.followers)
    ensures MembersAsListed(Step(secret, s, e).root.history, Step(secret, s, e).followers)
  {
    if Possible(secret, s, e) {
      match e
      case Admin(a) =>
        StepKeepsHistory(secret, s, e);
        MembersOnLongerList(s.root.history, Step(secret, s, e).root.history, s.followers);
      case Pin(n, epoch) =>
        PinKeepsMembers(s.root.history, s.followers, n, Current(s.root).clusterId, RootKeyAt(s.root.history, epoch));
      case Deliver(n, signed) => DeliveryKeepsMembers(secret, s, n, signed);
    }
  }

  /** In every run, a node is a member only of a cluster that listed it active, and is one once its list does. */
  lemma {:induction false} MembersWereListed(secret: Key -> bool, s: Trust, events: seq<Event>)
    requires Sound(secret, s) && MembersAsListed(s.root.history, s.followers)
    ensures MembersAsListed(Exec(secret, s, events).root.history, Exec(secret, s, events).followers)
    decreases |events|
  {
    if events != [] {
      StepKeepsSound(secret, s, events[0]);
      StepKeepsMembers(secret, s, events[0]);
      MembersWereListed(secret, Step(secret, s, events[0]), events[1..]);
    }
  }

  /* ── Replication partners ──────────────────────────────────────────── */

  /** peers(): the active nodes of one's own zone, once a member and active oneself. */
  function Peers(m: Membership, self: NodeId): set<NodeId> {
    if m.joined && m.manifest.Some? && Find(m.manifest.value.nodes, self).Some?
      && Find(m.manifest.value.nodes, self).value.status == Active
    then set n | n in m.manifest.value.nodes && n.id != self && n.status == Active
      && n.zone == Find(m.manifest.value.nodes, self).value.zone :: n.id
    else {}
  }

  /** Nodes at the same epoch agree on who replicates with whom. */
  lemma PeersSymmetric(a: Membership, b: Membership, x: NodeId, y: NodeId)
    requires a.joined && b.joined && a.manifest.Some? && a.manifest == b.manifest
    requires DistinctIds(a.manifest.value.nodes)
    ensures y in Peers(a, x) <==> x in Peers(b, y)
    ensures y in Peers(a, x) <==> x != y && exists m, n ::
      && m in a.manifest.value.nodes && n in a.manifest.value.nodes && m.id == x && n.id == y
      && m.status == Active && n.status == Active && m.zone == n.zone
  {
    var nodes := a.manifest.value.nodes;
    FindFacts(nodes, x);
    FindFacts(nodes, y);
    OneRow(nodes, x);
    OneRow(nodes, y);
  }

  lemma OneRow(nodes: seq<ManifestNode>, id: NodeId)
    requires DistinctIds(nodes)
    ensures forall n :: n in nodes && n.id == id ==> Find(nodes, id) == Some(n)
  {
    FindFacts(nodes, id);
  }

  /* ── The bound on the list is real ─────────────────────────────────── */

  function Letters(k: nat): string {
    seq(k, _ => 'n')
  }

  /** `k` nodes ask to join and are approved, one after the other. */
  function Joins(k: nat): seq<Event> {
    if k == 0 then []
    else Joins(k - 1) + [Admin(AskToJoin(Letters(k), Request("z", "", "k"))), Admin(Approve(Letters(k)))]
  }

  function Founded(): Trust {
    Trust(Create("c", "", "z", "", "s", "r"), map[], map[])
  }

  lemma {:induction false} ExecConcat(secret: Key -> bool, s: Trust, a: seq<Event>, b: seq<Event>)
    requires s.root.history != []
    ensures Exec(secret, s, a + b) == Exec(secret, Exec(secret, s, a), b)
    decreases |a|
  {
    if a == [] {
      assert a + b == b;
    } else {
      assert (a + b)[0] == a[0] && (a + b)[1..] == a[1..] + b;
      StepKeepsHistory(secret, s, a[0]);
      ExecConcat(secret, Step(secret, s, a[0]), a[1..], b);
    }
  }

  /** The root node with its `k` epochs after the first, each listing one more node, under one root key. */
  predicate Grown(r: Root, k: nat) {
    && r.self == "" && r.privateKey == "r" && r.requests == map[]
    && |r.history| == k + 1 && r.history[0] == Founded().root.history[0]
    && (forall e :: 1 <= e <= k + 1 ==> RootKeyAt(r.history, e) == "r")
    && |Current(r).nodes| == k + 1 && Current(r).clusterId == "c" && Current(r).epoch == k + 1
    && forall n :: n in Current(r).nodes ==> |n.id| <= k
  }

  lemma AskStep(secret: Key -> bool, s: Trust, k: nat)
    requires Grown(s.root, k)
    ensures var id, asked := Letters(k + 1), Request("z", "", "k");
            Step(secret, s, Admin(AskToJoin(id, asked))) == s.(root := s.root.(requests := map[id := asked]))
  {
    var id := Letters(k + 1);
    FindFacts(Current(s.root).nodes, id);
    assert !Listed(Current(s.root).nodes, id);
  }

  lemma ApproveStep(secret: Key -> bool, s: Trust, k: nat)
    requires Grown(s.root.(requests := map[]), k) && s.root.requests == map[Letters(k + 1) := Request("z", "", "k")]
    ensures var t := Step(secret, s, Admin(Approve(Letters(k + 1))));
            Grown(t.root, k + 1) && t.followers == s.followers && t.pins == s.pins
  {
    var id := Letters(k + 1);
    assert s.root.requests - {id} == map[];
    var t := Step(secret, s, Admin(Approve(id)));
    assert t.root.requests == map[];
    var h, more := s.root.history, t.root.history;
    assert RootKeyAt(h, k + 1) == Current(s.root).rootKey;
    assert |more| == |h| + 1 && more[|h|].manifest.rootKey == "r";
    forall e | 1 <= e <= k + 2 ensures RootKeyAt(more, e) == "r" {
      if e <= k + 1 { assert RootKeyAt(h, e) == "r" && more[e - 1] == h[e - 1]; }
    }
  }

  lemma {:induction false} JoinsList(secret: Key -> bool, s: Trust, k: nat)
    requires Grown(s.root, 0)
    ensures var t := Exec(secret, s, Joins(k)); Grown(t.root, k) && t.followers == s.followers && t.pins == s.pins
  {
    if k > 0 {
      JoinsList(secret, s, k - 1);
      var t := Exec(secret, s, Joins(k - 1));
      var ask, approve := Admin(AskToJoin(Letters(k), Request("z", "", "k"))), Admin(Approve(Letters(k)));
      AskStep(secret, t, k - 1);
      ApproveStep(secret, Step(secret, t, ask), k - 1);
      ExecConcat(secret, s, Joins(k - 1), [ask, approve]);
      ExecTwo(secret, t, ask, approve);
    }
  }

  lemma ExecTwo(secret: Key -> bool, s: Trust, a: Event, b: Event)
    requires s.root.history != [] && Step(secret, s, a).root.history != []
    ensures Exec(secret, s, [a, b]) == Step(secret, Step(secret, s, a), b)
  {
    assert [a, b][1..] == [b] && [b][1..] == [];
    assert Exec(secret, Step(secret, s, a), [b]) == Step(secret, Step(secret, s, a), b);
  }

  /**
   A run that meets the bound: a node takes epoch 1, then 64 others join. No rotation lies between,
   and the node refuses epoch 65, which lists 65 nodes.
   */
  lemma ListMayOutgrowItsReaders(secret: Key -> bool)
    requires secret("r")
    ensures var events := [Pin("f", 1), Deliver("f", Founded().root.history[0])] + Joins(MAX_NODES);
            var s := Exec(secret, Founded(), events);
            && Begins(secret, Founded()) && |s.root.history| == MAX_NODES + 1
            && "f" in s.followers && s.followers["f"].epoch == 1
            && (forall r :: 1 < r <= MAX_NODES + 1 ==> !IsRotation(s.root.history, r))
            && |Current(s.root).nodes| == MAX_NODES + 1 && !Acceptable(s.followers["f"], s.root.history[MAX_NODES])
  {
    var pin, deliver := Pin("f", 1), Deliver("f", Founded().root.history[0]);
    var s1 := Step(secret, Founded(), pin);
    ExecTwo(secret, Founded(), pin, deliver);
    ExecConcat(secret, Founded(), [pin, deliver], Joins(MAX_NODES));
    var s2 := Step(secret, s1, deliver);
    assert s1.followers["f"] == Membership("c", "r", false, None, 0);
    assert "f" in s2.followers && s2.followers["f"].epoch == 1;
    JoinsList(secret, s2, MAX_NODES);
  }
}
