/**
 The signed list of nodes: epochs, root key rotations and administration
 (server/src/clusterTrust.ts acceptManifest, publish, rotateRootKey and the admin actions).
 Signatures are ideal: a signature names the key that made it, and only the holder of a key can
 make one (Ed25519, section 5.1 of RFC 8032). One node holds the root key and acts sequentially.
 */
module Manifest {
  import opened Collections

  type NodeId = string
  type Key = string

  const MAX_NODES := 64

  datatype Status = Active | Disabled | Revoked

  datatype ManifestNode = ManifestNode(id: NodeId, zone: string, details: string, publicKey: Key, status: Status,
                                       replacedBy: Option<NodeId>)

  datatype Manifest = Manifest(clusterId: string, epoch: nat, rootKey: Key, nodes: seq<ManifestNode>)

  datatype Signed = Signed(manifest: Manifest, signer: Key)

  /** cluster_membership of a node that follows the root. */
  datatype Membership = Membership(clusterId: string, rootKey: Key, joined: bool, manifest: Option<Manifest>,
                                   epoch: nat)

  /** A request to join, waiting for approval on the root node. */
  datatype Request = Request(zone: string, details: string, publicKey: Key)

  /** The root node: everything it has published, epoch by epoch, its private key and the pending requests. */
  datatype Root = Root(self: NodeId, history: seq<Signed>, privateKey: Key, requests: map<NodeId, Request>)

  function Find(nodes: seq<ManifestNode>, id: NodeId): Option<ManifestNode> {
    if nodes == [] then None else if nodes[0].id == id then Some(nodes[0]) else Find(nodes[1..], id)
  }

  function Current(r: Root): Manifest
    requires r.history != []
  {
    r.history[|r.history| - 1].manifest
  }

  /* ── Following the root ────────────────────────────────────────────── */

  /** A manifest is taken when it is newer, not too long, and signed by the key trusted so far. */
  predicate Acceptable(m: Membership, s: Signed) {
    && s.manifest.clusterId == m.clusterId
    && s.manifest.epoch > m.epoch
    && |s.manifest.nodes| <= MAX_NODES
    && s.signer == m.rootKey
  }

  predicate ListsActive(nodes: seq<ManifestNode>, id: NodeId) {
    exists n :: n in nodes && n.id == id && n.status == Active
  }

  function Accepted(m: Membership, self: NodeId, s: Signed): Membership {
    if Acceptable(m, s)
    then Membership(m.clusterId, s.manifest.rootKey, m.joined || ListsActive(s.manifest.nodes, self), Some(s.manifest),
                    s.manifest.epoch)
    else m
  }

  /* ── Publishing ────────────────────────────────────────────────────── */

  /** A new epoch, signed with the private key held now; a rotation names the next key and then adopts it. */
  function Publish(r: Root, nodes: seq<ManifestNode>, rootKey: Key): Root
    requires r.history != []
  {
    var next := Manifest(Current(r).clusterId, Current(r).epoch + 1, rootKey, nodes);
    r.(history := r.history + [Signed(next, r.privateKey)])
  }

  function MapNode(nodes: seq<ManifestNode>, id: NodeId, change: ManifestNode -> ManifestNode): seq<ManifestNode> {
    if nodes == [] then []
    else [if nodes[0].id == id then change(nodes[0]) else nodes[0]] + MapNode(nodes[1..], id, change)
  }

  function DropNode(nodes: seq<ManifestNode>, id: NodeId): seq<ManifestNode> {
    if nodes == [] then []
    else if nodes[0].id == id then DropNode(nodes[1..], id)
    else [nodes[0]] + DropNode(nodes[1..], id)
  }

  predicate DistinctIds(nodes: seq<ManifestNode>) {
    forall i, j :: 0 <= i < j < |nodes| ==> nodes[i].id != nodes[j].id
  }

  predicate Listed(nodes: seq<ManifestNode>, id: NodeId) {
    exists n :: n in nodes && n.id == id
  }

  lemma {:induction false} FindFacts(nodes: seq<ManifestNode>, id: NodeId)
    ensures Find(nodes, id).Some? <==> Listed(nodes, id)
    ensures Find(nodes, id).Some? ==> Find(nodes, id).value in nodes && Find(nodes, id).value.id == id
  {
    if nodes != [] {
      FindFacts(nodes[1..], id);
      if nodes[0].id == id { assert nodes[0] in nodes; }
      assert forall n :: n in nodes <==> n == nodes[0] || n in nodes[1..];
    }
  }

  lemma {:induction false} MapFacts(nodes: seq<ManifestNode>, id: NodeId, change: ManifestNode -> ManifestNode)
    requires forall n :: change(n).id == n.id
    ensures |MapNode(nodes, id, change)| == |nodes|
    ensures forall i :: 0 <= i < |nodes| ==>
      MapNode(nodes, id, change)[i] == if nodes[i].id == id then change(nodes[i]) else nodes[i]
  {
    if nodes != [] { MapFacts(nodes[1..], id, change); }
  }

  lemma {:induction false} DropFacts(nodes: seq<ManifestNode>, id: NodeId)
    ensures forall n :: n in DropNode(nodes, id) <==> n in nodes && n.id != id
    ensures DistinctIds(nodes) ==> DistinctIds(DropNode(nodes, id))
  {
    if nodes != [] {
      DropFacts(nodes[1..], id);
      assert forall n :: n in nodes <==> n == nodes[0] || n in nodes[1..];
      if DistinctIds(nodes) { assert forall n :: n in nodes[1..] ==> n.id != nodes[0].id; }
    }
  }

  datatype Action =
    | AskToJoin(id: NodeId, request: Request)
    | Approve(id: NodeId)
    | Reject(id: NodeId)
    | Update(id: NodeId, status: Option<Status>, zone: Option<string>, details: string)
    | Revoke(id: NodeId, replacement: Option<NodeId>)
    | Remove(id: NodeId)
    | Rekey(id: NodeId, key: Key)
    | RotateRootKey(key: Key)

  /** The action is carried out; otherwise it ends in an HTTP error and changes nothing. */
  predicate Allowed(r: Root, a: Action)
    requires r.history != [] && !a.RotateRootKey?
  {
    var target := Find(Current(r).nodes, a.id);
    match a
    case AskToJoin(id, _) => target.None?
    case Approve(id) => id in r.requests
    case Reject(_) => true
    case Update(id, status, zone, _) =>
      && target.Some?
      && (status.Some? ==>
            status.value != Revoked && target.value.status != Revoked && (id == r.self ==> status.value != Disabled))
      && (zone.Some? && zone.value != target.value.zone ==> id != r.self)
    case Revoke(id, replacement) =>
      target.Some? && id != r.self && (replacement.Some? ==> ListsActive(Current(r).nodes, replacement.value))
    case Remove(_) => target.Some? && target.value.status == Revoked
    case Rekey(_, _) => target.Some? && target.value.status != Revoked
  }

  function Patch(n: ManifestNode, status: Option<Status>, zone: Option<string>, details: string): ManifestNode {
    n.(status := if status.Some? then status.value else n.status,
       zone := if zone.Some? then zone.value else n.zone,
       details := details)
  }

  function RevokedNode(n: ManifestNode, replacement: Option<NodeId>): ManifestNode {
    n.(status := Revoked, replacedBy := if replacement.Some? then replacement else n.replacedBy)
  }

  /** Node list of the epoch an action publishes. */
  function NodesAfter(r: Root, a: Action): seq<ManifestNode>
    requires r.history != []
  {
    var nodes := Current(r).nodes;
    match a
    case Approve(id) =>
      if id in r.requests
      then
        var q := r.requests[id];
        nodes + [ManifestNode(id, q.zone, q.details, q.publicKey, Active, None)]
      else nodes
    case Update(id, status, zone, details) => MapNode(nodes, id, n => Patch(n, status, zone, details))
    case Revoke(id, replacement) => MapNode(nodes, id, n => RevokedNode(n, replacement))
    case Remove(id) => DropNode(nodes, id)
    case Rekey(id, key) => MapNode(nodes, id, (n: ManifestNode) => n.(publicKey := key))
    case _ => nodes
  }

  function Act(r: Root, a: Action): Root
    requires r.history != []
  {
    if a.RotateRootKey? then Publish(r, Current(r).nodes, a.key).(privateKey := a.key)
    else if !Allowed(r, a) then r
    else
      match a
      case AskToJoin(id, request) => r.(requests := r.requests[id := request])
      case Reject(id) => r.(requests := r.requests - {id})
      case Approve(id) => Publish(r, NodesAfter(r, a), Current(r).rootKey).(requests := r.requests - {id})
      case _ => Publish(r, NodesAfter(r, a), Current(r).rootKey)
  }

  function Create(clusterId: string, self: NodeId, zone: string, details: string, selfKey: Key, rootKey: Key): Root {
    var node := ManifestNode(self, zone, details, selfKey, Active, None);
    Root(self, [Signed(Manifest(clusterId, 1, rootKey, [node]), rootKey)], rootKey, map[])
  }

  /* ── What an action means, field by field ──────────────────────────── */

  /** One more epoch is published, signed with the key held before; the earlier ones stay. */
  predicate OneMoreEpoch(before: Root, after: Root)
    requires before.history != []
  {
    && |after.history| == |before.history| + 1 && before.history <= after.history
    && after.history[|before.history|].signer == before.privateKey
    && Current(after).clusterId == Current(before).clusterId && Current(after).epoch == Current(before).epoch + 1
  }

  /** An epoch under the same root key, with nothing else changed but the requests. */
  predicate SameKeys(before: Root, after: Root)
    requires before.history != []
  {
    && OneMoreEpoch(before, after) && after.self == before.self
    && Current(after).rootKey == Current(before).rootKey && after.privateKey == before.privateKey
  }

  /** Rows of other nodes are as they were, in their places. */
  predicate OthersKept(before: seq<ManifestNode>, after: seq<ManifestNode>, id: NodeId) {
    |after| == |before| && forall i :: 0 <= i < |before| && before[i].id != id ==> after[i] == before[i]
  }

  /** A revoked node has to join again; the root node neither disables itself nor leaves its zone. */
  predicate MayBecome(n: ManifestNode, status: Option<Status>, zone: Option<string>, isRoot: bool) {
    && (status.Some? ==> status.value != Revoked && n.status != Revoked && !(isRoot && status.value == Disabled))
    && !(isRoot && zone.Some? && zone.value != n.zone)
  }

  predicate Becomes(n: ManifestNode, status: Option<Status>, zone: Option<string>, details: string,
                    after: ManifestNode)
  {
    && after.id == n.id && after.publicKey == n.publicKey && after.replacedBy == n.replacedBy
    && after.details == details
    && after.status == (if status.Some? then status.value else n.status)
    && after.zone == (if zone.Some? then zone.value else n.zone)
  }

  lemma MapKeepsOthers(nodes: seq<ManifestNode>, id: NodeId, change: ManifestNode -> ManifestNode)
    requires forall n :: change(n).id == n.id
    ensures OthersKept(nodes, MapNode(nodes, id, change), id)
    ensures forall i :: 0 <= i < |nodes| && nodes[i].id == id ==> MapNode(nodes, id, change)[i] == change(nodes[i])
  {
    MapFacts(nodes, id, change);
  }

  /** A request waits until it is approved or rejected; a listed node cannot ask. */
  lemma RequestsWait(r: Root, id: NodeId, request: Request)
    requires r.history != []
    ensures Act(r, AskToJoin(id, request)) ==
            if Listed(Current(r).nodes, id) then r else r.(requests := r.requests[id := request])
    ensures Act(r, Reject(id)) == r.(requests := r.requests - {id})
  {
    FindFacts(Current(r).nodes, id);
  }

  /** A new key for a node that is not revoked replaces the one listed, and nothing else. */
  lemma RekeyMeaning(r: Root, id: NodeId, key: Key)
    requires r.history != [] && DistinctIds(Current(r).nodes)
    ensures var after, nodes := Act(r, Rekey(id, key)), Current(r).nodes;
            if exists n :: n in nodes && n.id == id && n.status != Revoked then
              && SameKeys(r, after) && after.requests == r.requests && OthersKept(nodes, Current(after).nodes, id)
              && forall i :: 0 <= i < |nodes| && nodes[i].id == id ==>
                Current(after).nodes[i] == nodes[i].(publicKey := key)
            else after == r
  {
    FindFacts(Current(r).nodes, id);
    MapKeepsOthers(Current(r).nodes, id, (n: ManifestNode) => n.(publicKey := key));
  }

  /* ── The tables, as the nodes update them ──────────────────────────── */

  class Follower {
    const self: NodeId
    var membership: Option<Membership>

    constructor (self: NodeId)
      ensures membership == None && this.self == self
    {
      this.self, membership := self, None;
    }

    /** joining: the root key read from the answer is pinned by the fingerprint in the invitation. */
    method Pin(clusterId: string, rootKey: Key) returns (ok: bool)
      modifies this
      ensures ok <==> old(membership).None?
      ensures membership == if ok then Some(Membership(clusterId, rootKey, false, None, 0)) else old(membership)
    {
      ok := membership.None?;
      if ok { membership := Some(Membership(clusterId, rootKey, false, None, 0)); }
    }

    method AcceptManifest(signed: Signed) returns (taken: bool)
      modifies this
      ensures taken <==> old(membership).Some? && Acceptable(old(membership).value, signed)
      ensures membership == if old(membership).Some? then Some(Accepted(old(membership).value, self, signed)) else None
      ensures !taken ==> membership == old(membership)
      ensures taken <==>
        && old(membership).Some? && signed.manifest.clusterId == old(membership).value.clusterId
        && signed.manifest.epoch > old(membership).value.epoch && |signed.manifest.nodes| <= 64
        && signed.signer == old(membership).value.rootKey
      ensures taken ==>
        var was, now := old(membership).value, membership.value;
        && now.clusterId == was.clusterId && now.manifest == Some(signed.manifest)
        && now.epoch == signed.manifest.epoch && now.rootKey == signed.manifest.rootKey
        && (now.joined <==>
              was.joined || exists n :: n in signed.manifest.nodes && n.id == self && n.status == Active)
    {
      if membership.None? { return false; }
      var m, next := membership.value, signed.manifest;
      if next.clusterId != m.clusterId || next.epoch <= m.epoch { return false; }
      if |next.nodes| > MAX_NODES { return false; }
      var valid := signed.signer == m.rootKey;
      if !valid { return false; }
      var becameMember := !m.joined && ListsActive(next.nodes, self);
      membership := Some(Membership(m.clusterId, next.rootKey, becameMember || m.joined, Some(next), next.epoch));
      return true;
    }
  }

  class RootNode {
    const self: NodeId
    var history: seq<Signed>
    var privateKey: Key
    var requests: map<NodeId, Request>

    function State(): Root
      reads this
    {
      Root(self, history, privateKey, requests)
    }

    constructor (clusterId: string, self: NodeId, zone: string, details: string, selfKey: Key, rootKey: Key)
      ensures State() == Create(clusterId, self, zone, details, selfKey, rootKey)
    {
      this.self := self;
      var node := ManifestNode(self, zone, details, selfKey, Active, None);
      history := [Signed(Manifest(clusterId, 1, rootKey, [node]), rootKey)];
      privateKey, requests := rootKey, map[];
    }

    method PublishNext(nodes: seq<ManifestNode>, rootKey: Key)
      requires history != []
      modifies this`history
      ensures State() == Publish(old(State()), nodes, rootKey)
      ensures OneMoreEpoch(old(State()), State())
      ensures Current(State()).nodes == nodes && Current(State()).rootKey == rootKey
    {
      var current := history[|history| - 1].manifest;
      var next := current.(epoch := current.epoch + 1, rootKey := rootKey, nodes := nodes);
      history := history + [Signed(next, privateKey)];
    }

    method RotateRoot(key: Key)
      requires history != []
      modifies this
      ensures State() == Act(old(State()), RotateRootKey(key))
      ensures OneMoreEpoch(old(State()), State()) && requests == old(requests)
      ensures Current(State()).nodes == Current(old(State())).nodes
      ensures Current(State()).rootKey == key == privateKey
    {
      // Signed by the old root: that is what lets the nodes adopt the new one
      PublishNext(history[|history| - 1].manifest.nodes, key);
      privateKey := key;
    }

    method ApproveRequest(id: NodeId) returns (ok: bool)
      requires history != []
      modifies this
      ensures State() == Act(old(State()), Approve(id))
      ensures ok <==> id in old(requests)
      ensures !ok ==> State() == old(State())
      ensures ok ==>
        var asked, row := old(requests)[id], Current(State()).nodes[|Current(old(State())).nodes|..];
        && SameKeys(old(State()), State()) && requests == old(requests) - {id}
        && Current(old(State())).nodes <= Current(State()).nodes && |row| == 1
        && row[0].id == id && row[0].publicKey == asked.publicKey && row[0].zone == asked.zone
        && row[0].details == asked.details && row[0].status == Active && row[0].replacedBy == None
    {
      if id !in requests { return false; }
      var request, current := requests[id], history[|history| - 1].manifest;
      PublishNext(current.nodes + [ManifestNode(id, request.zone, request.details, request.publicKey, Active, None)],
                  current.rootKey);
      requests := requests - {id};
      return true;
    }

    method RevokeNode(id: NodeId, replacement: Option<NodeId>) returns (ok: bool)
      requires history != []
      modifies this
      ensures State() == Act(old(State()), Revoke(id, replacement))
      ensures ok <==> Allowed(old(State()), Revoke(id, replacement))
      ensures var nodes := Current(old(State())).nodes;
              ok <==>
                && Listed(nodes, id) && id != self
                && (replacement.Some? ==> exists n :: n in nodes && n.id == replacement.value && n.status == Active)
      ensures !ok ==> State() == old(State())
      ensures ok ==>
        var before, after := Current(old(State())).nodes, Current(State()).nodes;
        && SameKeys(old(State()), State()) && requests == old(requests) && OthersKept(before, after, id)
        && forall i :: 0 <= i < |before| && before[i].id == id ==>
          && after[i].id == id && after[i].status == Revoked && after[i].publicKey == before[i].publicKey
          && after[i].zone == before[i].zone && after[i].details == before[i].details
          && after[i].replacedBy == if replacement.Some? then replacement else before[i].replacedBy
    {
      var current := history[|history| - 1].manifest;
      FindFacts(current.nodes, id);
      MapKeepsOthers(current.nodes, id, n => RevokedNode(n, replacement));
      if Find(current.nodes, id).None? || id == self { return false; }
      if replacement.Some? && !ListsActive(current.nodes, replacement.value) { return false; }
      PublishNext(MapNode(current.nodes, id, n => RevokedNode(n, replacement)), current.rootKey);
      return true;
    }

    method RemoveNode(id: NodeId) returns (ok: bool)
      requires history != []
      modifies this
      ensures State() == Act(old(State()), Remove(id))
      ensures ok <==> Allowed(old(State()), Remove(id))
      ensures DistinctIds(Current(old(State())).nodes) ==>
        (ok <==> exists n :: n in Current(old(State())).nodes && n.id == id && n.status == Revoked)
      ensures !ok ==> State() == old(State())
      ensures ok ==>
        && SameKeys(old(State()), State()) && requests == old(requests)
        && forall n :: n in Current(State()).nodes <==> n in Current(old(State())).nodes && n.id != id
    {
      var current := history[|history| - 1].manifest;
      FindFacts(current.nodes, id);
      DropFacts(current.nodes, id);
      var target := Find(current.nodes, id);
      if target.None? || target.value.status != Revoked { return false; }
      PublishNext(DropNode(current.nodes, id), current.rootKey);
      return true;
    }

    /** The guards of an update: its status and its zone, against the row there is. */
    method CheckUpdate(id: NodeId, status: Option<Status>, zone: Option<string>) returns (ok: bool)
      requires history != []
      ensures forall details :: ok <==> Allowed(State(), Update(id, status, zone, details))
      ensures DistinctIds(Current(State()).nodes) ==>
        (ok <==> exists n :: n in Current(State()).nodes && n.id == id && MayBecome(n, status, zone, id == self))
    {
      var current := history[|history| - 1].manifest;
      FindFacts(current.nodes, id);
      var target := Find(current.nodes, id);
      if target.None? { return false; }
      if status.Some? {
        if status.value == Revoked || target.value.status == Revoked { return false; }
        if id == self && status.value == Disabled { return false; }
      }
      if zone.Some? && zone.value != target.value.zone && id == self { return false; }
      return true;
    }

    method UpdateNode(id: NodeId, status: Option<Status>, zone: Option<string>, details: string) returns (ok: bool)
      requires history != []
      modifies this
      ensures State() == Act(old(State()), Update(id, status, zone, details))
      ensures ok <==> Allowed(old(State()), Update(id, status, zone, details))
      ensures DistinctIds(Current(old(State())).nodes) ==>
        (ok <==> exists n :: n in Current(old(State())).nodes && n.id == id && MayBecome(n, status, zone, id == self))
      ensures !ok ==> State() == old(State())
      ensures ok ==>
        var before, after := Current(old(State())).nodes, Current(State()).nodes;
        && SameKeys(old(State()), State()) && requests == old(requests) && OthersKept(before, after, id)
        && forall i :: 0 <= i < |before| && before[i].id == id ==>
          Becomes(before[i], status, zone, details, after[i])
    {
      var current := history[|history| - 1].manifest;
      ok := CheckUpdate(id, status, zone);
      if !ok { return; }
      MapKeepsOthers(current.nodes, id, n => Patch(n, status, zone, details));
      PublishNext(MapNode(current.nodes, id, n => Patch(n, status, zone, details)), current.rootKey);
      return true;
    }
  }
}
