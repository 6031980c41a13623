/**
 Whole runs of a cluster's trust: the root acts, manifests reach the nodes late, repeated or out
 of order, and manifests made with keys that never were root keys circulate too
 (server/src/clusterTrust.ts).
 */
module ManifestRuns {
  import opened Collections
  import opened Manifest

  /** `pins` remembers the root key each node pinned when it asked to join. */
  datatype Trust = Trust(root: Root, followers: map<NodeId, Membership>, pins: map<NodeId, Key>)

  datatype Event =
    | Admin(action: Action)
    | Pin(node: NodeId, epoch: nat)         // the node asks to join and pins the root key of the answer, old or not
    | Deliver(node: NodeId, signed: Signed) // pushed by the root or pulled from it

  /** Root keys are generated secret and new; everything else may sign with what is not secret. */
  predicate Possible(secret: Key -> bool, s: Trust, e: Event) {
    match e
    case Admin(RotateRootKey(key)) => secret(key)
      && forall i :: 0 <= i < |s.root.history| ==> s.root.history[i].manifest.rootKey != key
    case Admin(_) => true
    case Pin(node, epoch) => node !in s.followers && 1 <= epoch <= |s.root.history|
    case Deliver(node, signed) => node in s.followers && (signed in s.root.history || !secret(signed.signer))
  }

  function Step(secret: Key -> bool, s: Trust, e: Event): Trust
    requires s.root.history != []
  {
    if !Possible(secret, s, e) then s
    else
      match e
      case Admin(a) => s.(root := Act(s.root, a))
      case Pin(node, epoch) =>
        var key := RootKeyAt(s.root.history, epoch);
        s.(followers := s.followers[node := Membership(Current(s.root).clusterId, key, false, None, 0)],
           pins := s.pins[node := key])
      case Deliver(node, signed) => s.(followers := s.followers[node := Accepted(s.followers[node], node, signed)])
  }

  lemma StepKeepsHistory(secret: Key -> bool, s: Trust, e: Event)
    requires s.root.history != []
    ensures s.root.history <= Step(secret, s, e).root.history
  {}

  function Exec(secret: Key -> bool, s: Trust, events: seq<Event>): Trust
    requires s.root.history != []
    ensures Exec(secret, s, events).root.history != []
    decreases |events|
  {
    if events == [] then s
    else
      StepKeepsHistory(secret, s, events[0]);
      Exec(secret, Step(secret, s, events[0]), events[1..])
  }

  /* ── The chain of epochs ───────────────────────────────────────────── */

  function RootKeyAt(h: seq<Signed>, epoch: nat): Key
    requires 1 <= epoch <= |h|
  {
    h[epoch - 1].manifest.rootKey
  }

  /** The epoch published by a rotation: it names another root key than the epoch before. */
  predicate IsRotation(h: seq<Signed>, epoch: nat) {
    2 <= epoch <= |h| && RootKeyAt(h, epoch) != RootKeyAt(h, epoch - 1)
  }

  /** Epochs count up from one, and each manifest is signed by the key the one before names. */
  predicate Chained(h: seq<Signed>) {
    && h != []
    && h[0].signer == h[0].manifest.rootKey
    && (forall i :: 0 <= i < |h| ==> h[i].manifest.epoch == i + 1 && h[i].manifest.clusterId == h[0].manifest.clusterId)
    && (forall i :: 0 < i < |h| ==> h[i].signer == h[i - 1].manifest.rootKey)
  }

  /** A key that has been replaced never comes back. */
  predicate NoReturn(h: seq<Signed>) {
    forall i, j, k :: 0 <= i <= j <= k < |h| && h[i].manifest.rootKey == h[k].manifest.rootKey ==>
      h[j].manifest.rootKey == h[i].manifest.rootKey
  }

  predicate Secret(secret: Key -> bool, h: seq<Signed>) {
    forall i :: 0 <= i < |h| ==> secret(h[i].manifest.rootKey)
  }

  /** A follower is somewhere on the chain: at the epoch it stores, or at the key it pinned. */
  predicate OnChain(h: seq<Signed>, m: Membership) {
    && h != [] && m.clusterId == h[0].manifest.clusterId && m.epoch <= |h|
    && (m.manifest.None? <==> m.epoch == 0)
    && (m.epoch == 0 ==> !m.joined && exists p :: 1 <= p <= |h| && RootKeyAt(h, p) == m.rootKey)
    && (m.epoch > 0 ==> m.manifest == Some(h[m.epoch - 1].manifest) && m.rootKey == RootKeyAt(h, m.epoch))
  }

  /** From one root key to another: the manifests between, each signed with the key the one before names. */
  predicate HandedOver(h: seq<Signed>, pinned: Key, trusted: Key, p: nat, q: nat) {
    && 1 <= p <= q <= |h| && RootKeyAt(h, p) == pinned && RootKeyAt(h, q) == trusted
    && forall i :: p <= i < q ==> h[i].signer == RootKeyAt(h, i)
  }

  /** A follower trusts the key it pinned until it takes a manifest, then one handed over from it. */
  predicate FollowsPin(h: seq<Signed>, m: Membership, pinned: Key) {
    if m.epoch == 0 then m.rootKey == pinned
      else exists p :: 1 <= p <= m.epoch && HandedOver(h, pinned, m.rootKey, p, m.epoch)
  }

  predicate Trusting(h: seq<Signed>, m: Membership, pinned: Key) {
    OnChain(h, m) && FollowsPin(h, m, pinned)
  }

  predicate AllTrusting(h: seq<Signed>, followers: map<NodeId, Membership>, pins: map<NodeId, Key>) {
    pins.Keys == followers.Keys && forall n :: n in followers ==> Trusting(h, followers[n], pins[n])
  }

  predicate RootSound(secret: Key -> bool, r: Root) {
    && Chained(r.history) && NoReturn(r.history) && Secret(secret, r.history)
    && r.privateKey == Current(r).rootKey
  }

  predicate Sound(secret: Key -> bool, s: Trust) {
    RootSound(secret, s.root) && AllTrusting(s.root.history, s.followers, s.pins)
  }

  lemma OnChainExtends(h: seq<Signed>, more: seq<Signed>, m: Membership)
    requires OnChain(h, m) && h <= more && Chained(more)
    ensures OnChain(more, m)
  {
    if m.epoch == 0 {
      var p :| 1 <= p <= |h| && RootKeyAt(h, p) == m.rootKey;
      assert RootKeyAt(more, p) == m.rootKey;
    }
  }

  lemma TrustingExtends(h: seq<Signed>, more: seq<Signed>, m: Membership, pinned: Key)
    requires Trusting(h, m, pinned) && h <= more && Chained(more)
    ensures Trusting(more, m, pinned)
  {
    OnChainExtends(h, more, m);
    if m.epoch > 0 {
      var p :| 1 <= p <= m.epoch && HandedOver(h, pinned, m.rootKey, p, m.epoch);
      assert HandedOver(more, pinned, m.rootKey, p, m.epoch);
    }
  }

  lemma ChainHandsOver(h: seq<Signed>, p: nat, q: nat)
    requires Chained(h) && 1 <= p <= q <= |h|
    ensures HandedOver(h, RootKeyAt(h, p), RootKeyAt(h, q), p, q)
  {}

  /** An epoch up to `f` named the pinned key. */
  lemma PinnedBefore(h: seq<Signed>, m: Membership, f: nat, pinned: Key) returns (p: nat)
    requires Chained(h) && Trusting(h, m, pinned) && 1 <= f <= |h| && Acceptable(m, h[f - 1])
    ensures 1 <= p <= f && RootKeyAt(h, p) == pinned
  {
    if m.epoch > 0 {
      p :| 1 <= p <= m.epoch && HandedOver(h, pinned, m.rootKey, p, m.epoch);
    } else {
      p := if f == 1 then 1 else f - 1;
    }
  }

  lemma FollowsFrom(h: seq<Signed>, next: Membership, pinned: Key, p: nat)
    requires 1 <= p <= next.epoch && HandedOver(h, pinned, next.rootKey, p, next.epoch)
    ensures FollowsPin(h, next, pinned)
  {}

  lemma AcceptedIsOnChain(h: seq<Signed>, m: Membership, self: NodeId, f: nat)
    requires Chained(h) && OnChain(h, m) && 1 <= f <= |h| && Acceptable(m, h[f - 1])
    ensures var next := Accepted(m, self, h[f - 1]);
            OnChain(h, next) && next.epoch == f && next.rootKey == RootKeyAt(h, f)
  {}

  /** Taking the manifest of epoch `f` follows the chain from the pinned key on. */
  lemma AcceptedIsTrusting(h: seq<Signed>, m: Membership, self: NodeId, f: nat, pinned: Key)
    requires Chained(h) && Trusting(h, m, pinned)
    requires 1 <= f <= |h| && Acceptable(m, h[f - 1])
    ensures Trusting(h, Accepted(m, self, h[f - 1]), pinned)
  {
    var p := PinnedBefore(h, m, f, pinned);
    ChainHandsOver(h, p, f);
    AcceptedIsOnChain(h, m, self, f);
    FollowsFrom(h, Accepted(m, self, h[f - 1]), pinned, p);
  }

  /** What is not signed with a root key is never taken. */
  lemma OnlyPublishedIsTaken(secret: Key -> bool, h: seq<Signed>, m: Membership, signed: Signed)
    requires Chained(h) && Secret(secret, h) && OnChain(h, m)
    requires signed in h || !secret(signed.signer)
    ensures Acceptable(m, signed) ==> 1 <= signed.manifest.epoch <= |h| && h[signed.manifest.epoch - 1] == signed
  {
    if Acceptable(m, signed) {
      assert secret(m.rootKey);
      var i :| 0 <= i < |h| && h[i] == signed;
      assert h[i].manifest.epoch == i + 1;
    }
  }

  lemma PublishKeepsChain(secret: Key -> bool, r: Root, nodes: seq<ManifestNode>, key: Key)
    requires Chained(r.history) && NoReturn(r.history) && Secret(secret, r.history)
    requires r.privateKey == Current(r).rootKey
    requires key == Current(r).rootKey
      || (secret(key) && forall i :: 0 <= i < |r.history| ==> r.history[i].manifest.rootKey != key)
    ensures var h := Publish(r, nodes, key).history;
            Chained(h) && NoReturn(h) && Secret(secret, h) && r.history <= h
  {
    var last := Signed(Manifest(Current(r).clusterId, Current(r).epoch + 1, key, nodes), r.privateKey);
    ChainGrows(r.history, last);
    FreshKeyNeverReturns(r.history, last);
  }

  lemma ChainGrows(g: seq<Signed>, last: Signed)
    requires Chained(g) && last.manifest.epoch == |g| + 1 && last.manifest.clusterId == g[0].manifest.clusterId
    requires last.signer == g[|g| - 1].manifest.rootKey
    ensures Chained(g + [last])
  {}

  lemma FreshKeyNeverReturns(g: seq<Signed>, last: Signed)
    requires g != [] && NoReturn(g)
    requires last.manifest.rootKey == g[|g| - 1].manifest.rootKey
      || forall i :: 0 <= i < |g| ==> g[i].manifest.rootKey != last.manifest.rootKey
    ensures NoReturn(g + [last])
  {
    var h := g + [last];
    forall i, j, k | 0 <= i <= j <= k < |h| && h[i].manifest.rootKey == h[k].manifest.rootKey
      ensures h[j].manifest.rootKey == h[i].manifest.rootKey
    {
      if k == |g| && j < |g| {
        assert g[i].manifest.rootKey == g[|g| - 1].manifest.rootKey;
      }
    }
  }

  lemma ActKeepsChain(secret: Key -> bool, r: Root, a: Action)
    requires RootSound(secret, r)
    requires a.RotateRootKey? ==>
      secret(a.key) && forall i :: 0 <= i < |r.history| ==> r.history[i].manifest.rootKey != a.key
    ensures RootSound(secret, Act(r, a)) && r.history <= Act(r, a).history
  {
    var nodes := if a.RotateRootKey? then Current(r).nodes else NodesAfter(r, a);
    var key := if a.RotateRootKey? then a.key else Current(r).rootKey;
    PublishKeepsChain(secret, r, nodes, key);
    ActPublishes(r, a, nodes, key);
  }

  /** An action that publishes leaves the key of the last manifest in the root's hands. */
  lemma ActPublishes(r: Root, a: Action, nodes: seq<ManifestNode>, key: Key)
    requires r.history != [] && r.privateKey == Current(r).rootKey
    requires nodes == if a.RotateRootKey? then Current(r).nodes else NodesAfter(r, a)
    requires key == if a.RotateRootKey? then a.key else Current(r).rootKey
    ensures var next := Act(r, a);
            && (next.history == r.history || next.history == Publish(r, nodes, key).history)
            && next.privateKey == Current(next).rootKey
  {}

  lemma AllTrustingExtends(h: seq<Signed>, more: seq<Signed>, followers: map<NodeId, Membership>,
                           pins: map<NodeId, Key>)
    requires AllTrusting(h, followers, pins) && h <= more && Chained(more)
    ensures AllTrusting(more, followers, pins)
  {
    forall n | n in followers ensures Trusting(more, followers[n], pins[n]) {
      TrustingExtends(h, more, followers[n], pins[n]);
    }
  }

  lemma PinIsTrusting(h: seq<Signed>, clusterId: string, epoch: nat)
    requires Chained(h) && clusterId == h[|h| - 1].manifest.clusterId && 1 <= epoch <= |h|
    ensures Trusting(h, Membership(clusterId, RootKeyAt(h, epoch), false, None, 0), RootKeyAt(h, epoch))
  {}

  lemma AdminKeepsSound(secret: Key -> bool, s: Trust, a: Action)
    requires Sound(secret, s) && Possible(secret, s, Admin(a))
    ensures Sound(secret, s.(root := Act(s.root, a)))
  {
    ActKeepsChain(secret, s.root, a);
    AllTrustingExtends(s.root.history, Act(s.root, a).history, s.followers, s.pins);
  }

  lemma FollowerKeepsSound(secret: Key -> bool, s: Trust, n: NodeId, m: Membership, pinned: Key)
    requires Sound(secret, s) && Trusting(s.root.history, m, pinned)
    ensures Sound(secret, s.(followers := s.followers[n := m], pins := s.pins[n := pinned]))
  {}

  lemma PinKeepsSound(secret: Key -> bool, s: Trust, n: NodeId, epoch: nat)
    requires Sound(secret, s) && 1 <= epoch <= |s.root.history|
    ensures var key := RootKeyAt(s.root.history, epoch);
            var m := Membership(Current(s.root).clusterId, key, false, None, 0);
            Sound(secret, s.(followers := s.followers[n := m], pins := s.pins[n := key]))
  {
    var key := RootKeyAt(s.root.history, epoch);
    PinIsTrusting(s.root.history, Current(s.root).clusterId, epoch);
    FollowerKeepsSound(secret, s, n, Membership(Current(s.root).clusterId, key, false, None, 0), key);
  }

  lemma TrustGoesOn(secret: Key -> bool, h: seq<Signed>, m: Membership, n: NodeId, signed: Signed, pinned: Key)
    returns (next: Membership)
    requires Chained(h) && Secret(secret, h) && Trusting(h, m, pinned)
    requires signed in h || !secret(signed.signer)
    ensures next == Accepted(m, n, signed) && Trusting(h, next, pinned)
  {
    next := Accepted(m, n, signed);
    OnlyPublishedIsTaken(secret, h, m, signed);
    if Acceptable(m, signed) { AcceptedIsTrusting(h, m, n, signed.manifest.epoch, pinned); }
  }

  lemma MemberKeepsSound(secret: Key -> bool, s: Trust, n: NodeId, next: Membership)
    requires Sound(secret, s) && n in s.followers && Trusting(s.root.history, next, s.pins[n])
    ensures Sound(secret, s.(followers := s.followers[n := next]))
  {}

  /** A manifest signed with another key than the trusted one changes nothing; a published one keeps the chain. */
  lemma DeliverKeepsSound(secret: Key -> bool, s: Trust, n: NodeId, signed: Signed)
    requires Sound(secret, s) && n in s.followers && (signed in s.root.history || !secret(signed.signer))
    ensures Sound(secret, s.(followers := s.followers[n := Accepted(s.followers[n], n, signed)]))
  {
    var next := TrustGoesOn(secret, s.root.history, s.followers[n], n, signed, s.pins[n]);
    MemberKeepsSound(secret, s, n, next);
  }

  lemma StepKeepsSound(secret: Key -> bool, s: Trust, e: Event)
    requires Sound(secret, s)
    ensures Sound(secret, Step(secret, s, e))
  {
    if Possible(secret, s, e) {
      match e
      case Admin(a) => AdminKeepsSound(secret, s, a);
      case Pin(n, epoch) => PinKeepsSound(secret, s, n, epoch);
      case Deliver(n, signed) => DeliverKeepsSound(secret, s, n, signed);
    }
  }

  lemma {:induction false} ExecKeepsSound(secret: Key -> bool, s: Trust, events: seq<Event>)
    requires Sound(secret, s)
    ensures Sound(secret, Exec(secret, s, events))
    ensures s.root.history <= Exec(secret, s, events).root.history
    decreases |events|
  {
    if events != [] {
      StepKeepsHistory(secret, s, events[0]);
      StepKeepsSound(secret, s, events[0]);
      ExecKeepsSound(secret, Step(secret, s, events[0]), events[1..]);
    }
  }

  /** A new cluster: the root node has published epoch 1, itself on the list, and nobody else has joined. */
  predicate Begins(secret: Key -> bool, s: Trust) {
    && s.followers == map[] && s.pins == map[]
    && |s.root.history| == 1 && |Current(s.root).nodes| == 1
    && var n := Current(s.root).nodes[0];
       secret(s.root.privateKey)
       && s.root == Create(Current(s.root).clusterId, s.root.self, n.zone, n.details, n.publicKey, s.root.privateKey)
  }

  lemma BeginsSound(secret: Key -> bool, s: Trust)
    requires Begins(secret, s)
    ensures Sound(secret, s)
  {}

  /* ── Agreement ─────────────────────────────────────────────────────── */

  /**
   In every reachable state a node holds exactly the manifest the root published for its epoch, so
   two nodes at the same epoch hold the same one. The root key it trusts is the one it pinned, as
   long as it has taken no manifest, and then one handed over from it: from an epoch that named the
   pinned key to the node's own epoch, each manifest is signed with the key the one before names.
   */
  lemma ManifestAgreement(secret: Key -> bool, start: Trust, events: seq<Event>, n: NodeId, m: NodeId)
    requires Begins(secret, start)
    requires var s := Exec(secret, start, events); n in s.followers && m in s.followers
    ensures var s := Exec(secret, start, events);
            var h, a, b := s.root.history, s.followers[n], s.followers[m];
            && n in s.pins && a.epoch <= |h|
            && (a.epoch > 0 ==> a.manifest == Some(h[a.epoch - 1].manifest) && a.rootKey == a.manifest.value.rootKey)
            && (a.epoch > 0 && a.epoch == b.epoch ==> a.manifest == b.manifest && a.rootKey == b.rootKey)
            && (a.epoch == 0 ==> a.manifest == None && a.rootKey == s.pins[n])
            && (a.epoch > 0 ==> exists p :: 1 <= p <= a.epoch && HandedOver(h, s.pins[n], a.rootKey, p, a.epoch))
  {
    BeginsSound(secret, start);
    ExecKeepsSound(secret, start, events);
    var s := Exec(secret, start, events);
    TrustingMeans(s.root.history, s.followers[n], s.pins[n]);
    TrustingMeans(s.root.history, s.followers[m], s.pins[m]);
  }

  lemma TrustingMeans(h: seq<Signed>, m: Membership, pinned: Key)
    requires Trusting(h, m, pinned)
    ensures m.epoch <= |h|
    ensures m.epoch > 0 ==> m.manifest == Some(h[m.epoch - 1].manifest) && m.rootKey == m.manifest.value.rootKey
    ensures m.epoch == 0 ==> m.manifest == None && m.rootKey == pinned
    ensures m.epoch > 0 ==> exists p :: 1 <= p <= m.epoch && HandedOver(h, pinned, m.rootKey, p, m.epoch)
  {}

  /** What a node pinned is not forgotten nor replaced. */
  lemma {:induction false} PinsStay(secret: Key -> bool, s: Trust, events: seq<Event>, n: NodeId)
    requires s.root.history != [] && s.pins.Keys == s.followers.Keys && n in s.pins
    ensures var t := Exec(secret, s, events); n in t.pins && t.pins[n] == s.pins[n]
    decreases |events|
  {
    if events != [] {
      PinsStay(secret, Step(secret, s, events[0]), events[1..], n);
    }
  }

  /** Each delivery keeps a node's epoch or raises it, and only a taken manifest changes anything. */
  lemma {:induction false} EpochsIncrease(secret: Key -> bool, s: Trust, events: seq<Event>, n: NodeId)
    requires s.root.history != [] && n in s.followers
    ensures var t := Exec(secret, s, events);
            && n in t.followers
            && s.followers[n].epoch <= t.followers[n].epoch
            && (s.followers[n].epoch == t.followers[n].epoch ==> t.followers[n] == s.followers[n])
    decreases |events|
  {
    if events != [] {
      StepKeepsHistory(secret, s, events[0]);
      EpochsIncrease(secret, Step(secret, s, events[0]), events[1..], n);
    }
  }
}
