/**
 Requests signed by one node for another: who may speak, and why a request is accepted at most
 once although old nonces are purged (server/src/clusterTrust.ts verifyRequest).
 */
module NodeRequests {
  import opened Collections
  import opened Manifest
  import opened ManifestRuns
  import opened NodeLists

  const MAX_SKEW := 5 * 60 * 1000
  const PURGE_EVERY := 60_000

  datatype Allow = ActiveOnly | Known | KnownOrPending

  /** Headers and body of a request; `signer` is the key whose signature covers all of it. */
  datatype SignedRequest = SignedRequest(node: NodeId, at: int, nonce: string, payload: string, signer: Key,
                                         wellFormed: bool)

  datatype Nonce = Nonce(node: NodeId, value: string)

  /** What verification remembers: the nonce table survives a restart, the time of the last purge does not. */
  datatype Memory = Memory(nonces: map<Nonce, int>, lastPurge: int)

  function NonceOf(q: SignedRequest): Nonce {
    Nonce(q.node, q.nonce)
  }

  /** Key against which a node's signature is checked, if it may speak at all. */
  function KeyFor(nodes: seq<ManifestNode>, pending: map<NodeId, Request>, node: NodeId, allow: Allow): Option<Key> {
    var listed := Find(nodes, node);
    if listed.Some? && (allow != ActiveOnly || listed.value.status == Active) && listed.value.status != Revoked
      then Some(listed.value.publicKey)
    else if allow == KnownOrPending && node in pending then Some(pending[node].publicKey)
    else None
  }

  predicate InWindow(q: SignedRequest, now: int) {
    -MAX_SKEW <= now - q.at <= MAX_SKEW
  }

  predicate Authentic(q: SignedRequest, key: Option<Key>, now: int) {
    q.wellFormed && InWindow(q, now) && key == Some(q.signer)
  }

  /** Nonces older than twice the window are dropped, at most once a minute. */
  function Purged(m: Memory, now: int): Memory {
    if now - m.lastPurge > PURGE_EVERY
    then Memory(map n | n in m.nonces && m.nonces[n] >= now - 2 * MAX_SKEW :: m.nonces[n], now)
    else m
  }

  predicate Accepts(m: Memory, q: SignedRequest, key: Option<Key>, now: int) {
    Authentic(q, key, now) && NonceOf(q) !in Purged(m, now).nonces
  }

  function Remember(m: Memory, q: SignedRequest, key: Option<Key>, now: int): Memory {
    if !Authentic(q, key, now) then m
    else
      var p := Purged(m, now);
      if NonceOf(q) in p.nonces then p else p.(nonces := p.nonces[NonceOf(q) := q.at])
  }

  /**
   Who may speak with a key: a listed node that is not revoked (nor disabled, where only active nodes
   may), or, where allowed, a node whose request to join is pending and that is not listed otherwise.
   */
  predicate MaySpeak(nodes: seq<ManifestNode>, pending: map<NodeId, Request>, node: NodeId, allow: Allow, key: Key) {
    || (exists n :: n in nodes && n.id == node && n.publicKey == key
                    && (n.status == Active || (n.status == Disabled && allow != ActiveOnly)))
    || (allow == KnownOrPending && node in pending && pending[node].publicKey == key
        && forall n :: n in nodes && n.id == node ==> n.status == Revoked)
  }

  lemma KeyForMeaning(nodes: seq<ManifestNode>, pending: map<NodeId, Request>, node: NodeId, allow: Allow, key: Key)
    requires DistinctIds(nodes)
    ensures KeyFor(nodes, pending, node, allow) == Some(key) <==> MaySpeak(nodes, pending, node, allow, key)
  {
    FindFacts(nodes, node);
    OneRow(nodes, node);
  }

  /** A nonce in the table still counts, unless a purge is due and it is older than twice the window. */
  predicate StillKnown(m: Memory, n: Nonce, now: int) {
    n in m.nonces && !(now - m.lastPurge > 60_000 && m.nonces[n] < now - 2 * 300_000)
  }

  class Verifier {
    var nonces: map<Nonce, int>
    var lastPurge: int

    function State(): Memory
      reads this
    {
      Memory(nonces, lastPurge)
    }

    constructor ()
      ensures State() == Memory(map[], 0)
    {
      nonces, lastPurge := map[], 0;
    }

    method VerifyRequest(q: SignedRequest, nodes: seq<ManifestNode>, pending: map<NodeId, Request>, allow: Allow,
                         now: int)
      returns (accepted: bool)
      modifies this
      ensures accepted <==> Accepts(old(State()), q, KeyFor(nodes, pending, q.node, allow), now)
      ensures State() == Remember(old(State()), q, KeyFor(nodes, pending, q.node, allow), now)
      ensures DistinctIds(nodes) ==>
        (accepted <==>
          && q.wellFormed && -300_000 <= now - q.at <= 300_000
          && MaySpeak(nodes, pending, q.node, allow, q.signer)
          && !StillKnown(old(State()), Nonce(q.node, q.nonce), now))
      ensures accepted ==> Nonce(q.node, q.nonce) in nonces && nonces[Nonce(q.node, q.nonce)] == q.at
      ensures forall n :: StillKnown(old(State()), n, now) ==> n in nonces && nonces[n] == old(nonces)[n]
      ensures forall n :: n in nonces && !(accepted && n == Nonce(q.node, q.nonce)) ==>
        n in old(nonces) && nonces[n] == old(nonces)[n]
    {
      if DistinctIds(nodes) { KeyForMeaning(nodes, pending, q.node, allow, q.signer); }
      if !q.wellFormed || !InWindow(q, now) { return false; }
      var key: Option<Key> := None;
      var listed := Find(nodes, q.node);
      if listed.Some? && (allow != ActiveOnly || listed.value.status == Active) && listed.value.status != Revoked {
        key := Some(listed.value.publicKey);
      } else if allow == KnownOrPending && q.node in pending {
        key := Some(pending[q.node].publicKey);
      }
      if key != Some(q.signer) { return false; }
      if now - lastPurge > PURGE_EVERY {
        nonces := map n | n in nonces && nonces[n] >= now - 2 * MAX_SKEW :: nonces[n];
        lastPurge := now;
      }
      if NonceOf(q) in nonces { return false; }
      nonces := nonces[NonceOf(q) := q.at];
      return true;
    }

    /** A restart: the table is in the database, the variable is not. */
    method Restart()
      modifies this
      ensures State() == Memory(old(nonces), 0)
    {
      lastPurge := 0;
    }
  }

  /* ── Runs ──────────────────────────────────────────────────────────── */

  /** `elapsed` is the time since the previous event: the clock never goes back. */
  datatype Event =
    | Receive(elapsed: nat, request: SignedRequest, key: Option<Key>)
    | Reboot(elapsed: nat)

  datatype Server = Server(memory: Memory, now: int, accepted: seq<SignedRequest>)

  function Step(s: Server, e: Event): Server {
    var now := s.now + e.elapsed;
    match e
    case Receive(_, q, key) =>
      Server(Remember(s.memory, q, key, now), now,
             if Accepts(s.memory, q, key, now) then s.accepted + [q] else s.accepted)
    case Reboot(_) => Server(s.memory.(lastPurge := 0), now, s.accepted)
  }

  function Exec(s: Server, events: seq<Event>): Server
    decreases |events|
  {
    if events == [] then s else Exec(Step(s, events[0]), events[1..])
  }

  /** An accepted request either is still remembered, or has left the window for good. */
  predicate Guarded(s: Server, q: SignedRequest) {
    (NonceOf(q) in s.memory.nonces && s.memory.nonces[NonceOf(q)] == q.at) || q.at < s.now - MAX_SKEW
  }

  predicate NoRepeat(accepted: seq<SignedRequest>) {
    forall i, j :: 0 <= i < j < |accepted| ==> accepted[i] != accepted[j]
  }

  predicate Safe(s: Server) {
    NoRepeat(s.accepted) && forall q :: q in s.accepted ==> Guarded(s, q)
  }

  /** A nonce is only forgotten once its request is out of the window. */
  lemma StepGuards(s: Server, e: Event, q: SignedRequest)
    requires Guarded(s, q)
    ensures Guarded(Step(s, e), q)
    ensures e.Receive? && e.request == q ==> !Accepts(s.memory, q, e.key, s.now + e.elapsed)
  {}

  lemma StepKeepsSafe(s: Server, e: Event)
    requires Safe(s)
    ensures Safe(Step(s, e))
  {
    var t := Step(s, e);
    forall q | q in s.accepted ensures Guarded(t, q) {
      StepGuards(s, e, q);
    }
    if t.accepted != s.accepted {
      var q := e.request;
      assert Guarded(t, q);
      forall i | 0 <= i < |s.accepted| ensures s.accepted[i] != q {
        StepGuards(s, e, s.accepted[i]);
      }
    }
  }

  /** In every run with a clock that does not go back, restarts included, no request is accepted twice. */
  lemma {:induction false} AcceptedAtMostOnce(s: Server, events: seq<Event>)
    requires Safe(s)
    ensures Safe(Exec(s, events)) && NoRepeat(Exec(s, events).accepted)
    decreases |events|
  {
    if events != [] {
      StepKeepsSafe(s, events[0]);
      AcceptedAtMostOnce(Step(s, events[0]), events[1..]);
    }
  }

  /** Refusal is only for cause: in every reachable state an authentic request with an unused nonce is accepted. */
  lemma {:induction false} NoncesComeFromRequests(s: Server, events: seq<Event>, n: Nonce)
    requires forall e :: e in events && e.Receive? ==> NonceOf(e.request) != n
    requires n !in s.memory.nonces
    ensures n !in Exec(s, events).memory.nonces
    decreases |events|
  {
    if events != [] {
      assert events[0] in events;
      NoncesComeFromRequests(Step(s, events[0]), events[1..], n);
    }
  }

  lemma FreshRequestAccepted(start: int, events: seq<Event>, q: SignedRequest, key: Option<Key>, elapsed: nat)
    requires forall e :: e in events && e.Receive? ==> NonceOf(e.request) != NonceOf(q)
    requires var s := Exec(Server(Memory(map[], 0), start, []), events);
             Authentic(q, key, s.now + elapsed)
    ensures var s := Exec(Server(Memory(map[], 0), start, []), events);
            Accepts(s.memory, q, key, s.now + elapsed)
  {
    NoncesComeFromRequests(Server(Memory(map[], 0), start, []), events, NonceOf(q));
  }

  /** A disabled node is not answered where only active nodes may speak. */
  lemma DisabledNodeIsSilent(nodes: seq<ManifestNode>, pending: map<NodeId, Request>, n: ManifestNode, m: Memory,
                             q: SignedRequest, now: int)
    requires DistinctIds(nodes) && n in nodes && n.status == Disabled && q.node == n.id
    ensures !Accepts(m, q, KeyFor(nodes, pending, q.node, ActiveOnly), now)
    ensures forall allow :: allow != ActiveOnly ==> KeyFor(nodes, pending, q.node, allow) == Some(n.publicKey)
  {
    OneRow(nodes, n.id);
  }

  /**
   In every run of the cluster, the root node answers no request from a node it has revoked, whoever
   is allowed to speak: such a node cannot have a pending request to join either.
   */
  lemma RevokedNodeIsSilent(secret: Key -> bool, start: Trust, events: seq<ManifestRuns.Event>, n: ManifestNode,
                            allow: Allow, m: Memory, q: SignedRequest, now: int)
    requires Begins(secret, start)
    requires n in Current(ManifestRuns.Exec(secret, start, events).root).nodes && n.status == Revoked && q.node == n.id
    ensures var root := ManifestRuns.Exec(secret, start, events).root;
            !Accepts(m, q, KeyFor(Current(root).nodes, root.requests, q.node, allow), now)
  {
    BeginsListed(secret, start);
    ListStaysWellFormed(secret, start, events);
    RevokedIsRefused(ManifestRuns.Exec(secret, start, events).root, n, allow, m, q, now);
  }

  /** So revoking a node silences it: from then on, while it is listed, no request of it is accepted. */
  lemma RevocationSilences(secret: Key -> bool, start: Trust, past: seq<ManifestRuns.Event>,
                           future: seq<ManifestRuns.Event>, id: NodeId, replacement: Option<NodeId>, allow: Allow,
                           m: Memory, q: SignedRequest, now: int)
    requires Begins(secret, start) && q.node == id
    requires Allowed(ManifestRuns.Exec(secret, start, past).root, Revoke(id, replacement))
    requires var t := ManifestRuns.Step(secret, ManifestRuns.Exec(secret, start, past), Admin(Revoke(id, replacement)));
             ListedSince(ManifestRuns.Exec(secret, t, future).root.history, |t.root.history|, id)
    ensures var t := ManifestRuns.Step(secret, ManifestRuns.Exec(secret, start, past), Admin(Revoke(id, replacement)));
            var root := ManifestRuns.Exec(secret, t, future).root;
            !Accepts(m, q, KeyFor(Current(root).nodes, root.requests, q.node, allow), now)
  {
    var s := ManifestRuns.Exec(secret, start, past);
    var t := ManifestRuns.Step(secret, s, Admin(Revoke(id, replacement)));
    RevocationLasts(secret, start, past, future, id, replacement);
    BeginsListed(secret, start);
    ListStaysWellFormed(secret, start, past);
    ActKeepsList(s.root, Revoke(id, replacement));
    ActKeepsLists(s.root, Revoke(id, replacement));
    ListStaysWellFormed(secret, t, future);
    var root := ManifestRuns.Exec(secret, t, future).root;
    var n :| n in Current(root).nodes && n.id == id && n.status == Revoked;
    RevokedIsRefused(root, n, allow, m, q, now);
  }

  lemma RevokedIsRefused(root: Root, n: ManifestNode, allow: Allow, m: Memory, q: SignedRequest, now: int)
    requires WellListed(root) && n in Current(root).nodes && n.status == Revoked && q.node == n.id
    ensures !Accepts(m, q, KeyFor(Current(root).nodes, root.requests, q.node, allow), now)
  {
    OneRow(Current(root).nodes, n.id);
    assert Listed(Current(root).nodes, n.id);
  }
}
