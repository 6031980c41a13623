/**
 Catching up with the root: which later manifests a node takes, in every run of ManifestRuns, and
 what becomes of one that missed a rotation (server/src/clusterTrust.ts acceptManifest, rotateRootKey).
 */
module CatchingUp {
  import opened Collections
  import opened Manifest
  import opened ManifestRuns

  /** No rotation in a range of epochs means the key did not change over it, and conversely. */
  lemma {:induction false} NoRotationBetween(h: seq<Signed>, e: nat, f: nat)
    requires NoReturn(h) && 1 <= e <= f <= |h|
    ensures RootKeyAt(h, e) == RootKeyAt(h, f) <==> forall r :: e < r <= f ==> !IsRotation(h, r)
    decreases f - e
  {
    if e < f {
      NoRotationBetween(h, e, f - 1);
      if RootKeyAt(h, e) == RootKeyAt(h, f) {
        assert RootKeyAt(h, f - 1) == RootKeyAt(h, e);
      } else if RootKeyAt(h, e) == RootKeyAt(h, f - 1) {
        assert IsRotation(h, f);
      }
    }
  }

  /**
   The exact catch-up rule: a node at epoch e takes the manifest of a later epoch f if and only if
   no rotation of the root key was published strictly between e and f, and the manifest lists no
   more nodes than a node accepts (publishing does not check that bound).
   */
  lemma CatchUpRule(secret: Key -> bool, start: Trust, events: seq<Event>, n: NodeId, f: nat)
    requires Begins(secret, start)
    requires var s := Exec(secret, start, events);
             n in s.followers && 1 <= s.followers[n].epoch < f <= |s.root.history|
    ensures var s := Exec(secret, start, events);
            var m, h := s.followers[n], s.root.history;
            Acceptable(m, h[f - 1]) <==>
              && (forall r :: m.epoch < r < f ==> !IsRotation(h, r))
              && |h[f - 1].manifest.nodes| <= MAX_NODES
  {
    BeginsSound(secret, start);
    ExecKeepsSound(secret, start, events);
    var s := Exec(secret, start, events);
    assert Trusting(s.root.history, s.followers[n], s.pins[n]);
    NoRotationBetween(s.root.history, s.followers[n].epoch, f - 1);
  }

  /** A joining node, still on its pinned key: the same rule, counted from any epoch that key held. */
  lemma FirstManifestRule(secret: Key -> bool, start: Trust, events: seq<Event>, n: NodeId, pinned: nat, f: nat)
    requires Begins(secret, start)
    requires var s := Exec(secret, start, events);
             && n in s.followers && s.followers[n].epoch == 0
             && 1 <= pinned <= |s.root.history| && RootKeyAt(s.root.history, pinned) == s.followers[n].rootKey
             && pinned < f <= |s.root.history|
    ensures var s := Exec(secret, start, events);
            var m, h := s.followers[n], s.root.history;
            Acceptable(m, h[f - 1]) <==>
              && (forall r :: pinned < r < f ==> !IsRotation(h, r))
              && |h[f - 1].manifest.nodes| <= MAX_NODES
  {
    BeginsSound(secret, start);
    ExecKeepsSound(secret, start, events);
    var s := Exec(secret, start, events);
    assert Trusting(s.root.history, s.followers[n], s.pins[n]);
    NoRotationBetween(s.root.history, pinned, f - 1);
  }

  /** The node trusts a key of an epoch before `r` and has not reached `r`. */
  ghost predicate Behind(h: seq<Signed>, m: Membership, r: nat) {
    m.epoch < r && exists p :: 1 <= p < r && p <= |h| && RootKeyAt(h, p) == m.rootKey
  }

  predicate Takes(m: Membership, h: seq<Signed>, f: nat) {
    1 <= f <= |h| && Acceptable(m, h[f - 1])
  }

  lemma RotationBlocks(h: seq<Signed>, m: Membership, r: nat, f: nat)
    requires Chained(h) && NoReturn(h) && IsRotation(h, r) && Behind(h, m, r) && r < f <= |h|
    ensures !Takes(m, h, f)
  {
    var p :| 1 <= p < r && p <= |h| && RootKeyAt(h, p) == m.rootKey;
    NoRotationBetween(h, p, f - 1);
  }

  lemma BehindExtends(h: seq<Signed>, more: seq<Signed>, m: Membership, r: nat)
    requires Behind(h, m, r) && h <= more
    ensures Behind(more, m, r)
  {
    var p :| 1 <= p < r && p <= |h| && RootKeyAt(h, p) == m.rootKey;
    assert RootKeyAt(more, p) == m.rootKey;
  }

  lemma TakenIsEarlier(h: seq<Signed>, m: Membership, r: nat, f: nat)
    requires Chained(h) && NoReturn(h) && IsRotation(h, r) && Behind(h, m, r)
    requires Takes(m, h, f) && h[f - 1] != h[r - 1]
    ensures f < r
  {
    if r < f { RotationBlocks(h, m, r, f); }
  }

  lemma EarlierIsBehind(h: seq<Signed>, m: Membership, self: NodeId, r: nat, f: nat)
    requires Takes(m, h, f) && f < r && h[f - 1].manifest.epoch == f
    ensures Behind(h, Accepted(m, self, h[f - 1]), r)
  {
    assert RootKeyAt(h, f) == Accepted(m, self, h[f - 1]).rootKey;
  }

  /** A delivery leaves the node behind the rotation, unless it is the rotation's own manifest. */
  lemma DeliveryStaysBehind(secret: Key -> bool, h: seq<Signed>, m: Membership, self: NodeId, signed: Signed, r: nat)
    requires Chained(h) && NoReturn(h) && Secret(secret, h) && OnChain(h, m)
    requires IsRotation(h, r) && Behind(h, m, r)
    requires (signed in h || !secret(signed.signer)) && signed != h[r - 1]
    ensures Behind(h, Accepted(m, self, signed), r)
  {
    OnlyPublishedIsTaken(secret, h, m, signed);
    if Acceptable(m, signed) {
      TakenIsEarlier(h, m, r, signed.manifest.epoch);
      EarlierIsBehind(h, m, self, r, signed.manifest.epoch);
    }
  }

  lemma StepStaysBehind(secret: Key -> bool, s: Trust, e: Event, n: NodeId, r: nat)
    requires Sound(secret, s) && n in s.followers && IsRotation(s.root.history, r)
    requires Behind(s.root.history, s.followers[n], r) && e != Deliver(n, s.root.history[r - 1])
    ensures n in Step(secret, s, e).followers
    ensures Behind(Step(secret, s, e).root.history, Step(secret, s, e).followers[n], r)
  {
    StepKeepsHistory(secret, s, e);
    var h, m, more := s.root.history, s.followers[n], Step(secret, s, e).root.history;
    assert Trusting(h, m, s.pins[n]);
    BehindExtends(h, more, m, r);
    if e.Deliver? && e.node == n && Possible(secret, s, e) {
      DeliveryStaysBehind(secret, h, m, n, e.signed, r);
    } else {
      OthersStay(secret, s, e, n);
    }
  }

  lemma OthersStay(secret: Key -> bool, s: Trust, e: Event, n: NodeId)
    requires s.root.history != [] && n in s.followers
    requires !(e.Deliver? && e.node == n && Possible(secret, s, e))
    ensures n in Step(secret, s, e).followers && Step(secret, s, e).followers[n] == s.followers[n]
  {}

  lemma {:induction false} StaysBehind(secret: Key -> bool, s: Trust, future: seq<Event>, n: NodeId, r: nat)
    requires Sound(secret, s) && n in s.followers && IsRotation(s.root.history, r)
    requires Behind(s.root.history, s.followers[n], r) && Deliver(n, s.root.history[r - 1]) !in future
    ensures var t := Exec(secret, s, future);
            n in t.followers && s.root.history <= t.root.history && Behind(t.root.history, t.followers[n], r)
    decreases |future|
  {
    if future != [] {
      var e, t := future[0], Step(secret, s, future[0]);
      assert e in future;
      StepStaysBehind(secret, s, e, n, r);
      StepKeepsHistory(secret, s, e);
      StepKeepsSound(secret, s, e);
      StaysBehind(secret, t, future[1..], n, r);
    }
  }

  /**
   A node behind a rotation cannot pass it by itself: whatever is published and delivered afterwards,
   unless it is given the rotation's own manifest it stays behind and refuses every later epoch.
   */
  lemma MissedRotationBlocks(secret: Key -> bool, start: Trust, past: seq<Event>, future: seq<Event>, n: NodeId, r: nat)
    requires Begins(secret, start)
    requires var s := Exec(secret, start, past);
             && n in s.followers && IsRotation(s.root.history, r) && Behind(s.root.history, s.followers[n], r)
             && Deliver(n, s.root.history[r - 1]) !in future
    ensures var t := Exec(secret, Exec(secret, start, past), future);
            && n in t.followers && t.followers[n].epoch < r
            && forall f :: r < f ==> !Takes(t.followers[n], t.root.history, f)
  {
    BeginsSound(secret, start);
    ExecKeepsSound(secret, start, past);
    var s := Exec(secret, start, past);
    ExecKeepsSound(secret, s, future);
    StaysBehind(secret, s, future, n, r);
    var h, m := Exec(secret, s, future).root.history, Exec(secret, s, future).followers[n];
    assert IsRotation(h, r);
    forall f | r < f ensures !Takes(m, h, f) {
      if f <= |h| { RotationBlocks(h, m, r, f); }
    }
  }
}
