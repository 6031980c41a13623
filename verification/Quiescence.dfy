/**
 Replication comes to rest: without client writes every delivery that writes an account's rows
 brings the cluster strictly closer to the join of all vectors, one that brings nothing writes and
 logs nothing, and a cluster where no pull changes anything has reached the join
 (server/src/cluster.ts applyAccountBundle).
 */
module Quiescence {
  import opened Collections
  import opened VersionVectors
  import opened VaultReplica
  import opened ClusterDb

  /** One account on every node, and the bundles read from them so far. */
  datatype System = System(nodes: map<NodeId, Option<Account>>, inflight: set<AccountBundle>)

  datatype Event = Send(node: NodeId) | Deliver(node: NodeId, bundle: AccountBundle)

  function Read(id: Id, a: Account): AccountBundle {
    AccountBundle(id, a.user, a.vault.vault, a.vault.conflicts, a.subscription, {})
  }

  ghost function Step(h: Hashes, id: Id, s: System, e: Event): System {
    match e
    case Send(n) =>
      if n in s.nodes && s.nodes[n].Some? then s.(inflight := s.inflight + {Read(id, s.nodes[n].value)}) else s
    case Deliver(n, b) =>
      if n in s.nodes && b in s.inflight then s.(nodes := s.nodes[n := Some(ResolveAccount(h, s.nodes[n], b))]) else s
  }

  /** The delivery writes the users row or the vaults row of its node. */
  predicate Writes(s: System, e: Event) {
    e.Deliver? && e.node in s.nodes && e.bundle in s.inflight && RowsChange(s.nodes[e.node], e.bundle)
  }

  predicate RowsChange(local: Option<Account>, b: AccountBundle) {
    || UserChanges(b.user, if local.Some? then Some(local.value.user) else None)
    || VaultChanges(b.vault, if local.Some? then local.value.vault else NoVault)
  }

  /* ── Distance to a bound ───────────────────────────────────────────── */

  function Lack(v: VersionVector, bound: VersionVector): map<NodeId, nat> {
    map k | k in bound :: Max(bound[k] - At(v, k), 0)
  }

  /** How far `v` is below `bound`, all counters together. */
  ghost function Gap(v: VersionVector, bound: VersionVector): nat {
    Sum(Lack(v, bound))
  }

  lemma LackShrinks(v: VersionVector, w: VersionVector, bound: VersionVector)
    requires Below(v, w)
    ensures Lack(w, bound).Keys == Lack(v, bound).Keys
    ensures forall k :: k in Lack(w, bound) ==> Lack(w, bound)[k] <= Lack(v, bound)[k]
  {
    BelowMeaning(v, w);
    forall k | k in bound ensures At(v, k) <= At(w, k) {}
  }

  lemma GapShrinks(v: VersionVector, w: VersionVector, bound: VersionVector)
    requires Below(v, w) && Below(w, bound)
    ensures Gap(w, bound) <= Gap(v, bound)
    ensures !Below(w, v) ==> Gap(w, bound) < Gap(v, bound)
  {
    var a, b := Lack(w, bound), Lack(v, bound);
    LackShrinks(v, w, bound);
    SumMonotone(a, b);
    if !Below(w, v) {
      var k := LackFalls(v, w, bound);
      SumStrict(a, b, k);
    }
  }

  lemma LackFalls(v: VersionVector, w: VersionVector, bound: VersionVector) returns (k: NodeId)
    requires Below(w, bound) && !Below(w, v)
    ensures k in bound && Lack(w, bound)[k] < Lack(v, bound)[k]
  {
    k :| k in w && w[k] > At(v, k);
    BelowMeaning(w, bound);
    assert At(w, k) <= At(bound, k);
  }

  ghost function UserVv(a: Option<Account>): VersionVector {
    if a.Some? then a.value.user.vv else map[]
  }

  ghost function VaultVv(a: Option<Account>): VersionVector {
    if a.Some? then Vv(a.value.vault) else map[]
  }

  predicate HasVault(a: Option<Account>) {
    a.Some? && a.value.vault.vault.Some?
  }

  /** What one node still lacks; an absent row counts for one more. */
  ghost function Deficit(a: Option<Account>, users: VersionVector, vaults: VersionVector): nat {
    Gap(UserVv(a), users) + Gap(VaultVv(a), vaults) + Count(a.None?) + Count(!HasVault(a))
  }

  ghost function Deficits(s: System, users: VersionVector, vaults: VersionVector): map<NodeId, nat> {
    map n | n in s.nodes :: Deficit(s.nodes[n], users, vaults)
  }

  /** Sum over the nodes of what each still lacks. */
  ghost function Distance(s: System, users: VersionVector, vaults: VersionVector): nat {
    Sum(Deficits(s, users, vaults))
  }

  /** `users` and `vaults` bound every vector held or in flight: with no client write, for ever. */
  ghost predicate Bounded(s: System, users: VersionVector, vaults: VersionVector) {
    && (forall n :: n in s.nodes ==> Below(UserVv(s.nodes[n]), users) && Below(VaultVv(s.nodes[n]), vaults))
    && (forall b :: b in s.inflight ==> Below(b.user.vv, users) && (b.vault.Some? ==> Below(b.vault.value.vv, vaults)))
  }

  lemma ResolveUserJoins(h: Hashes, incoming: UserRow, local: UserRow)
    ensures Same(ResolveUser(h, incoming, local).vv, Merge(incoming.vv, local.vv))
    ensures Below(local.vv, ResolveUser(h, incoming, local).vv)
    ensures Below(incoming.vv, ResolveUser(h, incoming, local).vv)
    ensures !UserChanges(incoming, Some(local)) ==> ResolveUser(h, incoming, local) == local
  {
    MergeAt(incoming.vv, local.vv);
    BelowMeaning(incoming.vv, local.vv);
    BelowMeaning(local.vv, incoming.vv);
    MergeUpper(incoming.vv, local.vv);
  }

  /** The users row moves strictly towards the bound exactly when it is written. */
  lemma UserProgress(h: Hashes, local: Option<Account>, b: AccountBundle, users: VersionVector)
    requires Below(UserVv(local), users) && Below(b.user.vv, users)
    ensures var after := Some(ResolveAccount(h, local, b));
            && Below(UserVv(after), users)
            && (UserChanges(b.user, if local.Some? then Some(local.value.user) else None) ==>
                  Gap(UserVv(after), users) + Count(after.None?) < Gap(UserVv(local), users) + Count(local.None?))
            && Gap(UserVv(after), users) <= Gap(UserVv(local), users)
  {
    var after := Some(ResolveAccount(h, local, b));
    if local.Some? {
      var mine := local.value.user;
      ResolveUserJoins(h, b.user, mine);
      MergeLeast(b.user.vv, mine.vv, users);
      SameBound(after.value.user.vv, Merge(b.user.vv, mine.vv), users);
      GapShrinks(mine.vv, after.value.user.vv, users);
      if UserChanges(b.user, Some(mine)) {
        MergeLeast(b.user.vv, mine.vv, mine.vv);
        SameBound(after.value.user.vv, Merge(b.user.vv, mine.vv), mine.vv);
      }
    } else {
      GapShrinks(map[], b.user.vv, users);
    }
  }

  lemma VaultProgress(h: Hashes, local: Option<Account>, b: AccountBundle, vaults: VersionVector)
    requires Below(VaultVv(local), vaults) && (b.vault.Some? ==> Below(b.vault.value.vv, vaults))
    ensures var after := Some(ResolveAccount(h, local, b));
            && Below(VaultVv(after), vaults)
            && (VaultChanges(b.vault, if local.Some? then local.value.vault else NoVault) ==>
                  Gap(VaultVv(after), vaults) + Count(!HasVault(after)) < Gap(VaultVv(local), vaults)
                    + Count(!HasVault(local)))
            && Gap(VaultVv(after), vaults) + Count(!HasVault(after)) <= Gap(VaultVv(local), vaults)
              + Count(!HasVault(local))
  {
    var mine := if local.Some? then local.value.vault else NoVault;
    if b.vault.Some? {
      var bundle := Bundle(b.vault.value, b.conflicts);
      var next := Apply(h.blob, mine, bundle);
      ApplyJoinsVectors(h.blob, mine, bundle);
      MergeLeast(bundle.row.vv, Vv(mine), vaults);
      SameBound(Vv(next), Merge(bundle.row.vv, Vv(mine)), vaults);
      GapShrinks(Vv(mine), Vv(next), vaults);
      if VaultChanges(b.vault, mine) && mine.vault.Some? {
        MergeLeast(bundle.row.vv, Vv(mine), Vv(mine));
        SameBound(Vv(next), Merge(bundle.row.vv, Vv(mine)), Vv(mine));
      }
    }
  }

  lemma DeliveryProgress(h: Hashes, local: Option<Account>, b: AccountBundle, users: VersionVector,
                         vaults: VersionVector)
    requires Below(UserVv(local), users) && Below(VaultVv(local), vaults)
    requires Below(b.user.vv, users) && (b.vault.Some? ==> Below(b.vault.value.vv, vaults))
    ensures var after := Some(ResolveAccount(h, local, b));
            && Below(UserVv(after), users) && Below(VaultVv(after), vaults)
            && Deficit(after, users, vaults) <= Deficit(local, users, vaults)
            && (RowsChange(local, b) ==> Deficit(after, users, vaults) < Deficit(local, users, vaults))
  {
    UserProgress(h, local, b, users);
    VaultProgress(h, local, b, vaults);
  }

  /** One node's deficit goes down: so does the sum. */
  lemma DistanceShrinks(s: System, n: NodeId, account: Account, users: VersionVector, vaults: VersionVector,
                        written: bool)
    requires n in s.nodes
    requires Deficit(Some(account), users, vaults) + Count(written) <= Deficit(s.nodes[n], users, vaults)
    ensures Distance(s.(nodes := s.nodes[n := Some(account)]), users, vaults)
      + Count(written) <= Distance(s, users, vaults)
  {
    var a, b := Deficits(s.(nodes := s.nodes[n := Some(account)]), users, vaults), Deficits(s, users, vaults);
    assert a.Keys == b.Keys;
    SumMonotone(a, b);
    if written {
      SumStrict(a, b, n);
    }
  }

  /** Every delivery that writes a row strictly decreases the distance; no step increases it. */
  lemma StepProgress(h: Hashes, id: Id, s: System, e: Event, users: VersionVector, vaults: VersionVector)
    requires Bounded(s, users, vaults)
    ensures Bounded(Step(h, id, s, e), users, vaults)
    ensures Distance(Step(h, id, s, e), users, vaults) + Count(Writes(s, e)) <= Distance(s, users, vaults)
  {
    if e.Deliver? && e.node in s.nodes && e.bundle in s.inflight {
      var local, account := s.nodes[e.node], ResolveAccount(h, s.nodes[e.node], e.bundle);
      DeliveryProgress(h, local, e.bundle, users, vaults);
      DistanceShrinks(s, e.node, account, users, vaults, RowsChange(local, e.bundle));
    }
  }

  ghost function Exec(h: Hashes, id: Id, s: System, events: seq<Event>): System
    decreases |events|
  {
    if events == [] then s else Exec(h, id, Step(h, id, s, events[0]), events[1..])
  }

  ghost function WriteCount(h: Hashes, id: Id, s: System, events: seq<Event>): nat
    decreases |events|
  {
    if events == [] then 0 else Count(Writes(s, events[0])) + WriteCount(h, id, Step(h, id, s, events[0]), events[1..])
  }

  /** However long the run, at most `Distance` deliveries write anything. */
  lemma {:induction false} WritesAreBounded(h: Hashes, id: Id, s: System, events: seq<Event>, users: VersionVector,
                                            vaults: VersionVector)
    requires Bounded(s, users, vaults)
    ensures WriteCount(h, id, s, events) + Distance(Exec(h, id, s, events), users, vaults) <= Distance(s, users, vaults)
    decreases |events|
  {
    if events != [] {
      StepProgress(h, id, s, events[0], users, vaults);
      WritesAreBounded(h, id, Step(h, id, s, events[0]), events[1..], users, vaults);
    }
  }

  /** A bundle leaves the tables and the log as they were exactly when it reports no change. */
  lemma NothingNewWritesNothing(h: Hashes, db: Tables, b: AccountBundle)
    ensures ApplyAccountBundle(h, db, b) == db <==> AccountOutcome(db, b) != Applied(true)
    ensures |ApplyAccountBundle(h, db, b).log| == |db.log|
      + if AccountOutcome(db, b).Applied? then AccountWrites(db, b) else 0
  {
    LoggedLength(db.log, AccountChanged(b.id), AccountWrites(db, b));
    if AccountOutcome(db, b) == Applied(false) {
      var a := db.accounts[b.id];
      ResolveUserJoins(h, b.user, a.user);
      assert ResolveAccount(h, Some(a), b) == a;
      AddedNone(db.attachments, OwnRows(b));
      assert Fresh(db, b.attachments) == {};
      assert db.accounts[b.id := a] == db.accounts;
    }
  }

  lemma {:induction false} LoggedLength(log: seq<Subject>, s: Subject, n: nat)
    ensures |Logged(log, s, n)| == |log| + n
  {
    if n > 0 { LoggedLength(log, s, n - 1); }
  }

  /* ── The join of all vectors ───────────────────────────────────────── */

  ghost function Join(vectors: set<VersionVector>): VersionVector {
    if vectors == {} then map[] else
      var v :| v in vectors;
      Merge(v, Join(vectors - {v}))
  }

  /** It is the least vector above them all. */
  lemma {:induction false} JoinIsLeast(vectors: set<VersionVector>, bound: VersionVector)
    ensures forall v :: v in vectors ==> Below(v, Join(vectors))
    ensures (forall v :: v in vectors ==> Below(v, bound)) ==> Below(Join(vectors), bound)
    decreases vectors
  {
    if vectors != {} {
      var v :| v in vectors && Join(vectors) == Merge(v, Join(vectors - {v}));
      var rest := Join(vectors - {v});
      JoinIsLeast(vectors - {v}, bound);
      MergeUpper(v, rest);
      MergeLeast(v, rest, bound);
      forall w | w in vectors ensures Below(w, Join(vectors)) {
        if w != v { BelowTransitive(w, rest, Join(vectors)); }
      }
    }
  }

  ghost function HeldUsers(s: System): set<VersionVector> {
    (set n | n in s.nodes :: UserVv(s.nodes[n])) + (set b | b in s.inflight :: b.user.vv)
  }

  ghost function HeldVaults(s: System): set<VersionVector> {
    (set n | n in s.nodes :: VaultVv(s.nodes[n])) + (set b | b in s.inflight && b.vault.Some? :: b.vault.value.vv)
  }

  ghost function UserJoin(s: System): VersionVector {
    Join(HeldUsers(s))
  }

  ghost function VaultJoin(s: System): VersionVector {
    Join(HeldVaults(s))
  }

  /** The joins bound everything there is, so every run without client writes goes towards them. */
  lemma JoinsBound(s: System)
    ensures Bounded(s, UserJoin(s), VaultJoin(s))
  {
    JoinIsLeast(HeldUsers(s), map[]);
    JoinIsLeast(HeldVaults(s), map[]);
    forall n | n in s.nodes
      ensures Below(UserVv(s.nodes[n]), UserJoin(s)) && Below(VaultVv(s.nodes[n]), VaultJoin(s))
    {
      assert UserVv(s.nodes[n]) in HeldUsers(s) && VaultVv(s.nodes[n]) in HeldVaults(s);
    }
    forall b | b in s.inflight
      ensures Below(b.user.vv, UserJoin(s)) && (b.vault.Some? ==> Below(b.vault.value.vv, VaultJoin(s)))
    {
      assert b.user.vv in HeldUsers(s);
      assert b.vault.Some? ==> b.vault.value.vv in HeldVaults(s);
    }
  }

  /** However long the run, no more deliveries write than what the nodes lack of the joins. */
  lemma WritesAreFinite(h: Hashes, id: Id, s: System, events: seq<Event>)
    ensures WriteCount(h, id, s, events) <= Distance(s, UserJoin(s), VaultJoin(s))
  {
    JoinsBound(s);
    WritesAreBounded(h, id, s, events, UserJoin(s), VaultJoin(s));
  }

  /* ── At rest ───────────────────────────────────────────────────────── */

  /** What a bundle brings, this node has. */
  predicate Includes(a: Option<Account>, b: AccountBundle) {
    && a.Some? && Below(b.user.vv, a.value.user.vv)
    && (b.vault.Some? ==> a.value.vault.vault.Some? && Below(b.vault.value.vv, Vv(a.value.vault)))
  }

  /** A bundle in flight was read from a node, which may have gone forward since. */
  ghost predicate Sourced(s: System) {
    forall b :: b in s.inflight ==> exists n :: n in s.nodes && Includes(s.nodes[n], b)
  }

  lemma ResolveGrows(h: Hashes, local: Option<Account>, b: AccountBundle, other: AccountBundle)
    requires Includes(local, other)
    ensures Includes(Some(ResolveAccount(h, local, b)), other)
  {
    var mine := local.value;
    ResolveUserJoins(h, b.user, mine.user);
    BelowTransitive(other.user.vv, mine.user.vv, ResolveUser(h, b.user, mine.user).vv);
    if b.vault.Some? {
      var bundle := Bundle(b.vault.value, b.conflicts);
      ApplyJoinsVectors(h.blob, mine.vault, bundle);
      if other.vault.Some? {
        BelowTransitive(other.vault.value.vv, Vv(mine.vault), Vv(Apply(h.blob, mine.vault, bundle)));
      }
    }
  }

  lemma StepKeepsSourced(h: Hashes, id: Id, s: System, e: Event)
    requires Sourced(s)
    ensures Sourced(Step(h, id, s, e))
  {
    var t := Step(h, id, s, e);
    forall b | b in t.inflight ensures exists n :: n in t.nodes && Includes(t.nodes[n], b) {
      if b in s.inflight {
        var n :| n in s.nodes && Includes(s.nodes[n], b);
        if e.Deliver? && e.node == n && e.bundle in s.inflight { ResolveGrows(h, s.nodes[n], e.bundle, b); }
        assert n in t.nodes && Includes(t.nodes[n], b);
      } else {
        assert Includes(t.nodes[e.node], b);
      }
    }
  }

  lemma {:induction false} ExecKeepsSourced(h: Hashes, id: Id, s: System, events: seq<Event>)
    requires Sourced(s)
    ensures Sourced(Exec(h, id, s, events))
    decreases |events|
  {
    if events != [] {
      StepKeepsSourced(h, id, s, events[0]);
      ExecKeepsSourced(h, id, Step(h, id, s, events[0]), events[1..]);
    }
  }

  /** No node would write anything if it pulled any other node's account now. */
  ghost predicate AtRest(id: Id, s: System) {
    forall n, m :: n in s.nodes && m in s.nodes && s.nodes[m].Some? ==>
      !RowsChange(s.nodes[n], Read(id, s.nodes[m].value))
  }

  /** What one knows, all know, and every node's vectors are the joins. */
  ghost predicate AtJoin(s: System) {
    forall n :: n in s.nodes ==>
      && (s.nodes[n].None? ==> forall m :: m in s.nodes ==> s.nodes[m].None?)
      && (!HasVault(s.nodes[n]) ==> forall m :: m in s.nodes ==> !HasVault(s.nodes[m]))
      && Same(UserVv(s.nodes[n]), UserJoin(s)) && Same(VaultVv(s.nodes[n]), VaultJoin(s))
  }

  lemma SameIsBelowBoth(a: VersionVector, b: VersionVector)
    ensures Same(a, b) <==> Below(a, b) && Below(b, a)
  {
    BelowMeaning(a, b);
    BelowMeaning(b, a);
  }

  /** A node at rest is above all that is held or in flight. */
  lemma RestIsAbove(id: Id, s: System, n: NodeId)
    requires Sourced(s) && AtRest(id, s) && n in s.nodes
    ensures forall v :: v in HeldUsers(s) ==> Below(v, UserVv(s.nodes[n]))
    ensures forall v :: v in HeldVaults(s) ==> Below(v, VaultVv(s.nodes[n]))
  {
    forall m | m in s.nodes
      ensures Below(UserVv(s.nodes[m]), UserVv(s.nodes[n])) && Below(VaultVv(s.nodes[m]), VaultVv(s.nodes[n]))
    {
      if s.nodes[m].Some? { assert !RowsChange(s.nodes[n], Read(id, s.nodes[m].value)); }
    }
    forall b | b in s.inflight
      ensures Below(b.user.vv, UserVv(s.nodes[n])) && (b.vault.Some? ==> Below(b.vault.value.vv, VaultVv(s.nodes[n])))
    {
      var m :| m in s.nodes && Includes(s.nodes[m], b);
      BelowTransitive(b.user.vv, UserVv(s.nodes[m]), UserVv(s.nodes[n]));
      if b.vault.Some? { BelowTransitive(b.vault.value.vv, VaultVv(s.nodes[m]), VaultVv(s.nodes[n])); }
    }
  }

  lemma RestIsJoin(id: Id, s: System)
    requires Sourced(s) && AtRest(id, s)
    ensures AtJoin(s)
  {
    JoinsBound(s);
    forall n | n in s.nodes
      ensures Same(UserVv(s.nodes[n]), UserJoin(s)) && Same(VaultVv(s.nodes[n]), VaultJoin(s))
    {
      RestIsAbove(id, s, n);
      JoinIsLeast(HeldUsers(s), UserVv(s.nodes[n]));
      JoinIsLeast(HeldVaults(s), VaultVv(s.nodes[n]));
      SameIsBelowBoth(UserVv(s.nodes[n]), UserJoin(s));
      SameIsBelowBoth(VaultVv(s.nodes[n]), VaultJoin(s));
    }
    forall n, m | n in s.nodes && m in s.nodes
      ensures s.nodes[n].None? ==> s.nodes[m].None?
      ensures !HasVault(s.nodes[n]) ==> !HasVault(s.nodes[m])
    {
      if s.nodes[m].Some? { assert !RowsChange(s.nodes[n], Read(id, s.nodes[m].value)); }
    }
  }

  lemma BothSame(a: VersionVector, b: VersionVector, join: VersionVector)
    requires Same(a, join) && Same(b, join)
    ensures Below(a, b)
  {
    BelowMeaning(a, b);
  }

  lemma AbreastIsStill(id: Id, x: Option<Account>, y: Account)
    requires x.Some? && Below(y.user.vv, x.value.user.vv)
    requires y.vault.vault.Some? ==> x.value.vault.vault.Some? && Below(Vv(y.vault), Vv(x.value.vault))
    ensures !RowsChange(x, Read(id, y))
  {}

  lemma JoinIsRest(id: Id, s: System)
    requires AtJoin(s)
    ensures AtRest(id, s)
  {
    forall n, m | n in s.nodes && m in s.nodes && s.nodes[m].Some?
      ensures !RowsChange(s.nodes[n], Read(id, s.nodes[m].value))
    {
      BothSame(UserVv(s.nodes[m]), UserVv(s.nodes[n]), UserJoin(s));
      BothSame(VaultVv(s.nodes[m]), VaultVv(s.nodes[n]), VaultJoin(s));
      AbreastIsStill(id, s.nodes[n], s.nodes[m].value);
    }
  }

  /**
   In every run without client writes, from any rows the nodes may hold: no pull changes anything if
   and only if what one node knows all know and every node's vectors are the joins of all vectors,
   held or in flight.
   */
  lemma AtRestIsJoin(h: Hashes, id: Id, start: System, events: seq<Event>)
    requires start.inflight == {}
    ensures var s := Exec(h, id, start, events); AtRest(id, s) <==> AtJoin(s)
  {
    ExecKeepsSourced(h, id, start, events);
    var s := Exec(h, id, start, events);
    if AtRest(id, s) { RestIsJoin(id, s); }
    if AtJoin(s) { JoinIsRest(id, s); }
  }

  /** Two nodes at rest that know the account hold equal vectors, whatever is in flight. */
  lemma AtRestVectorsEqual(id: Id, s: System, n: NodeId, m: NodeId)
    requires AtRest(id, s) && n in s.nodes && m in s.nodes && s.nodes[m].Some?
    ensures s.nodes[n].Some? && Compare(UserVv(s.nodes[n]), UserVv(s.nodes[m])) == Equal
    ensures HasVault(s.nodes[m]) ==> HasVault(s.nodes[n]) && Compare(VaultVv(s.nodes[n]), VaultVv(s.nodes[m])) == Equal
  {
    assert !RowsChange(s.nodes[n], Read(id, s.nodes[m].value));
    assert !RowsChange(s.nodes[m], Read(id, s.nodes[n].value));
  }
}
