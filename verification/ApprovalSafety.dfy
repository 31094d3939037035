/** The protocol as a transition system. A locked operation is split into its
    vault write and its metadata write, so a crash, an error or an administrator
    can come between them, and the invariant that links the two files is proved
    for every state in between. */
module ApprovalSafety {
  import opened Lists
  import opened BrokerPolicy
  import opened Metadata
  import opened VaultRecords
  import opened Approval

  datatype Op =
    | Stage(draft: Draft)
    | AddBinding(binding: Binding)
    | Commit(id: string)
    | Cancel(id: string)
    | Cleanup(cutoff: int)
    | Rollback(id: string)
    | Recover
    | Lifecycle(mutation: Mutation)

  function PlanOf(s: Store, op: Op, now: int): Planned {
    match op
    case Stage(draft) => StagePlan(s, draft)
    case AddBinding(binding) => AddBindingPlan(s, binding)
    case Commit(id) => CommitPlan(s, id)
    case Cancel(id) => CancelPlan(s, id)
    case Cleanup(cutoff) => CleanupPlan(s, cutoff)
    case Rollback(id) => RollbackPlan(s, id, now)
    case Recover => RecoverPlan(s, now)
    case Lifecycle(mutation) => LifecyclePlan(s, mutation, now)
  }

  /** An operation whose vault write is done and whose metadata write is not. */
  datatype InFlight = InFlight(op: Op, file: MetaFile)

  /** The durable stores, the operation in progress, and two history variables:
      the grant ids whose commit reached its vault write, and those ever staged. */
  datatype Machine = Machine(store: Store, inflight: Option<InFlight>, started: set<string>, used: set<string>)

  datatype Event =
    | VaultPhase(op: Op, now: int)
    | MetaPhase
    | Abort
    | Administer(target: string, resolve: bool, rotate: bool)
    | PeerRotate(target: string, value: string, now: int)
    | OtherWrite(vault: seq<SecretRecord>)

  /** What staging guarantees about the pair it appends. */
  predicate Coherent(d: Draft) {
    && d.intent.grantId == d.grant.id && d.intent.bindingId == d.grant.bindingId
    && d.intent.capabilities == d.grant.capabilities && !d.grant.enabled
    && (d.newBinding.Some? ==> d.newBinding.value.id == d.grant.bindingId)
  }

  lemma DraftsAreCoherent(seen: Store, newBinding: Option<Binding>, bindingId: string, spec: GrantSpec,
                          components: seq<string>, vaultOk: bool, now: int)
    ensures var d := DraftApproval(seen, newBinding, bindingId, spec, components, vaultOk, now);
            d.Drafted? ==> Coherent(d.draft) && d.draft.grant.id == spec.id
  {
  }

  predicate StaleIn(f: MetaFile, cutoff: int, id: string) {
    id in StaleIDs(f.grants, cutoff)
  }

  /** Grant ids are fresh, and a grant is cancelled, or cleaned up with its
      intent, only if its commit never reached the vault. */
  predicate Allowed(m: Machine, op: Op) {
    match op
    case Stage(d) => Coherent(d) && d.grant.id !in m.used
    case Cancel(id) => id !in m.started
    case Cleanup(cutoff) => forall i <- m.store.meta.pending :: StaleIn(m.store.meta, cutoff, i.grantId) ==> i.grantId !in m.started
    case _ => true
  }

  /** A vault written for any other reason, records added, removed, archived or
      edited: ids stay distinct and no bit becomes grant-sourced. */
  predicate NoNewGrantSource(vault: seq<SecretRecord>, vault': seq<SecretRecord>) {
    && UniqueIDs(vault')
    && forall k :: 0 <= k < |vault'| ==> forall c <- [Resolve, Rotate] ::
         GrantSourced(vault'[k], c) ==> exists j :: 0 <= j < |vault| && vault[j].id == vault'[k].id && GrantSourced(vault[j], c)
  }

  function VaultAfter(vault: seq<SecretRecord>, edit: Option<Edit>): seq<SecretRecord> {
    if edit.Some? then WrittenAll(vault, edit.value) else vault
  }

  ghost predicate Step(m: Machine, e: Event, m': Machine) {
    match e
    case VaultPhase(op, now) =>
      && m.inflight.None? && Allowed(m, op)
      && var p := PlanOf(m.store, op, now);
         p.Do? && m' == Machine(m.store.(vault := VaultAfter(m.store.vault, p.edit)), Some(InFlight(op, p.file)),
                                if op.Commit? then m.started + {op.id} else m.started,
                                if op.Stage? then m.used + {op.draft.grant.id} else m.used)
    case MetaPhase =>
      m.inflight.Some? && ValidFile(m.inflight.value.file)
      && m' == m.(store := m.store.(meta := Saved(m.inflight.value.file)), inflight := None)
    case Abort =>
      m.inflight.Some? && m' == m.(inflight := None)
    case Administer(target, resolve, rotate) =>
      m' == m.(store := m.store.(vault := WrittenAll(m.store.vault, AdminEdit(target, resolve, rotate))))
    case PeerRotate(target, value, now) =>
      m.inflight.None?
      && m' == m.(store := m.store.(vault := WrittenAll(m.store.vault, RotateEdit(target, value, now))))
    case OtherWrite(vault) =>
      NoNewGrantSource(m.store.vault, vault) && m' == m.(store := m.store.(vault := vault))
  }

  // ---------------------------------------------------------------- the invariant

  predicate ByGrant(f: MetaFile, sid: string, c: Capability) {
    exists g <- f.grants :: g.enabled && c in g.capabilities && BoundTo(f.bindings, g.bindingId, sid)
  }

  predicate ByIntent(f: MetaFile, started: set<string>, sid: string, c: Capability) {
    exists i <- f.pending ::
      i.grantId in started && i.secretId == sid && c in i.capabilities && BoundTo(f.bindings, i.bindingId, sid)
  }

  predicate Explained(f: MetaFile, started: set<string>, sid: string, c: Capability) {
    ByGrant(f, sid, c) || ByIntent(f, started, sid, c)
  }

  predicate GrantSourced(r: SecretRecord, c: Capability)
    requires c.Known()
  {
    r.policy.Of(c).source == FromGrant
  }

  /** Every grant-sourced bit has an enabled grant, or a pending intent whose
      commit reached the vault, that asks for it on that record. */
  ghost predicate NoOrphan(f: MetaFile, vault: seq<SecretRecord>, started: set<string>) {
    forall k, c: Capability {:trigger GrantSourced(vault[k], c)} ::
      0 <= k < |vault| && c.Known() && GrantSourced(vault[k], c) ==> Explained(f, started, vault[k].id, c)
  }

  /** The grant an intent announces: same id and binding, still disabled. */
  predicate Announces(i: Intent, g: Grant) {
    g.id == i.grantId && g.bindingId == i.bindingId && g.capabilities == i.capabilities && !g.enabled
  }

  predicate Paired(f: MetaFile) {
    forall i <- f.pending :: exists g <- f.grants :: Announces(i, g)
  }

  predicate KnownGrants(f: MetaFile, started: set<string>, used: set<string>) {
    forall g <- f.grants :: g.id in used && (g.enabled ==> g.id in started)
  }

  ghost predicate Linked(f: MetaFile, m: Machine) {
    Paired(f) && KnownGrants(f, m.started, m.used) && NoOrphan(f, m.store.vault, m.started)
  }

  ghost predicate Inv(m: Machine) {
    && ValidFile(m.store.meta) && UniqueIDs(m.store.vault)
    && m.started <= m.used
    && Linked(m.store.meta, m)
    && (m.inflight.Some? && ValidFile(m.inflight.value.file) ==> Linked(m.inflight.value.file, m))
  }

  // ---------------------------------------------------------------- one record across a write

  /** Where a grant-sourced bit can come from. */
  predicate MayBecomeGrantSourced(r: SecretRecord, e: Edit, c: Capability)
    requires c.Known()
  {
    match e
    case GrantEdit(target, caps) => (r.id == target && c in caps) || GrantSourced(r, c)
    case RollbackEdit(target, _, need) => if r.id == target then need.Of(c) else GrantSourced(r, c)
    case RecoverEdit(intents, file, now) =>
      if BaselineOf(intents, r.id).Some? then Needed(file, now, r.id, c) else GrantSourced(r, c)
    case LifecycleEdit(affected, file, now) =>
      if r.id in affected then Needed(file, now, r.id, c) else GrantSourced(r, c)
    case AdminEdit(_, _, _) => GrantSourced(r, c)
    case RotateEdit(_, _, _) => GrantSourced(r, c)
  }

  lemma SourceAfterWrite(r: SecretRecord, e: Edit, c: Capability)
    requires c.Known() && GrantSourced(Written(r, e), c)
    ensures MayBecomeGrantSourced(r, e, c)
  {
    hide Needed, BaselineOf;
  }

  lemma {:induction false} BaselineExists(ps: seq<Intent>, sid: string)
    ensures BaselineOf(ps, sid).Some? <==> exists i <- ps :: i.secretId == sid
  {
    if ps != [] {
      var front, last := ps[..|ps| - 1], ps[|ps| - 1];
      BaselineExists(front, sid);
      assert ps == front + [last];
    }
  }

  // ---------------------------------------------------------------- each operation keeps bits explained

  /** A need that the edited file reports is a grant that explains the bit. */
  lemma NeedIsGrant(f: MetaFile, now: int, sid: string, c: Capability)
    requires Needed(f, now, sid, c)
    ensures ByGrant(f, sid, c)
  {
  }

  lemma SameTarget(bs: seq<Binding>, id: string, at: nat, sid: string)
    requires DistinctBindings(bs) && at < |bs| && bs[at].id == id
    ensures BoundTo(bs, id, sid) <==> sid == bs[at].secretId
  {
  }

  lemma OnlyIntent(ps: seq<Intent>, id: string, i: Intent)
    requires DistinctIntents(ps) && i in ps && i.grantId == id
    ensures Locate(ps, IntentFor(id)) >= 0 && ps[Locate(ps, IntentFor(id))] == i
  {
  }

  lemma OnlyGrant(gs: seq<Grant>, id: string, g: Grant)
    requires DistinctGrants(gs) && g in gs && g.id == id
    ensures Locate(gs, GrantWithID(id)) >= 0 && gs[Locate(gs, GrantWithID(id))] == g
  {
  }

  /** What a cleared commit knows about its grant, intent and binding. */
  lemma ClearedFacts(m: MetaFile, id: string) returns (i: Intent, g: Grant)
    requires ValidFile(m) && Paired(m) && ClearCommit(m, id).Cleared?
    ensures var c := ClearCommit(m, id);
            i in m.pending && i.grantId == id && i.secretId == c.target && g == m.grants[c.at] && Announces(i, g)
            && BoundTo(m.bindings, g.bindingId, c.target)
  {
    var c := ClearCommit(m, id);
    i := m.pending[Locate(m.pending, IntentFor(id))];
    g := m.grants[c.at];
    assert i in m.pending;
    var g' :| g' in m.grants && Announces(i, g');
    OnlyGrant(m.grants, id, g');
    assert m.bindings[Locate(m.bindings, BindingWithID(g.bindingId))] in m.bindings;
  }

  /** Intents other than `id` and all enabled grants survive an activation. */
  lemma ActivationKeeps(m: MetaFile, id: string, started: set<string>, sid: string, c: Capability)
    requires ValidFile(m) && Paired(m) && ClearCommit(m, id).Cleared?
    requires Explained(m, started, sid, c)
    ensures Explained(Activated(m, ClearCommit(m, id).at, id), started, sid, c)
  {
    var i, g := ClearedFacts(m, id);
    var at := ClearCommit(m, id).at;
    var m' := Activated(m, at, id);
    assert m'.grants[at] in m'.grants;
    if ByGrant(m, sid, c) {
      var h :| h in m.grants && h.enabled && c in h.capabilities && BoundTo(m.bindings, h.bindingId, sid);
      var k :| 0 <= k < |m.grants| && m.grants[k] == h;
      assert m'.grants[k] in m'.grants;
    } else {
      var j :| j in m.pending && j.grantId in started && j.secretId == sid && c in j.capabilities
               && BoundTo(m.bindings, j.bindingId, sid);
      if j.grantId == id {
        OnlyIntent(m.pending, id, i);
        OnlyIntent(m.pending, id, j);
        assert m'.grants[at].enabled && c in m'.grants[at].capabilities;
      } else {
        FilterMembers(m.pending, OtherIntent(id));
      }
    }
  }

  lemma CommitCovers(m: MetaFile, id: string, started: set<string>, sid: string, c: Capability)
    requires ValidFile(m) && Paired(m) && ClearCommit(m, id).Cleared?
    requires var cl := ClearCommit(m, id);
             (sid == cl.target && c in m.grants[cl.at].capabilities) || Explained(m, started, sid, c)
    ensures Explained(m, started + {id}, sid, c)
    ensures Explained(Activated(m, ClearCommit(m, id).at, id), started + {id}, sid, c)
  {
    var i, g := ClearedFacts(m, id);
    if Explained(m, started, sid, c) {
      assert ByIntent(m, started, sid, c) ==> ByIntent(m, started + {id}, sid, c);
    } else {
      assert i.grantId in started + {id};
    }
    ActivationKeeps(m, id, started + {id}, sid, c);
  }

  lemma WithdrawnIsWithout(m: MetaFile, id: string)
    ensures Withdrawn(m, id) == Without(m, {id})
  {
    FilterSame(m.grants, OtherGrant(id), GrantOutside({id}));
    FilterSame(m.pending, OtherIntent(id), IntentOutside({id}));
  }

  /** Dropping staged grants and their intents, when no dropped intent is the
      explanation. */
  lemma WithoutKeeps(m: MetaFile, ids: set<string>, started: set<string>, sid: string, c: Capability)
    requires ValidFile(m) && Explained(m, started, sid, c)
    requires forall g <- m.grants :: g.id in ids ==> !g.enabled
    requires forall i <- m.pending :: i.grantId in ids ==> i.grantId !in started || i.secretId != sid
    ensures Explained(Without(m, ids), started, sid, c)
  {
    FilterMembers(m.grants, GrantOutside(ids));
    FilterMembers(m.pending, IntentOutside(ids));
    if ByGrant(m, sid, c) {
      var g :| g in m.grants && g.enabled && c in g.capabilities && BoundTo(m.bindings, g.bindingId, sid);
      assert g in Without(m, ids).grants;
    } else {
      var i :| i in m.pending && i.grantId in started && i.secretId == sid && c in i.capabilities
               && BoundTo(m.bindings, i.bindingId, sid);
      assert i in Without(m, ids).pending;
    }
  }

  /** With distinct ids, every grant with a stale id is disabled. */
  lemma StaleAreDisabled(m: MetaFile, cutoff: int)
    requires DistinctGrants(m.grants)
    ensures forall g <- m.grants :: g.id in StaleIDs(m.grants, cutoff) ==> !g.enabled
  {
    forall g | g in m.grants && g.id in StaleIDs(m.grants, cutoff)
      ensures !g.enabled
    {
      var h :| h in m.grants && Stale(cutoff)(h) && h.id == g.id;
      OnlyGrant(m.grants, g.id, g);
      OnlyGrant(m.grants, g.id, h);
    }
  }

  lemma StagedGrantDisabled(m: MetaFile, id: string)
    requires ValidFile(m) && Paired(m) && Locate(m.pending, IntentFor(id)) >= 0
    ensures forall g <- m.grants :: g.id == id ==> !g.enabled
  {
    var i := m.pending[Locate(m.pending, IntentFor(id))];
    assert i in m.pending;
    var g :| g in m.grants && Announces(i, g);
    OnlyGrant(m.grants, id, g);
    forall h | h in m.grants && h.id == id
      ensures !h.enabled
    {
      OnlyGrant(m.grants, id, h);
    }
  }

  lemma RollbackCovers(m: MetaFile, id: string, now: int, started: set<string>, sid: string, c: Capability)
    requires ValidFile(m) && Paired(m) && Locate(m.pending, IntentFor(id)) >= 0
    requires if sid == m.pending[Locate(m.pending, IntentFor(id))].secretId then Needed(Withdrawn(m, id), now, sid, c)
             else Explained(m, started, sid, c)
    ensures Explained(m, started, sid, c) && Explained(Withdrawn(m, id), started, sid, c)
  {
    var i := m.pending[Locate(m.pending, IntentFor(id))];
    if sid == i.secretId {
      NeedIsGrant(Withdrawn(m, id), now, sid, c);
      FilterMembers(m.grants, OtherGrant(id));
    } else {
      StagedGrantDisabled(m, id);
      forall j | j in m.pending && j.grantId == id
        ensures j == i
      {
        OnlyIntent(m.pending, id, j);
      }
      WithoutKeeps(m, {id}, started, sid, c);
      WithdrawnIsWithout(m, id);
    }
  }

  lemma RecoverCovers(m: MetaFile, now: int, started: set<string>, sid: string, c: Capability)
    requires ValidFile(m)
    requires var m' := m.(grants := Filter(m.grants, Settled(m.pending)));
             if BaselineOf(m.pending, sid).Some? then Needed(m', now, sid, c) else Explained(m, started, sid, c)
    ensures Explained(m, started, sid, c)
    ensures Explained(m.(grants := Filter(m.grants, Settled(m.pending)), pending := []), started, sid, c)
  {
    var m' := m.(grants := Filter(m.grants, Settled(m.pending)));
    FilterMembers(m.grants, Settled(m.pending));
    BaselineExists(m.pending, sid);
    if BaselineOf(m.pending, sid).Some? {
      NeedIsGrant(m', now, sid, c);
    } else {
      assert ByGrant(m, sid, c);
      var g :| g in m.grants && g.enabled && c in g.capabilities && BoundTo(m.bindings, g.bindingId, sid);
      assert g in m'.grants;
    }
  }

  /** Explanations of unaffected records survive a lifecycle change, and none
      that the change leaves is new. */
  lemma SwitchOffCovers(m: MetaFile, off: Grant -> bool, started: set<string>, sid: string, c: Capability)
    requires ValidFile(m)
    ensures var m' := m.(grants := Disabled(m.grants, off));
            && (ByGrant(m', sid, c) ==> ByGrant(m, sid, c))
            && (sid !in TargetsOf(m, off) && Explained(m, started, sid, c) ==> Explained(m', started, sid, c))
  {
    var m' := m.(grants := Disabled(m.grants, off));
    if ByGrant(m', sid, c) {
      var g :| g in m'.grants && g.enabled && c in g.capabilities && BoundTo(m'.bindings, g.bindingId, sid);
      var k :| 0 <= k < |m'.grants| && m'.grants[k] == g;
      assert m.grants[k] in m.grants;
    }
    if sid !in TargetsOf(m, off) && ByGrant(m, sid, c) {
      var g :| g in m.grants && g.enabled && c in g.capabilities && BoundTo(m.bindings, g.bindingId, sid);
      var k :| 0 <= k < |m.grants| && m.grants[k] == g;
      assert m'.grants[k] in m'.grants;
      assert !off(g);
    }
  }

  lemma RetargetKeepsOthers(bs: seq<Binding>, k: nat, b: Binding, id: string, sid: string)
    requires k < |bs| && b.id == bs[k].id && id != b.id
    ensures BoundTo(bs[k := b], id, sid) <==> BoundTo(bs, id, sid)
  {
    var bs' := bs[k := b];
    if BoundTo(bs, id, sid) {
      var x :| x in bs && x.id == id && x.secretId == sid;
      var j :| 0 <= j < |bs| && bs[j] == x;
      assert bs'[j] in bs';
    }
    if BoundTo(bs', id, sid) {
      var x :| x in bs' && x.id == id && x.secretId == sid;
      var j :| 0 <= j < |bs'| && bs'[j] == x;
      assert bs[j] in bs;
    }
  }

  lemma RebindCovers(m: MetaFile, value: string, newSecret: string, at: int, started: set<string>, sid: string,
                     c: Capability)
    requires ValidFile(m) && RebindChange(m, value, newSecret, at).Some?
    ensures var ch := RebindChange(m, value, newSecret, at).value;
            && (ByGrant(ch.file, sid, c) ==> ByGrant(m, sid, c))
            && (sid !in ch.affected && Explained(m, started, sid, c) ==> Explained(ch.file, started, sid, c))
  {
    hide ValidGrant, ValidIntent, ValidBinding, DistinctGrants, DistinctIntents;
    var ch := RebindChange(m, value, newSecret, at).value;
    var k := LocateBinding(m.bindings, value);
    var b := m.bindings[k];
    forall bid | bid != b.id
      ensures BoundTo(ch.file.bindings, bid, sid) <==> BoundTo(m.bindings, bid, sid)
    {
      RetargetKeepsOthers(m.bindings, k, ch.file.bindings[k], bid, sid);
    }
    SameTarget(m.bindings, b.id, k, sid);
    if ByGrant(ch.file, sid, c) {
      var g :| g in ch.file.grants && g.enabled && c in g.capabilities && BoundTo(ch.file.bindings, g.bindingId, sid);
      var j :| 0 <= j < |ch.file.grants| && ch.file.grants[j] == g;
      assert m.grants[j] in m.grants;
    }
    if sid !in ch.affected && ByGrant(m, sid, c) {
      var g :| g in m.grants && g.enabled && c in g.capabilities && BoundTo(m.bindings, g.bindingId, sid);
      var j :| 0 <= j < |m.grants| && m.grants[j] == g;
      assert ch.file.grants[j] in ch.file.grants;
    }
  }

  lemma DeleteCovers(m: MetaFile, value: string, started: set<string>, sid: string, c: Capability)
    requires ValidFile(m) && DeleteChange(m, value).Some?
    ensures var ch := DeleteChange(m, value).value;
            && (ByGrant(ch.file, sid, c) ==> ByGrant(m, sid, c))
            && (sid !in ch.affected && Explained(m, started, sid, c) ==> Explained(ch.file, started, sid, c))
  {
    var ch := DeleteChange(m, value).value;
    var k := LocateBinding(m.bindings, value);
    var b := m.bindings[k];
    FilterMembers(m.bindings, OtherBinding(b.id));
    FilterMembers(m.grants, GrantElsewhere(b.id));
    FilterMembers(m.pending, IntentElsewhere(b.id));
    SameTarget(m.bindings, b.id, k, sid);
    forall bid | bid != b.id
      ensures BoundTo(ch.file.bindings, bid, sid) <==> BoundTo(m.bindings, bid, sid)
    {
    }
    if sid !in ch.affected && ByGrant(m, sid, c) {
      var g :| g in m.grants && g.enabled && c in g.capabilities && BoundTo(m.bindings, g.bindingId, sid);
      assert g in ch.file.grants;
    } else if sid !in ch.affected && ByIntent(m, started, sid, c) {
      var i :| i in m.pending && i.grantId in started && i.secretId == sid && c in i.capabilities
               && BoundTo(m.bindings, i.bindingId, sid);
      assert i in ch.file.pending;
    }
  }

  lemma LifecycleCovers(m: MetaFile, mutation: Mutation, now: int, started: set<string>, sid: string, c: Capability)
    requires ValidFile(m) && ChangeOf(m, mutation).Some?
    requires var ch := ChangeOf(m, mutation).value;
             if sid in ch.affected then Needed(ch.file, now, sid, c) else Explained(m, started, sid, c)
    ensures Explained(m, started, sid, c) && Explained(ChangeOf(m, mutation).value.file, started, sid, c)
  {
    var ch := ChangeOf(m, mutation).value;
    if sid in ch.affected {
      NeedIsGrant(ch.file, now, sid, c);
    }
    match mutation {
      case Revoking(id) => SwitchOffCovers(m, GrantWithID(id), started, sid, c);
      case Expiring(at) => SwitchOffCovers(m, Lapsed(at), started, sid, c);
      case Rebinding(binding, newSecret, at) => RebindCovers(m, binding, newSecret, at, started, sid, c);
      case Deleting(binding) => DeleteCovers(m, binding, started, sid, c);
    }
  }

  // ---------------------------------------------------------------- each operation keeps the metadata consistent

  lemma WithoutValid(m: MetaFile, ids: set<string>)
    requires ValidFile(m)
    ensures ValidFile(Without(m, ids))
  {
    FilterMembers(m.grants, GrantOutside(ids));
    FilterMembers(m.pending, IntentOutside(ids));
    FilterDistinct(m.grants, GrantOutside(ids), (g: Grant) => g.id);
    FilterDistinct(m.pending, IntentOutside(ids), (i: Intent) => i.grantId);
  }

  lemma WithoutConsistent(m: MetaFile, ids: set<string>, started: set<string>, used: set<string>)
    requires ValidFile(m) && Paired(m) && KnownGrants(m, started, used)
    ensures var m' := Without(m, ids);
            ValidFile(m') && Paired(m') && KnownGrants(m', started, used)
  {
    hide ValidFile;
    WithoutValid(m, ids);
    var m' := Without(m, ids);
    FilterMembers(m.grants, GrantOutside(ids));
    FilterMembers(m.pending, IntentOutside(ids));
    forall i | i in m'.pending
      ensures exists g <- m'.grants :: Announces(i, g)
    {
      var g :| g in m.grants && Announces(i, g);
      assert g in m'.grants;
    }
  }

  lemma ActivatedValid(m: MetaFile, at: nat, id: string)
    requires ValidFile(m) && at < |m.grants|
    ensures ValidFile(Activated(m, at, id))
  {
    var m' := Activated(m, at, id);
    FilterMembers(m.pending, OtherIntent(id));
    FilterDistinct(m.pending, OtherIntent(id), (i: Intent) => i.grantId);
    forall g | g in m'.grants
      ensures ValidGrant(g, m'.bindings)
    {
      var k :| 0 <= k < |m'.grants| && m'.grants[k] == g;
      assert m.grants[k] in m.grants;
    }
  }

  lemma ActivatedConsistent(m: MetaFile, id: string, started: set<string>, used: set<string>)
    requires ValidFile(m) && Paired(m) && KnownGrants(m, started, used) && ClearCommit(m, id).Cleared?
    ensures var m' := Activated(m, ClearCommit(m, id).at, id);
            ValidFile(m') && Paired(m') && KnownGrants(m', started + {id}, used)
    ensures id in used
  {
    var at := ClearCommit(m, id).at;
    var m' := Activated(m, at, id);
    ActivatedValid(m, at, id);
    assert m.grants[at] in m.grants;
    FilterMembers(m.pending, OtherIntent(id));
    forall g | g in m'.grants
      ensures g.id in used && (g.enabled ==> g.id in started + {id})
    {
      var k :| 0 <= k < |m'.grants| && m'.grants[k] == g;
      assert m.grants[k] in m.grants;
    }
    forall i | i in m'.pending
      ensures exists g <- m'.grants :: Announces(i, g)
    {
      var g :| g in m.grants && Announces(i, g);
      var k :| 0 <= k < |m.grants| && m.grants[k] == g;
      assert m'.grants[k] == g;
    }
  }

  lemma RecoveredConsistent(m: MetaFile, started: set<string>, used: set<string>)
    requires ValidFile(m) && KnownGrants(m, started, used)
    ensures var m' := m.(grants := Filter(m.grants, Settled(m.pending)), pending := []);
            ValidFile(m') && Paired(m') && KnownGrants(m', started, used)
  {
    FilterMembers(m.grants, Settled(m.pending));
    FilterDistinct(m.grants, Settled(m.pending), (g: Grant) => g.id);
  }

  lemma SwitchedOffValid(m: MetaFile, off: Grant -> bool)
    requires ValidFile(m)
    ensures ValidFile(m.(grants := Disabled(m.grants, off)))
  {
    var m' := m.(grants := Disabled(m.grants, off));
    forall g | g in m'.grants
      ensures ValidGrant(g, m'.bindings)
    {
      var k :| 0 <= k < |m'.grants| && m'.grants[k] == g;
      assert m.grants[k] in m.grants;
    }
  }

  lemma SwitchedOffConsistent(m: MetaFile, off: Grant -> bool, started: set<string>, used: set<string>)
    requires ValidFile(m) && Paired(m) && KnownGrants(m, started, used)
    ensures var m' := m.(grants := Disabled(m.grants, off));
            ValidFile(m') && Paired(m') && KnownGrants(m', started, used)
  {
    SwitchedOffValid(m, off);
    hide ValidFile;
    var m' := m.(grants := Disabled(m.grants, off));
    forall g | g in m'.grants
      ensures g.id in used && (g.enabled ==> g.id in started)
    {
      var k :| 0 <= k < |m'.grants| && m'.grants[k] == g;
      assert m.grants[k] in m.grants;
    }
    forall i | i in m'.pending
      ensures exists g <- m'.grants :: Announces(i, g)
    {
      var g :| g in m.grants && Announces(i, g);
      var k :| 0 <= k < |m.grants| && m.grants[k] == g;
      assert m'.grants[k] in m'.grants;
    }
  }

  /** Moving one binding's target touches no reference to bindings by id. */
  lemma RetargetedValid(m: MetaFile, k: nat, b: Binding)
    requires ValidFile(m)
    requires k < |m.bindings| && ValidBinding(b) && b.id == m.bindings[k].id && b.name == m.bindings[k].name
    ensures ValidFile(m.(bindings := m.bindings[k := b]))
  {
    var bs := m.bindings[k := b];
    forall id
      ensures HasBinding(m.bindings, id) ==> HasBinding(bs, id)
    {
      if HasBinding(m.bindings, id) {
        var x :| x in m.bindings && x.id == id;
        var j :| 0 <= j < |m.bindings| && m.bindings[j] == x;
        assert bs[j] in bs;
      }
    }
    forall x | x in bs
      ensures ValidBinding(x)
    {
      var j :| 0 <= j < |bs| && bs[j] == x;
      assert j != k ==> m.bindings[j] in m.bindings;
    }
  }

  lemma DeletedValid(m: MetaFile, value: string)
    requires ValidFile(m) && DeleteChange(m, value).Some?
    ensures ValidFile(DeleteChange(m, value).value.file)
  {
    var m' := DeleteChange(m, value).value.file;
    var id := m.bindings[LocateBinding(m.bindings, value)].id;
    FilterMembers(m.bindings, OtherBinding(id));
    FilterMembers(m.grants, GrantElsewhere(id));
    FilterMembers(m.pending, IntentElsewhere(id));
    FilterDistinct(m.bindings, OtherBinding(id), (b: Binding) => b.id);
    FilterDistinct(m.bindings, OtherBinding(id), (b: Binding) => b.name);
    FilterDistinct(m.grants, GrantElsewhere(id), (g: Grant) => g.id);
    FilterDistinct(m.pending, IntentElsewhere(id), (i: Intent) => i.grantId);
    forall x | x != id && HasBinding(m.bindings, x)
      ensures HasBinding(m'.bindings, x)
    {
      var b :| b in m.bindings && b.id == x;
      assert b in m'.bindings;
    }
  }

  lemma DeletedConsistent(m: MetaFile, value: string, started: set<string>, used: set<string>)
    requires ValidFile(m) && Paired(m) && KnownGrants(m, started, used) && DeleteChange(m, value).Some?
    ensures var m' := DeleteChange(m, value).value.file;
            ValidFile(m') && Paired(m') && KnownGrants(m', started, used)
  {
    DeletedValid(m, value);
    hide ValidFile;
    var m' := DeleteChange(m, value).value.file;
    var id := m.bindings[LocateBinding(m.bindings, value)].id;
    FilterMembers(m.grants, GrantElsewhere(id));
    FilterMembers(m.pending, IntentElsewhere(id));
    forall i | i in m'.pending
      ensures exists g <- m'.grants :: Announces(i, g)
    {
      var g :| g in m.grants && Announces(i, g);
      assert g in m'.grants;
    }
  }

  /** No lifecycle change makes a valid file one that saving refuses. */
  lemma ChangedValid(m: MetaFile, mutation: Mutation)
    requires ValidFile(m) && ChangeOf(m, mutation).Some?
    ensures ValidFile(ChangeOf(m, mutation).value.file)
  {
    hide ValidFile;
    match mutation {
      case Revoking(id) => SwitchedOffValid(m, GrantWithID(id));
      case Expiring(at) => SwitchedOffValid(m, Lapsed(at));
      case Rebinding(binding, newSecret, at) =>
        var k := LocateBinding(m.bindings, binding);
        var b := m.bindings[k];
        FoundBindingValid(m, k);
        SwitchedOffValid(m, OnBinding(b.id));
        RetargetedValid(m.(grants := Disabled(m.grants, OnBinding(b.id))), k, b.(secretId := newSecret, updatedAt := at));
      case Deleting(binding) => DeletedValid(m, binding);
    }
  }

  lemma FoundBindingValid(m: MetaFile, k: nat)
    requires ValidFile(m) && k < |m.bindings|
    ensures ValidBinding(m.bindings[k])
  {
    assert m.bindings[k] in m.bindings;
  }

  lemma ChangedConsistent(m: MetaFile, mutation: Mutation, started: set<string>, used: set<string>)
    requires ValidFile(m) && Paired(m) && KnownGrants(m, started, used) && ChangeOf(m, mutation).Some?
    ensures var m' := ChangeOf(m, mutation).value.file;
            ValidFile(m') && Paired(m') && KnownGrants(m', started, used)
  {
    hide ValidFile;
    ChangedValid(m, mutation);
    match mutation {
      case Revoking(id) => SwitchedOffConsistent(m, GrantWithID(id), started, used);
      case Expiring(at) => SwitchedOffConsistent(m, Lapsed(at), started, used);
      case Rebinding(binding, _, _) =>
        SwitchedOffConsistent(m, OnBinding(m.bindings[LocateBinding(m.bindings, binding)].id), started, used);
      case Deleting(binding) => DeletedConsistent(m, binding, started, used);
    }
  }

  lemma StagedConsistent(m: MetaFile, d: Draft, started: set<string>, used: set<string>)
    requires ValidFile(m) && Paired(m) && KnownGrants(m, started, used) && Coherent(d)
    ensures var m' := m.(grants := m.grants + [d.grant], pending := m.pending + [d.intent]);
            Paired(m') && KnownGrants(m', started, used + {d.grant.id})
  {
    var m' := m.(grants := m.grants + [d.grant], pending := m.pending + [d.intent]);
    assert d.grant in m'.grants;
    forall i | i in m'.pending
      ensures exists g <- m'.grants :: Announces(i, g)
    {
      if i in m.pending {
        var g :| g in m.grants && Announces(i, g);
        assert g in m'.grants;
      }
    }
  }

  lemma MoreIsExplained(m: MetaFile, m': MetaFile, started: set<string>, sid: string, c: Capability)
    requires forall b <- m.bindings :: b in m'.bindings
    requires forall g <- m.grants :: g in m'.grants
    requires forall i <- m.pending :: i in m'.pending
    requires Explained(m, started, sid, c)
    ensures Explained(m', started, sid, c)
  {
  }

  // ---------------------------------------------------------------- the step theorem

  function After(m: Machine, op: Op, now: int): Machine
    requires PlanOf(m.store, op, now).Do?
  {
    var p := PlanOf(m.store, op, now);
    Machine(m.store.(vault := VaultAfter(m.store.vault, p.edit)), Some(InFlight(op, p.file)),
            if op.Commit? then m.started + {op.id} else m.started,
            if op.Stage? then m.used + {op.draft.grant.id} else m.used)
  }

  /** The metadata an operation is about to save is always one that saving
      accepts, except for what a caller newly stages or binds. */
  lemma PlannedConsistent(m: Machine, op: Op, now: int)
    requires Inv(m) && m.inflight.None? && Allowed(m, op) && PlanOf(m.store, op, now).Do?
    ensures var p, m' := PlanOf(m.store, op, now), After(m, op, now);
            && (!op.Stage? && !op.AddBinding? ==> ValidFile(p.file))
            && (ValidFile(p.file) ==> Paired(p.file) && KnownGrants(p.file, m'.started, m'.used))
            && m'.started <= m'.used
  {
    var f := m.store.meta;
    match op {
      case Stage(d) => StagedConsistent(f, d, m.started, m.used);
      case AddBinding(b) =>
      case Commit(id) => ActivatedConsistent(f, id, m.started, m.used);
      case Cancel(id) =>
        WithoutConsistent(f, {id}, m.started, m.used);
        WithdrawnIsWithout(f, id);
      case Cleanup(cutoff) => WithoutConsistent(f, StaleIDs(f.grants, cutoff), m.started, m.used);
      case Rollback(id) =>
        WithoutConsistent(f, {id}, m.started, m.used);
        WithdrawnIsWithout(f, id);
      case Recover => RecoveredConsistent(f, m.started, m.used);
      case Lifecycle(mutation) => ChangedConsistent(f, mutation, m.started, m.used);
    }
  }

  /** A bit the vault write may leave grant-sourced is explained both by the
      metadata still on disk and by the metadata about to be saved. */
  lemma PlannedCovers(m: Machine, op: Op, now: int, k: nat, c: Capability)
    requires Inv(m) && m.inflight.None? && Allowed(m, op) && PlanOf(m.store, op, now).Do?
    requires k < |m.store.vault| && c.Known() && GrantSourced(After(m, op, now).store.vault[k], c)
    ensures var sid, m' := m.store.vault[k].id, After(m, op, now);
            Explained(m.store.meta, m'.started, sid, c) && Explained(PlanOf(m.store, op, now).file, m'.started, sid, c)
  {
    hide ValidGrant, ValidIntent, ValidBinding, BaselineOf, GrantBaseline, Grantable, Written;
    var f, r := m.store.meta, m.store.vault[k];
    var p := PlanOf(m.store, op, now);
    if p.edit.Some? {
      SourceAfterWrite(r, p.edit.value, c);
    }
    match op {
      case Stage(d) => MoreIsExplained(f, p.file, m.started, r.id, c);
      case AddBinding(b) => MoreIsExplained(f, p.file, m.started, r.id, c);
      case Commit(id) => CommitCovers(f, id, m.started, r.id, c);
      case Cancel(id) =>
        forall g | g in f.grants && g.id == id
          ensures !g.enabled
        {
        }
        WithoutKeeps(f, {id}, m.started, r.id, c);
        WithdrawnIsWithout(f, id);
      case Cleanup(cutoff) =>
        StaleAreDisabled(f, cutoff);
        WithoutKeeps(f, StaleIDs(f.grants, cutoff), m.started, r.id, c);
      case Rollback(id) => RollbackCovers(f, id, now, m.started, r.id, c);
      case Recover => RecoverCovers(f, now, m.started, r.id, c);
      case Lifecycle(mutation) => LifecycleCovers(f, mutation, now, m.started, r.id, c);
    }
  }

  lemma VaultPhaseKeeps(m: Machine, op: Op, now: int)
    requires Inv(m) && m.inflight.None? && Allowed(m, op) && PlanOf(m.store, op, now).Do?
    ensures Inv(After(m, op, now))
  {
    hide ValidBinding, ValidGrant, ValidIntent, Explained, Paired, GrantSourced, EditedPolicy, PlanOf;
    var p, m' := PlanOf(m.store, op, now), After(m, op, now);
    PlannedConsistent(m, op, now);
    forall k, c: Capability {:trigger GrantSourced(m'.store.vault[k], c)}
      | 0 <= k < |m'.store.vault| && c.Known() && GrantSourced(m'.store.vault[k], c)
      ensures Explained(m.store.meta, m'.started, m'.store.vault[k].id, c)
      ensures Explained(p.file, m'.started, m'.store.vault[k].id, c)
    {
      PlannedCovers(m, op, now, k, c);
    }
  }

  lemma UnplannedEditKeeps(m: Machine, e: Edit)
    requires Inv(m) && (e.AdminEdit? || e.RotateEdit?)
    ensures Inv(m.(store := m.store.(vault := WrittenAll(m.store.vault, e))))
  {
    var vault' := WrittenAll(m.store.vault, e);
    forall k, c: Capability {:trigger GrantSourced(vault'[k], c)}
      | 0 <= k < |vault'| && c.Known() && GrantSourced(vault'[k], c)
      ensures GrantSourced(m.store.vault[k], c)
    {
      SourceAfterWrite(m.store.vault[k], e, c);
    }
  }

  lemma OtherWriteKeeps(m: Machine, vault: seq<SecretRecord>)
    requires Inv(m) && NoNewGrantSource(m.store.vault, vault)
    ensures Inv(m.(store := m.store.(vault := vault)))
  {
    forall k, c: Capability {:trigger GrantSourced(vault[k], c)}
      | 0 <= k < |vault| && c.Known() && GrantSourced(vault[k], c)
      ensures exists j :: 0 <= j < |m.store.vault| && m.store.vault[j].id == vault[k].id && GrantSourced(m.store.vault[j], c)
    {
      assert c in [Resolve, Rotate];
    }
  }

  /** Every step of the protocol keeps the two stores linked. */
  lemma StepKeepsInv(m: Machine, e: Event, m': Machine)
    requires Inv(m) && Step(m, e, m')
    ensures Inv(m')
  {
    match e {
      case VaultPhase(op, now) => VaultPhaseKeeps(m, op, now);
      case MetaPhase =>
      case Abort =>
      case Administer(target, resolve, rotate) => UnplannedEditKeeps(m, AdminEdit(target, resolve, rotate));
      case PeerRotate(target, value, now) => UnplannedEditKeeps(m, RotateEdit(target, value, now));
      case OtherWrite(vault) => OtherWriteKeeps(m, vault);
    }
  }
}
