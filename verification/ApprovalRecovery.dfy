/** The recovery algebra: re-running after a crash, rolling a cancelled approval
    back exactly, and who wins when an administrator and an approval disagree. */
module ApprovalRecovery {
  import opened Lists
  import opened BrokerPolicy
  import opened Metadata
  import opened VaultRecords
  import opened Approval
  import opened ApprovalSafety
  import opened ApprovalHistory

  // ---------------------------------------------------------------- re-running after a crash

  /** Versions the program itself writes. */
  predicate PlainVersions(vault: seq<SecretRecord>) {
    forall r <- vault :: r.policy.version == 0 || r.policy.version == 1
  }

  /** The same operation planned at two times differs only in what it needs. */
  predicate Replanned(e1: Edit, e2: Edit) {
    match e1
    case GrantEdit(_, _) => e2 == e1
    case RollbackEdit(target, base, _) => e2.RollbackEdit? && e2.target == target && e2.base == base
    case RecoverEdit(intents, file, _) => e2.RecoverEdit? && e2.intents == intents
    case LifecycleEdit(affected, file, _) => e2.LifecycleEdit? && e2.affected == affected
    case _ => false
  }

  lemma RecordAbsorbs(r: SecretRecord, e1: Edit, e2: Edit)
    requires Replanned(e1, e2) && (r.policy.version == 0 || r.policy.version == 1)
    ensures Written(Written(r, e1), e2) == Written(r, e2)
  {
    hide NeedOf, BaselineOf, Reconciled, ReconciledCurrent;
    var p := r.policy;
    NormalizationSettles(Migrated(p));
    match e1 {
      case GrantEdit(target, caps) =>
      case RollbackEdit(target, base, need) =>
        RollbackAbsorbs(p, base, need, e2.need);
      case RecoverEdit(intents, file, now) =>
        if BaselineOf(intents, r.id).Some? {
          RollbackAbsorbs(p, BaselineOf(intents, r.id).value, NeedOf(file, now, r.id), NeedOf(e2.file, e2.now, r.id));
        }
      case LifecycleEdit(affected, file, now) =>
        LifecycleAbsorbs(p, NeedOf(file, now, r.id), NeedOf(e2.file, e2.now, r.id));
    }
  }

  lemma WrittenKeepsTargets(vault: seq<SecretRecord>, e: Edit, target: string)
    ensures Grantable(WrittenAll(vault, e), target) == Grantable(vault, target)
  {
    var vault' := WrittenAll(vault, e);
    var at := Locate(vault, RecordWithID(target));
    if at >= 0 {
      LocateFirst(vault', RecordWithID(target), at);
    } else {
      assert forall k :: 0 <= k < |vault| ==> vault[k] in vault && !RecordWithID(target)(vault[k]);
      assert forall k :: 0 <= k < |vault'| ==> !RecordWithID(target)(vault'[k]);
    }
  }

  /** Plans do not look at the policies a vault write changes. */
  lemma ReplansAlike(s: Store, op: Op, t1: int, t2: int)
    requires PlanOf(s, op, t1).Do? && PlanOf(s, op, t1).edit.Some?
    ensures var crashed := s.(vault := WrittenAll(s.vault, PlanOf(s, op, t1).edit.value));
            && PlanOf(crashed, op, t2) == PlanOf(s, op, t2) && PlanOf(s, op, t2).Do? && PlanOf(s, op, t2).edit.Some?
            && Replanned(PlanOf(s, op, t1).edit.value, PlanOf(s, op, t2).edit.value)
  {
    hide ValidFile, Grantable, WrittenAll, NeedOf, GrantBaseline;
    if op.Commit? {
      var e := PlanOf(s, op, t1).edit.value;
      WrittenKeepsTargets(s.vault, e, e.target);
    }
  }

  /** An operation whose vault write happened but whose metadata write did not,
      run again at any later time, plans the same metadata and leaves the same
      vault as a single run at that later time. */
  lemma RerunAbsorbs(s: Store, op: Op, t1: int, t2: int)
    requires PlainVersions(s.vault)
    requires PlanOf(s, op, t1).Do? && PlanOf(s, op, t1).edit.Some?
    ensures var crashed := s.(vault := WrittenAll(s.vault, PlanOf(s, op, t1).edit.value));
            && PlanOf(crashed, op, t2) == PlanOf(s, op, t2) && PlanOf(s, op, t2).Do? && PlanOf(s, op, t2).edit.Some?
            && WrittenAll(crashed.vault, PlanOf(s, op, t2).edit.value) == WrittenAll(s.vault, PlanOf(s, op, t2).edit.value)
  {
    hide PlanOf, Replanned, Written;
    ReplansAlike(s, op, t1, t2);
    var e1, e2 := PlanOf(s, op, t1).edit.value, PlanOf(s, op, t2).edit.value;
    forall k | 0 <= k < |s.vault|
      ensures Written(Written(s.vault[k], e1), e2) == Written(s.vault[k], e2)
    {
      assert s.vault[k] in s.vault;
      RecordAbsorbs(s.vault[k], e1, e2);
    }
  }

  /** Rebinding again later, with a later time stamp, absorbs the interrupted one. */
  lemma LaterRebindAbsorbs(s: Store, binding: string, newSecret: string, at1: int, at2: int, t1: int, t2: int)
    requires PlainVersions(s.vault) && PlanOf(s, Lifecycle(Rebinding(binding, newSecret, at1)), t1).Do?
    ensures var p1 := PlanOf(s, Lifecycle(Rebinding(binding, newSecret, at1)), t1);
            var p2 := PlanOf(s, Lifecycle(Rebinding(binding, newSecret, at2)), t2);
            && p2.Do? && WrittenAll(WrittenAll(s.vault, p1.edit.value), p2.edit.value) == WrittenAll(s.vault, p2.edit.value)
  {
    hide ValidFile, Written, Disabled;
    var e1 := PlanOf(s, Lifecycle(Rebinding(binding, newSecret, at1)), t1).edit.value;
    var e2 := PlanOf(s, Lifecycle(Rebinding(binding, newSecret, at2)), t2).edit.value;
    forall k | 0 <= k < |s.vault|
      ensures Written(Written(s.vault[k], e1), e2) == Written(s.vault[k], e2)
    {
      assert s.vault[k] in s.vault;
      RecordAbsorbs(s.vault[k], e1, e2);
    }
  }

  /** A record exactly as a vault write leaves it. */
  predicate IsStored(r: SecretRecord) {
    r.kind != "" && IsNormal(r.policy)
  }

  predicate AllStored(vault: seq<SecretRecord>) {
    forall r <- vault :: IsStored(r)
  }

  lemma EditKeepsVersion(e: Edit, id: string, p: Policy)
    requires p.version != 0
    ensures EditedPolicy(e, id, p).version != 0
  {
  }

  lemma WrittenIsStored(r: SecretRecord, e: Edit)
    ensures IsStored(Written(r, e))
  {
    hide EditedPolicy;
    EditKeepsVersion(e, r.id, Loaded(r).policy);
    NormalizationSettles(EditedPolicy(e, r.id, Loaded(r).policy));
  }

  /** Writing any edit leaves every record in stored form. */
  lemma WritesAreStored(vault: seq<SecretRecord>, e: Edit)
    ensures AllStored(WrittenAll(vault, e))
  {
    hide Written, IsStored;
    forall k | 0 <= k < |vault|
      ensures IsStored(Written(vault[k], e))
    {
      WrittenIsStored(vault[k], e);
    }
  }

  lemma LapsedStaysLapsed(m: MetaFile, at1: int, at2: int)
    requires at1 <= at2
    ensures TargetsOf(m, Lapsed(at1)) <= TargetsOf(m, Lapsed(at2))
  {
  }

  /** A reconciliation of fewer records is absorbed by one of more. */
  lemma NarrowerAbsorbed(r: SecretRecord, e1: Edit, e2: Edit)
    requires e1.LifecycleEdit? && e2.LifecycleEdit? && e1.affected <= e2.affected
    requires IsStored(r) && r.policy.version == 1
    ensures Written(Written(r, e1), e2) == Written(r, e2)
  {
  }

  /** Expiry interrupted and repeated later, when more grants have lapsed, ends
      where the later expiry alone would have. */
  lemma LaterExpiryAbsorbs(s: Store, at1: int, at2: int, t1: int, t2: int)
    requires at1 <= at2 && PlainVersions(s.vault) && AllStored(s.vault)
    requires PlanOf(s, Lifecycle(Expiring(at1)), t1).Do?
    ensures var p1, p2 := PlanOf(s, Lifecycle(Expiring(at1)), t1), PlanOf(s, Lifecycle(Expiring(at2)), t2);
            && p2.Do? && WrittenAll(WrittenAll(s.vault, p1.edit.value), p2.edit.value) == WrittenAll(s.vault, p2.edit.value)
  {
    hide ValidFile, TargetsOf, Disabled, Written, NeedOf, IsNormal;
    LapsedStaysLapsed(Opened(s.meta), at1, at2);
    var e1 := PlanOf(s, Lifecycle(Expiring(at1)), t1).edit.value;
    var e2 := PlanOf(s, Lifecycle(Expiring(at2)), t2).edit.value;
    forall k | 0 <= k < |s.vault|
      ensures Written(Written(s.vault[k], e1), e2) == Written(s.vault[k], e2)
    {
      assert s.vault[k] in s.vault;
      StoredVersion(s.vault[k]);
      NarrowerAbsorbed(s.vault[k], e1, e2);
    }
  }

  lemma StoredVersion(r: SecretRecord)
    requires IsStored(r)
    ensures r.policy.version != 0
  {
  }

  // ---------------------------------------------------------------- early return and repeated commit

  /** The early return of the lifecycle owner discards nothing: a change that
      affects no record is no change at all. */
  lemma NothingAffectedNothingChanged(m: MetaFile, mutation: Mutation)
    requires ValidFile(m) && ChangeOf(m, mutation).Some? && ChangeOf(m, mutation).value.affected == {}
    ensures ChangeOf(m, mutation).value.file == m
  {
    match mutation {
      case Revoking(id) => NoTargetNoGrant(m, GrantWithID(id));
      case Expiring(at) => NoTargetNoGrant(m, Lapsed(at));
      case Rebinding(_, _, _) =>
      case Deleting(_) =>
    }
  }

  lemma NoTargetNoGrant(m: MetaFile, off: Grant -> bool)
    requires ValidFile(m) && TargetsOf(m, off) == {}
    ensures Disabled(m.grants, off) == m.grants
  {
    forall k | 0 <= k < |m.grants|
      ensures !off(m.grants[k])
    {
      var g := m.grants[k];
      assert g in m.grants;
      var b :| b in m.bindings && b.id == g.bindingId;
      assert off(g) ==> b.secretId in TargetsOf(m, off);
    }
  }

  /** Committing a grant that has no pending intent writes nothing, whatever
      fails, as long as the context is live on entry. */
  lemma CommitWithoutIntent(s: Store, id: string, ctx: Context, io: IO, cleanup: IO)
    requires ctx.atEntry && forall i <- s.meta.pending :: i.grantId != id
    ensures CommitRun(s, id, ctx, io, cleanup).writes == []
  {
  }

  /** Committing a committed grant again changes neither store. */
  lemma SecondCommitIsInert(m: Machine, id: string, ctx: Context, io: IO, cleanup: IO)
    requires Inv(m) && ctx.atEntry && exists g <- m.store.meta.grants :: g.id == id && g.enabled
    ensures CommitRun(m.store, id, ctx, io, cleanup).writes == []
  {
    var f := m.store.meta;
    var g :| g in f.grants && g.id == id && g.enabled;
    forall i | i in f.pending
      ensures i.grantId != id
    {
      var h :| h in f.grants && Announces(i, h);
      OnlyGrant(f.grants, h.id, h);
      OnlyGrant(f.grants, id, g);
    }
    CommitWithoutIntent(m.store, id, ctx, io, cleanup);
  }

  // ---------------------------------------------------------------- administrators against approvals

  /** The baseline an edit brings to a record, if it brings one. */
  function BroughtBaseline(e: Edit, id: string): Option<Baseline> {
    match e
    case RollbackEdit(target, base, _) => if id == target then Some(base) else None
    case RecoverEdit(intents, _, _) => BaselineOf(intents, id)
    case _ => None
  }

  /** An edit that puts capability `c` back: its baseline allowed the bit and
      carries the record's own administrative revision. The baseline a recovery
      brings is merged from several intents, see `MergedBaseline`. */
  predicate Remembers(e: Edit, r: SecretRecord, c: Capability)
    requires c.Known()
  {
    var b := BroughtBaseline(e, r.id);
    b.Some? && b.value.adminRevision == r.policy.adminRevision && b.value.Of(c)
  }

  predicate AdminFlag(e: Edit, c: Capability)
    requires e.AdminEdit? && c.Known()
  {
    if c.Resolve? then e.resolve else e.rotate
  }

  /** A grant that finds an administrative source left on a denied bit. */
  predicate Revives(e: Edit, r: SecretRecord, c: Capability)
    requires c.Known()
  {
    e.GrantEdit? && e.target == r.id && c in e.caps && r.policy.Of(c).source == Administrative
  }

  lemma HeldReconciled(p: Policy, base: Baseline, need: Need, c: Capability)
    requires IsNormal(p) && c.Known()
    ensures Held(RollbackWrite(p, base, need).Of(c))
            <==> Held(p.Of(c)) || (base.adminRevision == p.adminRevision && base.Of(c))
  {
  }

  lemma HeldOtherwise(r: SecretRecord, e: Edit, c: Capability)
    requires IsNormal(r.policy) && c.Known() && BroughtBaseline(e, r.id).None?
    ensures Held(Written(r, e).policy.Of(c))
            <==> if e.AdminEdit? && e.target == r.id then AdminFlag(e, c) else Held(r.policy.Of(c)) || Revives(e, r, c)
  {
    hide NeedOf, BaselineOf;
  }

  /** Exactly when an administrator stands behind a bit after a write. */
  lemma HeldAfterWrite(r: SecretRecord, e: Edit, c: Capability)
    requires IsNormal(r.policy) && c.Known()
    ensures Held(Written(r, e).policy.Of(c))
            <==> if e.AdminEdit? && e.target == r.id then AdminFlag(e, c)
                 else Held(r.policy.Of(c)) || Remembers(e, r, c) || Revives(e, r, c)
  {
    hide NeedOf, BaselineOf, IntentBaseline, Held, Reconciled, Normalized, Migrated, EffectiveBase;
    match BroughtBaseline(e, r.id) {
      case None =>
        HeldOtherwise(r, e, c);
      case Some(base) =>
        HeldReconciled(r.policy, base, if e.RollbackEdit? then e.need else NeedOf(e.file, e.now, r.id), c);
    }
  }

  /** What the enabled grants require of a record an edit reconciles. */
  function BroughtNeed(e: Edit, id: string): Option<Need> {
    match e
    case RollbackEdit(target, _, need) => if id == target then Some(need) else None
    case RecoverEdit(intents, file, now) => if BaselineOf(intents, id).Some? then Some(NeedOf(file, now, id)) else None
    case LifecycleEdit(affected, file, now) => if id in affected then Some(NeedOf(file, now, id)) else None
    case _ => None
  }

  /** Exactly when a reconciled bit stays allowed. */
  lemma PermittedAfterWrite(r: SecretRecord, e: Edit, c: Capability)
    requires IsNormal(r.policy) && c.Known() && BroughtNeed(e, r.id).Some?
    ensures Written(r, e).policy.Permits(c)
            <==> Held(r.policy.Of(c)) || Remembers(e, r, c) || BroughtNeed(e, r.id).value.Of(c)
  {
    hide NeedOf, BaselineOf;
  }

  /** Only an administrator changing a flag moves the revision. */
  lemma RevisionAfterWrite(r: SecretRecord, e: Edit)
    requires IsNormal(r.policy) && r.policy.adminRevision < UINT64_RANGE
    ensures Written(r, e).policy.adminRevision < UINT64_RANGE
    ensures Written(r, e).policy.adminRevision != r.policy.adminRevision
            <==> e.AdminEdit? && e.target == r.id
                 && (e.resolve != r.policy.resolve.admin || e.rotate != r.policy.rotate.admin)
  {
    hide NeedOf, BaselineOf;
  }

  // ---------------------------------------------------------------- what a recovery remembers

  /** The last intent, in file order, that names a record. */
  function LastNaming(ps: seq<Intent>, sid: string): Option<Intent> {
    if ps == [] then None
    else if ps[|ps| - 1].secretId == sid then Some(ps[|ps| - 1])
    else LastNaming(ps[..|ps| - 1], sid)
  }

  /** Some intent naming the record was staged while the bit was allowed. */
  predicate SomeRemembers(ps: seq<Intent>, sid: string, c: Capability)
    requires c.Known()
  {
    exists i <- ps :: i.secretId == sid && IntentBaseline(i).Of(c)
  }

  /** The merged baseline remembers what any intent remembers, at the revision
      of the last one only. */
  lemma {:induction false} MergedBaseline(ps: seq<Intent>, sid: string, c: Capability)
    requires c.Known()
    ensures BaselineOf(ps, sid).Some? <==> LastNaming(ps, sid).Some?
    ensures BaselineOf(ps, sid).Some? ==>
              && BaselineOf(ps, sid).value.adminRevision == IntentBaseline(LastNaming(ps, sid).value).adminRevision
              && (BaselineOf(ps, sid).value.Of(c) <==> SomeRemembers(ps, sid, c))
    ensures BaselineOf(ps, sid).None? ==> !SomeRemembers(ps, sid, c)
  {
    if ps != [] {
      var front, last := ps[..|ps| - 1], ps[|ps| - 1];
      MergedBaseline(front, sid, c);
      assert ps == front + [last];
      assert SomeRemembers(ps, sid, c)
        <==> SomeRemembers(front, sid, c) || (last.secretId == sid && IntentBaseline(last).Of(c));
    }
  }

  /** After a recovery a bit of a record some intent names is allowed if and only
      if it is held, an enabled grant needs it, or the last intent naming the
      record carries its current revision while some intent naming it remembers
      the bit allowed. */
  lemma RecoveryPermits(r: SecretRecord, intents: seq<Intent>, file: MetaFile, now: int, c: Capability)
    requires IsNormal(r.policy) && c.Known() && LastNaming(intents, r.id).Some?
    ensures Written(r, RecoverEdit(intents, file, now)).policy.Permits(c)
            <==> || Held(r.policy.Of(c)) || Needed(file, now, r.id, c)
                 || (IntentBaseline(LastNaming(intents, r.id).value).adminRevision == r.policy.adminRevision
                     && SomeRemembers(intents, r.id, c))
  {
    hide Needed, Held, Written, IntentBaseline, SomeRemembers, LastNaming, BaselineOf;
    MergedBaseline(intents, r.id, c);
    PermittedAfterWrite(r, RecoverEdit(intents, file, now), c);
  }

  const DENIED_RECORD := SecretRecord("s", "api_key", false, "", "x", [], 1, None,
    Policy(1, Gate(true, Administrative, true), Gate(false, NoSource, false), 0, DEFAULT_EXPOSURE))

  const STAGED_BEFORE := Intent("a", "b", "s", [Resolve], true, false, Administrative, NoSource, true, 0, 1)

  const STAGED_AFTER := Intent("c", "b", "s", [Rotate], false, true, NoSource, Administrative, true, 1, 2)

  /** Stage one approval while resolve is allowed, deny resolve and allow rotate,
      stage another approval, crash and recover: the deny changed a flag and
      still loses, because the merged baseline takes the allow from the first
      intent and the revision from the second. */
  lemma LaterStagingRevivesDeny(file: MetaFile, now: int)
    ensures var denied := Written(DENIED_RECORD, AdminEdit("s", false, true));
            var recovered := Written(denied, RecoverEdit([STAGED_BEFORE, STAGED_AFTER], file, now));
            && !denied.policy.Permits(Resolve) && denied.policy.adminRevision == 1
            && recovered.policy.Permits(Resolve) && recovered.policy.resolve.source == Administrative
  {
    hide Needed;
    var intents := [STAGED_BEFORE, STAGED_AFTER];
    var denied := Written(DENIED_RECORD, AdminEdit("s", false, true));
    assert intents[..1] == [STAGED_BEFORE];
    assert STAGED_BEFORE in intents;
    MergedBaseline(intents, "s", Resolve);
    HeldAfterWrite(denied, RecoverEdit(intents, file, now), Resolve);
    RecoveryPermits(denied, intents, file, now, Resolve);
    SourceOfHeld(denied, RecoverEdit(intents, file, now), Resolve);
  }

  lemma SourceOfHeld(r: SecretRecord, e: Edit, c: Capability)
    requires IsNormal(r.policy) && c.Known() && Held(Written(r, e).policy.Of(c))
    ensures Written(r, e).policy.Of(c).source == Administrative
  {
    hide NeedOf, BaselineOf;
  }

  // ---------------------------------------------------------------- a deny over a run

  /** No administrator stands behind the bit, now or through a later grant. */
  predicate Denied(r: SecretRecord, c: Capability)
    requires c.Known()
  {
    !r.policy.Of(c).admin && r.policy.Of(c).source != Administrative
  }

  lemma DenialPersists(r: SecretRecord, e: Edit, c: Capability)
    requires IsNormal(r.policy) && c.Known() && Denied(r, c)
    requires !(e.AdminEdit? && e.target == r.id) && !Remembers(e, r, c)
    ensures Denied(Written(r, e), c)
  {
    hide NeedOf, BaselineOf;
  }

  /** The edit a step of a run makes to the vault. */
  function EditOf(m: Machine, e: Event): Option<Edit> {
    match e
    case VaultPhase(op, now) =>
      var p := PlanOf(m.store, op, now);
      if p.Do? then p.edit else None
    case Administer(target, resolve, rotate) => Some(AdminEdit(target, resolve, rotate))
    case PeerRotate(target, value, now) => Some(RotateEdit(target, value, now))
    case _ => None
  }

  lemma StepWrites(m: Machine, e: Event, m': Machine, sid: string)
    requires Step(m, e, m') && !e.OtherWrite?
    ensures RecordOf(m'.store.vault, sid)
         == if EditOf(m, e).Some? && RecordOf(m.store.vault, sid).Some?
            then Some(Written(RecordOf(m.store.vault, sid).value, EditOf(m, e).value))
            else RecordOf(m.store.vault, sid)
  {
    hide PlanOf, WrittenAll, Written, RecordOf;
    if EditOf(m, e).Some? {
      RecordOfWritten(m.store.vault, EditOf(m, e).value, sid);
    }
  }

  /** The step is an administrator or another writer acting on the record's
      policy, or brings back a baseline that remembers the bit allowed. */
  predicate Overrules(m: Machine, e: Event, sid: string, c: Capability)
    requires RecordOf(m.store.vault, sid).Some? && c.Known()
  {
    var edit, rec := EditOf(m, e), RecordOf(m.store.vault, sid).value;
    !LeavesPolicy(m, e, sid) || (edit.Some? && Remembers(edit.value, rec, c))
  }

  /** `r'` is still denied as `r` was, at the same administrative revision. */
  predicate StaysDenied(r: SecretRecord, r': SecretRecord, c: Capability)
    requires c.Known()
  {
    r'.id == r.id && IsNormal(r'.policy) && Denied(r', c) && r'.policy.adminRevision == r.policy.adminRevision < UINT64_RANGE
  }

  lemma StepKeepsDenial(m: Machine, e: Event, m': Machine, sid: string, c: Capability)
    requires Step(m, e, m') && c.Known() && RecordOf(m.store.vault, sid).Some? && !Overrules(m, e, sid, c)
    requires StaysDenied(RecordOf(m.store.vault, sid).value, RecordOf(m.store.vault, sid).value, c)
    ensures RecordOf(m'.store.vault, sid).Some?
            && StaysDenied(RecordOf(m.store.vault, sid).value, RecordOf(m'.store.vault, sid).value, c)
  {
    hide PlanOf, EditOf, Written, Remembers, IsNormal, WrittenAll, NoNewGrantSource;
    var rec := RecordOf(m.store.vault, sid).value;
    assert rec.id == sid;
    if !e.OtherWrite? {
      StepWrites(m, e, m', sid);
      if EditOf(m, e).Some? {
        var edit := EditOf(m, e).value;
        AdminStepEdits(m, e);
        WrittenIsStored(rec, edit);
        RevisionAfterWrite(rec, edit);
        DenialPersists(rec, edit, c);
        WrittenID(rec, edit);
      }
    }
  }

  lemma AdminStepEdits(m: Machine, e: Event)
    ensures EditOf(m, e).Some? && EditOf(m, e).value.AdminEdit? ==> e.Administer? && EditOf(m, e).value.target == e.target
  {
    if e.VaultPhase? && PlanOf(m.store, e.op, e.now).Do? && PlanOf(m.store, e.op, e.now).edit.Some? {
      PlannedEditIsBrokers(m.store, e.op, e.now);
    }
  }

  lemma WrittenID(r: SecretRecord, e: Edit)
    ensures Written(r, e).id == r.id
  {
  }

  /** A denied bit stays denied until a step overrules it. */
  lemma {:induction false} DenialLasts(ms: seq<Machine>, es: seq<Event>, a: nat, k: nat, sid: string, c: Capability)
    requires IsRun(ms, es) && a <= k < |ms| && RecordOf(ms[a].store.vault, sid).Some? && c.Known()
    requires StaysDenied(RecordOf(ms[a].store.vault, sid).value, RecordOf(ms[a].store.vault, sid).value, c)
    requires forall j :: a <= j < k && RecordOf(ms[j].store.vault, sid).Some? ==> !Overrules(ms[j], es[j], sid, c)
    ensures RecordOf(ms[k].store.vault, sid).Some?
            && StaysDenied(RecordOf(ms[a].store.vault, sid).value, RecordOf(ms[k].store.vault, sid).value, c)
  {
    hide Initial, Step, Overrules, RecordOf;
    if a < k {
      DenialLasts(ms, es, a, k - 1, sid, c);
      RunSteps(ms, es, k - 1);
      StepKeepsDenial(ms[k - 1], es[k - 1], ms[k], sid, c);
    }
  }

  /** A step that reconciles a record nobody holds leaves a bit allowed exactly
      when an enabled grant needs it or the baseline it brings remembers it. */
  lemma ReconciledDenial(m: Machine, e: Event, m': Machine, sid: string, c: Capability)
    requires Step(m, e, m') && c.Known() && RecordOf(m.store.vault, sid).Some? && EditOf(m, e).Some?
    requires StaysDenied(RecordOf(m.store.vault, sid).value, RecordOf(m.store.vault, sid).value, c)
    requires BroughtNeed(EditOf(m, e).value, sid).Some?
    ensures RecordOf(m'.store.vault, sid).Some?
    ensures RecordOf(m'.store.vault, sid).value.policy.Permits(c)
            <==> || BroughtNeed(EditOf(m, e).value, sid).value.Of(c)
                 || Remembers(EditOf(m, e).value, RecordOf(m.store.vault, sid).value, c)
  {
    hide PlanOf, Written, Remembers, WrittenAll, Step;
    var rec := RecordOf(m.store.vault, sid).value;
    assert rec.id == sid;
    StepWrites(m, e, m', sid);
    PermittedAfterWrite(rec, EditOf(m, e).value, c);
  }

  /** An administrative deny that changes a flag, recorded at step `a`. */
  predicate RecordsDeny(m: Machine, e: Event, sid: string, c: Capability)
    requires c.Known()
  {
    && RecordOf(m.store.vault, sid).Some? && e.Administer? && e.target == sid
    && var p := RecordOf(m.store.vault, sid).value.policy;
       && IsNormal(p) && p.adminRevision < UINT64_RANGE && !AdminFlag(EditOf(m, e).value, c)
       && (e.resolve != p.resolve.admin || e.rotate != p.rotate.admin)
  }

  lemma DenyRecorded(m: Machine, e: Event, m': Machine, sid: string, c: Capability)
    requires Step(m, e, m') && c.Known() && RecordsDeny(m, e, sid, c)
    ensures RecordOf(m'.store.vault, sid).Some?
    ensures var before, after := RecordOf(m.store.vault, sid).value, RecordOf(m'.store.vault, sid).value;
            StaysDenied(after, after, c) && after.policy.adminRevision != before.policy.adminRevision
  {
    hide Step;
    var rec := RecordOf(m.store.vault, sid).value;
    assert rec.id == sid;
    StepWrites(m, e, m', sid);
    RevisionAfterWrite(rec, EditOf(m, e).value);
    WrittenIsStored(rec, EditOf(m, e).value);
  }

  /** From a deny that changes a flag to the next recovery of the record, with
      no step in between overruling it: the recovery leaves the bit allowed if
      and only if an enabled grant needs it, or the last pending intent naming
      the record was staged at the revision the deny left while some pending
      intent naming it remembers the bit allowed. */
  lemma DenyAgainstRecovery(ms: seq<Machine>, es: seq<Event>, a: nat, k: nat, sid: string, c: Capability, now: int)
    requires IsRun(ms, es) && a < k < |es| && c.Known() && RecordsDeny(ms[a], es[a], sid, c)
    requires forall j :: a < j < k && RecordOf(ms[j].store.vault, sid).Some? ==> !Overrules(ms[j], es[j], sid, c)
    requires es[k] == VaultPhase(Recover, now) && LastNaming(ms[k].store.meta.pending, sid).Some?
    ensures RecordOf(ms[a + 1].store.vault, sid).Some? && RecordOf(ms[k + 1].store.vault, sid).Some?
    ensures var ps := ms[k].store.meta.pending;
            var left := RecordOf(ms[a + 1].store.vault, sid).value.policy.adminRevision;
            RecordOf(ms[k + 1].store.vault, sid).value.policy.Permits(c)
            <==> || Needed(PlanOf(ms[k].store, Recover, now).file, now, sid, c)
                 || (IntentBaseline(LastNaming(ps, sid).value).adminRevision == left && SomeRemembers(ps, sid, c))
  {
    hide IsRun, Overrules, Written, Step, RecordsDeny, RecordOf, StaysDenied, SomeRemembers, IntentBaseline, LastNaming,
         BaselineOf, Needed;
    RunSteps(ms, es, a);
    RunSteps(ms, es, k);
    DenyRecorded(ms[a], es[a], ms[a + 1], sid, c);
    DenialLasts(ms, es, a + 1, k, sid, c);
    RecoverStepEdit(ms[k], now, ms[k + 1]);
    MergedBaseline(ms[k].store.meta.pending, sid, c);
    StillDenied(RecordOf(ms[a + 1].store.vault, sid).value, RecordOf(ms[k].store.vault, sid).value, c);
    RecordHasID(ms[k].store.vault, sid);
    ReconciledDenial(ms[k], es[k], ms[k + 1], sid, c);
    RecoveryNeeds(ms[k].store, now, sid, c);
  }

  lemma RecordHasID(vault: seq<SecretRecord>, sid: string)
    ensures RecordOf(vault, sid).Some? ==> RecordOf(vault, sid).value.id == sid
  {
  }

  lemma StillDenied(r: SecretRecord, r': SecretRecord, c: Capability)
    requires c.Known() && StaysDenied(r, r', c)
    ensures StaysDenied(r', r', c) && r'.policy.adminRevision == r.policy.adminRevision
  {
  }

  lemma RecoverStepEdit(m: Machine, now: int, m': Machine)
    requires Step(m, VaultPhase(Recover, now), m')
    ensures var f := Opened(m.store.meta);
            EditOf(m, VaultPhase(Recover, now))
            == Some(RecoverEdit(f.pending, f.(grants := Filter(f.grants, Settled(f.pending))), now))
  {
    hide ValidFile;
  }

  lemma RecoveryNeeds(s: Store, now: int, sid: string, c: Capability)
    requires PlanOf(s, Recover, now).Do?
    ensures var f := Opened(s.meta);
            Needed(PlanOf(s, Recover, now).file, now, sid, c)
            == Needed(f.(grants := Filter(f.grants, Settled(f.pending))), now, sid, c)
  {
    hide ValidFile, Settled;
  }

  /** Against the roll-back of one grant, whose intent alone is the baseline. */
  lemma DenyAgainstRollback(ms: seq<Machine>, es: seq<Event>, a: nat, k: nat, sid: string, c: Capability, now: int,
                            i: Intent)
    requires IsRun(ms, es) && a < k < |es| && c.Known() && RecordsDeny(ms[a], es[a], sid, c)
    requires forall j :: a < j < k && RecordOf(ms[j].store.vault, sid).Some? ==> !Overrules(ms[j], es[j], sid, c)
    requires es[k] == VaultPhase(Rollback(i.grantId), now) && i.secretId == sid
    requires DistinctIntents(ms[k].store.meta.pending) && i in ms[k].store.meta.pending
    ensures RecordOf(ms[a + 1].store.vault, sid).Some? && RecordOf(ms[k + 1].store.vault, sid).Some?
    ensures RecordOf(ms[k + 1].store.vault, sid).value.policy.Permits(c)
            <==> || NeedOf(PlanOf(ms[k].store, Rollback(i.grantId), now).file, now, sid).Of(c)
                 || (i.adminRevision == RecordOf(ms[a + 1].store.vault, sid).value.policy.adminRevision
                     && GrantBaseline(i).Of(c))
  {
    hide IsRun, Overrules, Written, Step, RecordsDeny, RecordOf, StaysDenied, IntentBaseline, NeedOf, Withdrawn;
    RunSteps(ms, es, a);
    RunSteps(ms, es, k);
    DenyRecorded(ms[a], es[a], ms[a + 1], sid, c);
    DenialLasts(ms, es, a + 1, k, sid, c);
    RollbackStepEdit(ms[k], i, now, ms[k + 1]);
    StillDenied(RecordOf(ms[a + 1].store.vault, sid).value, RecordOf(ms[k].store.vault, sid).value, c);
    RecordHasID(ms[k].store.vault, sid);
    ReconciledDenial(ms[k], es[k], ms[k + 1], sid, c);
  }

  lemma RollbackStepEdit(m: Machine, i: Intent, now: int, m': Machine)
    requires Step(m, VaultPhase(Rollback(i.grantId), now), m')
    requires DistinctIntents(m.store.meta.pending) && i in m.store.meta.pending
    ensures EditOf(m, VaultPhase(Rollback(i.grantId), now))
            == Some(RollbackEdit(i.secretId, GrantBaseline(i),
                                 NeedOf(PlanOf(m.store, Rollback(i.grantId), now).file, now, i.secretId)))
  {
    hide ValidFile, NeedOf, Withdrawn, GrantBaseline;
    OnlyIntent(m.store.meta.pending, i.grantId, i);
  }

  /** So the deny wins, leaving exactly what enabled grants require, when the
      last pending intent naming the record was staged before it, or when no
      pending intent remembers the bit allowed. */
  lemma DenyWins(ms: seq<Machine>, es: seq<Event>, a: nat, k: nat, sid: string, c: Capability, now: int)
    requires IsRun(ms, es) && a < k < |es| && c.Known() && RecordsDeny(ms[a], es[a], sid, c)
    requires forall j :: a < j < k && RecordOf(ms[j].store.vault, sid).Some? ==> !Overrules(ms[j], es[j], sid, c)
    requires es[k] == VaultPhase(Recover, now) && LastNaming(ms[k].store.meta.pending, sid).Some?
    requires var ps := ms[k].store.meta.pending;
             || IntentBaseline(LastNaming(ps, sid).value).adminRevision == RecordOf(ms[a].store.vault, sid).value.policy.adminRevision
             || !SomeRemembers(ps, sid, c)
    ensures RecordOf(ms[k + 1].store.vault, sid).Some?
    ensures RecordOf(ms[k + 1].store.vault, sid).value.policy.Permits(c)
            <==> Needed(PlanOf(ms[k].store, Recover, now).file, now, sid, c)
  {
    hide IsRun, Overrules, Written, Step, RecordOf, SomeRemembers, IntentBaseline, LastNaming, Needed, PlanOf;
    RunSteps(ms, es, a);
    DenyRecorded(ms[a], es[a], ms[a + 1], sid, c);
    DenyAgainstRecovery(ms, es, a, k, sid, c, now);
  }

  lemma RunSteps(ms: seq<Machine>, es: seq<Event>, j: nat)
    requires IsRun(ms, es) && j < |es|
    ensures |ms| == |es| + 1 && Step(ms[j], es[j], ms[j + 1])
  {
  }

  /** A deny that leaves both flags as they were does not move the revision, so
      a baseline staged before it still wins. */
  lemma QuietDenyLoses(p: Policy, base: Baseline, need: Need, c: Capability)
    requires IsNormal(p) && c.Known() && !p.resolve.admin && !p.rotate.admin
    requires base.adminRevision == p.adminRevision && base.Of(c)
    ensures !Marked(p, false, false).Permits(c) && RollbackWrite(Marked(p, false, false), base, need).Permits(c)
  {
  }
}
