/** What each call leaves in the two files, said field by field and in both
    directions: when it reports no error, what has changed then, and that
    nothing else has. */
module CallEffects {
  import opened Lists
  import opened BrokerPolicy
  import opened Metadata
  import opened VaultRecords
  import opened Approval
  import opened ApprovalSafety
  import opened ApprovalRecovery

  // ---------------------------------------------------------------- lifecycle calls

  lemma TargetOfGrant(m: MetaFile, off: Grant -> bool, k: nat)
    requires ValidFile(m) && k < |m.grants| && off(m.grants[k])
    ensures TargetsOf(m, off) != {}
  {
    var g := m.grants[k];
    assert g in m.grants;
    var b :| b in m.bindings && b.id == g.bindingId;
    assert b.secretId in TargetsOf(m, off);
  }

  /** When a lifecycle call that finds something to do reports no error. */
  lemma LifecycleSucceeds(s: Store, mutation: Mutation, io: IO)
    requires ValidFile(Opened(s.meta)) && (mutation.Rebinding? ==> mutation.newSecret != "")
    requires ChangeOf(Opened(s.meta), mutation).Some? && ChangeOf(Opened(s.meta), mutation).value.affected != {}
    ensures var run := LifecycleRun(s, mutation, io);
            && (run.failures == [] <==> io.vaultOk && io.saveOk)
            && (run.failures == [] ==> Final(s, run).meta == Saved(ChangeOf(Opened(s.meta), mutation).value.file))
  {
    hide ValidFile, ChangeOf, WrittenAll;
    ChangedValid(Opened(s.meta), mutation);
  }

  /** Revoking: no error exactly when the grant exists and both writes happen;
      then it is disabled, and everything else in the file is as before. */
  lemma RevokeEffect(s: Store, id: string, io: IO)
    ensures var run := LifecycleRun(s, Revoking(id), io);
            var f, f' := s.meta, Final(s, run).meta;
            && (run.failures == []
                <==> ValidFile(Opened(f)) && (exists g <- f.grants :: g.id == id) && io.vaultOk && io.saveOk)
            && (run.failures == [] ==>
                  && f'.bindings == f.bindings && f'.pending == f.pending && |f'.grants| == |f.grants|
                  && forall k :: 0 <= k < |f.grants| ==>
                       f'.grants[k] == if f.grants[k].id == id then f.grants[k].(enabled := false) else f.grants[k])
  {
    hide ValidFile, TargetsOf, WrittenAll;
    var m := Opened(s.meta);
    var at := Locate(m.grants, GrantWithID(id));
    if ValidFile(m) && at >= 0 {
      TargetOfGrant(m, GrantWithID(id), at);
      LifecycleSucceeds(s, Revoking(id), io);
    }
  }

  /** Expiry: afterwards no enabled grant is past its time, and only those that
      were have been touched; when there is none, nothing is even written. */
  lemma ExpireEffect(s: Store, at: int, io: IO)
    ensures var run := LifecycleRun(s, Expiring(at), io);
            var f, f' := s.meta, Final(s, run).meta;
            var due := exists g <- f.grants :: g.enabled && g.expiresAt.Some? && g.expiresAt.value <= at;
            && (run.failures == [] <==> ValidFile(Opened(f)) && (due ==> io.vaultOk && io.saveOk))
            && (run.failures == [] ==>
                  && f'.bindings == f.bindings && f'.pending == f.pending && |f'.grants| == |f.grants|
                  && forall k :: 0 <= k < |f.grants| ==>
                       var g := f.grants[k];
                       f'.grants[k] == if g.enabled && g.expiresAt.Some? && g.expiresAt.value <= at
                                       then g.(enabled := false) else g)
            && (!due ==> run.writes == [])
  {
    hide ValidFile, TargetsOf, WrittenAll;
    var m := Opened(s.meta);
    if ValidFile(m) {
      if k :| 0 <= k < |m.grants| && Lapsed(at)(m.grants[k]) {
        assert m.grants[k] in s.meta.grants;
        TargetOfGrant(m, Lapsed(at), k);
        LifecycleSucceeds(s, Expiring(at), io);
      } else {
        NoneLapsed(m, at);
      }
    }
  }

  lemma NoneLapsed(m: MetaFile, at: int)
    requires forall k :: 0 <= k < |m.grants| ==> !Lapsed(at)(m.grants[k])
    ensures TargetsOf(m, Lapsed(at)) == {}
    ensures forall g <- m.grants :: !Lapsed(at)(g)
  {
  }

  /** The binding a caller means: the one of that name, or, when no binding has
      the name, the one of that id. */
  predicate Means(bs: seq<Binding>, k: nat, value: string) {
    && k < |bs|
    && (bs[k].name == value || (bs[k].id == value && forall b <- bs :: b.name != value))
  }

  lemma LocatedIsMeant(bs: seq<Binding>, value: string)
    requires DistinctBindings(bs)
    ensures var at := LocateBinding(bs, value);
            if at >= 0 then Means(bs, at, value) && forall k: nat :: Means(bs, k, value) ==> k == at
            else forall k: nat :: !Means(bs, k, value)
  {
    forall k: nat | k < |bs|
      ensures bs[k] in bs
    {
    }
  }

  /** Rebinding: the binding meant now points at the new record and none of its
      grants is enabled; every other binding and grant is as before. */
  lemma RebindEffect(s: Store, value: string, newSecret: string, at: int, io: IO, k: nat)
    requires DistinctBindings(s.meta.bindings) && Means(s.meta.bindings, k, value)
    ensures var run := LifecycleRun(s, Rebinding(value, newSecret, at), io);
            var f, f' := s.meta, Final(s, run).meta;
            && (run.failures == [] <==> ValidFile(Opened(f)) && newSecret != "" && io.vaultOk && io.saveOk)
            && (run.failures == [] ==>
                  && f'.bindings == f.bindings[k := f.bindings[k].(secretId := newSecret, updatedAt := at)]
                  && f'.pending == f.pending && |f'.grants| == |f.grants|
                  && forall j :: 0 <= j < |f.grants| ==>
                       f'.grants[j] == if f.grants[j].bindingId == f.bindings[k].id then f.grants[j].(enabled := false)
                                       else f.grants[j])
  {
    hide ValidFile, WrittenAll, LocateBinding, Means, DistinctBindings;
    LocatedIsMeant(s.meta.bindings, value);
    if ValidFile(Opened(s.meta)) && newSecret != "" {
      LifecycleSucceeds(s, Rebinding(value, newSecret, at), io);
    }
  }

  /** Deleting: no binding, grant or intent of the binding meant is left, and
      every other is. */
  lemma DeleteEffect(s: Store, value: string, io: IO, k: nat)
    requires DistinctBindings(s.meta.bindings) && Means(s.meta.bindings, k, value)
    ensures var run := LifecycleRun(s, Deleting(value), io);
            var f, f', id := s.meta, Final(s, run).meta, s.meta.bindings[k].id;
            && (run.failures == [] <==> ValidFile(Opened(f)) && io.vaultOk && io.saveOk)
            && (run.failures == [] ==>
                  && (forall b :: b in f'.bindings <==> b in f.bindings && b.id != id)
                  && (forall g :: g in f'.grants <==> g in f.grants && g.bindingId != id)
                  && (forall i :: i in f'.pending <==> i in f.pending && i.bindingId != id))
  {
    hide ValidFile, WrittenAll, LocateBinding, Means, DistinctBindings, Filter;
    LocatedIsMeant(s.meta.bindings, value);
    var id := s.meta.bindings[k].id;
    FilterMembers(s.meta.bindings, OtherBinding(id));
    FilterMembers(s.meta.grants, GrantElsewhere(id));
    FilterMembers(s.meta.pending, IntentElsewhere(id));
    if ValidFile(Opened(s.meta)) {
      LifecycleSucceeds(s, Deleting(value), io);
    }
  }

  /** When nothing is meant, neither call changes anything. */
  lemma NothingMeant(s: Store, mutation: Mutation, io: IO)
    requires mutation.Rebinding? || mutation.Deleting?
    requires DistinctBindings(s.meta.bindings) && forall k: nat :: !Means(s.meta.bindings, k, mutation.binding)
    ensures var run := LifecycleRun(s, mutation, io); run.failures != [] && run.writes == []
  {
    LocatedIsMeant(s.meta.bindings, mutation.binding);
  }

  /** A grant the call disables. */
  predicate SwitchesOff(mutation: Mutation, g: Grant) {
    || (mutation.Revoking? && g.id == mutation.id)
    || (mutation.Expiring? && g.enabled && g.expiresAt.Some? && g.expiresAt.value <= mutation.at)
  }

  /** A lifecycle call has to do with a record: some binding of it has a grant
      the call disables, or is the binding the call means, or is moved to it. */
  predicate Touches(f: MetaFile, mutation: Mutation, sid: string) {
    || (mutation.Rebinding? && mutation.newSecret == sid)
    || (exists k :: 0 <= k < |f.bindings| && f.bindings[k].secretId == sid
          && if mutation.Rebinding? || mutation.Deleting? then Means(f.bindings, k, mutation.binding)
             else exists g <- f.grants :: SwitchesOff(mutation, g) && g.bindingId == f.bindings[k].id)
  }

  lemma AffectedAreTouched(m: MetaFile, mutation: Mutation, sid: string)
    requires DistinctBindings(m.bindings) && ChangeOf(m, mutation).Some?
    ensures sid in ChangeOf(m, mutation).value.affected <==> Touches(m, mutation, sid)
  {
    hide Disabled, Filter;
    match mutation {
      case Revoking(id) => TargetsAreTouched(m, GrantWithID(id), sid);
      case Expiring(at) => TargetsAreTouched(m, Lapsed(at), sid);
      case Rebinding(value, _, _) => LocatedIsMeant(m.bindings, value);
      case Deleting(value) => LocatedIsMeant(m.bindings, value);
    }
  }

  lemma TargetsAreTouched(m: MetaFile, off: Grant -> bool, sid: string)
    ensures sid in TargetsOf(m, off)
            <==> exists k :: 0 <= k < |m.bindings| && m.bindings[k].secretId == sid
                             && exists g <- m.grants :: off(g) && g.bindingId == m.bindings[k].id
  {
    forall k: nat | k < |m.bindings|
      ensures m.bindings[k] in m.bindings
    {
    }
  }

  /** Whose a bit is: an administrator's, else a grant's while it is allowed. */
  predicate Sourced(g: Gate, held: bool) {
    g.source == if held then Administrative else if g.allow then FromGrant else NoSource
  }

  lemma LifecycleSources(r: SecretRecord, e: Edit, c: Capability)
    requires IsStored(r) && e.LifecycleEdit? && r.id in e.affected && c.Known()
    ensures var g, p := r.policy.Of(c), Written(r, e).policy;
            && Sourced(p.Of(c), g.admin || (g.allow && g.source == Administrative))
            && (p.Of(c).admin <==> g.admin || (g.allow && g.source == Administrative))
            && p.adminRevision == r.policy.adminRevision
  {
    hide NeedOf;
  }

  /** The policies after a lifecycle call: of a record it has to do with, a bit
      is allowed if and only if an administrator's flag or source stands behind
      it, or some enabled grant of the saved file, not past its time, lists it
      through a binding of the record. Every other record is as before. */
  lemma LifecyclePolicies(s: Store, mutation: Mutation, io: IO, k: nat, c: Capability)
    requires AllStored(s.vault) && k < |s.vault| && c.Known()
    requires LifecycleRun(s, mutation, io).failures == [] && LifecycleRun(s, mutation, io).writes != []
    ensures var after := Final(s, LifecycleRun(s, mutation, io));
            var g, r, r' := s.vault[k].policy.Of(c), s.vault[k], after.vault[k];
            && |after.vault| == |s.vault|
            && (if Touches(s.meta, mutation, r.id)
                then && r' == r.(policy := r'.policy)
                     && (r'.policy.Permits(c)
                         <==> || g.admin || (g.allow && g.source == Administrative)
                              || (exists x <- after.meta.grants :: x.enabled && c in x.capabilities
                                    && (x.expiresAt.Some? ==> io.now < x.expiresAt.value)
                                    && exists b <- after.meta.bindings :: b.id == x.bindingId && b.secretId == r.id))
                     && Sourced(r'.policy.Of(c), g.admin || (g.allow && g.source == Administrative))
                     && (r'.policy.Of(c).admin <==> g.admin || (g.allow && g.source == Administrative))
                     && r'.policy.adminRevision == r.policy.adminRevision
                else r' == r)
  {
    hide ValidFile, ChangeOf, Written, IsNormal, Touches, Sourced;
    var change := ChangeOf(Opened(s.meta), mutation).value;
    var e := LifecycleEdit(change.affected, change.file, io.now);
    ValidDistinct(Opened(s.meta));
    AffectedAreTouched(Opened(s.meta), mutation, s.vault[k].id);
    SameTouch(s.meta, mutation, s.vault[k].id);
    assert s.vault[k] in s.vault;
    if s.vault[k].id in change.affected {
      PermittedAfterWrite(s.vault[k], e, c);
      WriteKeepsRest(s.vault[k], e);
      LifecycleSources(s.vault[k], e, c);
    } else {
      UnaffectedKept(s.vault[k], e);
    }
  }

  /** A reconciliation with a baseline gives a bit to the administrator when one
      stands behind it or the baseline says it was allowed at this revision, and
      touches neither flag nor revision. */
  lemma BaselineSources(p: Policy, base: Baseline, need: Need, c: Capability)
    requires IsNormal(p) && c.Known()
    ensures var g, g' := p.Of(c), RollbackWrite(p, base, need).Of(c);
            && Sourced(g', || g.admin || (g.allow && g.source == Administrative)
                           || (base.adminRevision == p.adminRevision && base.Of(c)))
            && g'.admin == g.admin && RollbackWrite(p, base, need).adminRevision == p.adminRevision
  {
  }

  lemma ValidDistinct(m: MetaFile)
    requires ValidFile(m)
    ensures DistinctBindings(m.bindings) && DistinctGrants(m.grants) && DistinctIntents(m.pending)
  {
  }

  lemma SameTouch(f: MetaFile, mutation: Mutation, sid: string)
    ensures Touches(Opened(f), mutation, sid) == Touches(f, mutation, sid)
  {
  }

  lemma WriteKeepsRest(r: SecretRecord, e: Edit)
    requires IsStored(r) && !e.RotateEdit?
    ensures Written(r, e) == r.(policy := Written(r, e).policy)
  {
  }

  lemma UnaffectedKept(r: SecretRecord, e: Edit)
    requires IsStored(r) && e.LifecycleEdit? && r.id !in e.affected
    ensures Written(r, e) == r
  {
  }

  // ---------------------------------------------------------------- approvals

  /** Cancelling: exactly the grants and intents of the id are gone. */
  lemma CancelEffect(s: Store, id: string, io: IO)
    ensures var run := CancelRun(s, id, io);
            var f, f' := s.meta, Final(s, run).meta;
            && (id == "" ==> run == Run([], [])) && Final(s, run).vault == s.vault
            && (id != "" ==> (run.failures == [] <==> ValidFile(Opened(f)) && io.saveOk))
            && (id != "" && run.failures == [] ==>
                  && f'.bindings == f.bindings
                  && (forall g :: g in f'.grants <==> g in f.grants && g.id != id)
                  && (forall i :: i in f'.pending <==> i in f.pending && i.grantId != id))
  {
    hide ValidFile, Filter;
    FilterMembers(s.meta.grants, OtherGrant(id));
    FilterMembers(s.meta.pending, OtherIntent(id));
    if ValidFile(Opened(s.meta)) {
      WithoutValid(Opened(s.meta), {id});
      WithdrawnIsWithout(Opened(s.meta), id);
    }
  }

  /** Cleaning up: exactly the grants that are disabled and older than the
      cut-off are gone, with the intents of their ids. */
  lemma CleanupEffect(s: Store, cutoff: int, io: IO)
    ensures var run := CleanupRun(s, cutoff, io);
            var f, f' := s.meta, Final(s, run).meta;
            && (run.failures == [] <==> ValidFile(Opened(f)) && io.saveOk) && Final(s, run).vault == s.vault
            && (run.failures == [] ==>
                  && f'.bindings == f.bindings
                  && (forall g :: g in f'.grants <==> g in f.grants && (g.enabled || g.createdAt >= cutoff))
                  && (forall i :: i in f'.pending
                        <==> i in f.pending && forall g <- f.grants :: g.id == i.grantId ==> g.enabled || g.createdAt >= cutoff))
  {
    hide ValidFile, Filter;
    var ids := StaleIDs(s.meta.grants, cutoff);
    FilterMembers(s.meta.grants, GrantOutside(ids));
    FilterMembers(s.meta.pending, IntentOutside(ids));
    if ValidFile(Opened(s.meta)) {
      WithoutValid(Opened(s.meta), ids);
      StaleAreOld(Opened(s.meta), cutoff);
    }
  }

  lemma StaleAreOld(m: MetaFile, cutoff: int)
    requires ValidFile(m)
    ensures forall g <- m.grants :: g.id in StaleIDs(m.grants, cutoff) <==> !g.enabled && g.createdAt < cutoff
    ensures forall id :: id in StaleIDs(m.grants, cutoff)
                         <==> exists g <- m.grants :: g.id == id && !g.enabled && g.createdAt < cutoff
  {
    forall g | g in m.grants && g.id in StaleIDs(m.grants, cutoff)
      ensures !g.enabled && g.createdAt < cutoff
    {
      var h :| h in m.grants && Stale(cutoff)(h) && h.id == g.id;
      OnlyGrant(m.grants, g.id, g);
      OnlyGrant(m.grants, g.id, h);
    }
  }

  /** Recovering: no intent is left, and of the grants exactly those that are
      enabled or that no intent named. With no intent there is nothing to do. */
  lemma RecoverEffect(s: Store, io: IO)
    ensures var run := RecoverRun(s, io);
            var f, f' := s.meta, Final(s, run).meta;
            && (run.failures == [] <==> ValidFile(Opened(f)) && (f.pending != [] ==> io.vaultOk && io.saveOk))
            && (f.pending == [] ==> run.writes == [])
            && (run.failures == [] ==>
                  && f'.bindings == f.bindings && f'.pending == []
                  && forall g :: g in f'.grants <==> g in f.grants && (g.enabled || forall i <- f.pending :: i.grantId != g.id))
  {
    hide ValidFile, Filter, WrittenAll;
    var m := Opened(s.meta);
    FilterMembers(m.grants, Settled(m.pending));
    if ValidFile(m) {
      RecoveredValid(m);
    }
  }

  lemma RecoveredValid(m: MetaFile)
    requires ValidFile(m)
    ensures ValidFile(m.(grants := Filter(m.grants, Settled(m.pending)), pending := []))
  {
    FilterMembers(m.grants, Settled(m.pending));
    FilterDistinct(m.grants, Settled(m.pending), (g: Grant) => g.id);
  }

  /** A commit can go through: its grant and intent are there, on a binding that
      still points at the intent's record, which is in the vault and in use. */
  predicate Committable(s: Store, id: string) {
    exists g <- s.meta.grants, i <- s.meta.pending, b <- s.meta.bindings, r <- s.vault ::
      g.id == id && i.grantId == id && b.id == g.bindingId && b.secretId == i.secretId && r.id == b.secretId && !r.archived
  }

  lemma ClearedIsCommittable(s: Store, id: string)
    requires ValidFile(Opened(s.meta)) && UniqueIDs(s.vault)
    ensures CommitPlan(s, id).Do? <==> Committable(s, id)
  {
    hide ValidFile, Activated, Committable;
    ValidDistinct(Opened(s.meta));
    if Committable(s, id) {
      CommittableCleared(s, id);
    }
    if CommitPlan(s, id).Do? {
      ClearedCommittable(s, id);
    }
  }

  lemma CommittableCleared(s: Store, id: string)
    requires DistinctBindings(s.meta.bindings) && DistinctGrants(s.meta.grants) && DistinctIntents(s.meta.pending)
    requires UniqueIDs(s.vault) && Committable(s, id)
    ensures ClearCommit(Opened(s.meta), id).Cleared? && Grantable(s.vault, ClearCommit(Opened(s.meta), id).target)
  {
    var m := Opened(s.meta);
    var g, i, b, r :| g in m.grants && i in m.pending && b in m.bindings && r in s.vault && g.id == id && i.grantId == id
                      && b.id == g.bindingId && b.secretId == i.secretId && r.id == b.secretId && !r.archived;
    OnlyGrant(m.grants, id, g);
    OnlyIntent(m.pending, id, i);
    OnlyRecord(s.vault, r);
    OnlyBinding(m.bindings, b);
  }

  lemma OnlyBinding(bs: seq<Binding>, b: Binding)
    requires DistinctBindings(bs) && b in bs
    ensures Locate(bs, BindingWithID(b.id)) >= 0 && bs[Locate(bs, BindingWithID(b.id))] == b
  {
  }

  lemma ClearedCommittable(s: Store, id: string)
    requires ClearCommit(Opened(s.meta), id).Cleared? && Grantable(s.vault, ClearCommit(Opened(s.meta), id).target)
    ensures Committable(s, id)
  {
    var m := Opened(s.meta);
    var g, i := m.grants[Locate(m.grants, GrantWithID(id))], m.pending[Locate(m.pending, IntentFor(id))];
    var b := m.bindings[Locate(m.bindings, BindingWithID(g.bindingId))];
    var r := s.vault[Locate(s.vault, RecordWithID(b.secretId))];
    assert g in m.grants && i in m.pending && b in m.bindings && r in s.vault;
  }

  lemma OnlyRecord(vault: seq<SecretRecord>, r: SecretRecord)
    requires UniqueIDs(vault) && r in vault
    ensures Locate(vault, RecordWithID(r.id)) >= 0 && vault[Locate(vault, RecordWithID(r.id))] == r
  {
  }

  /** Committing with a live context: no error exactly when it can go through
      and both writes happen; then the grant is enabled, its intent gone, the
      other grants and intents as before. */
  lemma CommitEffect(s: Store, id: string, io: IO, cleanup: IO)
    requires UniqueIDs(s.vault)
    ensures var run := CommitRun(s, id, Context(true, true, true), io, cleanup);
            var f, f' := s.meta, Final(s, run).meta;
            && (run.failures == [] <==> ValidFile(Opened(f)) && Committable(s, id) && io.vaultOk && io.saveOk)
            && (run.failures == [] ==>
                  && f'.bindings == f.bindings && |f'.grants| == |f.grants|
                  && (forall k :: 0 <= k < |f.grants| ==>
                        f'.grants[k] == if f.grants[k].id == id then f.grants[k].(enabled := true) else f.grants[k])
                  && forall i :: i in f'.pending <==> i in f.pending && i.grantId != id)
  {
    hide ValidFile, Filter, WrittenAll, ClearCommit, Grantable, Committable, RollbackRun;
    var m := Opened(s.meta);
    FilterMembers(m.pending, OtherIntent(id));
    if ValidFile(m) {
      ClearedIsCommittable(s, id);
      if CommitPlan(s, id).Do? {
        ActivatedValid(m, ClearCommit(m, id).at, id);
        ClearedGrant(m, id);
      }
    }
  }

  lemma ClearedGrant(m: MetaFile, id: string)
    requires ValidFile(m) && ClearCommit(m, id).Cleared?
    ensures var at := ClearCommit(m, id).at; forall k :: 0 <= k < |m.grants| ==> (m.grants[k].id == id <==> k == at)
  {
  }

  /** A context dead at any of its checks is an error, and no grant is enabled
      that was not before. */
  lemma DeadContextFails(s: Store, id: string, ctx: Context, io: IO, cleanup: IO, g: Grant)
    requires ctx != Context(true, true, true)
    ensures CommitRun(s, id, ctx, io, cleanup).failures != []
    ensures g in Final(s, CommitRun(s, id, ctx, io, cleanup)).meta.grants ==> g in s.meta.grants
  {
    hide ValidFile, Filter, WrittenAll, Grantable;
    FilterMembers(s.meta.grants, OtherGrant(id));
  }

  /** The policies after a commit: on the record of its binding exactly the bits
      it lists are added, and an administrator keeps a bit. Every other record
      is as before. */
  lemma CommitPolicies(s: Store, id: string, ctx: Context, io: IO, cleanup: IO, k: nat, c: Capability)
    requires UniqueIDs(s.vault) && AllStored(s.vault) && k < |s.vault| && c.Known()
    requires CommitRun(s, id, ctx, io, cleanup).failures == []
    ensures var after := Final(s, CommitRun(s, id, ctx, io, cleanup));
            var r, r' := s.vault[k], after.vault[k];
            && |after.vault| == |s.vault|
            && exists g <- s.meta.grants :: g.id == id
                 && if exists b <- s.meta.bindings :: b.id == g.bindingId && b.secretId == r.id
                    then && r' == r.(policy := r'.policy)
                         && (r'.policy.Permits(c) <==> r.policy.Permits(c) || c in g.capabilities)
                         && (r'.policy.Of(c).source == Administrative <==> r.policy.Of(c).source == Administrative)
                         && (c in g.capabilities ==> r'.policy.Of(c).source in {Administrative, FromGrant})
                         && (c !in g.capabilities ==> r'.policy.Of(c) == r.policy.Of(c))
                         && r'.policy.Of(c).admin == r.policy.Of(c).admin
                         && r'.policy.adminRevision == r.policy.adminRevision
                    else r' == r
  {
    hide ValidFile, Filter, Written, RollbackRun, Activated, UniqueIDs, IsStored;
    var m := Opened(s.meta);
    ValidDistinct(m);
    var at, target := ClearCommit(m, id).at, ClearCommit(m, id).target;
    var g := m.grants[at];
    assert g in s.meta.grants && g.id == id;
    var b := m.bindings[Locate(m.bindings, BindingWithID(g.bindingId))];
    assert b in m.bindings;
    assert (exists x <- s.meta.bindings :: x.id == g.bindingId && x.secretId == s.vault[k].id) <==> s.vault[k].id == target by {
      forall x | x in s.meta.bindings && x.id == g.bindingId
        ensures x == b
      {
        OnlyBinding(m.bindings, x);
      }
    }
    assert s.vault[k] in s.vault;
    GrantedBits(s.vault[k], GrantEdit(target, g.capabilities), c);
  }

  lemma GrantedBits(r: SecretRecord, e: Edit, c: Capability)
    requires IsStored(r) && e.GrantEdit? && c.Known()
    ensures var r' := Written(r, e);
            if r.id == e.target
            then && r' == r.(policy := r'.policy) && (r'.policy.Permits(c) <==> r.policy.Permits(c) || c in e.caps)
                 && (r'.policy.Of(c).source == Administrative <==> r.policy.Of(c).source == Administrative)
                 && (c in e.caps ==> r'.policy.Of(c).source in {Administrative, FromGrant})
                 && (c !in e.caps ==> r'.policy.Of(c) == r.policy.Of(c))
                 && r'.policy.Of(c).admin == r.policy.Of(c).admin && r'.policy.adminRevision == r.policy.adminRevision
            else r' == r
  {
  }

  /** What an intent says the policy was before it, whichever way it was
      written: an old one holds the allowed bits only. */
  predicate SaysAllowed(i: Intent, c: Capability)
    requires c.Known()
  {
    if c.Resolve? then i.priorAllowResolve || (i.priorKnown && i.priorResolveSource == Administrative)
    else i.priorAllowRotate || (i.priorKnown && i.priorRotateSource == Administrative)
  }

  function SaysRevision(i: Intent): nat { if i.priorKnown then i.adminRevision else 0 }

  lemma BaselineSays(i: Intent, c: Capability)
    requires c.Known()
    ensures IntentBaseline(i).Of(c) == SaysAllowed(i, c) && IntentBaseline(i).adminRevision == SaysRevision(i)
    ensures GrantBaseline(i).Of(c) == SaysAllowed(i, c) && GrantBaseline(i).adminRevision == i.adminRevision
  {
  }

  /** The policies after a recovery: of a record some intent names, a bit is
      allowed if and only if an administrator's flag or source stands behind it,
      an enabled grant lists it, or an intent naming the record says it was
      allowed and the last of them was staged at the record's revision. Every
      other record is as before. */
  lemma RecoverPolicies(s: Store, io: IO, k: nat, c: Capability)
    requires AllStored(s.vault) && k < |s.vault| && c.Known()
    requires RecoverRun(s, io).failures == [] && RecoverRun(s, io).writes != []
    ensures var after := Final(s, RecoverRun(s, io));
            var g, r, r' := s.vault[k].policy.Of(c), s.vault[k], after.vault[k];
            && |after.vault| == |s.vault|
            && match LastNaming(s.meta.pending, r.id)
               case None => r' == r
               case Some(last) =>
                 && r' == r.(policy := r'.policy)
                 && (r'.policy.Permits(c)
                     <==> || g.admin || (g.allow && g.source == Administrative)
                          || (exists x <- after.meta.grants :: x.enabled && c in x.capabilities
                                && (x.expiresAt.Some? ==> io.now < x.expiresAt.value)
                                && exists b <- after.meta.bindings :: b.id == x.bindingId && b.secretId == r.id)
                          || (SaysRevision(last) == r.policy.adminRevision
                              && exists i <- s.meta.pending :: i.secretId == r.id && SaysAllowed(i, c)))
                 && Sourced(r'.policy.Of(c), || g.admin || (g.allow && g.source == Administrative)
                                             || (SaysRevision(last) == r.policy.adminRevision
                                                 && exists i <- s.meta.pending :: i.secretId == r.id && SaysAllowed(i, c)))
                 && r'.policy.Of(c).admin == g.admin && r'.policy.adminRevision == r.policy.adminRevision
  {
    hide ValidFile, Written, IsNormal, Settled, BaselineOf, LastNaming, IntentBaseline, SaysAllowed, SaysRevision, Sourced;
    var m := Opened(s.meta);
    var m' := m.(grants := Filter(m.grants, Settled(m.pending)));
    var e := RecoverEdit(m.pending, m', io.now);
    assert s.vault[k] in s.vault;
    MergedBaseline(m.pending, s.vault[k].id, c);
    forall i | i in m.pending
      ensures IntentBaseline(i).Of(c) == SaysAllowed(i, c)
    {
      BaselineSays(i, c);
    }
    match LastNaming(m.pending, s.vault[k].id) {
      case None => UnnamedKept(s.vault[k], e);
      case Some(last) =>
        BaselineSays(last, c);
        WriteKeepsRest(s.vault[k], e);
        RecoveryPermits(s.vault[k], m.pending, m', io.now, c);
        var base := BaselineOf(m.pending, s.vault[k].id).value;
        BaselineSources(s.vault[k].policy, base, NeedOf(m', io.now, s.vault[k].id), c);
        RecoverWrites(s.vault[k], e, base);
    }
  }

  lemma RecoverWrites(r: SecretRecord, e: Edit, base: Baseline)
    requires e.RecoverEdit? && BaselineOf(e.intents, r.id) == Some(base)
    ensures Written(r, e).policy == RollbackWrite(r.policy, base, NeedOf(e.file, e.now, r.id))
  {
  }

  lemma UnnamedKept(r: SecretRecord, e: Edit)
    requires IsStored(r) && e.RecoverEdit? && BaselineOf(e.intents, r.id).None?
    ensures Written(r, e) == r
  {
  }

  /** Rolling one approval back: exactly its grant and intent are gone. */
  lemma RollbackEffect(s: Store, id: string, io: IO)
    ensures var run := RollbackRun(s, id, io);
            var f, f' := s.meta, Final(s, run).meta;
            && (run.failures == []
                <==> ValidFile(Opened(f)) && (exists i <- f.pending :: i.grantId == id) && io.vaultOk && io.saveOk)
            && (run.failures == [] ==>
                  && f'.bindings == f.bindings
                  && (forall g :: g in f'.grants <==> g in f.grants && g.id != id)
                  && (forall i :: i in f'.pending <==> i in f.pending && i.grantId != id))
  {
    hide ValidFile, Filter, WrittenAll, NeedOf;
    FilterMembers(s.meta.grants, OtherGrant(id));
    FilterMembers(s.meta.pending, OtherIntent(id));
    var at := Locate(s.meta.pending, IntentFor(id));
    assert at >= 0 ==> s.meta.pending[at] in s.meta.pending;
    if ValidFile(Opened(s.meta)) {
      WithoutValid(Opened(s.meta), {id});
      WithdrawnIsWithout(Opened(s.meta), id);
    }
  }

  /** The policies after rolling one approval back: of the record its intent
      names, a bit is allowed if and only if an administrator's flag or source
      stands behind it, an enabled grant lists it, or the intent says it was
      allowed and was staged at the record's revision. */
  lemma RollbackPolicies(s: Store, i: Intent, io: IO, k: nat, c: Capability)
    requires AllStored(s.vault) && k < |s.vault| && c.Known() && i in s.meta.pending
    requires RollbackRun(s, i.grantId, io).failures == []
    ensures var after := Final(s, RollbackRun(s, i.grantId, io));
            var g, r, r' := s.vault[k].policy.Of(c), s.vault[k], after.vault[k];
            && |after.vault| == |s.vault|
            && (if r.id != i.secretId then r' == r
                else && r' == r.(policy := r'.policy)
                     && (r'.policy.Permits(c)
                         <==> || g.admin || (g.allow && g.source == Administrative)
                              || (exists x <- after.meta.grants :: x.enabled && c in x.capabilities
                                    && (x.expiresAt.Some? ==> io.now < x.expiresAt.value)
                                    && exists b <- after.meta.bindings :: b.id == x.bindingId && b.secretId == r.id)
                              || (i.adminRevision == r.policy.adminRevision && SaysAllowed(i, c)))
                     && Sourced(r'.policy.Of(c), || g.admin || (g.allow && g.source == Administrative)
                                                 || (i.adminRevision == r.policy.adminRevision && SaysAllowed(i, c)))
                     && r'.policy.Of(c).admin == g.admin && r'.policy.adminRevision == r.policy.adminRevision)
  {
    hide ValidFile, Written, IsNormal, Filter, GrantBaseline, SaysAllowed, Sourced;
    var m := Opened(s.meta);
    ValidDistinct(m);
    OnlyIntent(m.pending, i.grantId, i);
    var e := RollbackEdit(i.secretId, GrantBaseline(i), NeedOf(Withdrawn(m, i.grantId), io.now, i.secretId));
    assert s.vault[k] in s.vault;
    BaselineSays(i, c);
    if s.vault[k].id == i.secretId {
      WriteKeepsRest(s.vault[k], e);
      PermittedAfterWrite(s.vault[k], e, c);
      BaselineSources(s.vault[k].policy, e.base, e.need, c);
      RollbackWrites(s.vault[k], e);
    } else {
      ElsewhereKept(s.vault[k], e);
    }
  }

  lemma RollbackWrites(r: SecretRecord, e: Edit)
    requires e.RollbackEdit? && r.id == e.target
    ensures Written(r, e).policy == RollbackWrite(r.policy, e.base, e.need)
  {
  }

  lemma ElsewhereKept(r: SecretRecord, e: Edit)
    requires IsStored(r) && e.RollbackEdit? && r.id != e.target
    ensures Written(r, e) == r
  {
  }

  // ---------------------------------------------------------------- staging and binding

  /** The source an intent remembers: a policy of version 0 has none of its own. */
  function SourceBefore(version: int, g: Gate): Source {
    if version != 0 then g.source else if g.allow then Administrative else NoSource
  }

  /** Neither the name nor the id of `b` is taken. */
  predicate Free(bs: seq<Binding>, b: Binding) {
    forall x <- bs :: x.name != b.name && x.id != b.id
  }

  lemma FreeIsUnlocated(bs: seq<Binding>, b: Binding)
    ensures Free(bs, b) <==> Locate(bs, BindingNamed(b.name)) < 0 && Locate(bs, BindingWithID(b.id)) < 0
  {
    var n, i := Locate(bs, BindingNamed(b.name)), Locate(bs, BindingWithID(b.id));
    assert n >= 0 ==> bs[n] in bs;
    assert i >= 0 ==> bs[i] in bs;
  }

  /** The grant a caller asks for, not enabled yet. */
  function GrantAsked(spec: GrantSpec, components: seq<string>, now: int): Grant {
    Grant(spec.id, spec.name, spec.bindingId, spec.client, spec.capabilities, components, false, now, spec.expiresAt)
  }

  /** The intent that remembers a record's policy. */
  function IntentFrom(spec: GrantSpec, r: SecretRecord, now: int): Intent {
    var p := r.policy;
    Intent(spec.id, spec.bindingId, r.id, spec.capabilities, p.resolve.allow, p.rotate.allow,
           SourceBefore(p.version, p.resolve), SourceBefore(p.version, p.rotate), true,
           if p.version == 0 then 0 else p.adminRevision, now)
  }

  lemma DraftMade(s: Store, newBinding: Option<Binding>, bindingId: string, spec: GrantSpec, components: seq<string>,
                  vaultOk: bool, now: int, b: Binding, r: SecretRecord)
    requires UniqueIDs(s.vault) && DistinctBindings(s.meta.bindings)
    requires if newBinding.Some? then newBinding == Some(b) && bindingId == b.id
             else b in s.meta.bindings && b.id == bindingId
    requires r in s.vault && r.id == b.secretId
    ensures var d := DraftApproval(s, newBinding, bindingId, spec, components, vaultOk, now);
            && (d.Drafted? <==> && ValidFile(Opened(s.meta)) && (newBinding.Some? ==> Free(s.meta.bindings, b))
                                && spec.bindingId == b.id && vaultOk && !r.archived)
            && (d.Drafted? ==> d.draft == Draft(newBinding, r.id, GrantAsked(spec, components, now), IntentFrom(spec, r, now)))
  {
    hide ValidFile, DistinctBindings, UniqueIDs, Free;
    OnlyRecord(s.vault, r);
    if newBinding.Some? {
      FreeIsUnlocated(s.meta.bindings, b);
    } else {
      OnlyBinding(s.meta.bindings, b);
    }
  }

  lemma DraftRecorded(s: Store, d: Draft, b: Binding)
    requires DistinctBindings(s.meta.bindings) && d.grant.bindingId == b.id && d.secretId == b.secretId
    requires d.newBinding.Some? ==> d.newBinding == Some(b)
    ensures var p, f := StagePlan(s, d), Opened(s.meta);
            && (p.Do? || p.Refuse?)
            && (p.Do? <==> && ValidFile(f) && (forall g <- f.grants :: g.id != d.grant.id)
                           && if d.newBinding.Some? then Free(f.bindings, b)
                              else exists x <- f.bindings :: x.id == b.id && x.secretId == b.secretId)
            && (p.Do? ==> p == Do(None, f.(bindings := f.bindings + (if d.newBinding.Some? then [b] else []),
                                           grants := f.grants + [d.grant], pending := f.pending + [d.intent])))
  {
    hide ValidFile, DistinctBindings, Free;
    var bs := s.meta.bindings;
    FreeIsUnlocated(bs, b);
    var at, g := Locate(bs, BindingWithID(b.id)), Locate(s.meta.grants, GrantWithID(d.grant.id));
    assert at >= 0 ==> bs[at] in bs;
    assert g >= 0 ==> s.meta.grants[g] in s.meta.grants;
    forall x | x in bs && x.id == b.id
      ensures at >= 0 && bs[at] == x
    {
      OnlyBinding(bs, x);
    }
    assert bs + [] == bs;
  }

  /** Staging for a binding `b`, as the caller saw it, of record `r`: when it
      reports no error, and then exactly one grant, which is disabled and as the
      caller specified, and one intent, which remembers the policy, are added to
      the file as it was when the lock was taken. */
  lemma StageEffect(s: Store, others: Others, newBinding: Option<Binding>, bindingId: string, spec: GrantSpec,
                    components: seq<string>, ctx: Context, io: IO, b: Binding, r: SecretRecord)
    requires UniqueIDs(s.vault) && DistinctBindings(s.meta.bindings) && DistinctBindings(others(s).meta.bindings)
    requires if newBinding.Some? then newBinding == Some(b) && bindingId == b.id
             else b in s.meta.bindings && b.id == bindingId
    requires r in s.vault && r.id == b.secretId
    ensures var o := StageOutcome(s, others, newBinding, bindingId, spec, components, ctx, io);
            var f, f' := others(s).meta, o.after.meta;
            var staged := Opened(f).(bindings := f.bindings + (if newBinding.Some? then [b] else []),
                                     grants := f.grants + [GrantAsked(spec, components, io.now)],
                                     pending := f.pending + [IntentFrom(spec, r, io.now)]);
            && (o.run.failures == []
                <==> && ctx.atEntry && ctx.underLock && io.vaultOk && io.saveOk
                     && ValidFile(Opened(s.meta)) && ValidFile(Opened(f)) && ValidFile(staged)
                     && spec.bindingId == b.id && !r.archived && (forall g <- f.grants :: g.id != spec.id)
                     && if newBinding.Some? then Free(s.meta.bindings, b) && Free(f.bindings, b)
                        else exists x <- f.bindings :: x.id == b.id && x.secretId == b.secretId)
            && (o.run.failures == [] ==>
                  && o.after.vault == others(s).vault && f'.bindings == staged.bindings && f'.grants == staged.grants
                  && f'.pending == staged.pending)
  {
    hide ValidFile, DistinctBindings, UniqueIDs, Free, DraftApproval, StagePlan, GrantAsked, IntentFrom;
    DraftMade(s, newBinding, bindingId, spec, components, io.vaultOk, io.now, b, r);
    var drafted := DraftApproval(s, newBinding, bindingId, spec, components, io.vaultOk, io.now);
    if drafted.Drafted? {
      AskedFields(spec, components, io.now);
      DraftRecorded(others(s), drafted.draft, b);
    }
  }

  lemma AskedFields(spec: GrantSpec, components: seq<string>, now: int)
    ensures var g := GrantAsked(spec, components, now); g.id == spec.id && g.bindingId == spec.bindingId
  {
  }

  /** Adding a binding: no error exactly when its name is free, the file stays
      valid and is written; then it is there, and nothing else has changed. */
  lemma AddBindingEffect(s: Store, b: Binding, io: IO)
    ensures var run := AddBindingRun(s, b, io);
            var f, f' := s.meta, Final(s, run).meta;
            && Final(s, run).vault == s.vault
            && (run.failures == []
                <==> && ValidFile(Opened(f)) && (forall x <- f.bindings :: x.name != b.name) && io.saveOk
                     && ValidFile(Opened(f).(bindings := f.bindings + [b])))
            && (run.failures == [] ==> f'.bindings == f.bindings + [b] && f'.grants == f.grants && f'.pending == f.pending)
  {
    hide ValidFile;
  }

  /** An administrator's decision is final for its record: both flags and both
      bits are what was asked. No other record changes. */
  lemma AdministratorDecides(r: SecretRecord, target: string, resolve: bool, rotate: bool)
    requires IsStored(r)
    ensures var r' := Written(r, AdminEdit(target, resolve, rotate));
            if r.id == target
            then && r' == r.(policy := r'.policy) && r'.policy.exposure == r.policy.exposure
                 && (r'.policy.Permits(Resolve) <==> resolve) && (r'.policy.resolve.admin <==> resolve)
                 && (r'.policy.Permits(Rotate) <==> rotate) && (r'.policy.rotate.admin <==> rotate)
                 && r'.policy.resolve.source == (if resolve then Administrative else NoSource)
                 && r'.policy.rotate.source == (if rotate then Administrative else NoSource)
            else r' == r
  {
  }
}
