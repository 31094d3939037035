/** What a completed call achieves for the peer: a commit authorises, and a
    lifecycle change or recovery leaves a record permitting exactly what an
    administrator holds and enabled grants still require. */
module ApprovalOutcome {
  import opened Lists
  import opened BrokerPolicy
  import opened Metadata
  import opened VaultRecords
  import opened Approval
  import opened ApprovalSafety
  import opened ApprovalRecovery

  lemma GrantedPermits(r: SecretRecord, caps: seq<Capability>, c: Capability)
    requires c.Known() && c in caps
    ensures Loaded(Written(r, GrantEdit(r.id, caps))).policy.Permits(c)
  {
  }

  /** The record a target names, across a vault write and the next load. */
  lemma TargetAfterWrite(vault: seq<SecretRecord>, e: Edit, target: string)
    ensures var at := Locate(vault, RecordWithID(target));
            && Locate(LoadedAll(WrittenAll(vault, e)), RecordWithID(target)) == at
            && (at >= 0 ==> WrittenAll(vault, e)[at].archived == vault[at].archived)
  {
    var vault' := WrittenAll(vault, e);
    var at := Locate(vault, RecordWithID(target));
    if at >= 0 {
      LocateFirst(vault', RecordWithID(target), at);
    } else {
      assert forall k :: 0 <= k < |vault| ==> vault[k] in vault && !RecordWithID(target)(vault[k]);
      assert forall k :: 0 <= k < |vault'| ==> !RecordWithID(target)(vault'[k]);
    }
    LoadedKeepsIDs(vault', target);
  }

  lemma GrantedIsUsable(vault: seq<SecretRecord>, target: string, caps: seq<Capability>, c: Capability)
    requires Grantable(vault, target) && c.Known() && c in caps
    ensures Usable(LoadedAll(WrittenAll(vault, GrantEdit(target, caps))), target, c)
  {
    hide Written, Loaded;
    var at := Locate(vault, RecordWithID(target));
    var e := GrantEdit(target, caps);
    TargetAfterWrite(vault, e, target);
    GrantedPermits(vault[at], caps, c);
    LoadedArchived(WrittenAll(vault, e)[at]);
  }

  lemma LoadedArchived(r: SecretRecord)
    ensures Loaded(r).archived == r.archived
  {
  }

  /** A commit that reports no error has enabled its grant, and the record the
      grant is bound to permits every capability granted. */
  lemma CommitAuthorises(s: Store, id: string, ctx: Context, io: IO, cleanup: IO) returns (g: Grant, target: string)
    requires CommitRun(s, id, ctx, io, cleanup).failures == []
    ensures var after := Final(s, CommitRun(s, id, ctx, io, cleanup));
            && g in after.meta.grants && g.id == id && g.enabled
            && BoundTo(after.meta.bindings, g.bindingId, target)
            && forall c: Capability :: c.Known() && c in g.capabilities ==> Usable(LoadedAll(after.vault), target, c)
  {
    hide ValidFile, Usable, Grantable, WrittenAll, RollbackRun, CancelRun;
    var m := Opened(s.meta);
    var cleared := ClearCommit(m, id);
    g := Activated(m, cleared.at, id).grants[cleared.at];
    target := cleared.target;
    assert g in Activated(m, cleared.at, id).grants;
    assert m.bindings[Locate(m.bindings, BindingWithID(g.bindingId))] in m.bindings;
    var after := Final(s, CommitRun(s, id, ctx, io, cleanup));
    assert after.meta == Saved(Activated(m, cleared.at, id));
    forall c: Capability | c.Known() && c in g.capabilities
      ensures Usable(LoadedAll(after.vault), target, c)
    {
      GrantedIsUsable(s.vault, target, g.capabilities, c);
    }
  }

  /** A revoke, expiry, rebind or delete that reports no error leaves every
      affected record permitting exactly what an administrator holds or some
      enabled grant of the saved metadata requires. */
  lemma LifecycleSettles(s: Store, mutation: Mutation, io: IO, k: nat, c: Capability)
    requires AllStored(s.vault) && k < |s.vault| && c.Known()
    requires var run := LifecycleRun(s, mutation, io); run.failures == [] && run.writes != []
    requires s.vault[k].id in ChangeOf(Opened(s.meta), mutation).value.affected
    ensures var after := Final(s, LifecycleRun(s, mutation, io));
            && |after.vault| == |s.vault|
            && (after.vault[k].policy.Permits(c)
                <==> Held(s.vault[k].policy.Of(c)) || Needed(after.meta, io.now, s.vault[k].id, c))
  {
    hide ValidFile, ChangeOf, Written, Needed, Held, IsNormal;
    var change := ChangeOf(Opened(s.meta), mutation).value;
    assert s.vault[k] in s.vault;
    PermittedAfterWrite(s.vault[k], LifecycleEdit(change.affected, change.file, io.now), c);
    SavedNeeded(change.file, io.now, s.vault[k].id, c);
  }

  lemma SavedNeeded(m: MetaFile, now: int, sid: string, c: Capability)
    ensures Needed(Saved(m), now, sid, c) == Needed(m, now, sid, c)
  {
  }

  /** A recovery that reports no error leaves every record a pending intent
      names permitting exactly what is held, what an enabled grant requires, or
      what some intent naming it remembers when the last of them carries the
      record's own administrative revision. */
  lemma RecoverySettles(s: Store, io: IO, k: nat, c: Capability)
    requires AllStored(s.vault) && k < |s.vault| && c.Known()
    requires RecoverRun(s, io).failures == [] && RecoverRun(s, io).writes != []
    requires LastNaming(s.meta.pending, s.vault[k].id).Some?
    ensures var after := Final(s, RecoverRun(s, io));
            && |after.vault| == |s.vault| && after.meta.pending == []
            && (after.vault[k].policy.Permits(c)
                <==> || Held(s.vault[k].policy.Of(c)) || Needed(after.meta, io.now, s.vault[k].id, c)
                     || (IntentBaseline(LastNaming(s.meta.pending, s.vault[k].id).value).adminRevision
                           == s.vault[k].policy.adminRevision
                         && SomeRemembers(s.meta.pending, s.vault[k].id, c)))
  {
    hide ValidFile, Written, Needed, Held, IsNormal, Settled, BaselineOf, LastNaming, SomeRemembers, IntentBaseline;
    var m := Opened(s.meta);
    var m' := m.(grants := Filter(m.grants, Settled(m.pending)));
    assert s.vault[k] in s.vault;
    RecoveryPermits(s.vault[k], m.pending, m', io.now, c);
    SavedNeeded(m'.(pending := []), io.now, s.vault[k].id, c);
    PendingUnneeded(m', io.now, s.vault[k].id, c);
  }

  lemma PendingUnneeded(m: MetaFile, now: int, sid: string, c: Capability)
    ensures Needed(m.(pending := []), now, sid, c) == Needed(m, now, sid, c)
  {
  }

  /** Exactly which bits a lifecycle change leaves allowed, whatever the policy
      was before, normalised or not: those needed, those an administrator's flag
      or source stands behind, and every allow of a policy of version 0. */
  lemma AllowKeptExactly(p: Policy, need: Need, c: Capability)
    requires c.Known()
    ensures LifecycleWrite(p, need).Permits(c)
            <==> need.Of(c) || if p.version == 0 then p.Of(c).allow else Held(p.Of(c))
  {
  }

  /** On a record edited by hand, with an allowed bit whose source was never
      set, a lifecycle change keeps only what is held or needed: it reconciles
      before the write normalises, so the bit does not become administrative
      first. */
  lemma UnsourcedAllowLost(p: Policy, need: Need, c: Capability)
    requires p.version != 0 && c.Known() && p.Of(c).allow && p.Of(c).source == NoSource && !p.Of(c).admin
    ensures LifecycleWrite(p, need).Permits(c) <==> need.Of(c)
    ensures LifecycleWrite(Normalized(p), need).Permits(c)
  {
  }
}
