/** Rolling a failed approval back: staging followed by a commit that fails,
    before or after its vault write, against the stores before staging. */
module ApprovalRollback {
  import opened Lists
  import opened BrokerPolicy
  import opened Metadata
  import opened VaultRecords
  import opened Approval
  import opened ApprovalSafety
  import opened ApprovalRecovery

  /** What the roll-back restores of one capability. The allowed bit comes back
      unless an enabled grant requires a bit that had been denied; provenance
      comes back unless the earlier allow was itself grant-sourced. */
  predicate GateUndone(g: Gate, g': Gate, need: bool) {
    && g'.admin == g.admin
    && (g'.allow == g.allow <==> g.allow || (g.source != Administrative && !need))
    && (g' == g <==> g.allow == (g.source == Administrative) && (g.allow || !need))
  }

  predicate RecordUndone(r: SecretRecord, r': SecretRecord, need: Need) {
    && r' == r.(policy := r.policy.(resolve := r'.policy.resolve, rotate := r'.policy.rotate))
    && GateUndone(r.policy.resolve, r'.policy.resolve, need.resolve)
    && GateUndone(r.policy.rotate, r'.policy.rotate, need.rotate)
  }

  /** What staging writes down about a record. */
  predicate Remembered(i: Intent, r: SecretRecord) {
    && i.priorKnown && i.secretId == r.id && i.adminRevision == r.policy.adminRevision
    && i.priorAllowResolve == r.policy.resolve.allow && i.priorResolveSource == r.policy.resolve.source
    && i.priorAllowRotate == r.policy.rotate.allow && i.priorRotateSource == r.policy.rotate.source
    && ValidSource(i.priorResolveSource) && ValidSource(i.priorRotateSource)
  }

  lemma GateRollsBack(g: Gate, granted: bool, need: bool)
    requires NormalizeGate(g) == g && ValidSource(g.source)
    ensures var before := if granted then NormalizeGate(GrantGate(g)) else g;
            GateUndone(g, NormalizeGate(ReconcileGate(before, g.allow || g.source == Administrative, need)), need)
  {
  }

  lemma RecordRollsBack(r: SecretRecord, i: Intent, caps: seq<Capability>, granted: bool, need: Need)
    requires IsStored(r) && r.policy.version == 1 && Remembered(i, r)
    ensures var before := if granted then Written(r, GrantEdit(r.id, caps)) else r;
            RecordUndone(r, Written(before, RollbackEdit(r.id, GrantBaseline(i), need)), need)
  {
    GateRollsBack(r.policy.resolve, granted && Resolve in caps, need.resolve);
    GateRollsBack(r.policy.rotate, granted && Rotate in caps, need.rotate);
  }

  const GRANTED_RECORD := SecretRecord("s", "api_key", false, "", "x", [], 1, None,
    Policy(1, Gate(true, FromGrant, false), Gate(false, NoSource, false), 0, DEFAULT_EXPOSURE))

  const ON_GRANTED := Intent("h", "b", "s", [Resolve], true, false, FromGrant, NoSource, true, 0, 1)

  const ON_DENIED := Intent("h", "b", "s", [Resolve], false, false, NoSource, NoSource, true, 0, 1)

  /** Rolling a second approval back makes an allow that only an earlier grant
      stands for an administrative one, which outlives that grant. */
  lemma GrantedAllowPromoted(need: Need)
    ensures var after := Written(GRANTED_RECORD, RollbackEdit("s", GrantBaseline(ON_GRANTED), need));
            Remembered(ON_GRANTED, GRANTED_RECORD) && after.policy.resolve == Gate(true, Administrative, false)
  {
  }

  /** Rolling an approval back allows a bit that was denied when it was staged,
      because an enabled grant, left over from before the deny, lists it. */
  lemma NeededDenialLifted()
    ensures var denied := Written(GRANTED_RECORD, AdminEdit("s", false, false));
            var after := Written(denied, RollbackEdit("s", GrantBaseline(ON_DENIED), Need(true, false)));
            && Remembered(ON_DENIED, denied) && !denied.policy.Permits(Resolve) && after.policy.Permits(Resolve)
  {
  }

  /** A commit that fails leaves the metadata alone, and the vault either alone
      or with the grant written. */
  lemma FailedTransaction(s: Store, id: string, ctx: Context, io: IO)
    requires TransactRun(s, id, ctx, io).failures != []
    ensures var s' := Final(s, TransactRun(s, id, ctx, io));
            s' == s || (CommitPlan(s, id).Do? && s' == s.(vault := VaultAfter(s.vault, CommitPlan(s, id).edit)))
  {
  }

  /** Withdrawing a grant just staged gives the file before, with the new
      binding if one was staged. */
  lemma WithdrawStaged(m: MetaFile, d: Draft)
    requires Coherent(d) && d.grant.id != ""
    requires forall g <- m.grants :: g.id != d.grant.id
    requires var m' := m.(grants := m.grants + [d.grant], pending := m.pending + [d.intent]);
             ValidFile(m')
    ensures var m' := m.(grants := m.grants + [d.grant], pending := m.pending + [d.intent]);
            Withdrawn(m', d.grant.id) == m && ValidFile(m)
            && Locate(m'.pending, IntentFor(d.grant.id)) == |m.pending|
  {
    hide ValidFile, Filter;
    var id := d.grant.id;
    var m' := m.(grants := m.grants + [d.grant], pending := m.pending + [d.intent]);
    StagedPartsValid(m, d);
    FilterAppend(m.grants, d.grant, OtherGrant(id));
    FilterAll(m.grants, OtherGrant(id));
    FilterAppend(m.pending, d.intent, OtherIntent(id));
    FilterAll(m.pending, OtherIntent(id));
    LocateFirst(m'.pending, IntentFor(id), |m.pending|);
  }

  lemma StagedPartsValid(m: MetaFile, d: Draft)
    requires ValidFile(m.(grants := m.grants + [d.grant], pending := m.pending + [d.intent]))
    ensures ValidFile(m) && forall i <- m.pending :: i.grantId != d.intent.grantId
  {
    var m' := m.(grants := m.grants + [d.grant], pending := m.pending + [d.intent]);
    assert forall k :: 0 <= k < |m.grants| ==> m'.grants[k] == m.grants[k];
    assert forall k :: 0 <= k < |m.pending| ==> m'.pending[k] == m.pending[k];
    forall i | i in m.pending
      ensures i.grantId != d.intent.grantId
    {
      var k :| 0 <= k < |m.pending| && m.pending[k] == i;
      assert m'.pending[k] == i && m'.pending[|m.pending|] == d.intent;
    }
  }

  /** The bindings a staged approval leaves behind when it is rolled back. */
  function WithBinding(m: MetaFile, newBinding: Option<Binding>): MetaFile {
    if newBinding.Some? then m.(bindings := m.bindings + [newBinding.value]) else m
  }

  /** The metadata and the rolled-back record of a failed approval. */
  lemma RollbackOfStaged(m: MetaFile, d: Draft, vault: seq<SecretRecord>, id: string, cleanup: IO)
    requires Coherent(d) && d.grant.id != "" && id == d.grant.id && m.version == 1
    requires forall g <- m.grants :: g.id != d.grant.id
    requires cleanup.vaultOk && cleanup.saveOk
    requires ValidFile(m.(grants := m.grants + [d.grant], pending := m.pending + [d.intent]))
    ensures var s := Store(Saved(m.(grants := m.grants + [d.grant], pending := m.pending + [d.intent])), vault);
            Final(s, RollbackRun(s, id, cleanup))
            == Store(Saved(Saved(m)),
                     WrittenAll(vault, RollbackEdit(d.intent.secretId, GrantBaseline(d.intent),
                                                    NeedOf(m, cleanup.now, d.intent.secretId))))
  {
    hide WrittenAll, NeedOf, GrantBaseline;
    var staged := m.(grants := m.grants + [d.grant], pending := m.pending + [d.intent]);
    WithdrawStaged(m, d);
    var n := Saved(staged);
    assert Opened(n) == n && Withdrawn(n, id) == Saved(m);
    assert NeedOf(Saved(m), cleanup.now, d.intent.secretId) == NeedOf(m, cleanup.now, d.intent.secretId) by {
      SavedNeeds(m, cleanup.now, d.intent.secretId);
    }
    assert n.pending[|m.pending|] == d.intent;
  }

  lemma SavedNeeds(m: MetaFile, now: int, sid: string)
    ensures NeedOf(Saved(m), now, sid) == NeedOf(m, now, sid)
  {
  }

  /** Stage an approval, let its commit fail at any point, and let the roll-back
      that follows succeed: grants and intents are as before staging, no other
      record changed, and the target's policy is restored as far as
      `RecordUndone` says. */
  lemma FailedApprovalUndone(s: Store, newBinding: Option<Binding>, bindingId: string, spec: GrantSpec,
                             components: seq<string>, t: int, ctx: Context, io: IO, cleanup: IO)
    requires AllStored(s.vault) && PlainVersions(s.vault) && UniqueIDs(s.vault)
    requires DraftApproval(s, newBinding, bindingId, spec, components, true, t).Drafted?
    requires var p := StagePlan(s, DraftApproval(s, newBinding, bindingId, spec, components, true, t).draft);
             p.Do? && ValidFile(p.file)
    requires var d := DraftApproval(s, newBinding, bindingId, spec, components, true, t).draft;
             var staged := s.(meta := Saved(StagePlan(s, d).file));
             ctx.atEntry && TransactRun(staged, spec.id, ctx, io).failures != [] && cleanup.vaultOk && cleanup.saveOk
    ensures var d := DraftApproval(s, newBinding, bindingId, spec, components, true, t).draft;
            var staged := s.(meta := Saved(StagePlan(s, d).file));
            var after := Final(staged, CommitRun(staged, spec.id, ctx, io, cleanup));
            var before := WithBinding(Opened(s.meta), newBinding);
            && after.meta == Saved(Saved(before)) && |after.vault| == |s.vault|
            && forall k :: 0 <= k < |s.vault| ==>
                 if s.vault[k].id == d.secretId
                 then RecordUndone(s.vault[k], after.vault[k], NeedOf(before, cleanup.now, d.secretId))
                 else after.vault[k] == s.vault[k]
  {
    hide DraftApproval, StagePlan, CommitRun, TransactRun, RollbackRun, CommitPlan, ValidFile, NeedOf, GrantBaseline,
         RecordUndone, Remembered, Written, IsStored, UniqueIDs;
    var d := DraftApproval(s, newBinding, bindingId, spec, components, true, t).draft;
    var staged := s.(meta := Saved(StagePlan(s, d).file));
    var before := WithBinding(Opened(s.meta), newBinding);
    DraftFacts(s, newBinding, bindingId, spec, components, t);
    StagedFile(s, d);
    FailedTransaction(staged, spec.id, ctx, io);
    FailedCommitRollsBack(staged, spec.id, ctx, io, cleanup);
    var mid := Final(staged, TransactRun(staged, spec.id, ctx, io));
    CommitOfStaged(before, d, s.vault);
    RollbackOfStaged(before, d, mid.vault, spec.id, cleanup);
    forall k | 0 <= k < |s.vault|
      ensures var after := Written(mid.vault[k], RollbackEdit(d.secretId, GrantBaseline(d.intent),
                                                              NeedOf(before, cleanup.now, d.secretId)));
              if s.vault[k].id == d.secretId
              then RecordUndone(s.vault[k], after, NeedOf(before, cleanup.now, d.secretId))
              else after == s.vault[k]
    {
      assert s.vault[k] in s.vault;
      StoredIsVersionOne(s.vault[k]);
      MidRecord(s.vault[k], mid.vault[k], d.intent, NeedOf(before, cleanup.now, d.secretId));
    }
  }

  /** Stage an approval and cancel it, or commit it with a context that is dead
      on entry: the grants and intents are as before staging and the vault was
      never written. */
  lemma CancelledApprovalUndone(s: Store, newBinding: Option<Binding>, bindingId: string, spec: GrantSpec,
                                components: seq<string>, t: int, ctx: Context, io: IO, cleanup: IO)
    requires DraftApproval(s, newBinding, bindingId, spec, components, true, t).Drafted?
    requires var p := StagePlan(s, DraftApproval(s, newBinding, bindingId, spec, components, true, t).draft);
             p.Do? && ValidFile(p.file)
    requires !ctx.atEntry && cleanup.saveOk
    ensures var d := DraftApproval(s, newBinding, bindingId, spec, components, true, t).draft;
            var staged := s.(meta := Saved(StagePlan(s, d).file));
            && Final(staged, CancelRun(staged, spec.id, cleanup))
               == Store(Saved(Saved(WithBinding(Opened(s.meta), newBinding))), s.vault)
            && Final(staged, CommitRun(staged, spec.id, ctx, io, cleanup)) == Final(staged, CancelRun(staged, spec.id, cleanup))
  {
    hide DraftApproval, StagePlan, ValidFile, Coherent;
    var d := DraftApproval(s, newBinding, bindingId, spec, components, true, t).draft;
    DraftsAreCoherent(s, newBinding, bindingId, spec, components, true, t);
    DraftBinding(s, newBinding, bindingId, spec, components, t);
    StagedFile(s, d);
    CancelOfStaged(WithBinding(Opened(s.meta), newBinding), d, s.vault, cleanup);
  }

  lemma DraftBinding(s: Store, newBinding: Option<Binding>, bindingId: string, spec: GrantSpec,
                     components: seq<string>, t: int)
    requires DraftApproval(s, newBinding, bindingId, spec, components, true, t).Drafted?
    ensures DraftApproval(s, newBinding, bindingId, spec, components, true, t).draft.newBinding == newBinding
  {
    hide ValidFile;
  }

  lemma CancelOfStaged(m: MetaFile, d: Draft, vault: seq<SecretRecord>, cleanup: IO)
    requires Coherent(d) && d.grant.id != "" && m.version == 1 && cleanup.saveOk
    requires forall g <- m.grants :: g.id != d.grant.id
    requires ValidFile(m.(grants := m.grants + [d.grant], pending := m.pending + [d.intent]))
    ensures var s := Store(Saved(m.(grants := m.grants + [d.grant], pending := m.pending + [d.intent])), vault);
            Final(s, CancelRun(s, d.grant.id, cleanup)) == Store(Saved(Saved(m)), vault)
  {
    var staged := m.(grants := m.grants + [d.grant], pending := m.pending + [d.intent]);
    WithdrawStaged(m, d);
    var n := Saved(staged);
    assert Opened(n) == n && Withdrawn(n, d.grant.id) == Saved(m);
  }

  lemma StoredIsVersionOne(r: SecretRecord)
    requires IsStored(r) && (r.policy.version == 0 || r.policy.version == 1)
    ensures r.policy.version == 1
  {
  }

  lemma FailedCommitRollsBack(s: Store, id: string, ctx: Context, io: IO, cleanup: IO)
    requires ctx.atEntry && TransactRun(s, id, ctx, io).failures != []
    ensures var mid := Final(s, TransactRun(s, id, ctx, io));
            Final(s, CommitRun(s, id, ctx, io, cleanup)) == Final(mid, RollbackRun(mid, id, cleanup))
  {
    hide TransactRun, RollbackRun;
  }

  lemma StagedFile(s: Store, d: Draft)
    requires StagePlan(s, d).Do? && ValidFile(StagePlan(s, d).file)
    ensures var before := WithBinding(Opened(s.meta), d.newBinding);
            && StagePlan(s, d).file == before.(grants := before.grants + [d.grant], pending := before.pending + [d.intent])
            && before.version == 1 && (forall g <- before.grants :: g.id != d.grant.id) && d.grant.id != ""
            && ValidSource(d.intent.priorResolveSource) && ValidSource(d.intent.priorRotateSource)
  {
    var file := StagePlan(s, d).file;
    assert d.grant in file.grants && d.intent in file.pending;
    forall g | g in Opened(s.meta).grants
      ensures g.id != d.grant.id
    {
      assert !GrantWithID(d.grant.id)(g);
    }
  }

  /** The only vault edit a commit of a staged grant makes. */
  lemma CommitOfStaged(m: MetaFile, d: Draft, vault: seq<SecretRecord>)
    requires Coherent(d) && d.grant.id != "" && m.version == 1
    requires forall g <- m.grants :: g.id != d.grant.id
    requires ValidFile(m.(grants := m.grants + [d.grant], pending := m.pending + [d.intent]))
    ensures var s := Store(Saved(m.(grants := m.grants + [d.grant], pending := m.pending + [d.intent])), vault);
            var p := CommitPlan(s, d.grant.id);
            p.Do? ==> p.edit.Some? && p.edit.value.GrantEdit? && p.edit.value.target == d.intent.secretId
  {
  }

  lemma MidRecord(r: SecretRecord, mid: SecretRecord, i: Intent, need: Need)
    requires IsStored(r) && r.policy.version == 1 && (r.id == i.secretId ==> Remembered(i, r))
    requires mid == r || exists caps :: mid == Written(r, GrantEdit(i.secretId, caps))
    ensures var after := Written(mid, RollbackEdit(i.secretId, GrantBaseline(i), need));
            if r.id == i.secretId then RecordUndone(r, after, need) else after == r
  {
    hide RecordUndone, GrantBaseline;
    if r.id == i.secretId {
      if mid == r {
        RecordRollsBack(r, i, [], false, need);
      } else {
        var caps :| mid == Written(r, GrantEdit(i.secretId, caps));
        RecordRollsBack(r, i, caps, true, need);
      }
    }
  }

  lemma DraftFacts(s: Store, newBinding: Option<Binding>, bindingId: string, spec: GrantSpec,
                   components: seq<string>, t: int)
    requires AllStored(s.vault) && UniqueIDs(s.vault)
    requires DraftApproval(s, newBinding, bindingId, spec, components, true, t).Drafted?
    ensures var d := DraftApproval(s, newBinding, bindingId, spec, components, true, t).draft;
            && Coherent(d) && d.grant.id == spec.id && d.newBinding == newBinding && d.secretId == d.intent.secretId
            && (ValidSource(d.intent.priorResolveSource) && ValidSource(d.intent.priorRotateSource) ==>
                  forall k :: 0 <= k < |s.vault| && s.vault[k].id == d.secretId ==> Remembered(d.intent, s.vault[k]))
  {
    hide ValidFile;
    var d := DraftApproval(s, newBinding, bindingId, spec, components, true, t).draft;
    var at := Locate(s.vault, RecordWithID(d.secretId));
    assert s.vault[at] in s.vault;
    forall k | 0 <= k < |s.vault| && s.vault[k].id == d.secretId
      ensures k == at
    {
    }
  }
}
