/** What holds over every run of the protocol, crashes and administrators
    included: who can have been authorised, and that a withdrawn authorisation
    never comes back. */
module ApprovalHistory {
  import opened Lists
  import opened BrokerPolicy
  import opened Metadata
  import opened VaultRecords
  import opened Approval
  import opened ApprovalSafety

  /** No metadata yet, and a vault that no grant has touched. */
  ghost predicate Initial(m: Machine) {
    && m.store.meta == EMPTY_FILE && UniqueIDs(m.store.vault)
    && m.inflight.None? && m.started == {} && m.used == {}
    && forall k, c: Capability {:trigger GrantSourced(m.store.vault[k], c)} ::
         0 <= k < |m.store.vault| && c.Known() ==> !GrantSourced(m.store.vault[k], c)
  }

  ghost predicate IsRun(ms: seq<Machine>, es: seq<Event>) {
    && |ms| == |es| + 1 && Initial(ms[0])
    && forall i {:trigger es[i]} :: 0 <= i < |es| ==> Step(ms[i], es[i], ms[i + 1])
  }

  predicate IsOn(f: MetaFile, id: string) {
    exists g <- f.grants :: g.id == id && g.enabled
  }

  predicate HasIntent(f: MetaFile, id: string) {
    exists i <- f.pending :: i.grantId == id
  }

  predicate HasGrant(f: MetaFile, id: string) {
    exists g <- f.grants :: g.id == id
  }

  /** Where the enabled grants and intents of the file in flight come from. */
  predicate Provenance(m: Machine) {
    m.inflight.Some? ==>
      var op, f, now := m.inflight.value.op, m.inflight.value.file, m.store.meta;
      && (forall g <- f.grants :: g.enabled ==> IsOn(now, g.id) || (op.Commit? && op.id == g.id && HasIntent(now, g.id)))
      && (forall i <- f.pending :: HasIntent(now, i.grantId)
                                   || (op.Stage? && op.draft.grant.id == i.grantId && !HasGrant(now, i.grantId)))
      && (op.Stage? ==> op.draft.grant.id in m.used)
      && (op.Recover? ==> f.pending == [])
  }

  ghost predicate FullInv(m: Machine) {
    Inv(m) && Provenance(m)
  }

  lemma PlannedProvenance(m: Machine, op: Op, now: int)
    requires Inv(m) && m.inflight.None? && Allowed(m, op) && PlanOf(m.store, op, now).Do?
    ensures Provenance(After(m, op, now))
  {
    var f, f' := m.store.meta, PlanOf(m.store, op, now).file;
    forall g | g in f'.grants && g.enabled
      ensures IsOn(f, g.id) || (op.Commit? && op.id == g.id && HasIntent(f, g.id))
    {
      EnabledComesFrom(m, op, now, g);
    }
    forall i | i in f'.pending
      ensures HasIntent(f, i.grantId) || (op.Stage? && op.draft.grant.id == i.grantId && !HasGrant(f, i.grantId))
    {
      IntentComesFrom(m, op, now, i);
    }
  }

  lemma EnabledComesFrom(m: Machine, op: Op, now: int, g: Grant)
    requires Inv(m) && m.inflight.None? && Allowed(m, op) && PlanOf(m.store, op, now).Do?
    requires g in PlanOf(m.store, op, now).file.grants && g.enabled
    ensures IsOn(m.store.meta, g.id) || (op.Commit? && op.id == g.id && HasIntent(m.store.meta, g.id))
  {
    hide NoOrphan, NeedOf, BaselineOf, GrantBaseline, ValidGrant, ValidIntent, ValidBinding, Grantable, WrittenAll, ChangeOf;
    var f := m.store.meta;
    match op {
      case Stage(d) =>
      case AddBinding(b) =>
      case Commit(id) =>
        var i, h := ClearedFacts(f, id);
        var k :| 0 <= k < |f.grants| && PlanOf(m.store, op, now).file.grants[k] == g;
        assert f.grants[k] in f.grants;
      case Cancel(id) => FilterMembers(f.grants, OtherGrant(id));
      case Cleanup(cutoff) => FilterMembers(f.grants, GrantOutside(StaleIDs(f.grants, cutoff)));
      case Rollback(id) => FilterMembers(f.grants, OtherGrant(id));
      case Recover => FilterMembers(f.grants, Settled(f.pending));
      case Lifecycle(mutation) => ChangeEnablesNothing(f, mutation, g);
    }
  }

  lemma ChangeEnablesNothing(f: MetaFile, mutation: Mutation, g: Grant)
    requires ChangeOf(f, mutation).Some? && g in ChangeOf(f, mutation).value.file.grants && g.enabled
    ensures IsOn(f, g.id)
  {
    if mutation.Deleting? {
      FilterMembers(f.grants, GrantElsewhere(f.bindings[LocateBinding(f.bindings, mutation.binding)].id));
    } else {
      var k :| 0 <= k < |f.grants| && ChangeOf(f, mutation).value.file.grants[k] == g;
      assert f.grants[k] in f.grants;
    }
  }

  lemma IntentComesFrom(m: Machine, op: Op, now: int, i: Intent)
    requires Inv(m) && m.inflight.None? && Allowed(m, op) && PlanOf(m.store, op, now).Do?
    requires i in PlanOf(m.store, op, now).file.pending
    ensures HasIntent(m.store.meta, i.grantId)
            || (op.Stage? && op.draft.grant.id == i.grantId && !HasGrant(m.store.meta, i.grantId))
  {
    var f := m.store.meta;
    match op {
      case Stage(d) =>
      case AddBinding(b) =>
      case Commit(id) => FilterMembers(f.pending, OtherIntent(id));
      case Cancel(id) => FilterMembers(f.pending, OtherIntent(id));
      case Cleanup(cutoff) => FilterMembers(f.pending, IntentOutside(StaleIDs(f.grants, cutoff)));
      case Rollback(id) => FilterMembers(f.pending, OtherIntent(id));
      case Recover =>
      case Lifecycle(mutation) =>
        if mutation.Deleting? {
          FilterMembers(f.pending, IntentElsewhere(f.bindings[LocateBinding(f.bindings, mutation.binding)].id));
        }
    }
  }

  lemma StepKeepsFullInv(m: Machine, e: Event, m': Machine)
    requires FullInv(m) && Step(m, e, m')
    ensures FullInv(m')
  {
    StepKeepsInv(m, e, m');
    if e.VaultPhase? {
      PlannedProvenance(m, e.op, e.now);
    }
  }

  /** The link between the stores holds in every reachable state. */
  lemma {:induction false} EveryStateLinked(ms: seq<Machine>, es: seq<Event>, k: nat)
    requires IsRun(ms, es) && k < |ms|
    ensures FullInv(ms[k])
  {
    if k > 0 {
      EveryStateLinked(ms, es, k - 1);
      StepKeepsFullInv(ms[k - 1], es[k - 1], ms[k]);
    }
  }

  // ---------------------------------------------------------------- authorisation

  /** Both authorisation gates let `client` use `name` with capability `c`. */
  predicate PeerAllowed(s: Store, name: string, client: Client, c: Capability, now: int)
    requires c.Known()
  {
    var b := Locate(s.meta.bindings, BindingNamed(name));
    b >= 0 && Locate(s.meta.grants, Authorizing(s.meta.bindings[b].id, client, c, now)) >= 0
    && Usable(LoadedAll(s.vault), s.meta.bindings[b].secretId, c)
  }

  /** Step `j` saved the metadata of a commit of `id`. */
  ghost predicate CommittedAt(ms: seq<Machine>, es: seq<Event>, j: nat, id: string)
    requires |ms| == |es| + 1
  {
    j < |es| && es[j].MetaPhase? && ms[j].inflight.Some? && ms[j].inflight.value.op == Commit(id)
  }

  lemma {:induction false} EnabledWasCommitted(ms: seq<Machine>, es: seq<Event>, k: nat, id: string) returns (j: nat)
    requires IsRun(ms, es) && k < |ms| && IsOn(ms[k].store.meta, id)
    ensures j < k && CommittedAt(ms, es, j, id)
  {
    assert k > 0;
    EveryStateLinked(ms, es, k - 1);
    if IsOn(ms[k - 1].store.meta, id) {
      j := EnabledWasCommitted(ms, es, k - 1, id);
    } else {
      j := k - 1;
    }
  }

  /** A peer is authorised only by an unexpired, matching, enabled grant whose
      own commit completed its metadata write earlier in the run. */
  lemma AuthorisedOnlyByCommit(ms: seq<Machine>, es: seq<Event>, k: nat, name: string, client: Client,
                               c: Capability, now: int) returns (g: Grant, j: nat)
    requires IsRun(ms, es) && k < |ms| && c.Known() && PeerAllowed(ms[k].store, name, client, c, now)
    ensures g in ms[k].store.meta.grants && g.enabled && c in g.capabilities && !Expired(g, now)
            && ClientMatches(g.client, client)
    ensures exists b <- ms[k].store.meta.bindings :: b.id == g.bindingId && b.name == name
    ensures j < k && CommittedAt(ms, es, j, g.id)
  {
    var f := ms[k].store.meta;
    var b := f.bindings[Locate(f.bindings, BindingNamed(name))];
    g := f.grants[Locate(f.grants, Authorizing(b.id, client, c, now))];
    assert b in f.bindings && g in f.grants;
    j := EnabledWasCommitted(ms, es, k, g.id);
  }

  /** A grant id whose authorisation is over for good. */
  predicate Retired(m: Machine, id: string) {
    && id in m.used && !IsOn(m.store.meta, id) && !HasIntent(m.store.meta, id)
    && (m.inflight.Some? ==> !IsOn(m.inflight.value.file, id) && !HasIntent(m.inflight.value.file, id))
  }

  lemma RetiredStays(m: Machine, e: Event, m': Machine, id: string)
    requires FullInv(m) && Step(m, e, m') && Retired(m, id)
    ensures Retired(m', id)
  {
    if e.VaultPhase? {
      PlannedProvenance(m, e.op, e.now);
    }
  }

  lemma SwitchingOffRetires(m: Machine, e: Event, m': Machine, id: string)
    requires FullInv(m) && Step(m, e, m') && IsOn(m.store.meta, id) && !IsOn(m'.store.meta, id)
    ensures Retired(m', id)
  {
  }

  /** Once a committed grant has been revoked, expired, rebound away or deleted,
      no later step of the run enables it again. */
  lemma {:induction false} NeverReenabled(ms: seq<Machine>, es: seq<Event>, i: nat, j: nat, k: nat, id: string)
    requires IsRun(ms, es) && i <= j <= k < |ms|
    requires IsOn(ms[i].store.meta, id) && !IsOn(ms[j].store.meta, id)
    ensures !IsOn(ms[k].store.meta, id)
  {
    RetiredAfter(ms, es, i, j, id);
    RetiredUntil(ms, es, j, k, id);
  }

  lemma {:induction false} RetiredAfter(ms: seq<Machine>, es: seq<Event>, i: nat, j: nat, id: string)
    requires IsRun(ms, es) && i <= j < |ms|
    requires IsOn(ms[i].store.meta, id) && !IsOn(ms[j].store.meta, id)
    ensures Retired(ms[j], id)
  {
    EveryStateLinked(ms, es, j - 1);
    if IsOn(ms[j - 1].store.meta, id) {
      SwitchingOffRetires(ms[j - 1], es[j - 1], ms[j], id);
    } else {
      RetiredAfter(ms, es, i, j - 1, id);
      RetiredStays(ms[j - 1], es[j - 1], ms[j], id);
    }
  }

  lemma {:induction false} RetiredUntil(ms: seq<Machine>, es: seq<Event>, j: nat, k: nat, id: string)
    requires IsRun(ms, es) && j <= k < |ms| && Retired(ms[j], id)
    ensures Retired(ms[k], id)
  {
    if j < k {
      hide Step, FullInv, Retired, Initial;
      RetiredUntil(ms, es, j, k - 1, id);
      EveryStateLinked(ms, es, k - 1);
      RetiredStays(ms[k - 1], es[k - 1], ms[k], id);
    }
  }

  // ---------------------------------------------------------------- policy over runs

  /** When a recovery has saved its metadata, only enabled grants explain
      grant-sourced bits and no intent is left. */
  lemma RecoveryClears(ms: seq<Machine>, es: seq<Event>, k: nat, r: nat, c: Capability)
    requires IsRun(ms, es) && k < |es| && es[k].MetaPhase?
    requires ms[k].inflight.Some? && ms[k].inflight.value.op.Recover?
    requires r < |ms[k + 1].store.vault| && c.Known() && GrantSourced(ms[k + 1].store.vault[r], c)
    ensures ms[k + 1].store.meta.pending == []
    ensures ByGrant(ms[k + 1].store.meta, ms[k + 1].store.vault[r].id, c)
  {
    EveryStateLinked(ms, es, k);
    EveryStateLinked(ms, es, k + 1);
  }

  /** Each pending intent has exactly one grant with its id: on the same
      binding, with the same capabilities, still disabled. */
  lemma IntentsArePaired(ms: seq<Machine>, es: seq<Event>, k: nat, i: Intent)
    requires IsRun(ms, es) && k < |ms| && i in ms[k].store.meta.pending
    ensures var gs := ms[k].store.meta.grants;
            exists at :: 0 <= at < |gs| && Announces(i, gs[at])
                         && forall o :: 0 <= o < |gs| && gs[o].id == i.grantId ==> o == at
  {
    EveryStateLinked(ms, es, k);
    var gs := ms[k].store.meta.grants;
    var g :| g in gs && Announces(i, g);
    var at :| 0 <= at < |gs| && gs[at] == g;
  }

  /** Allowed by an administrator, as the program sees the record once loaded. */
  predicate AdminAllows(r: SecretRecord, c: Capability)
    requires c.Known()
  {
    Held(Migrated(r.policy).Of(c))
  }

  lemma WriteKeepsAdmin(r: SecretRecord, e: Edit, c: Capability)
    requires c.Known() && AdminAllows(r, c) && !(e.AdminEdit? && e.target == r.id)
    ensures AdminAllows(Written(r, e), c) && Written(r, e).policy.Permits(c)
  {
    hide NeedOf, BaselineOf;
  }

  /** Another writer leaves this record in the vault, with its policy. */
  predicate KeepsPolicy(vault: seq<SecretRecord>, vault': seq<SecretRecord>, sid: string) {
    && RecordOf(vault, sid).Some? && RecordOf(vault', sid).Some?
    && RecordOf(vault', sid).value.policy == RecordOf(vault, sid).value.policy
  }

  /** A step that is not an administrator or another writer changing the policy
      of record `sid`; other records may come, go and change. */
  predicate LeavesPolicy(m: Machine, e: Event, sid: string) {
    && (e.Administer? ==> e.target != sid)
    && (e.OtherWrite? ==> KeepsPolicy(m.store.vault, e.vault, sid))
  }

  /** Only the administrator can end an administrative allow: it survives every
      sequence of broker operations and of vault writes for other purposes, and
      each broker write leaves it effective. */
  lemma {:induction false} AdminAllowSurvives(ms: seq<Machine>, es: seq<Event>, i: nat, j: nat, sid: string, c: Capability)
    requires IsRun(ms, es) && i <= j < |ms| && c.Known()
    requires RecordOf(ms[i].store.vault, sid).Some? && AdminAllows(RecordOf(ms[i].store.vault, sid).value, c)
    requires forall k :: i <= k < j ==> LeavesPolicy(ms[k], es[k], sid)
    ensures RecordOf(ms[j].store.vault, sid).Some?
    ensures var before, after := RecordOf(ms[i].store.vault, sid).value, RecordOf(ms[j].store.vault, sid).value;
            AdminAllows(after, c) && (after.policy == before.policy || after.policy.Permits(c))
  {
    hide Initial, AdminAllows, Step;
    if i < j {
      AdminAllowSurvives(ms, es, i, j - 1, sid, c);
      assert Step(ms[j - 1], es[j - 1], ms[j - 1 + 1]);
      StepKeepsAdmin(ms[j - 1], es[j - 1], ms[j], sid, c);
    }
  }

  lemma StepKeepsAdmin(m: Machine, e: Event, m': Machine, sid: string, c: Capability)
    requires Step(m, e, m') && LeavesPolicy(m, e, sid) && c.Known()
    requires RecordOf(m.store.vault, sid).Some? && AdminAllows(RecordOf(m.store.vault, sid).value, c)
    ensures RecordOf(m'.store.vault, sid).Some?
    ensures var before, after := RecordOf(m.store.vault, sid).value, RecordOf(m'.store.vault, sid).value;
            AdminAllows(after, c) && (after.policy == before.policy || after.policy.Permits(c))
  {
    hide WrittenAll, Written, PlanOf;
    var rec := RecordOf(m.store.vault, sid).value;
    assert rec.id == sid;
    match e {
      case VaultPhase(op, now) =>
        var p := PlanOf(m.store, op, now);
        if p.edit.Some? {
          PlannedEditIsBrokers(m.store, op, now);
          RecordOfWritten(m.store.vault, p.edit.value, sid);
          WriteKeepsAdmin(rec, p.edit.value, c);
        }
      case MetaPhase =>
      case Abort =>
      case Administer(target, resolve, rotate) =>
        RecordOfWritten(m.store.vault, AdminEdit(target, resolve, rotate), sid);
        WriteKeepsAdmin(rec, AdminEdit(target, resolve, rotate), c);
      case PeerRotate(target, value, now) =>
        RecordOfWritten(m.store.vault, RotateEdit(target, value, now), sid);
        WriteKeepsAdmin(rec, RotateEdit(target, value, now), c);
      case OtherWrite(vault) =>
    }
  }

  lemma PlannedEditIsBrokers(s: Store, op: Op, now: int)
    requires PlanOf(s, op, now).Do? && PlanOf(s, op, now).edit.Some?
    ensures !PlanOf(s, op, now).edit.value.AdminEdit?
  {
  }
}
