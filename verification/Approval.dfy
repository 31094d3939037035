/** The two-store approval protocol: `broker.json` and `vault.enc` are written
    separately, so every operation is at most one vault write followed by at
    most one metadata write, and a crash or failure can fall between them.

    `Planned` functions say what an operation decides from the stores it read;
    `Perform` says which durable states it then passes through. The class
    `Stores` carries the operations out step by step. */
module Approval {
  import opened Lists
  import opened BrokerPolicy
  import opened Metadata
  import opened VaultRecords

  /** The durable pair. */
  datatype Store = Store(meta: MetaFile, vault: seq<SecretRecord>)

  datatype Failure =
    | Cancelled | InvalidFile | BindingExists | BindingMissing | BindingMismatch | TargetMissing | BindingChanged
    | GrantExists | StagedGrantMissing | IntentMissing | BaselineMissing | NotFound | VaultUpdateFailed | SaveFailed

  /** Which of an operation's file accesses succeed, and what time it reads. */
  datatype IO = IO(vaultOk: bool, saveOk: bool, now: int)

  datatype Planned =
    | Refuse(why: Failure)
    | Nothing
    | Do(edit: Option<Edit>, file: MetaFile)

  /** The durable states an operation writes, in order, and its errors. */
  datatype Run = Run(writes: seq<Store>, failures: seq<Failure>)

  function Final(s: Store, r: Run): Store {
    if r.writes == [] then s else r.writes[|r.writes| - 1]
  }

  function Perform(s: Store, p: Planned, live: bool, io: IO): Run {
    match p
    case Refuse(why) => Run([], [why])
    case Nothing => Run([], [])
    case Do(None, file) =>
      if io.saveOk && ValidFile(file) then Run([s.(meta := Saved(file))], []) else Run([], [SaveFailed])
    case Do(Some(edit), file) =>
      if !io.vaultOk then Run([], [VaultUpdateFailed])
      else
        var s1 := s.(vault := WrittenAll(s.vault, edit));
        if !live then Run([s1], [Cancelled])
        else if io.saveOk && ValidFile(file) then Run([s1, s1.(meta := Saved(file))], [])
        else Run([s1], [SaveFailed])
  }

  function Opened(f: MetaFile): MetaFile {
    f.(version := if f.version == 0 then 1 else f.version)
  }

  // ---------------------------------------------------------------- plans

  datatype GrantSpec = GrantSpec(id: string, name: string, bindingId: string, client: Client,
                                 capabilities: seq<Capability>, components: seq<string>, expiresAt: Option<int>)

  /** What the unlocked first half of staging works out. */
  datatype Draft = Draft(newBinding: Option<Binding>, secretId: string, grant: Grant, intent: Intent)

  datatype Drafted = NoDraft(why: Failure) | Drafted(draft: Draft)

  function DraftApproval(seen: Store, newBinding: Option<Binding>, bindingId: string, spec: GrantSpec,
                         components: seq<string>, vaultOk: bool, now: int): Drafted
  {
    var m := Opened(seen.meta);
    if !ValidFile(m) then NoDraft(InvalidFile)
    else
      var at := Locate(m.bindings, BindingWithID(bindingId));
      if newBinding.Some? && (Locate(m.bindings, BindingNamed(newBinding.value.name)) >= 0
                              || Locate(m.bindings, BindingWithID(newBinding.value.id)) >= 0) then NoDraft(BindingExists)
      else if newBinding.None? && at < 0 then NoDraft(BindingMissing)
      else
        var b := if newBinding.Some? then newBinding.value else m.bindings[at];
        if spec.bindingId != b.id then NoDraft(BindingMismatch)
        else if !vaultOk then NoDraft(VaultUpdateFailed)
        else if !Grantable(seen.vault, b.secretId) then NoDraft(TargetMissing)
        else
          var p := Loaded(seen.vault[Locate(seen.vault, RecordWithID(b.secretId))]).policy;
          Drafted(Draft(newBinding, b.secretId,
                        Grant(spec.id, spec.name, b.id, spec.client, spec.capabilities, components, false, now,
                              spec.expiresAt),
                        Intent(spec.id, b.id, b.secretId, spec.capabilities, p.resolve.allow, p.rotate.allow,
                               p.resolve.source, p.rotate.source, true, p.adminRevision, now)))
  }

  function StagePlan(s: Store, d: Draft): Planned {
    var m := Opened(s.meta);
    if !ValidFile(m) then Refuse(InvalidFile)
    else if d.newBinding.Some? && (Locate(m.bindings, BindingNamed(d.newBinding.value.name)) >= 0
                                   || Locate(m.bindings, BindingWithID(d.newBinding.value.id)) >= 0)
    then Refuse(BindingExists)
    else
      var at := Locate(m.bindings, BindingWithID(d.grant.bindingId));
      if d.newBinding.None? && (at < 0 || m.bindings[at].secretId != d.secretId) then Refuse(BindingChanged)
      else if Locate(m.grants, GrantWithID(d.grant.id)) >= 0 then Refuse(GrantExists)
      else Do(None, m.(bindings := if d.newBinding.Some? then m.bindings + [d.newBinding.value] else m.bindings,
                       grants := m.grants + [d.grant], pending := m.pending + [d.intent]))
  }

  /** The lookups a commit makes in the metadata. */
  datatype Clearance = Blocked(why: Failure) | Cleared(at: nat, target: string)

  function ClearCommit(m: MetaFile, id: string): (c: Clearance)
    ensures c.Cleared? ==> c.at < |m.grants|
  {
    var g, i := Locate(m.grants, GrantWithID(id)), Locate(m.pending, IntentFor(id));
    if g < 0 then Blocked(StagedGrantMissing)
    else if i < 0 then Blocked(IntentMissing)
    else
      var b := Locate(m.bindings, BindingWithID(m.grants[g].bindingId));
      if b < 0 || m.bindings[b].secretId != m.pending[i].secretId then Blocked(BindingChanged)
      else Cleared(g, m.bindings[b].secretId)
  }

  function Activated(m: MetaFile, at: nat, id: string): MetaFile
    requires at < |m.grants|
  {
    m.(grants := m.grants[at := m.grants[at].(enabled := true)], pending := Filter(m.pending, OtherIntent(id)))
  }

  function CommitPlan(s: Store, id: string): Planned {
    var m := Opened(s.meta);
    if !ValidFile(m) then Refuse(InvalidFile)
    else
      match ClearCommit(m, id)
      case Blocked(why) => Refuse(why)
      case Cleared(at, target) =>
        if !Grantable(s.vault, target) then Refuse(VaultUpdateFailed)
        else Do(Some(GrantEdit(target, m.grants[at].capabilities)), Activated(m, at, id))
  }

  function Withdrawn(m: MetaFile, id: string): MetaFile {
    m.(grants := Filter(m.grants, OtherGrant(id)), pending := Filter(m.pending, OtherIntent(id)))
  }

  function CancelPlan(s: Store, id: string): Planned {
    if id == "" then Nothing
    else if !ValidFile(Opened(s.meta)) then Refuse(InvalidFile)
    else Do(None, Withdrawn(Opened(s.meta), id))
  }

  /** The terminal interface's clean-up of approvals nobody finished. */
  function CleanupPlan(s: Store, cutoff: int): Planned {
    var m := Opened(s.meta);
    if !ValidFile(m) then Refuse(InvalidFile) else Do(None, Without(m, StaleIDs(m.grants, cutoff)))
  }

  /** The baseline used when one grant is rolled back. */
  function GrantBaseline(i: Intent): Baseline {
    IntentBaseline(i).(adminRevision := i.adminRevision)
  }

  function RollbackPlan(s: Store, id: string, now: int): Planned {
    var m := Opened(s.meta);
    if !ValidFile(m) then Refuse(InvalidFile)
    else
      var i := Locate(m.pending, IntentFor(id));
      if i < 0 then Refuse(BaselineMissing)
      else
        var sid := m.pending[i].secretId;
        Do(Some(RollbackEdit(sid, GrantBaseline(m.pending[i]), NeedOf(Withdrawn(m, id), now, sid))), Withdrawn(m, id))
  }

  function Settled(intents: seq<Intent>): Grant -> bool {
    (g: Grant) => g.enabled || forall i <- intents :: i.grantId != g.id
  }

  function RecoverPlan(s: Store, now: int): Planned {
    var m := Opened(s.meta);
    if !ValidFile(m) then Refuse(InvalidFile)
    else if m.pending == [] then Nothing
    else
      var m' := m.(grants := Filter(m.grants, Settled(m.pending)));
      Do(Some(RecoverEdit(m.pending, m', now)), m'.(pending := []))
  }

  /** The four callbacks of the common lifecycle owner. */
  datatype Mutation =
    | Revoking(id: string)
    | Expiring(at: int)
    | Rebinding(binding: string, newSecret: string, at: int)
    | Deleting(binding: string)

  function ChangeOf(m: MetaFile, mutation: Mutation): Option<Change> {
    match mutation
    case Revoking(id) => RevokeChange(m, id)
    case Expiring(at) => ExpireChange(m, at)
    case Rebinding(binding, newSecret, at) => RebindChange(m, binding, newSecret, at)
    case Deleting(binding) => DeleteChange(m, binding)
  }

  function LifecyclePlan(s: Store, mutation: Mutation, now: int): Planned {
    var m := Opened(s.meta);
    if mutation.Rebinding? && mutation.newSecret == "" then Refuse(NotFound)
    else if !ValidFile(m) then Refuse(InvalidFile)
    else
      match ChangeOf(m, mutation)
      case None => Refuse(NotFound)
      case Some(change) =>
        if change.affected == {} then Nothing
        else Do(Some(LifecycleEdit(change.affected, change.file, now)), change.file)
  }

  function AddBindingPlan(s: Store, b: Binding): Planned {
    var m := Opened(s.meta);
    if !ValidFile(m) then Refuse(InvalidFile)
    else if Locate(m.bindings, BindingNamed(b.name)) >= 0 then Refuse(BindingExists)
    else Do(None, m.(bindings := m.bindings + [b]))
  }

  // ---------------------------------------------------------------- whole calls

  function CancelRun(s: Store, id: string, io: IO): Run {
    Perform(s, CancelPlan(s, id), true, io)
  }

  function CleanupRun(s: Store, cutoff: int, io: IO): Run {
    Perform(s, CleanupPlan(s, cutoff), true, io)
  }

  /** Whether the approval context is still live at each of its checks. */
  datatype Context = Context(atEntry: bool, underLock: bool, afterPolicy: bool)

  /** What other processes make of the stores while the lock is free. */
  type Others = Store -> Store

  function Nobody(s: Store): Store { s }

  /** A call's own writes and errors, and the stores it leaves, when others may
      have acted in the middle of it. */
  datatype Outcome = Outcome(run: Run, after: Store)

  function Continue(s: Store, run: Run): Outcome { Outcome(run, Final(s, run)) }

  /** The draft is made from the stores as first read, without the lock; it is
      recorded in the stores as they are when the lock is taken. */
  function StageOutcome(s: Store, others: Others, newBinding: Option<Binding>, bindingId: string, spec: GrantSpec,
                        components: seq<string>, ctx: Context, io: IO): Outcome {
    if !ctx.atEntry then Continue(s, Run([], [Cancelled]))
    else
      match DraftApproval(s, newBinding, bindingId, spec, components, io.vaultOk, io.now)
      case NoDraft(why) => Continue(s, Run([], [why]))
      case Drafted(d) =>
        var latest := others(s);
        Continue(latest, if ctx.underLock then Perform(latest, StagePlan(latest, d), true, io) else Run([], [Cancelled]))
  }

  function RollbackRun(s: Store, id: string, io: IO): Run {
    Perform(s, RollbackPlan(s, id, io.now), true, io)
  }

  function TransactRun(s: Store, id: string, ctx: Context, io: IO): Run {
    if !ValidFile(Opened(s.meta)) then Run([], [InvalidFile])
    else if !ctx.underLock then Run([], [Cancelled])
    else Perform(s, CommitPlan(s, id), ctx.afterPolicy, io)
  }

  function CommitRun(s: Store, id: string, ctx: Context, io: IO, cleanup: IO): Run {
    if !ctx.atEntry then
      var r := CancelRun(s, id, cleanup);
      Run(r.writes, [Cancelled] + r.failures)
    else
      var t := TransactRun(s, id, ctx, io);
      if t.failures == [] then t
      else
        var r := RollbackRun(Final(s, t), id, cleanup);
        Run(t.writes + r.writes, t.failures + r.failures)
  }

  /** The lock is released between the transaction and its roll-back. */
  function CommitOutcome(s: Store, id: string, ctx: Context, io: IO, others: Others, cleanup: IO): Outcome {
    if !ctx.atEntry || TransactRun(s, id, ctx, io).failures == [] then Continue(s, CommitRun(s, id, ctx, io, cleanup))
    else
      var t := TransactRun(s, id, ctx, io);
      var latest := others(Final(s, t));
      var r := RollbackRun(latest, id, cleanup);
      Outcome(Run(t.writes + r.writes, t.failures + r.failures), Final(latest, r))
  }

  /** When nobody else acts, the stores end as the call's own writes leave them. */
  lemma Undisturbed(s: Store, id: string, ctx: Context, io: IO, cleanup: IO)
    ensures CommitOutcome(s, id, ctx, io, Nobody, cleanup) == Continue(s, CommitRun(s, id, ctx, io, cleanup))
  {
    hide TransactRun, RollbackRun, CancelRun;
  }

  function RecoverRun(s: Store, io: IO): Run {
    Perform(s, RecoverPlan(s, io.now), true, io)
  }

  function LifecycleRun(s: Store, mutation: Mutation, io: IO): Run {
    Perform(s, LifecyclePlan(s, mutation, io.now), true, io)
  }

  function AddBindingRun(s: Store, b: Binding, io: IO): Run {
    Perform(s, AddBindingPlan(s, b), true, io)
  }

  // ---------------------------------------------------------------- the operations

  class Stores {
    var meta: MetaFile
    var vault: seq<SecretRecord>
    /** Every durable state written so far, one per completed write. */
    ghost var history: seq<Store>

    function Now(): Store
      reads this
    {
      Store(meta, vault)
    }

    twostate predicate Ran(run: Run)
      reads this
    {
      history == old(history) + run.writes && Now() == Final(old(Now()), run)
    }

    /** As `Ran`, with other processes acting in the middle. */
    twostate predicate Left(o: Outcome)
      reads this
    {
      history == old(history) + o.run.writes && Now() == o.after
    }

    /** The lock is free and other processes act. */
    method Yield(others: Others)
      modifies this`meta, this`vault
      ensures Now() == others(old(Now()))
    {
      var latest := others(Now());
      meta, vault := latest.meta, latest.vault;
    }

    method LoadBrokerFile() returns (ok: bool, f: BrokerFile)
      ensures fresh(f) && f.Value() == Opened(meta)
      ensures ok <==> ValidFile(Opened(meta))
    {
      f := new BrokerFile(meta);
      if f.version == 0 {
        f.version := 1;
      }
      ok := f.Validate();
    }

    method SaveBrokerFile(f: BrokerFile, io: IO) returns (ok: bool)
      requires f.version != 0
      modifies this, f
      ensures ok <==> io.saveOk && ValidFile(old(f.Value()))
      ensures ok ==> Ran(Run([Now()], [])) && meta == Saved(old(f.Value())) && vault == old(vault)
      ensures !ok ==> Ran(Run([], []))
    {
      ok := f.Validate();
      if !ok {
        return;
      }
      f.revision := (f.revision + 1) % UINT64_RANGE;
      ok := io.saveOk;
      if ok {
        meta := f.Value();
        history := history + [Now()];
      }
    }

    /** Replaces the vault file by what is in memory, normalised. */
    method WriteVault(v: Vault)
      modifies this, v
      ensures |vault| == |old(v.keys)| && forall i :: 0 <= i < |vault| ==> vault[i] == Stored(old(v.keys)[i])
      ensures meta == old(meta) && history == old(history) + [Now()]
    {
      v.NormalizeAll();
      vault := v.keys;
      history := history + [Now()];
    }

    /** Draft without the lock, then record under it. */
    method StageApproval(newBinding: Option<Binding>, bindingID: string, spec: GrantSpec, components: seq<string>,
                         ctx: Context, io: IO, others: Others) returns (failures: seq<Failure>)
      requires newBinding.Some? ==> bindingID == newBinding.value.id
      modifies this
      ensures var o := StageOutcome(old(Now()), others, newBinding, bindingID, spec, components, ctx, io);
              Left(o) && failures == o.run.failures
    {
      hide DraftApproval, StagePlan, Perform;
      if !ctx.atEntry {
        return [Cancelled];
      }
      var drafted := WorkOut(newBinding, bindingID, spec, components, io);
      if drafted.NoDraft? {
        return [drafted.why];
      }
      Yield(others);
      if !ctx.underLock {
        return [Cancelled];
      }
      failures := RecordApproval(drafted.draft, io);
    }

    /** The unlocked half of staging: one read of each store. */
    method WorkOut(newBinding: Option<Binding>, bindingID: string, spec: GrantSpec, components: seq<string>, io: IO)
      returns (r: Drafted)
      requires newBinding.Some? ==> bindingID == newBinding.value.id
      ensures r == DraftApproval(Now(), newBinding, bindingID, spec, components, io.vaultOk, io.now)
    {
      hide ValidFile;
      var ok, f := LoadBrokerFile();
      if !ok {
        return NoDraft(InvalidFile);
      }
      var binding: Binding;
      if newBinding.Some? {
        var named := f.FindBinding(newBinding.value.name);
        var same := f.FindBindingByID(newBinding.value.id);
        if named >= 0 || same >= 0 {
          return NoDraft(BindingExists);
        }
        binding := newBinding.value;
      } else {
        var at := f.FindBindingByID(bindingID);
        if at < 0 {
          return NoDraft(BindingMissing);
        }
        binding := f.bindings[at];
      }
      if spec.bindingId != binding.id {
        return NoDraft(BindingMismatch);
      }
      if !io.vaultOk {
        return NoDraft(VaultUpdateFailed);
      }
      var v := new Vault(vault);
      var rec := v.Get(binding.secretId);
      LoadedKeepsIDs(vault, binding.secretId);
      if rec < 0 || v.keys[rec].archived {
        return NoDraft(TargetMissing);
      }
      var p := v.keys[rec].policy;
      var grant := Grant(spec.id, spec.name, binding.id, spec.client, spec.capabilities, components, false, io.now,
                         spec.expiresAt);
      var intent := Intent(grant.id, binding.id, binding.secretId, spec.capabilities, p.resolve.allow, p.rotate.allow,
                           p.resolve.source, p.rotate.source, true, p.adminRevision, io.now);
      return Drafted(Draft(newBinding, binding.secretId, grant, intent));
    }

    /** The locked half of staging. */
    method RecordApproval(d: Draft, io: IO) returns (failures: seq<Failure>)
      modifies this
      ensures var run := Perform(old(Now()), StagePlan(old(Now()), d), true, io);
              Ran(run) && failures == run.failures
    {
      var ok, f := LoadBrokerFile();
      if !ok {
        return [InvalidFile];
      }
      if d.newBinding.Some? {
        var named := f.FindBinding(d.newBinding.value.name);
        var same := f.FindBindingByID(d.newBinding.value.id);
        if named >= 0 || same >= 0 {
          return [BindingExists];
        }
        f.bindings := f.bindings + [d.newBinding.value];
      } else {
        var at := f.FindBindingByID(d.grant.bindingId);
        if at < 0 || f.bindings[at].secretId != d.secretId {
          return [BindingChanged];
        }
      }
      var existing := f.FindGrantByID(d.grant.id);
      if existing >= 0 {
        return [GrantExists];
      }
      f.grants := f.grants + [d.grant];
      f.pending := f.pending + [d.intent];
      var saved := SaveBrokerFile(f, io);
      return if saved then [] else [SaveFailed];
    }

    method CancelStagedApproval(id: string, io: IO) returns (failures: seq<Failure>)
      modifies this
      ensures vault == old(vault)
      ensures var run := CancelRun(old(Now()), id, io);
              Ran(run) && failures == run.failures
    {
      if id == "" {
        return [];
      }
      var ok, f := LoadBrokerFile();
      if !ok {
        return [InvalidFile];
      }
      f.RemoveGrant(id);
      f.RemoveIntent(id);
      var saved := SaveBrokerFile(f, io);
      return if saved then [] else [SaveFailed];
    }

    method CleanupStaleStagedAccess(cutoff: int, io: IO) returns (failures: seq<Failure>)
      modifies this
      ensures vault == old(vault)
      ensures var run := CleanupRun(old(Now()), cutoff, io);
              Ran(run) && failures == run.failures
    {
      hide ValidFile;
      var ok, f := LoadBrokerFile();
      if !ok {
        return [InvalidFile];
      }
      OpenedVersion(meta);
      f.RemoveStale(cutoff);
      var saved := SaveBrokerFile(f, io);
      return if saved then [] else [SaveFailed];
    }

    method CheckCommit(f: BrokerFile, id: string) returns (c: Clearance)
      ensures c == ClearCommit(f.Value(), id)
    {
      var g := f.FindGrantByID(id);
      if g < 0 {
        return Blocked(StagedGrantMissing);
      }
      var i := f.FindIntentByGrantID(id);
      if i < 0 {
        return Blocked(IntentMissing);
      }
      var b := f.FindBindingByID(f.grants[g].bindingId);
      if b < 0 || f.bindings[b].secretId != f.pending[i].secretId {
        return Blocked(BindingChanged);
      }
      return Cleared(g, f.bindings[b].secretId);
    }

    /** One vault transaction: load, grant, normalise, write. */
    method GrantInVault(target: string, caps: seq<Capability>, io: IO) returns (ok: bool)
      requires UniqueIDs(vault) && AllKnown(caps)
      modifies this
      ensures UniqueIDs(vault) && meta == old(meta)
      ensures ok <==> io.vaultOk && Grantable(old(vault), target)
      ensures ok ==> vault == WrittenAll(old(vault), GrantEdit(target, caps)) && history == old(history) + [Now()]
      ensures !ok ==> vault == old(vault) && history == old(history)
    {
      if !io.vaultOk {
        return false;
      }
      LoadedKeepsIDs(vault, target);
      var v := new Vault(vault);
      ok := v.ApplyGrant(target, caps);
      if ok {
        WriteVault(v);
        assert vault == WrittenAll(old(vault), GrantEdit(target, caps));
      }
    }

    /** The transaction of a commit: policy first, then the metadata. */
    method TransactCommit(id: string, ctx: Context, io: IO) returns (failures: seq<Failure>)
      requires UniqueIDs(vault)
      modifies this
      ensures UniqueIDs(vault)
      ensures var run := TransactRun(old(Now()), id, ctx, io);
              Ran(run) && failures == run.failures
    {
      hide ValidFile, WrittenAll, ClearCommit, Grantable;
      var loaded, f := LoadBrokerFile();
      if !loaded {
        return [InvalidFile];
      }
      if !ctx.underLock {
        return [Cancelled];
      }
      var c := CheckCommit(f, id);
      if c.Blocked? {
        return [c.why];
      }
      ValidFacts(f.Value());
      var granted := GrantInVault(c.target, f.grants[c.at].capabilities, io);
      if !granted {
        return [VaultUpdateFailed];
      }
      if !ctx.afterPolicy {
        return [Cancelled];
      }
      f.grants := f.grants[c.at := f.grants[c.at].(enabled := true)];
      f.RemoveIntent(id);
      assert f.Value() == Activated(Opened(old(meta)), c.at, id);
      var saved := SaveBrokerFile(f, io);
      return if saved then [] else [SaveFailed];
    }

    method RollbackInVault(target: string, base: Baseline, need: Need, io: IO) returns (ok: bool)
      requires UniqueIDs(vault)
      modifies this
      ensures UniqueIDs(vault) && meta == old(meta)
      ensures ok == io.vaultOk
      ensures ok ==> vault == WrittenAll(old(vault), RollbackEdit(target, base, need)) && history == old(history) + [Now()]
      ensures !ok ==> vault == old(vault) && history == old(history)
    {
      ok := io.vaultOk;
      if ok {
        LoadedKeepsIDs(vault, target);
        var v := new Vault(vault);
        v.Rollback(target, base, need);
        WriteVault(v);
        assert vault == WrittenAll(old(vault), RollbackEdit(target, base, need));
      }
    }

    /** Rolls one staged grant back and reconciles the record it named. */
    method RecoverApprovalGrant(id: string, io: IO) returns (failures: seq<Failure>)
      requires UniqueIDs(vault)
      modifies this
      ensures UniqueIDs(vault)
      ensures var run := RollbackRun(old(Now()), id, io);
              Ran(run) && failures == run.failures
    {
      hide ValidFile, WrittenAll, NeedOf, GrantBaseline, DistinctBindings, DistinctGrants, Filter;
      var loaded, f := LoadBrokerFile();
      if !loaded {
        return [InvalidFile];
      }
      ValidFacts(f.Value());
      var i := f.FindIntentByGrantID(id);
      if i < 0 {
        return [BaselineMissing];
      }
      var secretID, baseline := f.pending[i].secretId, GrantBaseline(f.pending[i]);
      f.RemoveGrant(id);
      f.RemoveIntent(id);
      assert f.Value() == Withdrawn(Opened(meta), id);
      var needs := f.RequiredBrokerPolicies(io.now);
      assert NeedIn(needs, secretID) == NeedOf(f.Value(), io.now, secretID);
      var reconciled := RollbackInVault(secretID, baseline, NeedIn(needs, secretID), io);
      if !reconciled {
        return [VaultUpdateFailed];
      }
      var saved := SaveBrokerFile(f, io);
      return if saved then [] else [SaveFailed];
    }

    method CommitApproval(id: string, ctx: Context, io: IO, others: Others, cleanup: IO) returns (failures: seq<Failure>)
      requires UniqueIDs(vault) && forall s: Store :: UniqueIDs(s.vault) ==> UniqueIDs(others(s).vault)
      modifies this
      ensures UniqueIDs(vault)
      ensures var o := CommitOutcome(old(Now()), id, ctx, io, others, cleanup);
              Left(o) && failures == o.run.failures
    {
      hide TransactRun, RollbackRun, CancelRun;
      if !ctx.atEntry {
        failures := CancelStagedApproval(id, cleanup);
        return [Cancelled] + failures;
      }
      failures := TransactCommit(id, ctx, io);
      if failures == [] {
        return;
      }
      Yield(others);
      var more := RecoverApprovalGrant(id, cleanup);
      failures := failures + more;
    }

    /** Drops the staged grants of every pending intent. */
    method DropUnsettled(f: BrokerFile)
      requires DistinctGrants(f.grants)
      modifies f`grants
      ensures f.grants == Filter(old(f.grants), Settled(f.pending))
    {
      ghost var before := f.grants;
      FilterAll(before, Settled(f.pending[..0]));
      for i := 0 to |f.pending|
        invariant f.grants == Filter(before, Settled(f.pending[..i]))
      {
        var id := f.pending[i].grantId;
        var at := f.FindGrantByID(id);
        DropStep(before, f.pending, i, at);
        if at < 0 || !f.grants[at].enabled {
          f.RemoveGrant(id);
        }
      }
      assert f.pending[..|f.pending|] == f.pending;
    }

    method RecoverInVault(baselines: map<string, Baseline>, needs: map<string, Need>,
                          ghost intents: seq<Intent>, ghost file: MetaFile, io: IO)
      requires UniqueIDs(vault) && Tallies(needs, file, io.now)
      requires forall sid :: (if sid in baselines then Some(baselines[sid]) else None) == BaselineOf(intents, sid)
      modifies this
      ensures UniqueIDs(vault) && meta == old(meta)
      ensures vault == WrittenAll(old(vault), RecoverEdit(intents, file, io.now)) && history == old(history) + [Now()]
    {
      var v := new Vault(vault);
      v.Recover(baselines, needs, intents, file, io.now);
      WriteVault(v);
      assert vault == WrittenAll(old(vault), RecoverEdit(intents, file, io.now));
    }

    /** Resolves every pending intent after a crash. */
    method RecoverPendingApprovals(io: IO) returns (failures: seq<Failure>)
      requires UniqueIDs(vault)
      modifies this
      ensures UniqueIDs(vault)
      ensures var run := RecoverRun(old(Now()), io);
              Ran(run) && failures == run.failures
    {
      hide ValidFile, WrittenAll, Needed, BaselineOf, Settled;
      var loaded, f := LoadBrokerFile();
      if !loaded {
        return [InvalidFile];
      }
      ValidFacts(f.Value());
      if f.pending == [] {
        return [];
      }
      DropUnsettled(f);
      var needs := f.RequiredBrokerPolicies(io.now);
      var baselines := f.ApprovalBaselines();
      if !io.vaultOk {
        return [VaultUpdateFailed];
      }
      RecoverInVault(baselines, needs, f.pending, f.Value(), io);
      f.pending := [];
      var saved := SaveBrokerFile(f, io);
      return if saved then [] else [SaveFailed];
    }

    method Mutate(f: BrokerFile, mutation: Mutation) returns (affected: Option<set<string>>)
      requires ValidFile(f.Value())
      modifies f
      ensures f.Outcome(ChangeOf(old(f.Value()), mutation), old(f.Value()), affected)
    {
      match mutation {
        case Revoking(id) => affected := f.Revoke(id);
        case Expiring(at) => affected := f.DisableExpired(at);
        case Rebinding(binding, newSecret, at) => affected := f.Rebind(binding, newSecret, at);
        case Deleting(binding) => affected := f.Delete(binding);
      }
    }

    method ReconcileInVault(affected: set<string>, needs: map<string, Need>, ghost file: MetaFile, io: IO)
      returns (ok: bool)
      requires UniqueIDs(vault) && Tallies(needs, file, io.now)
      modifies this
      ensures UniqueIDs(vault) && meta == old(meta)
      ensures ok == io.vaultOk
      ensures ok ==> vault == WrittenAll(old(vault), LifecycleEdit(affected, file, io.now))
                     && history == old(history) + [Now()]
      ensures !ok ==> vault == old(vault) && history == old(history)
    {
      ok := io.vaultOk;
      if ok {
        var v := new Vault(vault);
        v.ReconcileAffected(affected, needs, file, io.now);
        WriteVault(v);
        assert vault == WrittenAll(old(vault), LifecycleEdit(affected, file, io.now));
      }
    }

    /** The common owner of revoke, expire, rebind and delete. */
    method MutateBrokerPolicy(mutation: Mutation, io: IO) returns (failures: seq<Failure>)
      requires UniqueIDs(vault)
      modifies this
      ensures UniqueIDs(vault)
      ensures var run := LifecycleRun(old(Now()), mutation, io);
              Ran(run) && failures == run.failures
    {
      hide ValidFile, WrittenAll, NeedOf, ChangeOf;
      if mutation.Rebinding? && mutation.newSecret == "" {
        return [NotFound];
      }
      var loaded, f := LoadBrokerFile();
      if !loaded {
        return [InvalidFile];
      }
      var affected := Mutate(f, mutation);
      if affected.None? {
        return [NotFound];
      }
      if affected.value == {} {
        return [];
      }
      ChangeKeepsBindings(Opened(meta), mutation);
      var needs := f.RequiredBrokerPolicies(io.now);
      var reconciled := ReconcileInVault(affected.value, needs, f.Value(), io);
      if !reconciled {
        return [VaultUpdateFailed];
      }
      var saved := SaveBrokerFile(f, io);
      return if saved then [] else [SaveFailed];
    }

    method AddBinding(b: Binding, io: IO) returns (failures: seq<Failure>)
      modifies this
      ensures var run := AddBindingRun(old(Now()), b, io);
              Ran(run) && failures == run.failures
    {
      var loaded, f := LoadBrokerFile();
      if !loaded {
        return [InvalidFile];
      }
      var named := f.FindBinding(b.name);
      if named >= 0 {
        return [BindingExists];
      }
      f.bindings := f.bindings + [b];
      var saved := SaveBrokerFile(f, io);
      return if saved then [] else [SaveFailed];
    }
  }

  lemma OpenedVersion(m: MetaFile)
    ensures Opened(m).version != 0
  {
  }

  lemma ValidFacts(m: MetaFile)
    requires ValidFile(m)
    ensures DistinctBindings(m.bindings) && DistinctGrants(m.grants) && m.version != 0
    ensures forall b <- m.bindings :: b.secretId != ""
    ensures forall i :: 0 <= i < |m.grants| ==> AllKnown(m.grants[i].capabilities)
  {
    forall i | 0 <= i < |m.grants|
      ensures AllKnown(m.grants[i].capabilities)
    {
      assert m.grants[i] in m.grants;
    }
  }

  /** One intent of the recovery loop. */
  lemma DropStep(grants: seq<Grant>, pending: seq<Intent>, i: nat, at: int)
    requires DistinctGrants(grants) && i < |pending|
    requires var kept := Filter(grants, Settled(pending[..i]));
             at == Locate(kept, GrantWithID(pending[i].grantId))
    ensures var kept := Filter(grants, Settled(pending[..i]));
            Filter(grants, Settled(pending[..i + 1]))
            == if at < 0 || !kept[at].enabled then Filter(kept, OtherGrant(pending[i].grantId)) else kept
  {
    var id := pending[i].grantId;
    var before, after := Settled(pending[..i]), Settled(pending[..i + 1]);
    var kept := Filter(grants, before);
    assert pending[..i + 1] == pending[..i] + [pending[i]];
    assert forall g :: after(g) <==> before(g) && (g.enabled || g.id != id);
    var both := (g: Grant) => before(g) && g.id != id;
    FilterMembers(grants, before);
    FilterDistinct(grants, before, (g: Grant) => g.id);
    assert DistinctGrants(kept);
    assert at < 0 ==> forall g :: g in kept ==> !GrantWithID(id)(g);
    assert at >= 0 ==> kept[at] in kept;
    if at < 0 || !kept[at].enabled {
      forall g | g in grants
        ensures after(g) == both(g)
      {
        if before(g) && g.id == id {
          assert g in kept;
          var k :| 0 <= k < |kept| && kept[k] == g;
        }
      }
      FilterSame(grants, after, both);
      FilterFilter(grants, before, OtherGrant(id), both);
    } else {
      forall g | g in grants
        ensures after(g) == before(g)
      {
        if before(g) && g.id == id {
          assert g in kept;
          var k :| 0 <= k < |kept| && kept[k] == g;
          assert GrantWithID(id)(kept[k]);
        }
      }
      FilterSame(grants, after, before);
    }
  }

  /** A lifecycle change leaves binding ids distinct and targets non-empty. */
  lemma ChangeKeepsBindings(m: MetaFile, mutation: Mutation)
    requires ValidFile(m) && ChangeOf(m, mutation).Some?
    ensures var m' := ChangeOf(m, mutation).value.file;
            m'.version == 1 && DistinctBindings(m'.bindings) && forall b <- m'.bindings :: b.secretId != ""
  {
    match mutation {
      case Revoking(_) =>
      case Expiring(_) =>
      case Rebinding(binding, newSecret, at) =>
        var m' := ChangeOf(m, mutation).value.file;
        forall b | b in m'.bindings
          ensures b.secretId != ""
        {
          var k :| 0 <= k < |m'.bindings| && m'.bindings[k] == b;
          assert m.bindings[k] in m.bindings;
        }
      case Deleting(binding) =>
        var keep := OtherBinding(m.bindings[LocateBinding(m.bindings, binding)].id);
        FilterMembers(m.bindings, keep);
        FilterDistinct(m.bindings, keep, (b: Binding) => b.id);
        FilterDistinct(m.bindings, keep, (b: Binding) => b.name);
    }
  }

  lemma LoadedKeepsIDs(keys: seq<SecretRecord>, id: string)
    ensures UniqueIDs(LoadedAll(keys)) <==> UniqueIDs(keys)
    ensures Locate(LoadedAll(keys), RecordWithID(id)) == Locate(keys, RecordWithID(id))
  {
    var at := Locate(keys, RecordWithID(id));
    if at >= 0 {
      LocateFirst(LoadedAll(keys), RecordWithID(id), at);
    } else {
      assert forall i :: 0 <= i < |keys| ==> keys[i] in keys && !RecordWithID(id)(keys[i]);
      assert forall i :: 0 <= i < |keys| ==> !RecordWithID(id)(LoadedAll(keys)[i]);
    }
  }
}
