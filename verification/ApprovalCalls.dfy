/** The calls the program makes are runs of the transition system: every state
    they leave on disk keeps the two files linked. The one call that does not,
    cancelling a grant whose commit has already reached the vault, is shown with
    the exact condition under which it still does. */
module ApprovalCalls {
  import opened Lists
  import opened BrokerPolicy
  import opened Metadata
  import opened VaultRecords
  import opened Approval
  import opened ApprovalSafety

  /** A durable pair as recovery may find it after a crash. */
  ghost predicate Recoverable(s: Store, started: set<string>) {
    ValidFile(s.meta) && UniqueIDs(s.vault) && Paired(s.meta) && NoOrphan(s.meta, s.vault, started)
  }

  lemma MoreStarted(s: Store, started: set<string>, more: set<string>)
    requires Recoverable(s, started) && started <= more
    ensures Recoverable(s, more)
  {
  }

  /** At rest: no operation holds the lock. */
  ghost predicate AtRest(m: Machine) {
    Inv(m) && m.inflight.None?
  }

  /** One locked operation, whichever of its file accesses fail. */
  lemma OperationIsSteps(m: Machine, op: Op, live: bool, io: IO) returns (m': Machine)
    requires AtRest(m) && Allowed(m, op)
    ensures var run := Perform(m.store, PlanOf(m.store, op, io.now), live, io);
            && AtRest(m') && m'.store == Final(m.store, run)
            && m.started <= m'.started && m'.started <= m.started + (if op.Commit? then {op.id} else {})
            && m.used <= m'.used
            && forall w <- run.writes :: Recoverable(w, m'.started)
  {
    hide PlanOf, Linked, Allowed;
    var p := PlanOf(m.store, op, io.now);
    m' := m;
    if p.Do? {
      var mid := After(m, op, io.now);
      assert Step(m, VaultPhase(op, io.now), mid);
      StepKeepsInv(m, VaultPhase(op, io.now), mid);
      InvRecoverable(mid);
      var run := Perform(m.store, p, live, io);
      var saves := (p.edit.None? || (io.vaultOk && live)) && io.saveOk && ValidFile(p.file);
      if saves {
        m' := mid.(store := mid.store.(meta := Saved(p.file)), inflight := None);
        assert Step(mid, MetaPhase, m');
        StepKeepsInv(mid, MetaPhase, m');
      } else if p.edit.None? || io.vaultOk {
        m' := mid.(inflight := None);
        assert Step(mid, Abort, m');
        StepKeepsInv(mid, Abort, m');
      }
      InvRecoverable(m');
    }
  }

  lemma InvRecoverable(m: Machine)
    requires Inv(m)
    ensures Recoverable(m.store, m.started)
  {
  }

  /** What is left after a call, and that a crash anywhere in it is recoverable. */
  ghost predicate Safe(m: Machine, run: Run, m': Machine) {
    && AtRest(m') && m'.store == Final(m.store, run) && m.started <= m'.started
    && forall w <- run.writes :: Recoverable(w, m'.started)
  }

  /** Other processes acting while the lock is free: from any state at rest to
      another, in steps of their own. */
  ghost predicate Interleaves(env: Machine -> Machine, others: Others) {
    forall m :: AtRest(m) ==>
      AtRest(env(m)) && env(m).store == others(m.store) && m.started <= env(m).started
  }

  /** A whole commit: the transaction and, if it fails, its roll-back, whatever
      others do in between. Only the entry check, which cancels, needs the grant
      not to have been started. */
  lemma CommitCallSafe(m: Machine, id: string, ctx: Context, io: IO, others: Others, env: Machine -> Machine, cleanup: IO)
    returns (m': Machine)
    requires AtRest(m) && (ctx.atEntry || id !in m.started) && Interleaves(env, others)
    ensures var o := CommitOutcome(m.store, id, ctx, io, others, cleanup);
            && AtRest(m') && m'.store == o.after && m.started <= m'.started
            && forall w <- o.run.writes :: Recoverable(w, m'.started)
  {
    hide Perform, CommitPlan, RollbackPlan, CancelPlan, Recoverable, AtRest, ValidFile, TransactRun;
    if !ctx.atEntry {
      m' := OperationIsSteps(m, Cancel(id), true, cleanup);
    } else {
      var mid := TransactCallSafe(m, id, ctx, io);
      if TransactRun(m.store, id, ctx, io).failures == [] {
        m' := mid;
      } else {
        m' := RollbackCallSafe(mid, id, others, env, cleanup);
        forall w | w in TransactRun(m.store, id, ctx, io).writes
          ensures Recoverable(w, m'.started)
        {
          MoreStarted(w, mid.started, m'.started);
        }
      }
    }
  }

  /** The roll-back alone, after others have acted. */
  lemma RollbackCallSafe(mid: Machine, id: string, others: Others, env: Machine -> Machine, cleanup: IO) returns (m': Machine)
    requires AtRest(mid) && Interleaves(env, others)
    ensures var latest := others(mid.store);
            && AtRest(m') && m'.store == Final(latest, RollbackRun(latest, id, cleanup)) && mid.started <= m'.started
            && forall w <- RollbackRun(latest, id, cleanup).writes :: Recoverable(w, m'.started)
  {
    hide Perform, RollbackPlan, Recoverable, AtRest, ValidFile;
    var later := env(mid);
    m' := OperationIsSteps(later, Rollback(id), true, cleanup);
  }

  lemma TransactCallSafe(m: Machine, id: string, ctx: Context, io: IO) returns (m': Machine)
    requires AtRest(m)
    ensures Safe(m, TransactRun(m.store, id, ctx, io), m') && m'.started <= m.started + {id}
  {
    hide Perform, CommitPlan, Recoverable, Inv, ValidFile;
    if !ValidFile(Opened(m.store.meta)) || !ctx.underLock {
      m' := m;
    } else {
      m' := OperationIsSteps(m, Commit(id), ctx.afterPolicy, io);
    }
  }

  /** Every other call needs no hypothesis beyond fresh grant ids. */
  lemma OtherCallsSafe(m: Machine, op: Op, io: IO) returns (m': Machine)
    requires AtRest(m) && Allowed(m, op) && !op.Commit?
    ensures Safe(m, Perform(m.store, PlanOf(m.store, op, io.now), true, io), m') && m'.started == m.started
  {
    m' := OperationIsSteps(m, op, true, io);
  }

  // ---------------------------------------------------------------- cancelling too late

  /** Something other than the grants `ids` asks for the bit. */
  predicate OtherwiseExplained(f: MetaFile, started: set<string>, ids: set<string>, sid: string, c: Capability) {
    || (exists g <- f.grants :: g.id !in ids && g.enabled && c in g.capabilities && BoundTo(f.bindings, g.bindingId, sid))
    || (exists i <- f.pending :: i.grantId !in ids && i.grantId in started && i.secretId == sid && c in i.capabilities
                                 && BoundTo(f.bindings, i.bindingId, sid))
  }

  /** One of the grants `ids` asks for the bit, enabled or through its intent. */
  predicate AskedBy(f: MetaFile, started: set<string>, ids: set<string>, sid: string, c: Capability) {
    || (exists g <- f.grants :: g.id in ids && g.enabled && c in g.capabilities && BoundTo(f.bindings, g.bindingId, sid))
    || (exists i <- f.pending :: i.grantId in ids && i.grantId in started && i.secretId == sid && c in i.capabilities
                                 && BoundTo(f.bindings, i.bindingId, sid))
  }

  /** No bit that one of the grants asks for is grant-sourced without someone
      else asking for it too. */
  predicate Cancellable(f: MetaFile, vault: seq<SecretRecord>, started: set<string>, ids: set<string>) {
    forall r <- vault, c <- [Resolve, Rotate] ::
      GrantSourced(r, c) && AskedBy(f, started, ids, r.id, c) ==> OtherwiseExplained(f, started, ids, r.id, c)
  }

  lemma WithoutExplains(f: MetaFile, started: set<string>, ids: set<string>, sid: string, c: Capability)
    ensures Explained(Without(f, ids), started, sid, c) <==> OtherwiseExplained(f, started, ids, sid, c)
    ensures Explained(f, started, sid, c)
            <==> OtherwiseExplained(f, started, ids, sid, c) || AskedBy(f, started, ids, sid, c)
  {
    FilterMembers(f.grants, GrantOutside(ids));
    FilterMembers(f.pending, IntentOutside(ids));
    var f' := Without(f, ids);
    assert ByGrant(f', sid, c) <==> exists g <- f.grants ::
      g.id !in ids && g.enabled && c in g.capabilities && BoundTo(f.bindings, g.bindingId, sid);
    assert ByIntent(f', started, sid, c) <==> exists i <- f.pending ::
      i.grantId !in ids && i.grantId in started && i.secretId == sid && c in i.capabilities
      && BoundTo(f.bindings, i.bindingId, sid);
  }

  /** Dropping grants with their intents orphans no bit exactly when they are
      cancellable; cancelling drops one, cleaning up the stale ones. */
  lemma CancelExactly(f: MetaFile, vault: seq<SecretRecord>, started: set<string>, ids: set<string>)
    requires NoOrphan(f, vault, started)
    ensures NoOrphan(Without(f, ids), vault, started) <==> Cancellable(f, vault, started, ids)
  {
    hide Explained, OtherwiseExplained, AskedBy;
    forall k, c: Capability {:trigger GrantSourced(vault[k], c)}
      | 0 <= k < |vault| && c.Known() && GrantSourced(vault[k], c)
      ensures Explained(Without(f, ids), started, vault[k].id, c) <==> OtherwiseExplained(f, started, ids, vault[k].id, c)
      ensures OtherwiseExplained(f, started, ids, vault[k].id, c) || AskedBy(f, started, ids, vault[k].id, c)
    {
      WithoutExplains(f, started, ids, vault[k].id, c);
    }
  }

  /** Disabled grants whose commit never reached the vault are always cancellable. */
  lemma UnstartedIsCancellable(m: Machine, ids: set<string>)
    requires Inv(m)
    requires forall g <- m.store.meta.grants :: g.id in ids && g.enabled ==> g.id !in m.started
    requires forall i <- m.store.meta.pending :: i.grantId in ids ==> i.grantId !in m.started
    ensures Cancellable(m.store.meta, m.store.vault, m.started, ids)
  {
  }

  // ---------------------------------------------------------------- the same, from the files alone

  function IntentIDs(f: MetaFile): set<string> {
    set i <- f.pending :: i.grantId
  }

  /** A caller cannot see which commits were started, so on disk every pending
      intent counts: each grant-sourced bit has an enabled grant, or some
      pending intent, that asks for it on that record. */
  ghost predicate LinkedOnDisk(s: Store) {
    NoOrphan(s.meta, s.vault, IntentIDs(s.meta))
  }

  lemma RecoverableIsLinkedOnDisk(s: Store, started: set<string>)
    requires Recoverable(s, started)
    ensures LinkedOnDisk(s)
  {
    forall k, c: Capability {:trigger GrantSourced(s.vault[k], c)}
      | 0 <= k < |s.vault| && c.Known() && GrantSourced(s.vault[k], c)
      ensures Explained(s.meta, IntentIDs(s.meta), s.vault[k].id, c)
    {
      assert ByIntent(s.meta, started, s.vault[k].id, c) ==> ByIntent(s.meta, IntentIDs(s.meta), s.vault[k].id, c);
    }
  }

  /** What a caller can look up in the two files before dropping grants: no
      allow that one of them may have caused is left without another enabled
      grant or pending intent on the record. */
  predicate Droppable(s: Store, ids: set<string>) {
    Cancellable(s.meta, s.vault, IntentIDs(s.meta), ids)
  }

  /** Intents that are gone no longer count. */
  lemma RemainingIntents(f: MetaFile, ids: set<string>, vault: seq<SecretRecord>)
    ensures NoOrphan(Without(f, ids), vault, IntentIDs(Without(f, ids)))
            <==> NoOrphan(Without(f, ids), vault, IntentIDs(f))
  {
    hide GrantSourced;
    var f' := Without(f, ids);
    FilterMembers(f.pending, IntentOutside(ids));
    forall sid, c: Capability
      ensures ByIntent(f', IntentIDs(f'), sid, c) <==> ByIntent(f', IntentIDs(f), sid, c)
    {
    }
  }

  /** Whether one of the dropping operations reaches its write. */
  predicate Drops(s: Store, io: IO) {
    ValidFile(Opened(s.meta)) && io.saveOk
  }

  lemma SameLists(f: MetaFile, g: MetaFile, vault: seq<SecretRecord>, started: set<string>)
    requires f.bindings == g.bindings && f.grants == g.grants && f.pending == g.pending
    ensures NoOrphan(f, vault, started) <==> NoOrphan(g, vault, started)
  {
    hide BoundTo, GrantSourced;
  }

  lemma DropExactly(s: Store, ids: set<string>, p: Planned, io: IO)
    requires LinkedOnDisk(s)
    requires p == if ValidFile(Opened(s.meta)) then Do(None, Without(Opened(s.meta), ids)) else Refuse(InvalidFile)
    ensures LinkedOnDisk(Final(s, Perform(s, p, true, io))) <==> (Drops(s, io) ==> Droppable(s, ids))
  {
    hide NoOrphan, Cancellable, ValidFile, Without;
    if Drops(s, io) {
      var m := Opened(s.meta);
      WithoutValid(m, ids);
      DroppedLists(s.meta, ids);
      SameLists(Saved(Without(m, ids)), Without(s.meta, ids), s.vault, IntentIDs(Without(s.meta, ids)));
      RemainingIntents(s.meta, ids, s.vault);
      CancelExactly(s.meta, s.vault, IntentIDs(s.meta), ids);
    }
  }

  lemma DroppedLists(f: MetaFile, ids: set<string>)
    ensures var dropped, saved := Without(f, ids), Saved(Without(Opened(f), ids));
            saved.bindings == dropped.bindings && saved.grants == dropped.grants && saved.pending == dropped.pending
  {
  }

  /** A cancel, a commit whose context is dead on entry, and the clean-up of
      stale approvals keep the two files linked if and only if they do not reach
      their write or what they drop is droppable. */
  lemma CancelCallExactly(s: Store, id: string, io: IO)
    requires LinkedOnDisk(s)
    ensures LinkedOnDisk(Final(s, CancelRun(s, id, io))) <==> (id != "" && Drops(s, io) ==> Droppable(s, {id}))
  {
    hide LinkedOnDisk, Droppable, Without, Withdrawn, ValidFile;
    WithdrawnIsWithout(Opened(s.meta), id);
    if id != "" {
      DropExactly(s, {id}, CancelPlan(s, id), io);
    }
  }

  lemma DeadCommitExactly(s: Store, id: string, ctx: Context, io: IO, cleanup: IO)
    requires LinkedOnDisk(s) && !ctx.atEntry
    ensures LinkedOnDisk(Final(s, CommitRun(s, id, ctx, io, cleanup)))
            <==> (id != "" && Drops(s, cleanup) ==> Droppable(s, {id}))
  {
    hide LinkedOnDisk, Droppable, CancelPlan, Perform;
    CancelCallExactly(s, id, cleanup);
  }

  lemma CleanupCallExactly(s: Store, cutoff: int, io: IO)
    requires LinkedOnDisk(s)
    ensures LinkedOnDisk(Final(s, CleanupRun(s, cutoff, io)))
            <==> (Drops(s, io) ==> Droppable(s, StaleIDs(s.meta.grants, cutoff)))
  {
    hide LinkedOnDisk, Droppable, Without, Perform, ValidFile;
    DropExactly(s, StaleIDs(s.meta.grants, cutoff), CleanupPlan(s, cutoff), io);
  }

  const LATE_CLIENT := Client(0, Executable("/usr/bin/app", false), "", ScopeUnset, false)

  const LATE_GRANT := Grant("g", "app", "b", LATE_CLIENT, [Resolve], [], true, 1, None)

  const LATE_META := MetaFile(1, 1, [Binding("b", "db", "s", [], "", 1, 1)], [LATE_GRANT], [])

  const LATE_RECORD := SecretRecord("s", "api_key", false, "", "x", [], 1, None,
    Policy(1, Gate(true, FromGrant, false), Gate(false, NoSource, false), 0, DEFAULT_EXPOSURE))

  lemma LateStoreLinked()
    ensures Recoverable(Store(LATE_META, [LATE_RECORD]), {"g"})
  {
  }

  lemma LateWithdrawn()
    requires ValidFile(LATE_META)
    ensures Withdrawn(LATE_META, "g") == LATE_META.(grants := []) && ValidFile(LATE_META.(grants := []))
    ensures !Explained(Saved(LATE_META.(grants := [])), {"g"}, "s", Resolve)
  {
  }

  /** Committing an already committed grant with a dead context on entry cancels
      it, and the record keeps a grant-sourced allow that nothing explains. */
  lemma LateCancelOrphans(io: IO, cleanup: IO)
    requires cleanup.saveOk
    ensures var s := Store(LATE_META, [LATE_RECORD]);
            var after := Final(s, CommitRun(s, "g", Context(false, false, false), io, cleanup));
            && Recoverable(s, {"g"}) && !Recoverable(after, {"g"}) && LinkedOnDisk(s) && !LinkedOnDisk(after)
            && after.vault[0].policy.Permits(Resolve) && after.meta.grants == []
  {
    hide Withdrawn, Explained, ValidBinding, ValidGrant, Paired, LinkedOnDisk;
    LateStoreLinked();
    LateWithdrawn();
    var s := Store(LATE_META, [LATE_RECORD]);
    RecoverableIsLinkedOnDisk(s, {"g"});
    var after := Final(s, CommitRun(s, "g", Context(false, false, false), io, cleanup));
    assert after.meta == Saved(LATE_META.(grants := []));
    assert GrantSourced(after.vault[0], Resolve);
    NothingLeftOrphans(after);
  }

  lemma NothingLeftOrphans(s: Store)
    requires s.meta.grants == [] && s.meta.pending == [] && |s.vault| > 0 && GrantSourced(s.vault[0], Resolve)
    ensures !LinkedOnDisk(s)
  {
    assert !Explained(s.meta, IntentIDs(s.meta), s.vault[0].id, Resolve);
  }

  const CRASHED_META := LATE_META.(grants := [LATE_GRANT.(enabled := false)],
    pending := [Intent("g", "b", "s", [Resolve], false, false, NoSource, NoSource, true, 0, 1)])

  lemma CrashedStoreLinked()
    ensures Recoverable(Store(CRASHED_META, [LATE_RECORD]), {"g"})
    ensures ValidFile(CRASHED_META)
  {
    assert Announces(CRASHED_META.pending[0], CRASHED_META.grants[0]);
    assert CRASHED_META.pending[0] in CRASHED_META.pending;
    assert ByIntent(CRASHED_META, {"g"}, "s", Resolve);
  }

  lemma CrashedWithout(cutoff: int)
    requires cutoff > 1
    ensures StaleIDs(CRASHED_META.grants, cutoff) == {"g"}
    ensures Without(CRASHED_META, {"g"}) == LATE_META.(grants := [], pending := [])
  {
    assert CRASHED_META.grants[0] in CRASHED_META.grants;
    assert Stale(cutoff)(CRASHED_META.grants[0]);
  }

  /** After a crash between a commit's two writes, cleaning up the stale grant
      drops the intent that recovery would have rolled back, with the same result. */
  lemma StaleCleanupOrphans(cutoff: int, io: IO)
    requires cutoff > 1 && io.saveOk
    ensures var s := Store(CRASHED_META, [LATE_RECORD]);
            var after := Final(s, CleanupRun(s, cutoff, io));
            && Recoverable(s, {"g"}) && LinkedOnDisk(s) && !LinkedOnDisk(after)
            && after.vault[0].policy.Permits(Resolve) && after.meta.grants == [] && after.meta.pending == []
  {
    hide Without, StaleIDs, Explained, LinkedOnDisk, ValidFile;
    CrashedStoreLinked();
    CrashedWithout(cutoff);
    var s := Store(CRASHED_META, [LATE_RECORD]);
    RecoverableIsLinkedOnDisk(s, {"g"});
    WithoutValid(CRASHED_META, {"g"});
    var after := Final(s, CleanupRun(s, cutoff, io));
    assert after.meta == Saved(LATE_META.(grants := [], pending := []));
    NothingLeftOrphans(after);
  }
}
