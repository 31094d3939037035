/** What stays and what moves over whole runs: the material of a record, and the
    revision of the metadata. */
module RunEffects {
  import opened Lists
  import opened BrokerPolicy
  import opened Metadata
  import opened VaultRecords
  import opened Approval
  import opened ApprovalSafety
  import opened ApprovalHistory
  import opened ApprovalRecovery

  /** What no approval, lifecycle change or administrative decision may touch:
      everything about a record but its kind, when it had none, and the broker
      half of its policy. */
  predicate SameMaterial(r: SecretRecord, r': SecretRecord) {
    && r' == r.(kind := r'.kind, policy := r'.policy) && (r.kind != "" ==> r'.kind == r.kind)
    && (r.policy.version != 0 ==> r'.policy.version != 0 && r'.policy.exposure == r.policy.exposure)
  }

  lemma WriteKeepsMaterial(r: SecretRecord, e: Edit)
    requires !(e.RotateEdit? && e.target == r.id)
    ensures SameMaterial(r, Written(r, e))
  {
    hide NeedOf, BaselineOf;
  }

  /** A record of policy version 0 is upgraded by the first write of the vault:
      revealing, the clipboard for 60 seconds, launching and refreshing are
      allowed, exporting is not, confirmation is required; a bit that was allowed
      counts as an administrator's, and no flag is set. */
  lemma LegacyUpgraded(r: SecretRecord, e: Edit, c: Capability)
    requires r.policy.version == 0 && e.RotateEdit? && c.Known()
    ensures var p := Written(r, e).policy;
            && p.version == 1 && p.adminRevision == 0
            && p.exposure == Exposure(true, true, false, true, true, true, true, 60)
            && p.Of(c) == Gate(r.policy.Of(c).allow, if r.policy.Of(c).allow then Administrative else NoSource, false)
  {
  }

  /** A step that is neither a rotation of the record nor another writer
      changing it. */
  predicate LeavesMaterial(m: Machine, e: Event, sid: string) {
    && (e.PeerRotate? ==> e.target != sid)
    && (e.OtherWrite? ==> RecordOf(e.vault, sid) == RecordOf(m.store.vault, sid))
  }

  lemma StepKeepsMaterial(m: Machine, e: Event, m': Machine, sid: string)
    requires Step(m, e, m') && LeavesMaterial(m, e, sid) && RecordOf(m.store.vault, sid).Some?
    ensures RecordOf(m'.store.vault, sid).Some?
            && SameMaterial(RecordOf(m.store.vault, sid).value, RecordOf(m'.store.vault, sid).value)
  {
    hide PlanOf, EditOf, Written, WrittenAll, SameMaterial;
    var r := RecordOf(m.store.vault, sid).value;
    assert r.id == sid;
    SameAsItself(r);
    if !e.OtherWrite? {
      StepWrites(m, e, m', sid);
      if EditOf(m, e).Some? {
        RotationsArePeers(m, e);
        WriteKeepsMaterial(r, EditOf(m, e).value);
      }
    }
  }

  lemma SameAsItself(r: SecretRecord)
    ensures SameMaterial(r, r)
  {
  }

  lemma RotationsArePeers(m: Machine, e: Event)
    ensures EditOf(m, e).Some? && EditOf(m, e).value.RotateEdit? ==> e.PeerRotate? && EditOf(m, e).value.target == e.target
  {
    hide ValidFile;
  }

  /** Over any run a record keeps its secret, its parts and everything else but
      the broker's policy, until a peer rotates it or another writer changes it. */
  lemma {:induction false} MaterialKept(ms: seq<Machine>, es: seq<Event>, i: nat, j: nat, sid: string)
    requires IsRun(ms, es) && i <= j < |ms| && RecordOf(ms[i].store.vault, sid).Some?
    requires forall k :: i <= k < j ==> LeavesMaterial(ms[k], es[k], sid)
    ensures RecordOf(ms[j].store.vault, sid).Some?
            && SameMaterial(RecordOf(ms[i].store.vault, sid).value, RecordOf(ms[j].store.vault, sid).value)
  {
    hide Initial, Step, RecordOf;
    if i < j {
      MaterialKept(ms, es, i, j - 1, sid);
      RunSteps(ms, es, j - 1);
      StepKeepsMaterial(ms[j - 1], es[j - 1], ms[j], sid);
    }
  }

  /** How often the metadata has been written. */
  function MetaWrites(es: seq<Event>, k: nat): nat
    requires k <= |es|
  {
    if k == 0 then 0 else MetaWrites(es, k - 1) + if es[k - 1].MetaPhase? then 1 else 0
  }

  lemma PlanKeepsRevision(s: Store, op: Op, now: int)
    requires PlanOf(s, op, now).Do?
    ensures PlanOf(s, op, now).file.revision == s.meta.revision
  {
    hide ValidFile;
  }

  /** The revision counts the metadata writes, modulo 2^64, so a file never
      changes without its revision moving. */
  lemma {:induction false} RevisionCounts(ms: seq<Machine>, es: seq<Event>, k: nat)
    requires IsRun(ms, es) && k < |ms|
    ensures ms[k].store.meta.revision == MetaWrites(es, k) % 0x1_0000_0000_0000_0000
    ensures ms[k].inflight.Some? ==> ms[k].inflight.value.file.revision == ms[k].store.meta.revision
  {
    hide PlanOf, Allowed, ValidFile;
    if k > 0 {
      RevisionCounts(ms, es, k - 1);
      RunSteps(ms, es, k - 1);
      var m, e := ms[k - 1], es[k - 1];
      if e.VaultPhase? {
        PlanKeepsRevision(m.store, e.op, e.now);
      }
    }
  }

  lemma RevisionMoves(ms: seq<Machine>, es: seq<Event>, k: nat)
    requires IsRun(ms, es) && k < |es|
    ensures ms[k + 1].store.meta != ms[k].store.meta <==> es[k].MetaPhase?
  {
    hide PlanOf, Allowed, ValidFile;
    RunSteps(ms, es, k);
    RevisionCounts(ms, es, k);
    RevisionCounts(ms, es, k + 1);
  }
}
