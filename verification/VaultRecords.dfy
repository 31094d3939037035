/** The decrypted vault: its records, the edits the broker makes to them, and
    the load / mutate / normalise / write cycle every vault change goes through. */
module VaultRecords {
  import opened Lists
  import opened BrokerPolicy
  import opened Metadata

  datatype NamedSecret = NamedSecret(key: string, envVar: string, secret: string)

  datatype SecretRecord = SecretRecord(id: string, kind: string, archived: bool, envVarHint: string, secret: string,
                                       extra: seq<NamedSecret>, updatedAt: int, rotatedAt: Option<int>,
                                       policy: Policy)

  /** Adding a record refuses an id that is already present. */
  predicate UniqueIDs(keys: seq<SecretRecord>) {
    forall i, j :: 0 <= i < j < |keys| ==> keys[i].id != keys[j].id
  }

  function RecordWithID(id: string): SecretRecord -> bool { (r: SecretRecord) => r.id == id }

  /** The mutations the broker and the administrator apply to the vault. */
  datatype Edit =
    | GrantEdit(target: string, caps: seq<Capability>)
    | RollbackEdit(target: string, base: Baseline, need: Need)
    | RecoverEdit(intents: seq<Intent>, file: MetaFile, now: int)
    | LifecycleEdit(affected: set<string>, file: MetaFile, now: int)
    | AdminEdit(target: string, resolve: bool, rotate: bool)
    | RotateEdit(target: string, value: string, now: int)

  function EditedPolicy(e: Edit, id: string, p: Policy): Policy {
    match e
    case GrantEdit(target, caps) => if id == target then Granted(p, caps) else p
    case RollbackEdit(target, base, need) => if id == target then Reconciled(p, base, need) else p
    case RecoverEdit(intents, file, now) =>
      (match BaselineOf(intents, id)
       case None => p
       case Some(base) => Reconciled(p, base, NeedOf(file, now, id)))
    case LifecycleEdit(affected, file, now) =>
      if id in affected then ReconciledCurrent(p, NeedOf(file, now, id)) else p
    case AdminEdit(target, resolve, rotate) =>
      if id == target then Marked(p, resolve, rotate).(version := 1) else p
    case RotateEdit(_, _, _) => p
  }

  function Edited(r: SecretRecord, e: Edit): SecretRecord {
    var r' := r.(policy := EditedPolicy(e, r.id, r.policy));
    if e.RotateEdit? && e.target == r.id
    then r'.(secret := e.value, updatedAt := e.now, rotatedAt := Some(e.now)) else r'
  }

  function Loaded(r: SecretRecord): SecretRecord {
    r.(kind := if r.kind == "" then "api_key" else r.kind, policy := Migrated(r.policy))
  }

  function Stored(r: SecretRecord): SecretRecord {
    r.(policy := Normalized(r.policy))
  }

  /** One record across a whole vault write. */
  function Written(r: SecretRecord, e: Edit): SecretRecord {
    Stored(Edited(Loaded(r), e))
  }

  function LoadedAll(keys: seq<SecretRecord>): (r: seq<SecretRecord>)
    ensures |r| == |keys| && forall i :: 0 <= i < |keys| ==> r[i] == Loaded(keys[i])
  {
    seq(|keys|, i requires 0 <= i < |keys| => Loaded(keys[i]))
  }

  function EditedAll(keys: seq<SecretRecord>, e: Edit): (r: seq<SecretRecord>)
    ensures |r| == |keys| && forall i :: 0 <= i < |keys| ==> r[i] == Edited(keys[i], e)
  {
    seq(|keys|, i requires 0 <= i < |keys| => Edited(keys[i], e))
  }

  function WrittenAll(keys: seq<SecretRecord>, e: Edit): (r: seq<SecretRecord>)
    ensures |r| == |keys| && forall i :: 0 <= i < |keys| ==> r[i] == Written(keys[i], e)
  {
    seq(|keys|, i requires 0 <= i < |keys| => Written(keys[i], e))
  }

  /** The vault in memory between load and save. */
  class Vault {
    var keys: seq<SecretRecord>

    constructor (file: seq<SecretRecord>)
      ensures keys == LoadedAll(file)
    {
      keys := file;
      new;
      for i := 0 to |keys|
        invariant |keys| == |file|
        invariant forall j :: 0 <= j < |file| ==> keys[j] == if j < i then Loaded(file[j]) else file[j]
      {
        if keys[i].kind == "" {
          keys := keys[i := keys[i].(kind := "api_key")];
        }
        if keys[i].policy.version == 0 {
          var legacyResolve, legacyRotate := keys[i].policy.resolve.allow, keys[i].policy.rotate.allow;
          var p := new SecretPolicy(Policy(1, Gate(false, NoSource, false), Gate(false, NoSource, false), 0, DEFAULT_EXPOSURE));
          if legacyResolve {
            p.allowBrokerResolve := true;
            p.brokerResolveSource := Administrative;
          }
          if legacyRotate {
            p.allowBrokerRotate := true;
            p.brokerRotateSource := Administrative;
          }
          keys := keys[i := keys[i].(policy := p.Value())];
        }
      }
    }

    method Get(id: string) returns (i: int)
      ensures i == Locate(keys, RecordWithID(id))
    {
      i := 0;
      while i < |keys|
        invariant 0 <= i <= |keys|
        invariant forall j :: 0 <= j < i ==> keys[j].id != id
      {
        if keys[i].id == id {
          LocateFirst(keys, RecordWithID(id), i);
          return;
        }
        i := i + 1;
      }
      i := -1;
    }

    /** Refuses a missing or archived target and an unknown capability. */
    method ApplyGrant(target: string, caps: seq<Capability>) returns (ok: bool)
      requires UniqueIDs(keys)
      modifies this
      ensures ok <==> Grantable(old(keys), target) && AllKnown(caps)
      ensures ok ==> keys == EditedAll(old(keys), GrantEdit(target, caps))
    {
      var at := Get(target);
      if at < 0 || keys[at].archived {
        return false;
      }
      var p := new SecretPolicy(keys[at].policy);
      ok := p.ApplyGrant(caps);
      if ok {
        keys := keys[at := keys[at].(policy := p.Value())];
      }
    }

    method Rollback(target: string, base: Baseline, need: Need)
      requires UniqueIDs(keys)
      modifies this
      ensures keys == EditedAll(old(keys), RollbackEdit(target, base, need))
    {
      var at := Get(target);
      if at < 0 {
        assert forall i :: 0 <= i < |keys| ==> keys[i] in keys && !RecordWithID(target)(keys[i]);
        assert keys == EditedAll(keys, RollbackEdit(target, base, need));
        return;
      }
      var p := new SecretPolicy(keys[at].policy);
      p.ReconcileForSecret(base, need);
      keys := keys[at := keys[at].(policy := p.Value())];
    }

    method Recover(baselines: map<string, Baseline>, needs: map<string, Need>,
                   ghost intents: seq<Intent>, ghost file: MetaFile, ghost now: int)
      requires Tallies(needs, file, now)
      requires forall sid :: (if sid in baselines then Some(baselines[sid]) else None) == BaselineOf(intents, sid)
      modifies this
      ensures keys == EditedAll(old(keys), RecoverEdit(intents, file, now))
    {
      ghost var e := RecoverEdit(intents, file, now);
      for i := 0 to |keys|
        invariant |keys| == |old(keys)|
        invariant forall j :: 0 <= j < |keys| ==> keys[j] == if j < i then Edited(old(keys)[j], e) else old(keys)[j]
      {
        var id := keys[i].id;
        assert BaselineOf(intents, id) == if id in baselines then Some(baselines[id]) else None;
        if id !in baselines {
          continue;
        }
        assert NeedIn(needs, id) == NeedOf(file, now, id);
        var p := new SecretPolicy(keys[i].policy);
        p.ReconcileForSecret(baselines[id], NeedIn(needs, id));
        keys := keys[i := keys[i].(policy := p.Value())];
      }
    }

    method ReconcileAffected(affected: set<string>, needs: map<string, Need>, ghost file: MetaFile, ghost now: int)
      requires Tallies(needs, file, now)
      modifies this
      ensures keys == EditedAll(old(keys), LifecycleEdit(affected, file, now))
    {
      ghost var e := LifecycleEdit(affected, file, now);
      for i := 0 to |keys|
        invariant |keys| == |old(keys)|
        invariant forall j :: 0 <= j < |keys| ==> keys[j] == if j < i then Edited(old(keys)[j], e) else old(keys)[j]
      {
        if keys[i].id !in affected {
          continue;
        }
        var p := new SecretPolicy(keys[i].policy);
        p.ReconcileCurrent(NeedIn(needs, keys[i].id));
        keys := keys[i := keys[i].(policy := p.Value())];
      }
    }

    method MarkAdministrative(target: string, resolve: bool, rotate: bool) returns (ok: bool)
      requires UniqueIDs(keys)
      modifies this
      ensures ok <==> Locate(old(keys), RecordWithID(target)) >= 0
      ensures ok ==> keys == EditedAll(old(keys), AdminEdit(target, resolve, rotate))
    {
      var at := Get(target);
      if at < 0 {
        return false;
      }
      var p := new SecretPolicy(keys[at].policy);
      p.MarkAdministrative(resolve, rotate);
      p.version := 1;
      keys := keys[at := keys[at].(policy := p.Value())];
      return true;
    }

    /** Replaces only the primary material of a usable, permitted record. */
    method Rotate(target: string, value: string, now: int) returns (ok: bool)
      requires UniqueIDs(keys)
      modifies this
      ensures ok <==> Usable(old(keys), target, Capability.Rotate)
      ensures ok ==> keys == EditedAll(old(keys), RotateEdit(target, value, now))
    {
      var at := Get(target);
      if at < 0 || keys[at].archived || !keys[at].policy.Permits(Capability.Rotate) {
        return false;
      }
      keys := keys[at := keys[at].(secret := value, updatedAt := now, rotatedAt := Some(now))];
      return true;
    }

    method NormalizeAll()
      modifies this
      ensures |keys| == |old(keys)| && forall i :: 0 <= i < |keys| ==> keys[i] == Stored(old(keys)[i])
    {
      for i := 0 to |keys|
        invariant |keys| == |old(keys)|
        invariant forall j :: 0 <= j < |keys| ==> keys[j] == if j < i then Stored(old(keys)[j]) else old(keys)[j]
      {
        var p := new SecretPolicy(keys[i].policy);
        p.NormalizeProvenance();
        keys := keys[i := keys[i].(policy := p.Value())];
      }
    }
  }

  /** A record a grant may be approved for. */
  predicate Grantable(keys: seq<SecretRecord>, target: string) {
    var at := Locate(keys, RecordWithID(target));
    at >= 0 && !keys[at].archived
  }

  /** A record the policy lets a peer use with capability `c`. */
  predicate Usable(keys: seq<SecretRecord>, target: string, c: Capability)
    requires c.Known()
  {
    var at := Locate(keys, RecordWithID(target));
    at >= 0 && !keys[at].archived && keys[at].policy.Permits(c)
  }

  /** The record with an id, wherever it stands. */
  function RecordOf(vault: seq<SecretRecord>, id: string): Option<SecretRecord> {
    var at := Locate(vault, RecordWithID(id));
    if at < 0 then None else Some(vault[at])
  }

  lemma RecordOfWritten(vault: seq<SecretRecord>, e: Edit, id: string)
    ensures RecordOf(WrittenAll(vault, e), id)
         == if RecordOf(vault, id).Some? then Some(Written(RecordOf(vault, id).value, e)) else None
  {
    hide EditedPolicy;
    var vault' := WrittenAll(vault, e);
    var at := Locate(vault, RecordWithID(id));
    if at >= 0 {
      LocateFirst(vault', RecordWithID(id), at);
    } else {
      assert forall k :: 0 <= k < |vault| ==> vault[k] in vault && !RecordWithID(id)(vault[k]);
      assert forall k :: 0 <= k < |vault'| ==> !RecordWithID(id)(vault'[k]);
    }
  }
}
